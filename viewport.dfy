/**
 * The "cylinder" behaviour of the map view.
 *
 * When the user stops panning, the editor reads the centre of the view, clamps
 * its latitude to the band the Web Mercator tiles cover and brings its longitude
 * back into one turn of the globe by repeated steps of 360 degrees. If either
 * value changed, the view is moved there without animation.
 */
module Viewport {

  /** Largest latitude, in degrees, the view centre may have. */
  const MaxLat: real := 85.0

  /** Largest longitude, in degrees, the view centre keeps unchanged. */
  const MaxLng: real := 180.0

  /** One turn of the globe, in degrees. */
  const Turn: real := 360.0

  /** `d` is a whole number of turns. */
  predicate WholeTurns(d: real) {
    (d / Turn).Floor as real == d / Turn
  }

  /** The latitude clamped to [-MaxLat, MaxLat]. */
  function ClampLat(lat: real): (r: real)
    ensures -MaxLat <= r <= MaxLat
    ensures -MaxLat <= lat <= MaxLat ==> r == lat
    ensures lat > MaxLat ==> r == MaxLat
    ensures lat < -MaxLat ==> r == -MaxLat
  {
    var upper := if MaxLat < lat then MaxLat else lat;
    if -MaxLat > upper then -MaxLat else upper
  }

  /** The two `while` loops that step the longitude by whole turns. */
  method WrapLng(lng: real) returns (r: real)
    ensures -MaxLng <= r <= MaxLng
    ensures WholeTurns(r - lng)
    ensures -MaxLng <= lng <= MaxLng ==> r == lng
    ensures lng > MaxLng ==> r > -MaxLng
    ensures lng < -MaxLng ==> r < MaxLng
  {
    r := lng;
    ghost var turns: int := 0;
    while r > MaxLng
      invariant r == lng + Turn * turns as real
      invariant turns <= 0
      invariant lng > MaxLng ==> r > -MaxLng
      invariant lng <= MaxLng ==> r == lng
      decreases r.Floor
    {
      r := r - Turn;
      turns := turns - 1;
    }
    while r < -MaxLng
      invariant r == lng + Turn * turns as real
      invariant r <= MaxLng
      invariant lng > MaxLng ==> turns <= 0 && r > -MaxLng
      invariant lng < -MaxLng ==> r < MaxLng
      invariant -MaxLng <= lng <= MaxLng ==> r == lng
      decreases (-r).Floor
    {
      r := r + Turn;
      turns := turns + 1;
    }
    assert (r - lng) / Turn == turns as real;
  }

  /** The `moveend` handler: the centre to show and whether a pan to it is issued. */
  method NormalizeCenter(lat: real, lng: real) returns (newLat: real, newLng: real, pan: bool)
    ensures -MaxLat <= newLat <= MaxLat && -MaxLng <= newLng <= MaxLng
    ensures newLat == ClampLat(lat)
    ensures -MaxLat <= lat <= MaxLat ==> newLat == lat
    ensures WholeTurns(newLng - lng)
    ensures -MaxLng <= lng <= MaxLng ==> newLng == lng
    ensures lng > MaxLng ==> newLng > -MaxLng
    ensures lng < -MaxLng ==> newLng < MaxLng
    ensures pan <==> !(-MaxLat <= lat <= MaxLat && -MaxLng <= lng <= MaxLng)
  {
    newLat := ClampLat(lat);
    newLng := WrapLng(lng);
    pan := newLat != lat || newLng != lng;
  }

  /** Less than a turn apart and whole turns apart means equal. Two results of WrapLng for
      one longitude above the range both lie in (-180, 180], below it both in [-180, 180):
      so WrapLng's contract leaves exactly one result for every longitude. */
  lemma WrapIsUnique(a: real, b: real)
    requires -Turn < a - b < Turn
    requires WholeTurns(a - b)
    ensures a == b
  {
    var q := (a - b) / Turn;
    assert -1.0 < q < 1.0;
    assert q.Floor == 0;
  }
}
