/**
 * The coordinate helpers of the shape transforms.
 *
 * Leaflet stores the vertices of a polyline or polygon as nested arrays of
 * coordinates (one array per ring, an array of rings for a polygon with holes,
 * and so on). `mapLatLngs` rebuilds such a structure with a function applied to
 * every coordinate; `deepCloneLatLngs` copies it into fresh coordinate objects,
 * so that a gesture can keep an untouched origin to recompute from.
 */
module LatLngs {
  import opened Wrappers

  /** A Leaflet coordinate; the altitude is optional. */
  datatype LatLng = LatLng(lat: real, lng: real, alt: Option<real>)

  /** A coordinate, or an array whose items are again nested coordinates. */
  datatype Nested<T> = Leaf(value: T) | Node(items: seq<Nested<T>>)

  /** The two structures nest alike: leaves face leaves, and arrays face arrays of the same length. */
  predicate SameShape<T, U>(a: Nested<T>, b: Nested<U>)
    decreases a
  {
    match a
    case Leaf(_) => b.Leaf?
    case Node(xs) =>
      b.Node? && |xs| == |b.items| &&
      forall i :: 0 <= i < |xs| ==> SameShape(xs[i], b.items[i])
  }

  /** The coordinates of a structure, in array order. */
  function Leaves<T>(n: Nested<T>): seq<T>
    decreases n
  {
    match n
    case Leaf(v) => [v]
    case Node(items) => LeavesOf(items)
  }

  function LeavesOf<T>(items: seq<Nested<T>>): seq<T>
    decreases items
  {
    if items == [] then [] else Leaves(items[0]) + LeavesOf(items[1..])
  }

  /** `f` applied to every element of a flat sequence. */
  function Apply<T, U>(s: seq<T>, f: T -> U): (r: seq<U>)
  {
    seq(|s|, i requires 0 <= i < |s| => f(s[i]))
  }

  // ---------------------------------------------------------------------------
  // mapLatLngs
  // ---------------------------------------------------------------------------

  function MapLatLngs<T, U>(n: Nested<T>, f: T -> U): (r: Nested<U>)
    ensures SameShape(n, r)
    decreases n
  {
    match n
    case Leaf(v) => Leaf(f(v))
    case Node(items) => Node(MapItems(items, f))
  }

  /** The array step of MapLatLngs: each item mapped in place. */
  function MapItems<T, U>(items: seq<Nested<T>>, f: T -> U): (r: seq<Nested<U>>)
    ensures |r| == |items|
    ensures forall i :: 0 <= i < |items| ==> SameShape(items[i], r[i])
    decreases items
  {
    seq(|items|, i requires 0 <= i < |items| => MapLatLngs(items[i], f))
  }

  /** MapLatLngs applies `f` exactly once to every coordinate, in order, and to nothing else. */
  lemma {:induction false} MapLatLngsLeaves<T, U>(n: Nested<T>, f: T -> U)
    ensures Leaves(MapLatLngs(n, f)) == Apply(Leaves(n), f)
    decreases n
  {
    match n
    case Leaf(v) =>
    case Node(items) => MapItemsLeaves(items, f);
  }

  lemma {:induction false} MapItemsLeaves<T, U>(items: seq<Nested<T>>, f: T -> U)
    ensures LeavesOf(MapItems(items, f)) == Apply(LeavesOf(items), f)
    decreases items
  {
    if items != [] {
      var mapped := MapItems(items, f);
      assert mapped[0] == MapLatLngs(items[0], f);
      assert mapped[1..] == MapItems(items[1..], f);
      MapLatLngsLeaves(items[0], f);
      MapItemsLeaves(items[1..], f);
      ApplyConcat(Leaves(items[0]), LeavesOf(items[1..]), f);
    }
  }

  lemma ApplyConcat<T, U>(a: seq<T>, b: seq<T>, f: T -> U)
    ensures Apply(a + b, f) == Apply(a, f) + Apply(b, f)
  {
  }

  /** Mapping the identity gives back the same structure. */
  lemma {:induction false} MapLatLngsIdentity<T>(n: Nested<T>)
    ensures MapLatLngs(n, x => x) == n
    decreases n
  {
    match n
    case Leaf(v) =>
    case Node(items) =>
      forall i | 0 <= i < |items| ensures MapItems(items, x => x)[i] == items[i] {
        MapLatLngsIdentity(items[i]);
      }
  }

  /** Two maps in a row are one map of the composed function. */
  lemma {:induction false} MapLatLngsFusion<T, U, V>(n: Nested<T>, f: T -> U, g: U -> V)
    ensures MapLatLngs(MapLatLngs(n, f), g) == MapLatLngs(n, x => g(f(x)))
    decreases n
  {
    match n
    case Leaf(v) =>
    case Node(items) =>
      var once := MapItems(items, f);
      forall i | 0 <= i < |items|
        ensures MapItems(once, g)[i] == MapItems(items, x => g(f(x)))[i]
      {
        MapLatLngsFusion(items[i], f, g);
      }
  }

  // ---------------------------------------------------------------------------
  // deepCloneLatLngs
  // ---------------------------------------------------------------------------

  /** The coordinate a clone holds: a new point built from latitude and longitude only. */
  function Reposition(p: LatLng): LatLng {
    LatLng(p.lat, p.lng, None)
  }

  function DeepCloneLatLngs(n: Nested<LatLng>): (r: Nested<LatLng>)
    ensures SameShape(n, r)
    decreases n
  {
    match n
    case Leaf(p) => Leaf(Reposition(p))
    case Node(items) =>
      Node(seq(|items|, i requires 0 <= i < |items| => DeepCloneLatLngs(items[i])))
  }

  /** A deep clone is the map that rebuilds every coordinate from its latitude and longitude. */
  lemma {:induction false} DeepCloneIsMap(n: Nested<LatLng>)
    ensures DeepCloneLatLngs(n) == MapLatLngs(n, Reposition)
    decreases n
  {
    match n
    case Leaf(p) =>
    case Node(items) =>
      forall i | 0 <= i < |items|
        ensures DeepCloneLatLngs(n).items[i] == MapItems(items, Reposition)[i]
      {
        DeepCloneIsMap(items[i]);
      }
  }

  /** The clone holds the same positions as the original, in the same order. */
  lemma DeepCloneKeepsPositions(n: Nested<LatLng>)
    ensures |Leaves(DeepCloneLatLngs(n))| == |Leaves(n)|
    ensures forall i :: 0 <= i < |Leaves(n)| ==>
      Leaves(DeepCloneLatLngs(n))[i].lat == Leaves(n)[i].lat &&
      Leaves(DeepCloneLatLngs(n))[i].lng == Leaves(n)[i].lng
  {
    DeepCloneIsMap(n);
    MapLatLngsLeaves(n, Reposition);
    var clone := Leaves(DeepCloneLatLngs(n));
    forall i | 0 <= i < |Leaves(n)|
      ensures clone[i].lat == Leaves(n)[i].lat && clone[i].lng == Leaves(n)[i].lng
    {
      assert clone[i] == Reposition(Leaves(n)[i]);
    }
  }

  /** No coordinate of the structure carries an altitude (as drawn shapes have none). */
  predicate Flat(n: Nested<LatLng>)
    decreases n
  {
    match n
    case Leaf(p) => p.alt == None
    case Node(items) => forall i :: 0 <= i < |items| ==> Flat(items[i])
  }

  /** Without altitudes, a deep clone equals the original: equal leaf values, same nesting. */
  lemma {:induction false} DeepCloneOfFlat(n: Nested<LatLng>)
    requires Flat(n)
    ensures DeepCloneLatLngs(n) == n
    decreases n
  {
    match n
    case Leaf(p) =>
    case Node(items) =>
      forall i | 0 <= i < |items| ensures DeepCloneLatLngs(n).items[i] == items[i] {
        DeepCloneOfFlat(items[i]);
      }
  }
}
