/**
 * The four conversions a request can ask for and the fixed order in which `derive_struct`
 * and `derive_enum` emit them.
 */
module Directions {
  import opened Options
  import opened ValidationRules

  datatype Direction = FromDir | IntoDir | TryFromDir | TryIntoDir

  function Rank(d: Direction): nat
  {
    match d
    case FromDir => 0
    case IntoDir => 1
    case TryFromDir => 2
    case TryIntoDir => 3
  }

  predicate Requested(derive: ItemInput, d: Direction)
  {
    match d
    case FromDir => derive.from.Some?
    case IntoDir => derive.into.Some?
    case TryFromDir => derive.tryFrom.Some?
    case TryIntoDir => derive.tryInto.Some?
  }

  /** The fallible directions: `TryFrom` in either direction. */
  predicate IsTry(d: Direction)
  {
    d == TryFromDir || d == TryIntoDir
  }

  /** The directions a request asks for: each one set, in order, and none when none is set. */
  function Directions(derive: ItemInput): (r: seq<Direction>)
    ensures forall d :: d in r <==> Requested(derive, d)
    ensures forall i, j :: 0 <= i < j < |r| ==> Rank(r[i]) < Rank(r[j])
    ensures r == [] <==> NoDirection(derive)
  {
    (if derive.from.Some? then [FromDir] else [])
    + (if derive.into.Some? then [IntoDir] else [])
    + (if derive.tryFrom.Some? then [TryFromDir] else [])
    + (if derive.tryInto.Some? then [TryIntoDir] else [])
  }

  /** `if present { x.to_tokens(&mut output) }`. */
  function Emit<T>(output: seq<T>, present: bool, x: T): seq<T>
  {
    if present then output + [x] else output
  }

  /** The four guarded emissions, in the order they are written. */
  function Steps<T>(derive: ItemInput, g: Direction -> T): seq<T>
  {
    Emit(Emit(Emit(Emit([], derive.from.Some?, g(FromDir)), derive.into.Some?, g(IntoDir)),
              derive.tryFrom.Some?, g(TryFromDir)), derive.tryInto.Some?, g(TryIntoDir))
  }

  /** What `g` makes of each of the given directions, in their order. */
  function Each<T>(ds: seq<Direction>, g: Direction -> T): (r: seq<T>)
    ensures |r| == |ds|
    ensures forall k :: 0 <= k < |ds| ==> r[k] == g(ds[k])
  {
    if |ds| == 0 then [] else Each(ds[..|ds| - 1], g) + [g(ds[|ds| - 1])]
  }

  lemma EachSnoc<T>(ds: seq<Direction>, d: Direction, g: Direction -> T)
    ensures Each(ds + [d], g) == Each(ds, g) + [g(d)]
  {
    assert (ds + [d])[..|ds|] == ds;
  }

  lemma EmitEach<T>(ds: seq<Direction>, present: bool, d: Direction, g: Direction -> T)
    ensures Emit(Each(ds, g), present, g(d)) == Each(ds + if present then [d] else [], g)
  {
    if present {
      EachSnoc(ds, d, g);
    } else {
      assert ds + [] == ds;
    }
  }

  /** The emissions are exactly the requested directions, in the order of `Directions`. */
  lemma StepsInOrder<T>(derive: ItemInput, g: Direction -> T)
    ensures Steps(derive, g) == Each(Directions(derive), g)
    ensures |Steps(derive, g)| == |Directions(derive)|
  {
    var d1 := if derive.from.Some? then [FromDir] else [];
    var d2 := if derive.into.Some? then [IntoDir] else [];
    var d3 := if derive.tryFrom.Some? then [TryFromDir] else [];
    var d4 := if derive.tryInto.Some? then [TryIntoDir] else [];
    assert Each([], g) == [];
    EmitEach([], derive.from.Some?, FromDir, g);
    assert [] + d1 == d1;
    EmitEach(d1, derive.into.Some?, IntoDir, g);
    EmitEach(d1 + d2, derive.tryFrom.Some?, TryFromDir, g);
    EmitEach(d1 + d2 + d3, derive.tryInto.Some?, TryIntoDir, g);
  }

  /** A request that asks for some direction emits something. */
  lemma StepsNonEmpty<T>(derive: ItemInput, g: Direction -> T)
    requires !NoDirection(derive)
    ensures |Steps(derive, g)| >= 1
  {
    StepsInOrder(derive, g);
  }

  /** Every emission comes from one requested direction. */
  lemma StepsMember<T>(derive: ItemInput, g: Direction -> T, x: T) returns (d: Direction)
    requires x in Steps(derive, g)
    ensures Requested(derive, d) && x == g(d)
  {
    StepsInOrder(derive, g);
    var k :| 0 <= k < |Directions(derive)| && Each(Directions(derive), g)[k] == x;
    d := Directions(derive)[k];
  }
}
