/**
 * A set of at least two dice that all have the same number of sides
 * (DiceSet.java). The dice are kept in an array, in construction order,
 * and the set owns each of them exclusively.
 */
module DiceSets {
  import opened Outcomes
  import opened Text
  import opened Dies

  // ---------------------------------------------------------------------
  // Specification on values
  // ---------------------------------------------------------------------

  /** The arithmetic sum of the face values, added up from the front. */
  function SumOf(vs: seq<int>): int {
    if vs == [] then 0 else SumOf(vs[..|vs| - 1]) + vs[|vs| - 1]
  }

  /** The textual form of a set showing vs: every die's "[v]", without separators. */
  function Render(vs: seq<int>): string {
    if vs == [] then "" else DieText(vs[0]) + Render(vs[1..])
  }

  /** Reads a set's textual form back into its face values; None when s is not one. */
  function ParseRendered(s: string): Option<seq<int>>
    decreases |s|
  {
    if s == [] then Some([])
    else match IndexOf(s, ']')
      case None => None
      case Some(k) =>
        match ParseDieText(s[..k + 1])
        case None => None
        case Some(v) =>
          match ParseRendered(s[k + 1..])
          case None => None
          case Some(rest) => Some([v] + rest)
  }

  /** The descriptor of a set of `count` dice with `sides` sides each, e.g. "5d20". */
  function DescriptorText(count: int, sides: int): string {
    IntToString(count) + "d" + IntToString(sides)
  }

  /** Reads a descriptor back into (count, sides); None when s is not one. */
  function ParseDescriptor(s: string): Option<(int, int)> {
    match IndexOf(s, 'd')
    case None => None
    case Some(k) =>
      match (ParseInt(s[..k]), ParseInt(s[k + 1..]))
      case (Some(n), Some(m)) => Some((n, m))
      case _ => None
  }

  /** The exception the count constructor throws, if any: dice count first, then sides. */
  function CountError(sidesOnEachDie: int, numberOfDice: int): (e: Option<Error>)
    ensures e.None? <==> 2 <= numberOfDice && 4 <= sidesOnEachDie
    ensures e == Some(TooFewDice) <==> numberOfDice < 2
  {
    if numberOfDice < 2 then Some(TooFewDice)
    else if sidesOnEachDie < 4 then Some(TooFewSides)
    else None
  }

  /**
   * The exception the values constructor throws, if any: sides first, then
   * the number of values, then (from the Die constructor) a value that is
   * not a face.
   */
  function ValuesError(sidesOnEachDie: int, values: seq<int>): (e: Option<Error>)
    ensures e.None? <==>
      4 <= sidesOnEachDie && 2 <= |values| &&
      forall k :: 0 <= k < |values| ==> ValidFace(sidesOnEachDie, values[k])
    ensures e == Some(TooFewSides) <==> sidesOnEachDie < 4
    ensures e == Some(IllegalValue) ==>
      exists k :: 0 <= k < |values| && DieError(sidesOnEachDie, values[k]) == Some(IllegalValue)
  {
    if sidesOnEachDie < 4 then Some(TooFewSides)
    else if |values| < 2 then Some(TooFewDice)
    else if exists k :: 0 <= k < |values| && !ValidFace(sidesOnEachDie, values[k]) then Some(IllegalValue)
    else None
  }

  /**
   * The documented meaning of isIdenticalTo: the same number of dice, the
   * same number of sides, and each value occurring equally often.
   */
  predicate SameDistribution(a: seq<int>, sidesA: int, b: seq<int>, sidesB: int) {
    |a| == |b| && sidesA == sidesB && multiset(a) == multiset(b)
  }

  // ---------------------------------------------------------------------
  // Lemmas about the specification
  // ---------------------------------------------------------------------

  lemma {:induction false} SumOfAppend(a: seq<int>, b: seq<int>)
    ensures SumOf(a + b) == SumOf(a) + SumOf(b)
    decreases |b|
  {
    if b == [] {
      assert a + b == a;
    } else {
      var b' := b[..|b| - 1];
      assert (a + b)[..|a + b| - 1] == a + b';
      SumOfAppend(a, b');
    }
  }

  /** n dice with faces in [1, sides] add up to between n and n * sides. */
  lemma {:induction false} SumBounds(vs: seq<int>, sides: int)
    requires forall k :: 0 <= k < |vs| ==> 1 <= vs[k] <= sides
    ensures |vs| <= SumOf(vs) <= |vs| * sides
    decreases |vs|
  {
    if vs != [] {
      var n := |vs| - 1;
      SumBounds(vs[..n], sides);
      assert SumOf(vs) == SumOf(vs[..n]) + vs[n];
      assert n * sides + sides == |vs| * sides;
    }
  }

  /** Replacing one value changes the sum by the difference. */
  lemma SumOfUpdate(vs: seq<int>, i: int, x: int)
    requires 0 <= i < |vs|
    ensures SumOf(vs[i := x]) == SumOf(vs) - vs[i] + x
  {
    assert vs == vs[..i] + [vs[i]] + vs[i + 1..];
    assert vs[i := x] == vs[..i] + [x] + vs[i + 1..];
    SumOfAppend(vs[..i], [vs[i]]);
    SumOfAppend(vs[..i] + [vs[i]], vs[i + 1..]);
    SumOfAppend(vs[..i], [x]);
    SumOfAppend(vs[..i] + [x], vs[i + 1..]);
  }

  /** The sum depends only on how often each value occurs, not on the order. */
  lemma {:induction false} SumOfPermutation(a: seq<int>, b: seq<int>)
    requires multiset(a) == multiset(b)
    ensures SumOf(a) == SumOf(b)
    decreases |a|
  {
    if a == [] {
      assert |b| == |multiset(b)| == 0;
    } else {
      var n := |a| - 1;
      var x := a[n];
      assert a == a[..n] + [x];
      assert x in multiset(b);
      var j :| 0 <= j < |b| && b[j] == x;
      var b' := b[..j] + b[j + 1..];
      assert b == b[..j] + [x] + b[j + 1..];
      assert multiset(b') == multiset(b) - multiset{x};
      assert multiset(a[..n]) == multiset(a) - multiset{x};
      SumOfPermutation(a[..n], b');
      SumOfAppend(b[..j], [x]);
      SumOfAppend(b[..j] + [x], b[j + 1..]);
      SumOfAppend(b[..j], b[j + 1..]);
    }
  }

  lemma {:induction false} RenderAppend(vs: seq<int>, v: int)
    ensures Render(vs + [v]) == Render(vs) + DieText(v)
    decreases |vs|
  {
    if vs == [] {
      assert [v][1..] == [];
    } else {
      assert (vs + [v])[1..] == vs[1..] + [v];
      RenderAppend(vs[1..], v);
    }
  }

  /** A set's textual form reads back as its face values, in order. */
  lemma {:induction false} RenderRoundTrip(vs: seq<int>)
    ensures ParseRendered(Render(vs)) == Some(vs)
    decreases |vs|
  {
    if vs != [] {
      var p := "[" + IntToString(vs[0]);
      var q := Render(vs[1..]);
      var s := Render(vs);
      assert s == p + [']'] + q;
      assert forall k :: 0 <= k < |p| ==> p[k] != ']' by {
        forall k | 0 <= k < |p| ensures p[k] != ']' {
          if k > 0 { assert p[k] == IntToString(vs[0])[k - 1]; }
        }
      }
      IndexOfAfterPrefix(p, ']', q);
      assert s[..|p| + 1] == DieText(vs[0]);
      assert s[|p| + 1..] == q;
      DieTextRoundTrip(vs[0]);
      RenderRoundTrip(vs[1..]);
      assert [vs[0]] + vs[1..] == vs;
    }
  }

  /** A descriptor reads back as the dice count and the face count. */
  lemma DescriptorRoundTrip(count: int, sides: int)
    ensures ParseDescriptor(DescriptorText(count, sides)) == Some((count, sides))
  {
    var p := IntToString(count);
    var q := IntToString(sides);
    var s := DescriptorText(count, sides);
    assert s == p + ['d'] + q;
    IndexOfAfterPrefix(p, 'd', q);
    assert s[..|p|] == p;
    assert s[|p| + 1..] == q;
    IntToStringRoundTrip(count);
    IntToStringRoundTrip(sides);
  }

  /** Equal distribution is an equivalence: reflexive, symmetric and transitive. */
  lemma SameDistributionIsEquivalence(a: seq<int>, sa: int, b: seq<int>, sb: int, c: seq<int>, sc: int)
    ensures SameDistribution(a, sa, a, sa)
    ensures SameDistribution(a, sa, b, sb) ==> SameDistribution(b, sb, a, sa)
    ensures SameDistribution(a, sa, b, sb) && SameDistribution(b, sb, c, sc) ==> SameDistribution(a, sa, c, sc)
  {
  }

  /** The worked examples of the textual forms. */
  lemma TextExamples()
    ensures DieText(5) == "[5]"
    ensures Render([2, 5, 2, 3]) == "[2][5][2][3]"
    ensures DescriptorText(5, 20) == "5d20"
  {
  }

  // ---------------------------------------------------------------------
  // The dice set
  // ---------------------------------------------------------------------

  /** Every slot of the array holds a die. */
  predicate AllPresent(a: array<Die?>)
    reads a
  {
    forall k :: 0 <= k < a.Length ==> a[k] != null
  }

  /**
   * The set invariant over its array: at least two dice, each valid, all
   * with the sides of the first, and no die stored twice.
   */
  ghost predicate WellFormed(a: array<Die?>)
    reads a, a[..]
  {
    && 2 <= a.Length
    && AllPresent(a)
    && (forall k :: 0 <= k < a.Length ==> a[k].Valid() && a[k].sides == a[0].sides)
    && (forall j, k :: 0 <= j < k < a.Length ==> a[j] != a[k])
  }

  class DiceSet {
    const dice: array<Die?>

    ghost predicate Valid()
      reads dice, dice[..]
    {
      WellFormed(dice)
    }

    /** The current face values, in array order. */
    function Faces(): (vs: seq<int>)
      reads dice, dice[..]
      requires AllPresent(dice)
      ensures |vs| == dice.Length
      ensures forall k :: 0 <= k < dice.Length ==> vs[k] == dice[k].value
    {
      seq(dice.Length, k requires 0 <= k < dice.Length && dice[k] != null reads dice, dice[..] => dice[k].value)
    }

    /** The common face count, read from the first die as the descriptor does. */
    function Sides(): (s: int)
      reads dice, dice[..]
      requires Valid()
      ensures 4 <= s
      ensures forall k :: 0 <= k < dice.Length ==> dice[k].sides == s
    {
      dice[0].GetSides()
    }

    /** Takes ownership of an array the construction loops have filled. */
    constructor Adopt(a: array<Die?>)
      requires WellFormed(a)
      ensures dice == a && Valid()
    {
      dice := a;
    }

    /** `new DiceSet(sidesOnEachDie, numberOfDice)`: numberOfDice dice showing 1. */
    static method FromCount(sidesOnEachDie: int, numberOfDice: int) returns (r: Result<DiceSet>)
      ensures r.Err? <==> CountError(sidesOnEachDie, numberOfDice).Some?
      ensures r.Err? ==> CountError(sidesOnEachDie, numberOfDice) == Some(r.error)
      ensures r.Ok? ==> r.value.Valid() && fresh(r.value.dice)
      ensures r.Ok? ==> r.value.dice.Length == numberOfDice && r.value.Sides() == sidesOnEachDie
      ensures r.Ok? ==> forall k :: 0 <= k < numberOfDice ==> fresh(r.value.dice[k]) && r.value.dice[k].value == 1
    {
      if numberOfDice < 2 {
        return Err(TooFewDice);
      }
      if sidesOnEachDie < 4 {
        return Err(TooFewSides);
      }
      var a := new Die?[numberOfDice];
      for i := 0 to a.Length
        invariant forall k :: 0 <= k < i ==> a[k] != null && fresh(a[k])
        invariant forall k :: 0 <= k < i ==> a[k].Valid() && a[k].sides == sidesOnEachDie && a[k].value == 1
        invariant forall j, k :: 0 <= j < k < i ==> a[j] != a[k]
      {
        a[i] := new Die(sidesOnEachDie, 1);
      }
      var s := new DiceSet.Adopt(a);
      return Ok(s);
    }

    /**
     * `new DiceSet(sidesOnEachDie, values...)`: die k starts at values[k]. A
     * value that is not a face makes the Die constructor, and so this one, fail.
     */
    static method FromValues(sidesOnEachDie: int, values: seq<int>) returns (r: Result<DiceSet>)
      ensures r.Err? <==> ValuesError(sidesOnEachDie, values).Some?
      ensures r.Err? ==> ValuesError(sidesOnEachDie, values) == Some(r.error)
      ensures r.Ok? ==> r.value.Valid() && fresh(r.value.dice)
      ensures r.Ok? ==> r.value.Faces() == values && r.value.Sides() == sidesOnEachDie
      ensures r.Ok? ==> forall k :: 0 <= k < |values| ==> fresh(r.value.dice[k])
    {
      if sidesOnEachDie < 4 {
        return Err(TooFewSides);
      }
      if |values| < 2 {
        return Err(TooFewDice);
      }
      var a := new Die?[|values|];
      for i := 0 to |values|
        invariant forall k :: 0 <= k < i ==> ValidFace(sidesOnEachDie, values[k])
        invariant forall k :: 0 <= k < i ==> a[k] != null && fresh(a[k])
        invariant forall k :: 0 <= k < i ==> a[k].Valid() && a[k].sides == sidesOnEachDie && a[k].value == values[k]
        invariant forall j, k :: 0 <= j < k < i ==> a[j] != a[k]
      {
        var d := Die.Create(sidesOnEachDie, values[i]);
        if d.Err? {
          assert !ValidFace(sidesOnEachDie, values[i]);
          return Err(d.error);
        }
        a[i] := d.value;
      }
      var s := new DiceSet.Adopt(a);
      assert s.Faces() == values;
      return Ok(s);
    }

    /** The descriptor "<count>d<sides>"; it reads back as the count and the sides. */
    function Descriptor(): (s: string)
      reads dice, dice[..]
      requires Valid()
      ensures s == DescriptorText(dice.Length, Sides())
      ensures ParseDescriptor(s) == Some((dice.Length, Sides()))
    {
      DescriptorRoundTrip(dice.Length, dice[0].GetSides());
      IntToString(dice.Length) + "d" + IntToString(dice[0].GetSides())
    }

    /** The sum of the current values; n dice add up to between n and n * sides. */
    method Sum() returns (total: int)
      requires Valid()
      ensures total == SumOf(Faces())
      ensures dice.Length <= total <= dice.Length * Sides()
    {
      total := 0;
      for i := 0 to dice.Length
        invariant total == SumOf(Faces()[..i])
      {
        assert Faces()[..i + 1][..i] == Faces()[..i];
        total := total + dice[i].GetValue();
      }
      assert Faces()[..dice.Length] == Faces();
      SumBounds(Faces(), Sides());
    }

    /**
     * Rolls every die in array order; draws[k] is the number the generator
     * hands to die k. The face count and the invariant are kept.
     */
    method RollAll(draws: seq<int>)
      requires Valid()
      requires |draws| == dice.Length
      requires forall k :: 0 <= k < |draws| ==> 0 <= draws[k] < Sides()
      modifies dice[..]
      ensures Valid() && Sides() == old(Sides())
      ensures forall k :: 0 <= k < dice.Length ==> dice[k].value == draws[k] + 1
    {
      for i := 0 to dice.Length
        invariant Valid()
        invariant forall k :: 0 <= k < i ==> dice[k].value == draws[k] + 1
      {
        var _ := dice[i].Roll(draws[i]);
      }
    }

    /** Rolls the die at index i only; every other die keeps its value. */
    method RollIndividual(i: int, draw: int)
      requires Valid()
      requires 0 <= i < dice.Length
      requires 0 <= draw < Sides()
      modifies dice[i]
      ensures Valid() && Sides() == old(Sides())
      ensures dice[i].value == draw + 1
      ensures forall k :: 0 <= k < dice.Length && k != i ==> dice[k].value == old(dice[k].value)
      ensures Faces() == old(Faces())[i := draw + 1]
      ensures SumOf(Faces()) == old(SumOf(Faces())) - old(dice[i].value) + draw + 1
    {
      ghost var before := Faces();
      var _ := dice[i].Roll(draw);
      assert Faces() == before[i := draw + 1];
      SumOfUpdate(before, i, draw + 1);
    }

    /** The value of the die at index i, which is a face of it. */
    function GetIndividual(i: int): (v: int)
      reads dice, dice[..]
      requires Valid()
      requires 0 <= i < dice.Length
      ensures v == Faces()[i]
      ensures 1 <= v <= Sides()
    {
      dice[i].GetValue()
    }

    /** A new list of the current values, in array order. */
    method Values() returns (vs: seq<int>)
      requires Valid()
      ensures vs == Faces()
      ensures forall k :: 0 <= k < |vs| ==> vs[k] == GetIndividual(k)
    {
      vs := [];
      for i := 0 to dice.Length
        invariant vs == Faces()[..i]
      {
        assert Faces()[..i + 1] == Faces()[..i] + [dice[i].value];
        vs := vs + [dice[i].GetValue()];
      }
      assert Faces()[..dice.Length] == Faces();
    }

    /**
     * The documented contract of isIdenticalTo. Sets with the same
     * distribution also have the same sum.
     */
    function HasSameDistribution(other: DiceSet): (r: bool)
      reads dice, dice[..], other.dice, other.dice[..]
      requires Valid() && other.Valid()
      ensures r <==> SameDistribution(Faces(), Sides(), other.Faces(), other.Sides())
      ensures r ==> SumOf(Faces()) == SumOf(other.Faces())
    {
      var same := dice.Length == other.dice.Length && dice[0].sides == other.dice[0].sides &&
                  multiset(Faces()) == multiset(other.Faces());
      if same then SumOfPermutation(Faces(), other.Faces()); same else same
    }

    /**
     * isIdenticalTo as written: it answers true for every pair of sets, so
     * it agrees with its documentation only when the answer should be true.
     */
    function IsIdenticalTo(diceSet: DiceSet): (r: bool)
      reads dice, dice[..], diceSet.dice, diceSet.dice[..]
      requires Valid() && diceSet.Valid()
      ensures HasSameDistribution(diceSet) ==> r
    {
      true
    }

    /** The textual form: each die's "[v]" in array order; it reads back as the values. */
    method ToString() returns (s: string)
      requires Valid()
      ensures s == Render(Faces())
      ensures ParseRendered(s) == Some(Faces())
    {
      s := "";
      for i := 0 to dice.Length
        invariant s == Render(Faces()[..i])
      {
        assert Faces()[..i + 1] == Faces()[..i] + [dice[i].value];
        RenderAppend(Faces()[..i], dice[i].value);
        s := s + "[" + IntToString(dice[i].GetValue()) + "]";
      }
      assert Faces()[..dice.Length] == Faces();
      RenderRoundTrip(Faces());
    }
  }

  /**
   * Two sets with different distributions that isIdenticalTo nevertheless
   * calls identical: six-sided dice showing 1, 2, 3 against 1, 2, 2.
   */
  method IsIdenticalToCounterexample() returns (a: DiceSet, b: DiceSet)
    ensures a.Valid() && b.Valid()
    ensures a.IsIdenticalTo(b) && !a.HasSameDistribution(b)
  {
    assert ValidFace(6, 1) && ValidFace(6, 2) && ValidFace(6, 3);
    var ra := DiceSet.FromValues(6, [1, 2, 3]);
    var rb := DiceSet.FromValues(6, [1, 2, 2]);
    a, b := ra.value, rb.value;
    assert multiset(a.Faces())[3] == 1;
    assert multiset(b.Faces())[3] == 0;
  }
}
