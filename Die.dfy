/**
 * A single die: a face count fixed at construction and a face value that
 * only rolling changes (Die.java).
 */
module Dies {
  import opened Outcomes
  import opened Text

  /** The die invariant: at least four sides, and a value that names a face. */
  predicate ValidFace(sides: int, value: int) {
    4 <= sides && 1 <= value <= sides
  }

  /**
   * The exception the Java constructor throws for (sides, value), if any,
   * checking the face count first and the value second.
   */
  function DieError(sides: int, value: int): (e: Option<Error>)
    ensures e.None? <==> ValidFace(sides, value)
    ensures e == Some(TooFewSides) <==> sides < 4
    ensures e == Some(IllegalValue) <==> 4 <= sides && (value < 1 || sides < value)
  {
    if sides < 4 then Some(TooFewSides)
    else if value < 1 then Some(IllegalValue)
    else if value > sides then Some(IllegalValue)
    else None
  }

  /** The textual form of a die showing v: the decimal value in square brackets. */
  function DieText(v: int): string {
    "[" + IntToString(v) + "]"
  }

  /** Reads a die's textual form back; None when t is not one. */
  function ParseDieText(t: string): Option<int> {
    if |t| >= 2 && t[0] == '[' && t[|t| - 1] == ']' then ParseInt(t[1..|t| - 1]) else None
  }

  lemma DieTextRoundTrip(v: int)
    ensures ParseDieText(DieText(v)) == Some(v)
  {
    var t := DieText(v);
    assert t[1..|t| - 1] == IntToString(v);
    IntToStringRoundTrip(v);
  }

  class Die {
    const sides: int
    var value: int

    ghost predicate Valid()
      reads this
    {
      ValidFace(sides, value)
    }

    /** The constructor's success path: the checks of DieError all passed. */
    constructor (sides: int, value: int)
      requires DieError(sides, value).None?
      ensures Valid()
      ensures this.sides == sides && this.value == value
    {
      this.sides := sides;
      this.value := value;
    }

    /** `new Die(sides, value)`, with the exception as an Err result. */
    static method Create(sides: int, value: int) returns (r: Result<Die>)
      ensures r.Err? <==> !ValidFace(sides, value)
      ensures r.Err? ==> DieError(sides, value) == Some(r.error)
      ensures r.Ok? ==> fresh(r.value) && r.value.Valid()
      ensures r.Ok? ==> r.value.sides == sides && r.value.value == value
    {
      var e := DieError(sides, value);
      if e.Some? {
        return Err(e.value);
      }
      var d := new Die(sides, value);
      return Ok(d);
    }

    /**
     * Rolls the die. `draw` is the number Random.nextInt(sides) returns;
     * the face shown is one more than it, and it is also the result.
     */
    method Roll(draw: int) returns (v: int)
      requires Valid()
      requires 0 <= draw < sides
      modifies this
      ensures Valid()
      ensures v == draw + 1 && value == v
      ensures 1 <= v <= sides
    {
      value := draw + 1;
      v := value;
    }

    function GetSides(): (s: int)
      reads this
      requires Valid()
      ensures s == sides && 4 <= s
    {
      sides
    }

    function GetValue(): (v: int)
      reads this
      requires Valid()
      ensures v == value && 1 <= v <= sides
    {
      value
    }

    /** The textual form "[v]"; it reads back as the current value. */
    function ToString(): (s: string)
      reads this
      ensures s == DieText(value)
      ensures |s| >= 3 && s[0] == '[' && s[|s| - 1] == ']'
      ensures ParseDieText(s) == Some(value)
    {
      DieTextRoundTrip(value);
      "[" + IntToString(value) + "]"
    }
  }
}
