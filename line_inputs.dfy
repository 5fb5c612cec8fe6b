/**
  The number inputs of one configured line in the browser dice roller and the
  event handlers that keep them in range: changeDropCount, changeDiceCount,
  changeDiceLimit, changeDiceType, changeModifier and diceControl. Also the
  die types offered by populateDSelect and convertToNumber, which turns a
  die-type label into its number of sides.

  Each handler runs after the browser has stored what the user typed or
  selected; that value is the handler's argument here.
*/
module LineInputs {
  import opened Wrappers
  import opened Decimal

  /** The labels populateDSelect offers, in order. */
  const DTYPE: seq<string> := ["d2", "d3", "d4", "d6", "d8", "d10", "d12", "d20", "d100"]

  /** The number written in each label of DTYPE. */
  const SIDES: seq<int> := [2, 3, 4, 6, 8, 10, 12, 20, 100]

  const ALLOWED_SIDES: set<int> := {2, 3, 4, 6, 8, 10, 12, 20, 100}

  /** The option populateDSelect selects initially ("d6"). */
  const DEFAULT_TYPE_INDEX: int := 3

  /**
    JavaScript's Number() on a plain decimal numeral; the empty string is 0.
    None stands for every other string (NaN and the forms this model leaves out).
  */
  function JsNumber(text: string): (r: Option<int>)
    ensures AllDigits(text) <==> r.Some?
    ensures r.Some? ==> r.value == Value(text)
  {
    if AllDigits(text) then Some(Value(text)) else None
  }

  /** convertToNumber: Number(dType.slice(1)). */
  function ConvertToNumber(dType: string): Option<int> {
    JsNumber(if dType == [] then [] else dType[1..])
  }

  /** Reading back the label "d" + n gives n. */
  lemma ConvertLabel(n: nat)
    ensures ConvertToNumber("d" + NatToString(n)) == Some(n)
  {
    assert ("d" + NatToString(n))[1..] == NatToString(n);
    ValueOfNatToString(n);
  }

  /** Every DTYPE label converts to the matching entry of SIDES. */
  lemma DTypeSides()
    ensures |DTYPE| == |SIDES| == 9
    ensures forall i | 0 <= i < |DTYPE| :: ConvertToNumber(DTYPE[i]) == Some(SIDES[i])
  {
    forall i | 0 <= i < |DTYPE| ensures ConvertToNumber(DTYPE[i]) == Some(SIDES[i]) {
      ConvertLabel(SIDES[i]);
      assert DTYPE[i] == "d" + NatToString(SIDES[i]);
    }
  }

  /** The entries of SIDES are exactly the allowed die sizes. */
  lemma AllowedSidesListed()
    ensures forall i | 0 <= i < |SIDES| :: SIDES[i] in ALLOWED_SIDES
    ensures forall s | s in ALLOWED_SIDES :: exists i | 0 <= i < |SIDES| :: SIDES[i] == s
  {
    forall s | s in ALLOWED_SIDES ensures exists i | 0 <= i < |DTYPE| :: SIDES[i] == s {
      if s == 2 { assert SIDES[0] == s; }
      else if s == 3 { assert SIDES[1] == s; }
      else if s == 4 { assert SIDES[2] == s; }
      else if s == 6 { assert SIDES[3] == s; }
      else if s == 8 { assert SIDES[4] == s; }
      else if s == 10 { assert SIDES[5] == s; }
      else if s == 12 { assert SIDES[6] == s; }
      else if s == 20 { assert SIDES[7] == s; }
      else { assert SIDES[8] == s; }
    }
  }

  // ---------------------------------------------------------------------
  // The rules, as functions of the values involved
  // ---------------------------------------------------------------------

  /**
    JavaScript's `a < b` on two strings, a proper prefix first. It compares by
    code point, which agrees with JavaScript's code-unit order on the ASCII
    numerals compared at line 298.
  */
  predicate StringLess(a: string, b: string) {
    if a == [] then b != []
    else if b == [] then false
    else if a[0] != b[0] then a[0] < b[0]
    else StringLess(a[1..], b[1..])
  }

  /**
    changeDropCount as written: `target.value >= dCount.value` compares the
    two inputs' value strings, so the comparison is lexicographic; the
    `< 1` test and the subtraction convert to numbers.
  */
  function DropCountRuleAsWritten(drop: int, count: int): int {
    if !StringLess(IntToString(drop), IntToString(count)) then count - 1
    else if drop < 1 then 0
    else drop
  }

  /** A drop count of 10 with 9 dice passes the check unchanged, so every die would be dropped. */
  lemma DropCountAsWrittenKeepsTooMany()
    ensures DropCountRuleAsWritten(10, 9) == 10
    ensures DropCountRuleAsWritten(10, 9) > 9 - 1
  {
    assert IntToString(10) == "10" by {
      assert NatToString(10) == NatToString(1) + [DigitChar(0)];
    }
    assert IntToString(9) == "9";
  }

  /** A valid drop count of 5 with 10 dice is replaced by 9. */
  lemma DropCountAsWrittenResetsValid()
    ensures DropCountRuleAsWritten(5, 10) == 9
  {
    assert IntToString(10) == "10" by {
      assert NatToString(10) == NatToString(1) + [DigitChar(0)];
    }
    assert IntToString(5) == "5";
  }

  /**
    changeDropCount with the numeric comparison it evidently intends: the
    result lies in [0, dice count - 1], and a count already in that range is kept.
  */
  function DropCountRule(drop: int, count: int): (r: int)
    ensures count >= 1 ==> 0 <= r <= count - 1
    ensures 0 <= drop < count ==> r == drop
  {
    if drop >= count then count - 1
    else if drop < 1 then 0
    else drop
  }

  /** changeDiceCount's rule for the drop count when the dice count becomes `count`. */
  function DiceCountRule(drop: int, count: int): (r: int)
    ensures count >= 1 ==> 0 <= r <= count - 1
    ensures 0 <= drop < count ==> r == drop
  {
    var d := if drop >= count - 1 then count - 1 else drop;
    if d < 1 then 0 else d
  }

  /** changeDiceLimit and changeDiceType: the limit never exceeds the die's sides. */
  function LimitRule(limit: int, sides: int): (r: int)
    ensures r <= sides
    ensures limit <= sides ==> r == limit
    ensures limit > sides ==> r == sides
  {
    if limit > sides then sides else limit
  }

  /**
    changeModifier. `typed` is the new input value, `negative` whether "-" is
    selected, `stored` the value saved for this input before (0 when none is
    saved, as JSON.parse(null) compares like 0). The result is the new value
    and the new sign.
  */
  function ModifierRule(typed: int, negative: bool, stored: int): (r: (int, bool))
    ensures 0 <= r.0 <= 99
    ensures r.1 ==> 1 <= r.0 <= 9
    ensures r.0 == 0 ==> !r.1
    ensures !negative && 0 <= typed <= 99 ==> r == (typed, false)
    ensures negative && typed == stored && 1 <= typed <= 9 ==> r == (typed, true)
    ensures negative && typed == stored + 1 && 2 <= stored <= 10 ==> r == (stored - 1, true)
    ensures negative && typed == stored - 1 && 0 <= stored <= 8 ==> r == (stored + 1, true)
  {
    var v0 := if negative && typed < stored then typed + 2
              else if negative && typed > stored then typed - 2
              else typed;
    var v1 := if negative && v0 > 9 then 9 else v0;
    var (v2, n2) := if v1 < 0 then (if !negative then (1, true) else (0, false)) else (v1, negative);
    var n3 := if v2 == 0 then false else n2;
    var v4 := if v2 > 99 then 99 else v2;
    (v4, n3)
  }

  /** diceControl: a value above 99 becomes the input's max, one below 1 its min (or 0 without one). */
  function DiceControlRule(v: int, minAttr: Option<int>, maxAttr: int): (r: int)
    ensures 1 <= v <= 99 ==> r == v
    ensures v > 99 ==> r == maxAttr
    ensures v < 1 ==> r == (if minAttr.Some? then minAttr.value else 0)
  {
    if v > 99 then maxAttr
    else if v < 1 then (if minAttr.Some? then minAttr.value else 0)
    else v
  }

  /** The three inputs whose change event runs diceControl, with their min and max attributes. */
  datatype ControlledInput = CountInput | ModInput | LimitInput

  function MinAttr(input: ControlledInput): Option<int> {
    match input
    case CountInput => Some(1)
    case ModInput => None
    case LimitInput => Some(1)
  }

  function MaxAttr(input: ControlledInput): int {
    match input
    case CountInput => 99
    case ModInput => 99
    case LimitInput => 6
  }

  /**
    After diceControl an input is within its own range: at least its min
    attribute (0 without one) and at most 99; running it again changes nothing.
  */
  lemma DiceControlSettles(input: ControlledInput, v: int)
    ensures (if MinAttr(input).Some? then MinAttr(input).value else 0) <= DiceControlRule(v, MinAttr(input), MaxAttr(input)) <= 99
    ensures DiceControlRule(DiceControlRule(v, MinAttr(input), MaxAttr(input)), MinAttr(input), MaxAttr(input))
      == DiceControlRule(v, MinAttr(input), MaxAttr(input))
  {
  }

  /**
    The limiter's max attribute is the template's constant 6, whatever die is
    selected: on a d100 line a limit of 100 becomes 6, while a limit of 50
    passes diceControl unchanged, also on a d6 line.
  */
  lemma LimitControlIgnoresSides()
    ensures DiceControlRule(100, MinAttr(LimitInput), MaxAttr(LimitInput)) == 6 < SIDES[8]
    ensures DiceControlRule(50, MinAttr(LimitInput), MaxAttr(LimitInput)) == 50 > SIDES[DEFAULT_TYPE_INDEX]
  {
  }

  // ---------------------------------------------------------------------
  // One line's inputs
  // ---------------------------------------------------------------------

  class LineInputs {
    var count: int        // d-count value
    var typeIndex: int    // d-type selectedIndex
    var negative: bool    // pos-neg: "-" selected
    var mod: int          // d-mod value
    var dropCount: int    // drop-count value
    var dropMax: int      // drop-count max attribute
    var limit: int        // limiter value

    ghost predicate Valid()
      reads this
    {
      0 <= typeIndex < |DTYPE|
    }

    /** The sides of the selected die type, as convertToNumber reads them from its label. */
    function Sides(): (s: int)
      reads this
      requires Valid()
      ensures s in ALLOWED_SIDES
      ensures ConvertToNumber(DTYPE[typeIndex]) == Some(s)
    {
      DTypeSides();
      AllowedSidesListed();
      SIDES[typeIndex]
    }

    /** The bounds the handlers keep: drop count below dice count, limit within the die, modifier within 0..99. */
    ghost predicate Bounded()
      reads this
      requires Valid()
    {
      && (count >= 1 ==> 0 <= dropCount <= count - 1)
      && limit <= Sides()
      && 0 <= mod <= 99
    }

    /** A new line as the template creates it. */
    constructor ()
      ensures Valid() && Bounded()
      ensures count == 1 && typeIndex == DEFAULT_TYPE_INDEX && !negative && mod == 0
      ensures dropCount == 0 && dropMax == 5 && limit == 1
    {
      count := 1;
      typeIndex := DEFAULT_TYPE_INDEX;
      negative := false;
      mod := 0;
      dropCount := 0;
      dropMax := 5;
      limit := 1;
    }

    /** changeDropCount, with the numeric comparison (see DropCountRuleAsWritten for the string one). */
    method ChangeDropCount(typed: int)
      requires Valid()
      modifies this`dropCount, this`dropMax
      ensures Valid()
      ensures count >= 1 ==> 0 <= dropCount <= count - 1
      ensures old(limit <= Sides() && 0 <= mod <= 99) ==> Bounded()
      ensures dropMax == count - 1
      ensures dropCount == DropCountRule(typed, count)
    {
      dropCount := typed;
      dropMax := count;
      dropMax := dropMax - 1;
      if dropCount >= count {
        dropCount := count - 1;
      } else if dropCount < 1 {
        dropCount := 0;
      }
    }

    method ChangeDiceCount(typed: int)
      requires Valid()
      modifies this`count, this`dropCount, this`dropMax
      ensures Valid()
      ensures count >= 1 ==> 0 <= dropCount <= count - 1
      ensures old(limit <= Sides() && 0 <= mod <= 99) ==> Bounded()
      ensures count == typed && dropMax == typed - 1
      ensures dropCount == DiceCountRule(old(dropCount), typed)
    {
      count := typed;
      dropMax := count - 1;
      if dropCount >= count - 1 {
        dropCount := count - 1;
      }
      if dropCount < 1 {
        dropCount := 0;
      }
    }

    method ChangeDiceLimit(typed: int)
      requires Valid()
      modifies this`limit
      ensures Valid()
      ensures limit <= Sides()
      ensures old(Bounded()) ==> Bounded()
      ensures limit == LimitRule(typed, Sides())
    {
      limit := typed;
      var dValue := ConvertToNumber(DTYPE[typeIndex]);
      if limit > dValue.value {
        limit := dValue.value;
      }
    }

    method ChangeDiceType(index: int)
      requires Valid()
      requires 0 <= index < |DTYPE|
      modifies this`typeIndex, this`limit
      ensures Valid()
      ensures limit <= Sides()
      ensures old(Bounded()) ==> Bounded()
      ensures typeIndex == index
      ensures limit == LimitRule(old(limit), Sides())
    {
      typeIndex := index;
      var dValue := ConvertToNumber(DTYPE[typeIndex]);
      if limit > dValue.value {
        limit := dValue.value;
      }
    }

    method ChangeModifier(typed: int, stored: int)
      requires Valid()
      modifies this`mod, this`negative
      ensures Valid()
      ensures 0 <= mod <= 99
      ensures old(Bounded()) ==> Bounded()
      ensures (mod, negative) == ModifierRule(typed, old(negative), stored)
      ensures negative ==> 1 <= mod <= 9
    {
      mod := typed;
      if negative {
        if mod < stored {
          mod := mod + 1;
          mod := mod + 1;
        } else if mod > stored {
          mod := mod - 1;
          mod := mod - 1;
        }
        if mod > 9 {
          mod := 9;
        }
      }
      if mod < 0 {
        if !negative {
          negative := true;
          mod := 1;
        } else {
          negative := false;
          mod := 0;
        }
      }
      if mod == 0 {
        negative := false;
      }
      if mod > 99 {
        mod := 99;
      }
    }

    /**
      diceControl on one of the three inputs it is attached to. On the
      modifier and the limit it keeps the handlers' bounds. On the dice count
      it does not: it lowers a count above 99 to 99 without touching the drop
      count (150 dice with 120 dropped become 99 dice with 120 dropped).
    */
    method DiceControl(input: ControlledInput)
      requires Valid()
      modifies this`count, this`mod, this`limit
      ensures Valid()
      ensures input != CountInput && old(Bounded()) ==> Bounded()
      ensures input == CountInput ==> count == DiceControlRule(old(count), MinAttr(input), MaxAttr(input)) && mod == old(mod) && limit == old(limit)
      ensures input == ModInput ==> mod == DiceControlRule(old(mod), MinAttr(input), MaxAttr(input)) && count == old(count) && limit == old(limit)
      ensures input == LimitInput ==> limit == DiceControlRule(old(limit), MinAttr(input), MaxAttr(input)) && count == old(count) && mod == old(mod)
      ensures input == CountInput ==> 1 <= count <= 99
      ensures input == ModInput ==> 0 <= mod <= 99
      ensures input == LimitInput ==> 1 <= limit <= 99
    {
      var v := match input case CountInput => count case ModInput => mod case LimitInput => limit;
      if v > 99 {
        v := MaxAttr(input);
      } else if v < 1 {
        v := if MinAttr(input).Some? then MinAttr(input).value else 0;
      }
      match input
      case CountInput => count := v;
      case ModInput => mod := v;
      case LimitInput => limit := v;
    }
  }
}
