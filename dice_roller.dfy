/**
  The command-line dice roller: parsing of dice notation "XdY[+-Z]", rolling
  a number of dice with a modifier, the text form of a roll, and spells that
  roll fixed notations. The values random.randint would return arrive as the
  sequence `draws`, consumed in order.
*/
module DiceRoller {
  import opened Wrappers
  import opened Decimal

  /** The exceptions the source raises. */
  datatype PyError = ValueError(message: string) | IndexError

  /** The DiceRoll dataclass. */
  datatype DiceRoll = DiceRoll(
    diceCount: int,
    diceSides: int,
    modifier: int,
    individualRolls: seq<int>,
    total: int)

  function Sum(s: seq<int>): int {
    if s == [] then 0 else Sum(s[..|s| - 1]) + s[|s| - 1]
  }

  // ---------------------------------------------------------------------
  // String helpers: str.lower() and str.replace(" ", ...)
  // ---------------------------------------------------------------------

  function LowerChar(c: char): char {
    if 'A' <= c <= 'Z' then ((c as int) + 32) as char else c
  }

  function Lower(s: string): string {
    if s == [] then [] else [LowerChar(s[0])] + Lower(s[1..])
  }

  /** Lowering maps every character on its own and keeps the length. */
  lemma {:induction false} LowerFacts(s: string)
    ensures |Lower(s)| == |s|
    ensures forall i | 0 <= i < |s| :: Lower(s)[i] == LowerChar(s[i])
  {
    if s != [] {
      LowerFacts(s[1..]);
      forall i | 0 < i < |s| ensures Lower(s)[i] == LowerChar(s[i]) {
        assert Lower(s)[i] == Lower(s[1..])[i - 1];
      }
    }
  }

  /** s.replace(" ", "") */
  function RemoveSpaces(s: string): string {
    if s == [] then []
    else (if s[0] == ' ' then [] else [s[0]]) + RemoveSpaces(s[1..])
  }

  /** Removing spaces leaves none, and leaves a string without spaces as it is. */
  lemma {:induction false} RemoveSpacesFacts(s: string)
    ensures forall i | 0 <= i < |RemoveSpaces(s)| :: RemoveSpaces(s)[i] != ' '
    ensures (forall i | 0 <= i < |s| :: s[i] != ' ') ==> RemoveSpaces(s) == s
  {
    if s != [] {
      RemoveSpacesFacts(s[1..]);
      var head: string := if s[0] == ' ' then [] else [s[0]];
      var r := RemoveSpaces(s[1..]);
      forall i | 0 <= i < |head + r| ensures (head + r)[i] != ' ' {
        if i >= |head| {
          assert (head + r)[i] == r[i - |head|];
        }
      }
      if forall i | 0 <= i < |s| :: s[i] != ' ' {
        assert forall i | 0 <= i < |s[1..]| :: s[1..][i] == s[i + 1];
        assert s == [s[0]] + s[1..];
      }
    }
  }

  /** s.replace(" ", "_") */
  function SpacesToUnderscores(s: string): string {
    if s == [] then [] else [if s[0] == ' ' then '_' else s[0]] + SpacesToUnderscores(s[1..])
  }

  /** Every space becomes an underscore; every other character stays in place. */
  lemma {:induction false} SpacesToUnderscoresFacts(s: string)
    ensures |SpacesToUnderscores(s)| == |s|
    ensures forall i | 0 <= i < |s| :: SpacesToUnderscores(s)[i] == (if s[i] == ' ' then '_' else s[i])
  {
    if s != [] {
      SpacesToUnderscoresFacts(s[1..]);
      forall i | 0 < i < |s| ensures SpacesToUnderscores(s)[i] == (if s[i] == ' ' then '_' else s[i]) {
        assert SpacesToUnderscores(s)[i] == SpacesToUnderscores(s[1..])[i - 1];
      }
    }
  }

  /** notation.replace(" ", "").lower(): no spaces and no upper-case letters remain. */
  function Normalize(notation: string): string {
    Lower(RemoveSpaces(notation))
  }

  /** The normalised notation holds no space and no upper-case letter. */
  lemma NormalizeFacts(notation: string)
    ensures Plain(Normalize(notation))
  {
    RemoveSpacesFacts(notation);
    LowerFacts(RemoveSpaces(notation));
  }

  predicate Plain(s: string) {
    forall i | 0 <= i < |s| :: s[i] != ' ' && !('A' <= s[i] <= 'Z')
  }

  lemma NormalizePlain(s: string)
    requires Plain(s)
    ensures Normalize(s) == s
  {
    RemoveSpacesFacts(s);
    LowerFacts(s);
  }

  // ---------------------------------------------------------------------
  // The pattern ^(\d+)d(\d+)([+-]\d+)?$
  // ---------------------------------------------------------------------

  /** The three groups: two digit runs and an optional signed digit run. */
  ghost predicate Shape(a: string, b: string, tail: string) {
    && |a| > 0 && AllDigits(a)
    && |b| > 0 && AllDigits(b)
    && (tail == [] || (|tail| >= 2 && (tail[0] == '+' || tail[0] == '-') && AllDigits(tail[1..])))
  }

  /** int(group(3)) if group(3) else 0 */
  function TailValue(tail: string): int
    requires tail == [] || AllDigits(tail[1..])
  {
    if tail == [] then 0
    else if tail[0] == '-' then 0 - Value(tail[1..])
    else Value(tail[1..])
  }

  ghost predicate MatchesGroups(t: string) {
    exists a, b, tail :: Shape(a, b, tail) && t == a + "d" + b + tail
  }

  /** re.match with `$`, which also matches just before a newline that ends the string. */
  ghost predicate MatchesPattern(n: string) {
    MatchesGroups(n) || (|n| > 0 && n[|n| - 1] == '\n' && MatchesGroups(n[..|n| - 1]))
  }

  function BeforeFinalNewline(n: string): string {
    if |n| > 0 && n[|n| - 1] == '\n' then n[..|n| - 1] else n
  }

  /** The matcher on the text without the final newline `$` may skip. */
  function MatchGroups(t: string): Option<(int, int, int)> {
    var a := DigitRun(t);
    if a == 0 || a == |t| || t[a] != 'd' then None
    else
      var rest := t[a + 1..];
      var b := DigitRun(rest);
      if b == 0 then None
      else
        var tail := rest[b..];
        if tail == [] then Some((Value(t[..a]), Value(rest[..b]), 0))
        else if (tail[0] == '+' || tail[0] == '-') && |tail| >= 2 && DigitRun(tail[1..]) == |tail| - 1 then
          assert tail[1..][..|tail| - 1] == tail[1..];
          Some((Value(t[..a]), Value(rest[..b]), TailValue(tail)))
        else None
  }

  /** parse_dice_notation */
  function ParseDiceNotation(notation: string): (r: Result<(int, int, int), PyError>)
    ensures r.Err? ==> r.error == ValueError("Invalid dice notation: " + Normalize(notation))
  {
    var n := Normalize(notation);
    match MatchGroups(BeforeFinalNewline(n))
    case Some(v) => Ok(v)
    case None => Err(ValueError("Invalid dice notation: " + n))
  }

  /** Every string of the pattern's shape is matched, with the groups' values. */
  lemma MatchComplete(a: string, b: string, tail: string)
    requires Shape(a, b, tail)
    ensures MatchGroups(a + "d" + b + tail) == Some((Value(a), Value(b), TailValue(tail)))
  {
    var t := a + "d" + b + tail;
    DigitRunOfRun(a, "d" + b + tail);
    assert t == a + ("d" + b + tail);
    assert t[..|a|] == a;
    var rest := t[|a| + 1..];
    assert rest == b + tail;
    DigitRunOfRun(b, tail);
    assert rest[..|b|] == b && rest[|b|..] == tail;
    if tail != [] {
      DigitRunOfRun(tail[1..], []);
      assert tail[1..] + [] == tail[1..];
    }
  }

  lemma SplitAround(t: string, k: nat, m: nat)
    requires k < |t| && k + 1 + m <= |t|
    ensures t == t[..k] + [t[k]] + t[k + 1..][..m] + t[k + 1..][m..]
  {
    var rest := t[k + 1..];
    assert rest == rest[..m] + rest[m..];
    assert t == t[..k] + [t[k]] + rest;
  }

  /** Whatever is matched has the pattern's shape, and the values are those of its groups. */
  lemma MatchSound(t: string)
    requires MatchGroups(t).Some?
    ensures exists a, b, tail ::
      Shape(a, b, tail) && t == a + "d" + b + tail &&
      MatchGroups(t).value == (Value(a), Value(b), TailValue(tail))
  {
    var a, b, tail := MatchSplit(t);
  }

  /** The three groups of a match, as the matcher finds them. */
  lemma MatchSplit(t: string) returns (a: string, b: string, tail: string)
    requires MatchGroups(t).Some?
    ensures Shape(a, b, tail) && t == a + "d" + b + tail
    ensures MatchGroups(t).value == (Value(a), Value(b), TailValue(tail))
  {
    var k := DigitRun(t);
    var rest := t[k + 1..];
    var m := DigitRun(rest);
    a, b, tail := t[..k], rest[..m], rest[m..];
    if tail != [] {
      assert tail[1..][..|tail| - 1] == tail[1..];
    }
    SplitAround(t, k, m);
  }

  lemma GroupsHaveNoNewline(t: string)
    requires MatchesGroups(t)
    ensures |t| > 0 && t[|t| - 1] != '\n'
  {
    var a, b, tail :| Shape(a, b, tail) && t == a + "d" + b + tail;
    if tail != [] {
      assert t[|t| - 1] == tail[1..][|tail| - 2];
    } else {
      assert t[|t| - 1] == b[|b| - 1];
    }
  }

  /**
    parse_dice_notation accepts exactly the normalised strings the pattern
    matches and raises ValueError naming the normalised string otherwise.
  */
  lemma ParseAcceptsExactlyThePattern(notation: string)
    ensures ParseDiceNotation(notation).Ok? <==> MatchesPattern(Normalize(notation))
    ensures ParseDiceNotation(notation).Err? ==>
      ParseDiceNotation(notation).error == ValueError("Invalid dice notation: " + Normalize(notation))
  {
    var n := Normalize(notation);
    var t := BeforeFinalNewline(n);
    if MatchGroups(t).Some? {
      MatchSound(t);
    }
    if MatchesGroups(t) {
      var a, b, tail :| Shape(a, b, tail) && t == a + "d" + b + tail;
      MatchComplete(a, b, tail);
    }
    if MatchesGroups(n) {
      GroupsHaveNoNewline(n);
    }
  }

  /**
    The values of a match: the two counts, and the modifier, which is 0 when
    the optional group is missing and the signed value of the group otherwise.
  */
  lemma ParseValues(notation: string, a: string, b: string, tail: string)
    requires Shape(a, b, tail)
    requires BeforeFinalNewline(Normalize(notation)) == a + "d" + b + tail
    ensures ParseDiceNotation(notation) == Ok((Value(a), Value(b), TailValue(tail)))
    ensures tail == [] ==> ParseDiceNotation(notation).value.2 == 0
  {
    MatchComplete(a, b, tail);
  }

  /** The modifier part of a notation: f"{m:+d}", or nothing. */
  function ModText(m: Option<int>): (r: string)
    ensures r == [] || (|r| >= 2 && (r[0] == '+' || r[0] == '-') && AllDigits(r[1..]))
  {
    if m.Some? then SignedString(m.value) else ""
  }

  /** The modifier a notation carries: its value, or 0 when it has none. */
  function ModValue(m: Option<int>): int {
    if m.Some? then m.value else 0
  }

  /** The notation Python's f"{c}d{s}" and f"{c}d{s}{m:+d}" build. */
  function Notation(c: nat, s: nat, m: Option<int>): (r: string)
    ensures Plain(r)
  {
    var r := NatToString(c) + "d" + NatToString(s) + ModText(m);
    assert forall i | 0 <= i < |r| :: r[i] == 'd' || r[i] == '+' || r[i] == '-' || IsDigit(r[i]);
    r
  }

  lemma TailValueOfModText(m: Option<int>)
    ensures TailValue(ModText(m)) == ModValue(m)
  {
    if m.Some? {
      var v := m.value;
      var t := ModText(m);
      if v < 0 {
        assert t[1..] == NatToString(-v);
        ValueOfNatToString(-v);
      } else {
        assert t[1..] == NatToString(v);
        ValueOfNatToString(v);
      }
    }
  }

  /** A notation ends with a digit, so `$` has no newline to skip. */
  lemma NotationEndsInDigit(c: nat, s: nat, m: Option<int>)
    ensures var t := Notation(c, s, m); |t| > 0 && IsDigit(t[|t| - 1])
  {
    var b, tail := NatToString(s), ModText(m);
    var t := NatToString(c) + "d" + b + tail;
    if tail != [] {
      assert t[|t| - 1] == tail[1..][|tail| - 2];
    } else {
      assert t[|t| - 1] == b[|b| - 1];
    }
  }

  /** Round trip: parsing a built notation gives back its count, sides and modifier. */
  lemma NotationRoundTrip(c: nat, s: nat, m: Option<int>)
    ensures ParseDiceNotation(Notation(c, s, m)) == Ok((c, s, ModValue(m)))
  {
    var t := Notation(c, s, m);
    NormalizePlain(t);
    NotationEndsInDigit(c, s, m);
    assert BeforeFinalNewline(Normalize(t)) == t;
    ValueOfNatToString(c);
    ValueOfNatToString(s);
    TailValueOfModText(m);
    ParseValues(t, NatToString(c), NatToString(s), ModText(m));
  }

  // ---------------------------------------------------------------------
  // Rolling
  // ---------------------------------------------------------------------

  /** roll_dice: draws[..dice_count] are the values random.randint(1, dice_sides) returns. */
  function RollDice(diceCount: int, diceSides: int, modifier: int, draws: seq<int>): (r: Result<DiceRoll, PyError>)
    requires diceCount > 0 && diceSides > 0 ==> |draws| >= diceCount
    ensures r.Err? <==> diceCount <= 0 || diceSides <= 0
    ensures r.Err? ==> r.error == ValueError("Dice count and sides must be positive")
    ensures r.Ok? ==> r.value.diceCount == diceCount && r.value.diceSides == diceSides && r.value.modifier == modifier
    ensures r.Ok? ==> r.value.individualRolls == draws[..diceCount]
  {
    if diceCount <= 0 || diceSides <= 0 then Err(ValueError("Dice count and sides must be positive"))
    else
      var individualRolls := draws[..diceCount];
      Ok(DiceRoll(diceCount, diceSides, modifier, individualRolls, Sum(individualRolls) + modifier))
  }

  lemma RollDiceOk(c: int, s: int, modifier: int, ds: seq<int>)
    requires c > 0 && s > 0 && |ds| >= c
    ensures RollDice(c, s, modifier, ds) == Ok(DiceRoll(c, s, modifier, ds[..c], Sum(ds[..c]) + modifier))
  {
  }

  lemma {:induction false} SumBounds(s: seq<int>, lo: int, hi: int)
    requires forall i | 0 <= i < |s| :: lo <= s[i] <= hi
    ensures |s| * lo <= Sum(s) <= |s| * hi
  {
    if s != [] {
      var p := s[..|s| - 1];
      assert forall i | 0 <= i < |p| :: p[i] == s[i];
      SumBounds(p, lo, hi);
      assert Sum(s) == Sum(p) + s[|s| - 1];
      assert |s| * lo == |p| * lo + lo && |s| * hi == |p| * hi + hi;
    }
  }

  /**
    A successful roll has exactly dice_count rolls, each in [1, dice_sides],
    and a total of their sum plus the modifier, so between
    dice_count + modifier and dice_count * dice_sides + modifier.
  */
  lemma RollDiceFacts(diceCount: int, diceSides: int, modifier: int, draws: seq<int>)
    requires diceCount > 0 && diceSides > 0 && |draws| >= diceCount
    requires forall i | 0 <= i < diceCount :: 1 <= draws[i] <= diceSides
    ensures var r := RollDice(diceCount, diceSides, modifier, draws).value;
      && |r.individualRolls| == diceCount
      && (forall i | 0 <= i < diceCount :: 1 <= r.individualRolls[i] <= diceSides)
      && r.total == Sum(r.individualRolls) + modifier
      && diceCount + modifier <= r.total <= diceCount * diceSides + modifier
  {
    SumBounds(draws[..diceCount], 1, diceSides);
  }

  /** Unlike the browser engine, the total is not floored at 0. */
  lemma RollDiceNotFloored()
    ensures RollDice(1, 4, -5, [1]) == Ok(DiceRoll(1, 4, -5, [1], -4))
  {
    assert [1][..1] == [1];
  }

  predicate DrawsFor(notation: string, draws: seq<int>) {
    var p := ParseDiceNotation(notation);
    p.Ok? && p.value.0 > 0 && p.value.1 > 0 ==> |draws| >= p.value.0
  }

  /**
    roll_from_notation: a parse error propagates; a parsed count or sides
    that is not positive raises roll_dice's error; otherwise the roll has the
    parsed count, sides and modifier, the first `count` draws, and their sum
    plus the modifier as total.
  */
  function RollFromNotation(notation: string, draws: seq<int>): (r: Result<DiceRoll, PyError>)
    requires DrawsFor(notation, draws)
    ensures ParseDiceNotation(notation).Err? ==> r == Err(ParseDiceNotation(notation).error)
    ensures ParseDiceNotation(notation).Ok? && (ParseDiceNotation(notation).value.0 <= 0 || ParseDiceNotation(notation).value.1 <= 0) ==>
      r == Err(ValueError("Dice count and sides must be positive"))
    ensures r.Ok? ==> r.value.total == Sum(r.value.individualRolls) + r.value.modifier
    ensures r.Ok? ==> ParseDiceNotation(notation) == Ok((r.value.diceCount, r.value.diceSides, r.value.modifier))
    ensures r.Ok? ==> 0 < r.value.diceCount <= |draws| && r.value.individualRolls == draws[..r.value.diceCount]
  {
    var p := ParseDiceNotation(notation);
    if p.Err? then Err(p.error)
    else RollDice(p.value.0, p.value.1, p.value.2, draws)
  }

  // ---------------------------------------------------------------------
  // Text form
  // ---------------------------------------------------------------------

  /** ", ".join(map(str, rolls)) */
  function JoinRolls(rolls: seq<int>): string {
    if rolls == [] then ""
    else if |rolls| == 1 then IntToString(rolls[0])
    else IntToString(rolls[0]) + ", " + JoinRolls(rolls[1..])
  }

  /** A single roll is written without a separator. */
  lemma JoinRollsSingle(x: int)
    ensures JoinRolls([x]) == IntToString(x)
  {
  }

  /** Joining two non-empty runs puts exactly one ", " between them. */
  lemma {:induction false} JoinRollsAppend(a: seq<int>, b: seq<int>)
    requires a != [] && b != []
    ensures JoinRolls(a + b) == JoinRolls(a) + ", " + JoinRolls(b)
    decreases |a|
  {
    assert (a + b)[0] == a[0];
    if |a| == 1 {
      assert (a + b)[1..] == b;
    } else {
      assert (a + b)[1..] == a[1..] + b;
      JoinRollsAppend(a[1..], b);
    }
  }

  /** DiceRoll.__str__ */
  function RollToString(r: DiceRoll): string {
    var rollsStr := JoinRolls(r.individualRolls);
    if r.modifier != 0 then
      var modifierStr := SignedString(r.modifier);
      IntToString(r.diceCount) + "d" + IntToString(r.diceSides) + modifierStr + ": [" + rollsStr + "] " + modifierStr + " = " + IntToString(r.total)
    else
      IntToString(r.diceCount) + "d" + IntToString(r.diceSides) + ": [" + rollsStr + "] = " + IntToString(r.total)
  }

  lemma ConcatWithModifier(c: string, sd: string, ms: string, j: string, e: string)
    ensures c + "d" + sd + ms + ": [" + j + "] " + ms + " = " + e
      == (c + "d" + sd + ms + ": [") + (j + ("] " + ms + " ")) + ("= " + e)
  {
  }

  lemma ConcatWithoutModifier(c: string, sd: string, j: string, e: string)
    ensures c + "d" + sd + ": [" + j + "] = " + e == (c + "d" + sd + ": [") + (j + "] ") + ("= " + e)
  {
  }

  /** The text of a roll, split at the end of its notation and before its total. */
  lemma RollToStringParts(r: DiceRoll)
    requires r.diceCount >= 0 && r.diceSides >= 0
    ensures var h := Notation(r.diceCount, r.diceSides, if r.modifier != 0 then Some(r.modifier) else None);
      var mid := JoinRolls(r.individualRolls) + (if r.modifier != 0 then "] " + SignedString(r.modifier) + " " else "] ");
      RollToString(r) == (h + ": [") + mid + ("= " + IntToString(r.total))
  {
    var c, sd := IntToString(r.diceCount), IntToString(r.diceSides);
    assert c == NatToString(r.diceCount) && sd == NatToString(r.diceSides);
    var j, e := JoinRolls(r.individualRolls), IntToString(r.total);
    if r.modifier != 0 {
      ConcatWithModifier(c, sd, SignedString(r.modifier), j, e);
    } else {
      ConcatWithoutModifier(c, sd, j, e);
      assert ModText(None) == [];
      assert c + "d" + sd + ModText(None) == c + "d" + sd;
    }
  }

  /**
    The text of a roll starts with its notation, "{c}d{s}" followed by the
    signed modifier only when that is nonzero, then ": [", and it ends with
    "= " and the total; for non-negative counts that notation parses back to
    the roll's count, sides and modifier.
  */
  lemma RollToStringHeader(r: DiceRoll)
    requires r.diceCount >= 0 && r.diceSides >= 0
    ensures var h := Notation(r.diceCount, r.diceSides, if r.modifier != 0 then Some(r.modifier) else None);
      && h + ": [" <= RollToString(r)
      && ParseDiceNotation(h) == Ok((r.diceCount, r.diceSides, r.modifier))
    ensures var t := "= " + IntToString(r.total);
      |t| <= |RollToString(r)| && RollToString(r)[|RollToString(r)| - |t|..] == t
  {
    var m := if r.modifier != 0 then Some(r.modifier) else None;
    NotationRoundTrip(r.diceCount, r.diceSides, m);
    RollToStringParts(r);
    var h := Notation(r.diceCount, r.diceSides, m) + ": [";
    var mid := JoinRolls(r.individualRolls) + (if r.modifier != 0 then "] " + SignedString(r.modifier) + " " else "] ");
    var t := "= " + IntToString(r.total);
    PrefixSuffix(h, mid, t);
  }

  lemma PrefixSuffix(a: string, b: string, c: string)
    ensures a <= a + b + c
    ensures (a + b + c)[|a + b + c| - |c|..] == c
  {
    assert (a + b + c)[..|a|] == a;
  }

  // ---------------------------------------------------------------------
  // Spells
  // ---------------------------------------------------------------------

  datatype Spell = Spell(name: string, description: string, dice: string, missiles: seq<int>, scalable: bool)

  const MAGIC_MISSILE: string := "magic_missile"

  /** The spells table built in DiceRoller.__init__. */
  function Spells(): map<string, Spell> {
    map[
      MAGIC_MISSILE := Spell("Magic Missile", "1d4+1 force damage per missile", "1d4+1", [1, 2, 3, 4, 5, 6, 7, 8, 9], false),
      "cure_wounds" := Spell("Cure Wounds", "1d8 + spellcasting modifier", "1d8", [], true),
      "fireball" := Spell("Fireball", "8d6 fire damage", "8d6", [], true),
      "healing_word" := Spell("Healing Word", "1d4 + spellcasting modifier", "1d4", [], true)
    ]
  }

  /** spell_name.lower().replace(" ", "_") */
  function SpellKey(spellName: string): string {
    SpacesToUnderscores(Lower(spellName))
  }

  /** Python's s[j]: a negative index counts from the end; out of range raises IndexError. */
  function PyIndex(s: seq<int>, j: int): (r: Result<int, PyError>)
    ensures 0 <= j < |s| ==> r == Ok(s[j])
    ensures -|s| <= j < 0 ==> r == Ok(s[|s| + j])
    ensures (j < -|s| || j >= |s|) ==> r == Err(IndexError)
  {
    if 0 <= j < |s| then Ok(s[j])
    else if -|s| <= j < 0 then Ok(s[|s| + j])
    else Err(IndexError)
  }

  /** missiles[min(spell_level - 1, len(missiles) - 1)] for Magic Missile. */
  function MissileCount(spellLevel: int): (r: Result<int, PyError>)
    ensures 1 <= spellLevel <= 9 ==> r == Ok(spellLevel)
    ensures spellLevel > 9 ==> r == Ok(9)
    ensures -8 <= spellLevel <= 0 ==> r == Ok(spellLevel + 9)
    ensures spellLevel <= -9 ==> r == Err(IndexError)
  {
    var missiles := Spells()[MAGIC_MISSILE].missiles;
    PyIndex(missiles, Min(spellLevel - 1, |missiles| - 1))
  }

  /** The notation a spell other than Magic Missile rolls: "+m" appended for m > 0, "m" (already signed) for m < 0. */
  function SpellNotation(dice: string, modifier: int): string {
    if modifier > 0 then dice + "+" + IntToString(modifier)
    else if modifier < 0 then dice + IntToString(modifier)
    else dice
  }

  /** The built notation's modifier parses back to exactly the spell's modifier argument. */
  lemma SpellNotationModifier(c: nat, s: nat, modifier: int)
    ensures ParseDiceNotation(SpellNotation(Notation(c, s, None), modifier)) == Ok((c, s, modifier))
  {
    var base := Notation(c, s, None);
    if modifier != 0 {
      assert SpellNotation(base, modifier) == Notation(c, s, Some(modifier));
    }
    NotationRoundTrip(c, s, if modifier != 0 then Some(modifier) else None);
  }

  /** The dice notation of each entry of the table and the values it parses to. */
  lemma SpellDice(key: string)
    requires key in Spells()
    ensures key == MAGIC_MISSILE ==> Spells()[key].dice == Notation(1, 4, Some(1))
    ensures key == "cure_wounds" ==> Spells()[key].dice == Notation(1, 8, None)
    ensures key == "fireball" ==> Spells()[key].dice == Notation(8, 6, None)
    ensures key == "healing_word" ==> Spells()[key].dice == Notation(1, 4, None)
  {
    assert NatToString(1) == "1" && NatToString(4) == "4" && NatToString(8) == "8" && NatToString(6) == "6";
  }

  /** The table has exactly these four keys. */
  lemma SpellKeys(key: string)
    ensures key in Spells() <==> key == MAGIC_MISSILE || key == "cure_wounds" || key == "fireball" || key == "healing_word"
  {
  }

  /** How many values of the random source a call of roll_spell takes. */
  function SpellDraws(spellName: string, spellLevel: int): nat {
    var key := SpellKey(spellName);
    if key == MAGIC_MISSILE then (var m := MissileCount(spellLevel); if m.Ok? && m.value > 0 then m.value else 0)
    else if key == "fireball" then 8
    else if key == "cure_wounds" || key == "healing_word" then 1
    else 0
  }

  /** The spell's (count, sides) for a spell other than Magic Missile. */
  function SpellCountSides(key: string): (nat, nat) {
    if key == "cure_wounds" then (1, 8) else if key == "fireball" then (8, 6) else (1, 4)
  }

  /** A notation with zero dice, or with zero-sided dice, parses but raises when rolled. */
  lemma ZeroDiceRejected(c: nat, s: nat, m: Option<int>, draws: seq<int>)
    requires c == 0 || s == 0
    ensures DrawsFor(Notation(c, s, m), draws)
    ensures RollFromNotation(Notation(c, s, m), draws) == Err(ValueError("Dice count and sides must be positive"))
  {
    NotationRoundTrip(c, s, m);
  }

  /** Once a notation parses, rolling it rolls the parsed dice with the parsed modifier. */
  lemma RollFromParsed(n: string, c: int, s: int, modifier: int, ds: seq<int>)
    requires ParseDiceNotation(n) == Ok((c, s, modifier))
    requires c > 0 && s > 0 && |ds| >= c
    ensures DrawsFor(n, ds)
    ensures RollFromNotation(n, ds) == RollDice(c, s, modifier, ds)
  {
  }

  lemma SumSingle(x: int)
    ensures Sum([x]) == x
  {
    assert [x][..0] == [];
  }

  /** Magic Missile's "1d4+1" parses to one d4 plus 1. */
  lemma MagicMissileDice()
    ensures ParseDiceNotation(Spells()[MAGIC_MISSILE].dice) == Ok((1, 4, 1))
  {
    SpellDice(MAGIC_MISSILE);
    NotationRoundTrip(1, 4, Some(1));
  }

  /** The other spells' dice are plain "{c}d{s}" notations. */
  lemma OtherSpellDice(key: string)
    requires key in Spells() && key != MAGIC_MISSILE
    ensures Spells()[key].dice == Notation(SpellCountSides(key).0, SpellCountSides(key).1, None)
  {
    SpellKeys(key);
    SpellDice(key);
  }

  /** A spell other than Magic Missile rolls its own dice with the caller's modifier. */
  lemma SpellRoll(c: nat, s: nat, modifier: int, ds: seq<int>)
    requires c > 0 && s > 0 && |ds| >= c
    ensures DrawsFor(SpellNotation(Notation(c, s, None), modifier), ds)
    ensures RollFromNotation(SpellNotation(Notation(c, s, None), modifier), ds)
      == Ok(DiceRoll(c, s, modifier, ds[..c], Sum(ds[..c]) + modifier))
  {
    SpellNotationModifier(c, s, modifier);
    RollFromParsed(SpellNotation(Notation(c, s, None), modifier), c, s, modifier, ds);
    RollDiceOk(c, s, modifier, ds);
  }

  /** The roll a spell other than Magic Missile makes: its own dice, the caller's modifier. */
  function SpellRollOf(key: string, modifier: int, draws: seq<int>): DiceRoll
    requires |draws| >= SpellCountSides(key).0
  {
    var c := SpellCountSides(key).0;
    DiceRoll(c, SpellCountSides(key).1, modifier, draws[..c], Sum(draws[..c]) + modifier)
  }

  /** The roll of one die showing x with a modifier. */
  function SingleRoll(sides: int, modifier: int, x: int): DiceRoll {
    DiceRoll(1, sides, modifier, [x], x + modifier)
  }

  /** A notation of one die takes one draw and adds the modifier to it. */
  lemma OneDieRoll(dice: string, sides: int, modifier: int, ds: seq<int>)
    requires ParseDiceNotation(dice) == Ok((1, sides, modifier)) && sides > 0
    requires |ds| >= 1
    ensures DrawsFor(dice, ds)
    ensures RollFromNotation(dice, ds) == Ok(SingleRoll(sides, modifier, ds[0]))
  {
    RollFromParsed(dice, 1, sides, modifier, ds);
    RollOneDie(sides, modifier, ds);
  }

  lemma RollOneDie(sides: int, modifier: int, ds: seq<int>)
    requires sides > 0 && |ds| >= 1
    ensures RollDice(1, sides, modifier, ds) == Ok(SingleRoll(sides, modifier, ds[0]))
  {
    assert ds[..1] == [ds[0]];
    SumSingle(ds[0]);
  }

  /** The loop of roll_spell that rolls a one-die notation n times, taking one draw each time. */
  method RollEach(dice: string, sides: int, modifier: int, n: nat, draws: seq<int>) returns (results: seq<DiceRoll>)
    requires ParseDiceNotation(dice) == Ok((1, sides, modifier)) && sides > 0
    requires |draws| >= n
    ensures |results| == n
    ensures forall j | 0 <= j < n :: results[j] == SingleRoll(sides, modifier, draws[j])
  {
    results := [];
    var i := 0;
    while i < n
      invariant 0 <= i <= n
      invariant |results| == i
      invariant forall j | 0 <= j < i :: results[j] == SingleRoll(sides, modifier, draws[j])
    {
      var rest := draws[i..];
      OneDieRoll(dice, sides, modifier, rest);
      var result := RollFromNotation(dice, rest);
      results := results + [result.value];
      i := i + 1;
    }
  }

  /** roll_spell; the printing it does is left out. */
  method RollSpell(spellName: string, spellLevel: int, modifier: int, draws: seq<int>) returns (r: Result<seq<DiceRoll>, PyError>)
    requires |draws| >= SpellDraws(spellName, spellLevel)
    ensures SpellKey(spellName) !in Spells() ==> r == Err(ValueError("Unknown spell: " + SpellKey(spellName)))
    ensures SpellKey(spellName) == MAGIC_MISSILE && MissileCount(spellLevel).Err? ==> r == Err(IndexError)
    ensures SpellKey(spellName) == MAGIC_MISSILE && MissileCount(spellLevel).Ok? ==>
      && r.Ok? && |r.value| == MissileCount(spellLevel).value
      && forall i | 0 <= i < |r.value| :: r.value[i] == SingleRoll(4, 1, draws[i])
    ensures SpellKey(spellName) in Spells() && SpellKey(spellName) != MAGIC_MISSILE ==>
      && r.Ok? && |r.value| == 1
      && r.value[0] == SpellRollOf(SpellKey(spellName), modifier, draws)
  {
    var key := SpellKey(spellName);
    if key !in Spells() {
      return Err(ValueError("Unknown spell: " + key));
    }
    var spell := Spells()[key];
    var results: seq<DiceRoll> := [];
    if key == MAGIC_MISSILE {
      var missiles := PyIndex(spell.missiles, Min(spellLevel - 1, |spell.missiles| - 1));
      assert missiles == MissileCount(spellLevel);
      if missiles.Err? {
        return Err(missiles.error);
      }
      MagicMissileDice();
      results := RollEach(spell.dice, 4, 1, missiles.value, draws);
    } else {
      var diceNotation := spell.dice;
      if modifier > 0 {
        diceNotation := diceNotation + "+" + IntToString(modifier);
      } else if modifier < 0 {
        diceNotation := diceNotation + IntToString(modifier);
      }
      var c, s := SpellCountSides(key).0, SpellCountSides(key).1;
      OtherSpellDice(key);
      assert diceNotation == SpellNotation(Notation(c, s, None), modifier);
      SpellRoll(c, s, modifier, draws);
      var result := RollFromNotation(diceNotation, draws);
      results := results + [result.value];
    }
    r := Ok(results);
  }
}
