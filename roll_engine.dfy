/**
  The roll engine of the browser dice roller: rollDiceLine evaluates one
  configured line in stages (draw, per-die modifier, sort and mark for drop,
  reroll, clamp, total, floor). The line's settings, which the source reads
  from the page, arrive as a LineConfig; the dice Math.random would produce
  arrive as the sequence `draws`, consumed in order: one per die, then one per
  rerolled die.
*/
module RollEngine {
  import opened Wrappers

  datatype Sign = Plus | Minus            // pos-neg select: "+" / "-"
  datatype ModTarget = ToEach | ToTotal   // mod-target select: "to each" (0) / "to total" (1)
  datatype DropMode = Drop | Reroll       // ignore-reroll select: 0 / 1
  datatype Extreme = Lowest | Highest     // low-high select: 0 / 1
  datatype LimitMode = Minimum | Maximum  // min-max select: 0 / 1

  /** The settings of one line, after parseInt on the number inputs. */
  datatype LineConfig = LineConfig(
    count: int,            // d-count
    sides: int,            // the number in the selected d-type label
    sign: Sign,
    mod: int,              // d-mod
    target: ModTarget,
    dropOn: bool,          // option-1 checkbox
    dropMode: DropMode,
    extreme: Extreme,
    dropCount: int,        // drop-count
    limitOn: bool,         // option-2 checkbox
    limitMode: LimitMode,
    limit: int)            // limiter

  /**
    One entry of the `rolls` array. An absent JavaScript property reads as
    false (flags) or as no value (rerollRaw); `clamped` stands for the
    `modified` and `isMinMax` properties, which the source always sets together.
  */
  datatype Die = Die(
    original: int,
    final: int,
    rerollRaw: Option<int>,
    dropped: bool,
    rerolled: bool,
    clamped: bool)

  // ---------------------------------------------------------------------
  // Settings derived from the configuration
  // ---------------------------------------------------------------------

  /** The number of iterations of the draw loop `for (d = 0; d < dCount; d++)`. */
  function DiceCount(cfg: LineConfig): nat {
    if cfg.count > 0 then cfg.count else 0
  }

  /** The modifier with its sign applied. */
  function SignedMod(cfg: LineConfig): int {
    if cfg.sign == Minus then -cfg.mod else cfg.mod
  }

  /** "to each" is selected and the modifier is positive. */
  predicate PerDieActive(cfg: LineConfig) {
    cfg.target == ToEach && cfg.mod > 0
  }

  /** The drop/reroll option is checked with a positive count. */
  predicate SelectionActive(cfg: LineConfig) {
    cfg.dropOn && cfg.dropCount > 0
  }

  predicate RerollActive(cfg: LineConfig) {
    SelectionActive(cfg) && cfg.dropMode == Reroll
  }

  /** How many dice the marking loop flags: Math.min(dropCount, rolls.length). */
  function MarkCount(cfg: LineConfig): nat {
    if SelectionActive(cfg) then Min(cfg.dropCount, DiceCount(cfg)) else 0
  }

  /** How many values the engine takes from the random source. */
  function DrawsNeeded(cfg: LineConfig): nat {
    DiceCount(cfg) + (if RerollActive(cfg) then MarkCount(cfg) else 0)
  }

  /** What a random draw of the source always satisfies: Math.floor(Math.random() * dSide) + 1 lies in [1, dSide]. */
  predicate DrawsInRange(cfg: LineConfig, draws: seq<int>) {
    forall i | 0 <= i < |draws| :: 1 <= draws[i] <= cfg.sides
  }

  /** The value a raw draw contributes: raw plus or minus dMod when "to each" applies. */
  function WithPerDie(cfg: LineConfig, raw: int): (v: int)
    ensures PerDieActive(cfg) ==> v == raw + SignedMod(cfg)
    ensures !PerDieActive(cfg) ==> v == raw
  {
    if PerDieActive(cfg) then
      (if cfg.sign == Minus then raw - cfg.mod else raw + cfg.mod)
    else raw
  }

  /** The signed modifier added to the total: only for "to total" with dMod > 0. */
  function TotalModifier(cfg: LineConfig): int {
    if cfg.target == ToTotal && cfg.mod > 0 then SignedMod(cfg) else 0
  }

  function Floor(t: int): (r: int)
    ensures r >= 0 && r >= t
    ensures t >= 0 ==> r == t
  {
    if t < 0 then 0 else t
  }

  // ---------------------------------------------------------------------
  // Stage 1 and 2: draw, with the per-die modifier
  // ---------------------------------------------------------------------

  function FreshDie(cfg: LineConfig, raw: int): Die {
    Die(raw, WithPerDie(cfg, raw), None, false, false, false)
  }

  /** The array the push loop builds from the first DiceCount(cfg) draws. */
  function Drawn(cfg: LineConfig, draws: seq<int>): (r: seq<Die>)
    requires |draws| >= DiceCount(cfg)
    ensures |r| == DiceCount(cfg)
    ensures forall i | 0 <= i < |r| ::
      r[i].original == draws[i] && r[i].final == WithPerDie(cfg, draws[i]) &&
      r[i].rerollRaw == None && !r[i].dropped && !r[i].rerolled && !r[i].clamped
  {
    seq(DiceCount(cfg), i requires 0 <= i < DiceCount(cfg) => FreshDie(cfg, draws[i]))
  }

  method DrawDice(cfg: LineConfig, draws: seq<int>) returns (rolls: seq<Die>)
    requires |draws| >= DiceCount(cfg)
    ensures rolls == Drawn(cfg, draws)
  {
    rolls := [];
    var d := 0;
    while d < cfg.count
      invariant 0 <= d <= DiceCount(cfg)
      invariant cfg.count <= 0 ==> d == 0
      invariant rolls == Drawn(cfg, draws)[..d]
    {
      var originalRoll := draws[d];
      var finalRoll := originalRoll;
      if cfg.target == ToEach && cfg.mod > 0 {
        finalRoll := if cfg.sign == Minus then originalRoll - cfg.mod else originalRoll + cfg.mod;
      }
      rolls := rolls + [Die(originalRoll, finalRoll, None, false, false, false)];
      d := d + 1;
    }
  }

  // ---------------------------------------------------------------------
  // Stage 3: the library sort (stable, by final) and the marking loop
  // ---------------------------------------------------------------------

  /** The comparator `a.final - b.final` (lowest) or `b.final - a.final` (highest) as an ascending key. */
  function SortKey(d: Die, e: Extreme): int {
    if e == Lowest then d.final else -d.final
  }

  predicate SortedByKey(s: seq<Die>, e: Extreme) {
    forall i, j | 0 <= i < j < |s| :: SortKey(s[i], e) <= SortKey(s[j], e)
  }

  /** Places d after every entry whose key is not greater than its own. */
  function Insert(d: Die, s: seq<Die>, e: Extreme): (r: seq<Die>)
    ensures |r| == |s| + 1
  {
    if s == [] then [d]
    else if SortKey(d, e) < SortKey(s[0], e) then [d] + s
    else [s[0]] + Insert(d, s[1..], e)
  }

  /**
    Array.prototype.sort with the engine's comparator. The language requires
    that sort to be stable, and a stable sort with a consistent comparator
    has exactly one result; insertion sort computes it.
  */
  function StableSort(s: seq<Die>, e: Extreme): (r: seq<Die>)
    ensures |r| == |s|
  {
    if s == [] then [] else Insert(s[|s| - 1], StableSort(s[..|s| - 1], e), e)
  }

  /** The entries of s whose key is k, in their order in s. */
  function WithKey(s: seq<Die>, e: Extreme, k: int): seq<Die> {
    if s == [] then []
    else (if SortKey(s[0], e) == k then [s[0]] else []) + WithKey(s[1..], e, k)
  }

  /** The marking loop: the first m entries get dropped = true. */
  function Marked(s: seq<Die>, m: int): (r: seq<Die>)
    ensures |r| == |s|
  {
    seq(|s|, i requires 0 <= i < |s| => if i < m then s[i].(dropped := true) else s[i])
  }

  method MarkDropped(rolls: seq<Die>, dropCount: int) returns (marked: seq<Die>)
    ensures marked == Marked(rolls, Min(dropCount, |rolls|))
  {
    marked := rolls;
    var i := 0;
    while i < Min(dropCount, |marked|)
      invariant 0 <= i && |marked| == |rolls|
      invariant i <= Min(dropCount, |rolls|) || i == 0
      invariant forall j | 0 <= j < |rolls| :: marked[j] == if j < i then rolls[j].(dropped := true) else rolls[j]
    {
      marked := marked[i := marked[i].(dropped := true)];
      i := i + 1;
    }
  }

  /** The array after the sort and marking stage (unchanged when that stage is off). */
  function Selected(cfg: LineConfig, rolls: seq<Die>): (r: seq<Die>)
    ensures |r| == |rolls|
  {
    if SelectionActive(cfg) then Marked(StableSort(rolls, cfg.extreme), Min(cfg.dropCount, |rolls|))
    else rolls
  }

  // ---------------------------------------------------------------------
  // Stage 4: reroll
  // ---------------------------------------------------------------------

  /** The number of entries flagged dropped. */
  function CountDropped(s: seq<Die>): (n: nat)
    ensures n <= |s|
  {
    if s == [] then 0 else CountDropped(s[..|s| - 1]) + (if s[|s| - 1].dropped then 1 else 0)
  }

  /** The record that replaces a dropped entry: its old final becomes `original`. */
  function RerollDie(cfg: LineConfig, d: Die, raw: int): Die {
    Die(d.final, WithPerDie(cfg, raw), Some(raw), false, true, false)
  }

  /** The reroll loop: every dropped entry, in index order, is replaced using the next value of pool. */
  function Rerolled(cfg: LineConfig, s: seq<Die>, pool: seq<int>): (r: seq<Die>)
    requires |pool| >= CountDropped(s)
    ensures |r| == |s|
  {
    if s == [] then []
    else
      var p := s[..|s| - 1];
      var d := s[|s| - 1];
      Rerolled(cfg, p, pool) + [if d.dropped then RerollDie(cfg, d, pool[CountDropped(p)]) else d]
  }

  method RerollDropped(cfg: LineConfig, rolls: seq<Die>, pool: seq<int>) returns (out: seq<Die>, used: nat)
    requires |pool| >= CountDropped(rolls)
    ensures out == Rerolled(cfg, rolls, pool)
    ensures used == CountDropped(rolls)
  {
    out := rolls;
    used := 0;
    var i := 0;
    while i < |out|
      invariant 0 <= i <= |rolls| && |out| == |rolls|
      invariant CountDropped(rolls[..i]) <= CountDropped(rolls)
      invariant out[..i] == Rerolled(cfg, rolls[..i], pool)
      invariant forall j | i <= j < |rolls| :: out[j] == rolls[j]
      invariant used == CountDropped(rolls[..i])
    {
      RerolledStep(cfg, rolls, pool, i);
      ghost var before := out;
      if out[i].dropped {
        var newRoll := pool[used];
        var finalRoll := newRoll;
        if cfg.target == ToEach && cfg.mod > 0 {
          finalRoll := if cfg.sign == Minus then newRoll - cfg.mod else newRoll + cfg.mod;
        }
        out := out[i := Die(out[i].final, finalRoll, Some(newRoll), false, true, false)];
        used := used + 1;
      }
      assert out[..i] == before[..i];
      assert out[..i + 1] == out[..i] + [out[i]];
      i := i + 1;
    }
    assert rolls[..i] == rolls;
    assert out[..i] == out;
  }

  /** One step of the reroll loop: the prefix grows by entry i, rerolled with the next pool value if dropped. */
  lemma RerolledStep(cfg: LineConfig, rolls: seq<Die>, pool: seq<int>, i: nat)
    requires i < |rolls| && |pool| >= CountDropped(rolls)
    ensures CountDropped(rolls[..i]) <= CountDropped(rolls[..i + 1]) <= CountDropped(rolls)
    ensures rolls[i].dropped ==> CountDropped(rolls[..i]) < |pool|
    ensures CountDropped(rolls[..i + 1]) == CountDropped(rolls[..i]) + (if rolls[i].dropped then 1 else 0)
    ensures Rerolled(cfg, rolls[..i + 1], pool) == Rerolled(cfg, rolls[..i], pool)
      + [if rolls[i].dropped then RerollDie(cfg, rolls[i], pool[CountDropped(rolls[..i])]) else rolls[i]]
  {
    var p := rolls[..i + 1];
    assert p[..i] == rolls[..i] && p[i] == rolls[i];
    CountDroppedPrefixLe(rolls, i + 1);
    CountDroppedPrefixLe(rolls, i);
    if rolls[i].dropped {
      CountDroppedPrefix(rolls, i + 1);
    }
  }

  // ---------------------------------------------------------------------
  // Stage 5: minimum / maximum per die
  // ---------------------------------------------------------------------

  /** The clamp loop body for one entry. */
  function ClampDie(cfg: LineConfig, d: Die): (r: Die)
    ensures !d.dropped && cfg.limitMode == Minimum ==> r.final >= cfg.limit
    ensures !d.dropped && cfg.limitMode == Maximum ==> r.final <= cfg.limit
    ensures d.dropped ==> r == d
    ensures (cfg.limitMode == Minimum && d.final >= cfg.limit) ==> r == d
    ensures (cfg.limitMode == Maximum && d.final <= cfg.limit) ==> r == d
    ensures r != d ==> r == Die(d.final, cfg.limit, None, false, d.rerolled, true)
  {
    if !d.dropped && ((cfg.limitMode == Minimum && d.final < cfg.limit) || (cfg.limitMode == Maximum && d.final > cfg.limit)) then
      Die(d.final, cfg.limit, None, false, d.rerolled, true)
    else d
  }

  function Clamped(cfg: LineConfig, s: seq<Die>): (r: seq<Die>)
    ensures |r| == |s|
  {
    seq(|s|, i requires 0 <= i < |s| => ClampDie(cfg, s[i]))
  }

  method ClampDice(cfg: LineConfig, rolls: seq<Die>) returns (out: seq<Die>)
    ensures out == Clamped(cfg, rolls)
  {
    out := rolls;
    var i := 0;
    while i < |out|
      invariant 0 <= i <= |rolls| && |out| == |rolls|
      invariant forall j | 0 <= j < |rolls| :: out[j] == if j < i then ClampDie(cfg, rolls[j]) else rolls[j]
    {
      var currentRoll := out[i];
      if !currentRoll.dropped {
        if cfg.limitMode == Minimum && currentRoll.final < cfg.limit {
          out := out[i := Die(currentRoll.final, cfg.limit, None, false, currentRoll.rerolled, true)];
        } else if cfg.limitMode == Maximum && currentRoll.final > cfg.limit {
          out := out[i := Die(currentRoll.final, cfg.limit, None, false, currentRoll.rerolled, true)];
        }
      }
      i := i + 1;
    }
  }

  // ---------------------------------------------------------------------
  // Stages 6 to 8 and the whole line
  // ---------------------------------------------------------------------

  /** The reduce at line 916: the sum of `final` over the entries not dropped. */
  function KeptSum(s: seq<Die>): int {
    if s == [] then 0 else KeptSum(s[..|s| - 1]) + (if s[|s| - 1].dropped then 0 else s[|s| - 1].final)
  }

  /** The array after the reroll stage. */
  function AfterReroll(cfg: LineConfig, draws: seq<int>): (r: seq<Die>)
    requires |draws| >= DrawsNeeded(cfg)
    ensures |r| == DiceCount(cfg)
  {
    var s := Selected(cfg, Drawn(cfg, draws));
    if RerollActive(cfg) then
      SelectedCount(cfg, draws);
      Rerolled(cfg, s, draws[DiceCount(cfg)..])
    else s
  }

  /** The `rolls` array at the end of rollDiceLine. */
  function LineRolls(cfg: LineConfig, draws: seq<int>): (r: seq<Die>)
    requires |draws| >= DrawsNeeded(cfg)
    ensures |r| == DiceCount(cfg)
  {
    var s := AfterReroll(cfg, draws);
    if cfg.limitOn then Clamped(cfg, s) else s
  }

  /** `dTotal` at the end of rollDiceLine. */
  function LineTotal(cfg: LineConfig, draws: seq<int>): int
    requires |draws| >= DrawsNeeded(cfg)
  {
    Floor(KeptSum(LineRolls(cfg, draws)) + TotalModifier(cfg))
  }

  method RollDiceLine(cfg: LineConfig, draws: seq<int>) returns (rolls: seq<Die>, total: int, used: nat)
    requires |draws| >= DrawsNeeded(cfg)
    ensures rolls == LineRolls(cfg, draws)
    ensures total == LineTotal(cfg, draws)
    ensures total >= 0 && total == Floor(KeptSum(rolls) + TotalModifier(cfg))
    ensures used == DrawsNeeded(cfg)
  {
    var n := DiceCount(cfg);
    rolls := DrawDice(cfg, draws);
    used := n;
    if cfg.dropOn && cfg.dropCount > 0 {
      rolls := StableSort(rolls, cfg.extreme);
      rolls := MarkDropped(rolls, cfg.dropCount);
      if cfg.dropMode == Reroll {
        SelectedCount(cfg, draws);
        var extra;
        rolls, extra := RerollDropped(cfg, rolls, draws[n..]);
        used := used + extra;
      }
    }
    if cfg.limitOn {
      rolls := ClampDice(cfg, rolls);
    }
    total := KeptSum(rolls);
    if cfg.target == ToTotal && cfg.mod > 0 {
      var mod := if cfg.sign == Minus then 0 - cfg.mod else cfg.mod;
      total := total + mod;
    }
    if total < 0 {
      total := 0;
    }
  }

  // ---------------------------------------------------------------------
  // Lemmas
  // ---------------------------------------------------------------------

  lemma {:induction false} CountDroppedPrefixLe(s: seq<Die>, i: nat)
    requires i <= |s|
    ensures CountDropped(s[..i]) <= CountDropped(s)
    decreases |s|
  {
    if i < |s| {
      CountDroppedPrefixLe(s[..|s| - 1], i);
      assert s[..|s| - 1][..i] == s[..i];
    } else {
      assert s[..i] == s;
    }
  }

  lemma {:induction false} CountDroppedPrefix(s: seq<Die>, i: nat)
    requires 0 < i <= |s| && s[i - 1].dropped
    ensures CountDropped(s[..i - 1]) < CountDropped(s[..i]) <= CountDropped(s)
    decreases |s|
  {
    assert s[..i][..i - 1] == s[..i - 1];
    if i < |s| {
      CountDroppedPrefix(s[..|s| - 1], i);
      assert s[..|s| - 1][..i] == s[..i];
    } else {
      assert s[..i] == s;
    }
  }

  /** Exactly the first m entries of a fresh array are dropped after marking. */
  lemma {:induction false} CountDroppedMarked(s: seq<Die>, m: nat)
    requires m <= |s|
    requires forall i | 0 <= i < |s| :: !s[i].dropped
    ensures CountDropped(Marked(s, m)) == m
    decreases |s|
  {
    if s != [] {
      var p := s[..|s| - 1];
      var mp := if m == |s| then m - 1 else m;
      assert Marked(s, m)[..|s| - 1] == Marked(p, mp);
      CountDroppedMarked(p, mp);
    }
  }

  /** The marking stage flags min(dropCount, dCount) dice when it runs, none otherwise. */
  lemma SelectedCount(cfg: LineConfig, draws: seq<int>)
    requires |draws| >= DiceCount(cfg)
    ensures CountDropped(Selected(cfg, Drawn(cfg, draws))) == MarkCount(cfg)
  {
    var d := Drawn(cfg, draws);
    if SelectionActive(cfg) {
      var s := StableSort(d, cfg.extreme);
      SortPermutation(d, cfg.extreme);
      forall i | 0 <= i < |s| ensures !s[i].dropped {
        assert s[i] in multiset(d);
      }
      CountDroppedMarked(s, Min(cfg.dropCount, |d|));
    } else {
      NoneDroppedCount(d);
    }
  }

  lemma {:induction false} NoneDroppedCount(s: seq<Die>)
    requires forall i | 0 <= i < |s| :: !s[i].dropped
    ensures CountDropped(s) == 0
  {
    if s != [] {
      NoneDroppedCount(s[..|s| - 1]);
    }
  }

  lemma {:induction false} InsertMultiset(d: Die, s: seq<Die>, e: Extreme)
    ensures multiset(Insert(d, s, e)) == multiset(s) + multiset{d}
  {
    if s == [] {
    } else if SortKey(d, e) < SortKey(s[0], e) {
      assert Insert(d, s, e) == [d] + s;
    } else {
      var r := Insert(d, s[1..], e);
      InsertMultiset(d, s[1..], e);
      assert Insert(d, s, e) == [s[0]] + r;
      assert s == [s[0]] + s[1..];
      assert multiset([s[0]] + r) == multiset{s[0]} + multiset(r);
    }
  }

  /** A lower bound on every key survives the insertion of a die above it. */
  lemma {:induction false} InsertBound(d: Die, s: seq<Die>, e: Extreme, b: int)
    requires forall i | 0 <= i < |s| :: b <= SortKey(s[i], e)
    requires b <= SortKey(d, e)
    ensures forall i | 0 <= i < |s| + 1 :: b <= SortKey(Insert(d, s, e)[i], e)
  {
    if s != [] && SortKey(d, e) >= SortKey(s[0], e) {
      InsertBound(d, s[1..], e, b);
      var r := Insert(d, s[1..], e);
      forall i | 0 < i < |s| + 1 ensures b <= SortKey(Insert(d, s, e)[i], e) {
        assert Insert(d, s, e)[i] == r[i - 1];
      }
    }
  }

  lemma {:induction false} InsertSorted(d: Die, s: seq<Die>, e: Extreme)
    requires SortedByKey(s, e)
    ensures SortedByKey(Insert(d, s, e), e)
    ensures multiset(Insert(d, s, e)) == multiset(s) + multiset{d}
  {
    InsertMultiset(d, s, e);
    if s != [] && SortKey(d, e) >= SortKey(s[0], e) {
      InsertSorted(d, s[1..], e);
      var r := Insert(d, s[1..], e);
      InsertBound(d, s[1..], e, SortKey(s[0], e));
      assert Insert(d, s, e) == [s[0]] + r;
      forall i, j | 0 <= i < j < |r| + 1 ensures SortKey(([s[0]] + r)[i], e) <= SortKey(([s[0]] + r)[j], e) {
        if i > 0 {
          assert ([s[0]] + r)[i] == r[i - 1];
        }
        assert ([s[0]] + r)[j] == r[j - 1];
      }
    }
  }

  /** The sort orders by the comparator and only rearranges its input. */
  lemma {:induction false} SortPermutation(s: seq<Die>, e: Extreme)
    ensures SortedByKey(StableSort(s, e), e)
    ensures multiset(StableSort(s, e)) == multiset(s)
  {
    if s != [] {
      SortPermutation(s[..|s| - 1], e);
      InsertSorted(s[|s| - 1], StableSort(s[..|s| - 1], e), e);
      assert s == s[..|s| - 1] + [s[|s| - 1]];
    }
  }

  lemma {:induction false} WithKeyAppend(a: seq<Die>, b: seq<Die>, e: Extreme, k: int)
    ensures WithKey(a + b, e, k) == WithKey(a, e, k) + WithKey(b, e, k)
  {
    if a == [] {
      assert a + b == b;
    } else {
      var x := a + b;
      assert x[0] == a[0] && x[1..] == a[1..] + b;
      var head: seq<Die> := if SortKey(a[0], e) == k then [a[0]] else [];
      assert WithKey(x, e, k) == head + WithKey(a[1..] + b, e, k);
      assert WithKey(a, e, k) == head + WithKey(a[1..], e, k);
      WithKeyAppend(a[1..], b, e, k);
    }
  }

  lemma {:induction false} WithKeyAbove(s: seq<Die>, e: Extreme, k: int)
    requires forall i | 0 <= i < |s| :: SortKey(s[i], e) > k
    ensures WithKey(s, e, k) == []
  {
    if s != [] {
      WithKeyAbove(s[1..], e, k);
    }
  }

  lemma SortedTail(s: seq<Die>, e: Extreme)
    requires SortedByKey(s, e) && s != []
    ensures SortedByKey(s[1..], e)
    ensures forall i | 0 <= i < |s[1..]| :: SortKey(s[0], e) <= SortKey(s[1..][i], e)
  {
    forall i, j | 0 <= i < j < |s[1..]| ensures SortKey(s[1..][i], e) <= SortKey(s[1..][j], e) {
      assert s[1..][i] == s[i + 1] && s[1..][j] == s[j + 1];
    }
    forall i | 0 <= i < |s[1..]| ensures SortKey(s[0], e) <= SortKey(s[1..][i], e) {
      assert s[1..][i] == s[i + 1];
    }
  }

  /** A die inserted before a sorted sequence whose first key exceeds its own comes first among its key. */
  lemma InsertFrontWithKey(d: Die, s: seq<Die>, e: Extreme, k: int)
    requires s != [] && SortKey(d, e) < SortKey(s[0], e)
    requires forall i | 0 <= i < |s| :: SortKey(s[0], e) <= SortKey(s[i], e)
    ensures WithKey([d] + s, e, k) == WithKey(s, e, k) + (if SortKey(d, e) == k then [d] else [])
  {
    var x := [d] + s;
    assert x[0] == d && x[1..] == s;
    var own: seq<Die> := if SortKey(d, e) == k then [d] else [];
    assert WithKey(x, e, k) == own + WithKey(s, e, k);
    if SortKey(d, e) == k {
      WithKeyAbove(s, e, k);
    }
  }

  /** Inserting past the first entry: that entry heads both sides. */
  lemma InsertConsWithKey(d: Die, s: seq<Die>, e: Extreme, k: int)
    requires s != [] && SortKey(d, e) >= SortKey(s[0], e)
    requires WithKey(Insert(d, s[1..], e), e, k) == WithKey(s[1..], e, k) + (if SortKey(d, e) == k then [d] else [])
    ensures WithKey(Insert(d, s, e), e, k) == WithKey(s, e, k) + (if SortKey(d, e) == k then [d] else [])
  {
    var r := Insert(d, s[1..], e);
    var x := [s[0]] + r;
    assert Insert(d, s, e) == x;
    assert x[0] == s[0] && x[1..] == r;
    var head: seq<Die> := if SortKey(s[0], e) == k then [s[0]] else [];
    assert WithKey(x, e, k) == head + WithKey(r, e, k);
    assert WithKey(s, e, k) == head + WithKey(s[1..], e, k);
  }

  lemma {:induction false} InsertWithKey(d: Die, s: seq<Die>, e: Extreme, k: int)
    requires SortedByKey(s, e)
    ensures WithKey(Insert(d, s, e), e, k) == WithKey(s, e, k) + (if SortKey(d, e) == k then [d] else [])
  {
    if s == [] {
      assert WithKey([d], e, k) == (if SortKey(d, e) == k then [d] else []) + WithKey([], e, k);
    } else {
      SortedTail(s, e);
      if SortKey(d, e) < SortKey(s[0], e) {
        assert Insert(d, s, e) == [d] + s;
        forall i | 0 <= i < |s| ensures SortKey(s[0], e) <= SortKey(s[i], e) {
          if i > 0 {
            assert s[i] == s[1..][i - 1];
          }
        }
        InsertFrontWithKey(d, s, e, k);
      } else {
        InsertWithKey(d, s[1..], e, k);
        InsertConsWithKey(d, s, e, k);
      }
    }
  }

  /** One insertion of the sort keeps the per-key order of the entries so far. */
  lemma SortStableStep(p: seq<Die>, sp: seq<Die>, d: Die, e: Extreme, k: int)
    requires SortedByKey(sp, e) && WithKey(sp, e, k) == WithKey(p, e, k)
    ensures WithKey(Insert(d, sp, e), e, k) == WithKey(p + [d], e, k)
  {
    InsertWithKey(d, sp, e, k);
    WithKeyAppend(p, [d], e, k);
    assert WithKey([d], e, k) == (if SortKey(d, e) == k then [d] else []) + WithKey([], e, k);
  }

  /** Stability: the dice with any one key keep their relative order through the sort. */
  lemma {:induction false} SortStable(s: seq<Die>, e: Extreme, k: int)
    ensures WithKey(StableSort(s, e), e, k) == WithKey(s, e, k)
  {
    if s != [] {
      var p, d := s[..|s| - 1], s[|s| - 1];
      assert s == p + [d];
      SortStable(p, e, k);
      SortPermutation(p, e);
      SortStableStep(p, StableSort(p, e), d, e, k);
    }
  }

  /**
    The selection stage: when it runs, exactly the first min(dropCount, dCount)
    entries of the sorted array are dropped, every dropped final is at most
    (lowest) or at least (highest) every kept final, and the array is a
    rearrangement of the drawn dice up to the dropped flags; when it does not
    run, nothing is dropped.
  */
  lemma SelectionFacts(cfg: LineConfig, draws: seq<int>)
    requires |draws| >= DiceCount(cfg)
    ensures var s := Selected(cfg, Drawn(cfg, draws));
      && (forall i | 0 <= i < |s| :: s[i].dropped <==> i < MarkCount(cfg))
      && (forall i, j | 0 <= i < |s| && 0 <= j < |s| && s[i].dropped && !s[j].dropped ::
            if cfg.extreme == Lowest then s[i].final <= s[j].final else s[i].final >= s[j].final)
      && multiset(Unflag(s)) == multiset(Drawn(cfg, draws))
  {
    var d := Drawn(cfg, draws);
    var s := Selected(cfg, d);
    if SelectionActive(cfg) {
      var t := StableSort(d, cfg.extreme);
      SortPermutation(d, cfg.extreme);
      forall i | 0 <= i < |t| ensures !t[i].dropped {
        assert t[i] in multiset(d);
      }
      MarkedFacts(t, MarkCount(cfg), cfg.extreme);
    } else {
      assert Unflag(s) == d;
    }
  }

  /** Marking a sorted, unmarked array drops its first m entries, whose keys are the smallest. */
  lemma MarkedFacts(t: seq<Die>, m: int, e: Extreme)
    requires SortedByKey(t, e)
    requires forall i | 0 <= i < |t| :: !t[i].dropped
    ensures forall i | 0 <= i < |t| :: Marked(t, m)[i].dropped <==> i < m
    ensures forall i, j | 0 <= i < |t| && 0 <= j < |t| && Marked(t, m)[i].dropped && !Marked(t, m)[j].dropped ::
      if e == Lowest then Marked(t, m)[i].final <= Marked(t, m)[j].final else Marked(t, m)[i].final >= Marked(t, m)[j].final
    ensures Unflag(Marked(t, m)) == t
  {
    var s := Marked(t, m);
    forall i, j | 0 <= i < |t| && 0 <= j < |t| && s[i].dropped && !s[j].dropped
      ensures if e == Lowest then s[i].final <= s[j].final else s[i].final >= s[j].final
    {
      assert i < j;
      assert SortKey(t[i], e) <= SortKey(t[j], e);
    }
    assert Unflag(s) == t;
  }

  /** The array with every dropped flag cleared. */
  function Unflag(s: seq<Die>): (r: seq<Die>)
    ensures |r| == |s|
    ensures forall i | 0 <= i < |s| :: r[i] == s[i].(dropped := false)
  {
    seq(|s|, i requires 0 <= i < |s| => s[i].(dropped := false))
  }

  /**
    The reroll stage: in reroll mode no entry is left dropped, and each entry
    the selection dropped (the k-th of them, in index order) is replaced by a
    record whose `original` is its old final, whose rerollRaw is the k-th
    reroll draw and whose final follows the "to each" rule; the other entries
    are unchanged. In drop mode the stage changes nothing.
  */
  lemma RerollFacts(cfg: LineConfig, draws: seq<int>)
    requires |draws| >= DrawsNeeded(cfg)
    ensures var s := Selected(cfg, Drawn(cfg, draws));
      var r := AfterReroll(cfg, draws);
      var n := DiceCount(cfg);
      && (!RerollActive(cfg) ==> r == s)
      && (RerollActive(cfg) ==> forall i | 0 <= i < |r| ::
            && !r[i].dropped
            && (s[i].dropped ==> n + i < |draws| && r[i] == Die(s[i].final, WithPerDie(cfg, draws[n + i]), Some(draws[n + i]), false, true, false))
            && (!s[i].dropped ==> r[i] == s[i]))
  {
    if RerollActive(cfg) {
      var n := DiceCount(cfg);
      var s := Selected(cfg, Drawn(cfg, draws));
      SelectionFacts(cfg, draws);
      SelectedCount(cfg, draws);
      var pool := draws[n..];
      forall i | 0 <= i < |s|
        ensures var r := Rerolled(cfg, s, pool);
          && !r[i].dropped
          && (s[i].dropped ==> r[i] == RerollDie(cfg, s[i], pool[i]))
          && (!s[i].dropped ==> r[i] == s[i])
      {
        RerolledAt(cfg, s, pool, i, MarkCount(cfg));
      }
    }
  }

  /** Inside Rerolled, when the dropped entries are the first m, entry i uses pool[i]. */
  lemma {:induction false} RerolledAt(cfg: LineConfig, s: seq<Die>, pool: seq<int>, i: nat, m: nat)
    requires forall j | 0 <= j < |s| :: s[j].dropped <==> j < m
    requires |pool| >= CountDropped(s) && i < |s|
    ensures var r := Rerolled(cfg, s, pool);
      && !r[i].dropped
      && (s[i].dropped ==> i < |pool| && r[i] == RerollDie(cfg, s[i], pool[i]))
      && (!s[i].dropped ==> r[i] == s[i])
    decreases |s|
  {
    var p := s[..|s| - 1];
    if i < |s| - 1 {
      RerolledAt(cfg, p, pool, i, m);
    } else if s[i].dropped {
      PrefixCount(s, i, m);
    }
  }

  /** When exactly the first m entries are dropped, the first i of them hold min(i, m). */
  lemma {:induction false} PrefixCount(s: seq<Die>, i: nat, m: nat)
    requires forall j | 0 <= j < |s| :: s[j].dropped <==> j < m
    requires i <= |s|
    ensures CountDropped(s[..i]) == Min(i, m)
  {
    if i > 0 {
      PrefixCount(s, i - 1, m);
      assert s[..i][..i - 1] == s[..i - 1];
    }
  }

  /** The stage that clamps leaves the dropped flags as they were. */
  lemma ClampKeepsDropped(cfg: LineConfig, s: seq<Die>, i: nat)
    requires i < |s|
    ensures Clamped(cfg, s)[i].dropped == s[i].dropped
  {
  }

  /**
    After the whole line: with the minimum (maximum) option every kept die's
    final is at least (at most) the limit; in drop mode exactly
    min(dropCount, dCount) dice are dropped, and none otherwise; a clamped
    die records its pre-clamp final as `original`, keeps `rerolled` and loses
    rerollRaw.
  */
  lemma LineFacts(cfg: LineConfig, draws: seq<int>)
    requires |draws| >= DrawsNeeded(cfg)
    ensures var r := LineRolls(cfg, draws);
      var a := AfterReroll(cfg, draws);
      && (cfg.limitOn && cfg.limitMode == Minimum ==> forall i | 0 <= i < |r| && !r[i].dropped :: r[i].final >= cfg.limit)
      && (cfg.limitOn && cfg.limitMode == Maximum ==> forall i | 0 <= i < |r| && !r[i].dropped :: r[i].final <= cfg.limit)
      && (RerollActive(cfg) || !SelectionActive(cfg) ==> forall i | 0 <= i < |r| :: !r[i].dropped)
      && (SelectionActive(cfg) && cfg.dropMode == Drop ==> forall i | 0 <= i < |r| :: r[i].dropped <==> i < MarkCount(cfg))
      && (forall i | 0 <= i < |r| && r[i] != a[i] ::
            r[i].clamped && r[i].original == a[i].final && r[i].rerolled == a[i].rerolled && r[i].rerollRaw == None)
  {
    SelectionFacts(cfg, draws);
    RerollFacts(cfg, draws);
  }

  /** The raw value behind an entry: its reroll draw if it was rerolled, else its first draw. */
  function RawOf(d: Die): int {
    if d.rerolled && d.rerollRaw.Some? then d.rerollRaw.value else d.original
  }

  /** A die that shows raw draw x from [1, dSide], passed through the "to each" rule. */
  predicate FromDraw(cfg: LineConfig, d: Die) {
    && 1 <= RawOf(d) <= cfg.sides
    && d.final == WithPerDie(cfg, RawOf(d))
    && (d.rerolled <==> d.rerollRaw.Some?)
  }

  /** After selection, every entry is a fresh draw, not yet rerolled or clamped. */
  lemma SelectedFromDraws(cfg: LineConfig, draws: seq<int>)
    requires |draws| >= DiceCount(cfg) && DrawsInRange(cfg, draws)
    ensures forall i | 0 <= i < DiceCount(cfg) ::
      FromDraw(cfg, Selected(cfg, Drawn(cfg, draws))[i]) && !Selected(cfg, Drawn(cfg, draws))[i].rerolled
        && !Selected(cfg, Drawn(cfg, draws))[i].clamped
  {
    var d := Drawn(cfg, draws);
    var s := Selected(cfg, d);
    SelectionFacts(cfg, draws);
    forall i | 0 <= i < |s|
      ensures FromDraw(cfg, s[i]) && !s[i].rerolled && !s[i].clamped
    {
      assert Unflag(s)[i] in multiset(d);
      var j :| 0 <= j < |d| && d[j] == Unflag(s)[i];
    }
  }

  /** After the reroll stage, every entry shows a draw: its first one, or its reroll draw. */
  lemma AfterRerollFromDraws(cfg: LineConfig, draws: seq<int>)
    requires |draws| >= DrawsNeeded(cfg) && DrawsInRange(cfg, draws)
    ensures forall i | 0 <= i < DiceCount(cfg) :: FromDraw(cfg, AfterReroll(cfg, draws)[i]) && !AfterReroll(cfg, draws)[i].clamped
  {
    var n := DiceCount(cfg);
    var s := Selected(cfg, Drawn(cfg, draws));
    var a := AfterReroll(cfg, draws);
    SelectedFromDraws(cfg, draws);
    RerollFacts(cfg, draws);
    forall i | 0 <= i < |a|
      ensures FromDraw(cfg, a[i]) && !a[i].clamped
    {
      if RerollActive(cfg) && s[i].dropped {
        assert n + i < |draws|;
        assert a[i] == Die(s[i].final, WithPerDie(cfg, draws[n + i]), Some(draws[n + i]), false, true, false);
      }
    }
  }

  /**
    Every entry that was not clamped shows a fresh draw in [1, dSide] passed
    through the "to each" rule; a rerolled one keeps its reroll draw.
  */
  lemma DrawRange(cfg: LineConfig, draws: seq<int>)
    requires |draws| >= DrawsNeeded(cfg) && DrawsInRange(cfg, draws)
    ensures forall i | 0 <= i < DiceCount(cfg) && !LineRolls(cfg, draws)[i].clamped :: FromDraw(cfg, LineRolls(cfg, draws)[i])
  {
    AfterRerollFromDraws(cfg, draws);
  }

  /** With fewer dice to drop than dice, at least one die still counts toward the total. */
  lemma SurvivorExists(cfg: LineConfig, draws: seq<int>)
    requires |draws| >= DrawsNeeded(cfg)
    requires cfg.count >= 1 && cfg.dropCount <= cfg.count - 1
    ensures exists i | 0 <= i < |LineRolls(cfg, draws)| :: !LineRolls(cfg, draws)[i].dropped
  {
    LineFacts(cfg, draws);
    var r := LineRolls(cfg, draws);
    assert !r[DiceCount(cfg) - 1].dropped;
  }

  /** The total is never negative, and equals the kept sum plus the total modifier whenever that is not negative. */
  lemma TotalFacts(cfg: LineConfig, draws: seq<int>)
    requires |draws| >= DrawsNeeded(cfg)
    ensures LineTotal(cfg, draws) >= 0
    ensures KeptSum(LineRolls(cfg, draws)) + TotalModifier(cfg) >= 0 ==>
      LineTotal(cfg, draws) == KeptSum(LineRolls(cfg, draws)) + TotalModifier(cfg)
    ensures KeptSum(LineRolls(cfg, draws)) + TotalModifier(cfg) < 0 ==> LineTotal(cfg, draws) == 0
  {
  }

  /** The dropped entries contribute nothing to the kept sum. */
  lemma {:induction false} KeptSumOfMarked(s: seq<Die>, m: nat)
    requires m <= |s|
    requires forall i | 0 <= i < |s| :: !s[i].dropped
    ensures KeptSum(Marked(s, m)) == KeptSum(s[m..])
    decreases |s|
  {
    if |s| > m {
      var p := s[..|s| - 1];
      assert Marked(s, m)[..|s| - 1] == Marked(p, m);
      KeptSumOfMarked(p, m);
      assert s[m..][..|s[m..]| - 1] == p[m..];
    } else {
      NoneKept(Marked(s, m));
      assert s[m..] == [];
    }
  }

  lemma {:induction false} NoneKept(s: seq<Die>)
    requires forall i | 0 <= i < |s| :: s[i].dropped
    ensures KeptSum(s) == 0
  {
    if s != [] {
      NoneKept(s[..|s| - 1]);
    }
  }
}
