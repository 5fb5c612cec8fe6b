/**
  Worked lines of the roll engine: concrete settings and draws, with the
  rolls array and the total rollDiceLine ends with.
*/
module EngineExamples {
  import opened Wrappers
  import opened RollEngine

  /** A die as the draw loop pushes it without a per-die modifier. */
  function Fresh(v: int): Die {
    Die(v, v, None, false, false, false)
  }

  /** 4d6, drop the lowest one, no modifier, no limit. */
  function DropLowest(): LineConfig {
    LineConfig(4, 6, Plus, 0, ToTotal, true, Drop, Lowest, 1, false, Minimum, 0)
  }

  /** 2d20, reroll the lowest one, no modifier, no limit. */
  function RerollLowest(): LineConfig {
    LineConfig(2, 20, Plus, 0, ToTotal, true, Reroll, Lowest, 1, false, Minimum, 0)
  }

  lemma KeptSumTwo(a: Die, b: Die)
    ensures KeptSum([a, b]) == KeptSum([a]) + KeptSum([b])
  {
    assert [a, b][..1] == [a];
    assert [a][..0] == [] && [b][..0] == [];
  }

  lemma KeptSumFour(a: Die, b: Die, c: Die, d: Die)
    ensures KeptSum([a, b, c, d]) == KeptSum([a]) + KeptSum([b]) + KeptSum([c]) + KeptSum([d])
  {
    var r := [a, b, c, d];
    assert r[..3] == [a, b, c];
    assert r[..3][..2] == [a, b];
    KeptSumTwo(a, b);
    assert [c][..0] == [] && [d][..0] == [];
  }

  lemma SortFourSix()
    ensures StableSort([Fresh(1), Fresh(6), Fresh(3), Fresh(2)], Lowest) == [Fresh(1), Fresh(2), Fresh(3), Fresh(6)]
  {
    var d := [Fresh(1), Fresh(6), Fresh(3), Fresh(2)];
    assert d[..3] == [Fresh(1), Fresh(6), Fresh(3)];
    assert d[..3][..2] == [Fresh(1), Fresh(6)];
    assert d[..3][..2][..1] == [Fresh(1)];
    assert StableSort([Fresh(1)], Lowest) == [Fresh(1)];
    assert Insert(Fresh(6), [Fresh(1)], Lowest) == [Fresh(1), Fresh(6)];
    assert StableSort(d[..3][..2], Lowest) == [Fresh(1), Fresh(6)];
    assert Insert(Fresh(3), [Fresh(6)], Lowest) == [Fresh(3), Fresh(6)];
    assert Insert(Fresh(3), [Fresh(1), Fresh(6)], Lowest) == [Fresh(1), Fresh(3), Fresh(6)];
    assert StableSort(d[..3], Lowest) == [Fresh(1), Fresh(3), Fresh(6)];
    assert Insert(Fresh(2), [Fresh(3), Fresh(6)], Lowest) == [Fresh(2), Fresh(3), Fresh(6)];
    assert Insert(Fresh(2), [Fresh(1), Fresh(3), Fresh(6)], Lowest) == [Fresh(1), Fresh(2), Fresh(3), Fresh(6)];
  }

  /** The rolls array after the sort and marking stage of 4d6 drop lowest on the draws 1, 6, 3, 2. */
  lemma DropLowestSelected(cfg: LineConfig)
    requires cfg.count == 4 && cfg.target == ToTotal && cfg.dropOn && cfg.dropMode == Drop
    requires cfg.extreme == Lowest && cfg.dropCount == 1
    ensures AfterReroll(cfg, [1, 6, 3, 2]) == [Fresh(1).(dropped := true), Fresh(2), Fresh(3), Fresh(6)]
  {
    assert Drawn(cfg, [1, 6, 3, 2]) == [Fresh(1), Fresh(6), Fresh(3), Fresh(2)];
    SortFourSix();
    assert Marked([Fresh(1), Fresh(2), Fresh(3), Fresh(6)], 1) == [Fresh(1).(dropped := true), Fresh(2), Fresh(3), Fresh(6)];
  }

  /** The lowest die, 1, is dropped; the total is 2 + 3 + 6. */
  lemma DropLowestLine()
    ensures LineRolls(DropLowest(), [1, 6, 3, 2]) == [Fresh(1).(dropped := true), Fresh(2), Fresh(3), Fresh(6)]
    ensures LineTotal(DropLowest(), [1, 6, 3, 2]) == 11
  {
    DropLowestSelected(DropLowest());
    KeptSumFour(Fresh(1).(dropped := true), Fresh(2), Fresh(3), Fresh(6));
  }

  /** "+5 to total" leaves the dice alone and adds 5 to the kept sum. */
  lemma DropLowestPlusFiveToTotal()
    ensures LineRolls(DropLowest().(mod := 5), [1, 6, 3, 2]) == [Fresh(1).(dropped := true), Fresh(2), Fresh(3), Fresh(6)]
    ensures LineTotal(DropLowest().(mod := 5), [1, 6, 3, 2]) == 16
  {
    DropLowestSelected(DropLowest().(mod := 5));
    KeptSumFour(Fresh(1).(dropped := true), Fresh(2), Fresh(3), Fresh(6));
  }

  /** A minimum of 3 raises the kept 2 to 3 and leaves the dropped 1 alone. */
  lemma DropLowestMinimumThree()
    ensures LineRolls(DropLowest().(limitOn := true, limit := 3), [1, 6, 3, 2]) ==
      [Fresh(1).(dropped := true), Die(2, 3, None, false, false, true), Fresh(3), Fresh(6)]
    ensures LineTotal(DropLowest().(limitOn := true, limit := 3), [1, 6, 3, 2]) == 12
  {
    var cfg := DropLowest().(limitOn := true, limit := 3);
    DropLowestSelected(cfg);
    KeptSumFour(Fresh(1).(dropped := true), Die(2, 3, None, false, false, true), Fresh(3), Fresh(6));
  }

  /** The rolls array after the reroll stage of 2d20 reroll lowest on the draws a, b, then r, with a > b. */
  lemma RerollLowestRerolled(cfg: LineConfig, a: int, b: int, r: int)
    requires cfg.count == 2 && cfg.mod == 0 && cfg.dropOn && cfg.dropMode == Reroll
    requires cfg.extreme == Lowest && cfg.dropCount == 1
    requires b < a
    ensures AfterReroll(cfg, [a, b, r]) == [Die(b, r, Some(r), false, true, false), Fresh(a)]
  {
    var d := Drawn(cfg, [a, b, r]);
    assert d == [Fresh(a), Fresh(b)];
    assert d[..1] == [Fresh(a)];
    assert StableSort([Fresh(a)], Lowest) == [Fresh(a)];
    assert StableSort(d, Lowest) == [Fresh(b), Fresh(a)];
    var m := [Fresh(b).(dropped := true), Fresh(a)];
    assert Marked([Fresh(b), Fresh(a)], 1) == m;
    assert m[..1] == [m[0]];
    assert [m[0]][..0] == [];
    assert CountDropped(m[..1]) == 1;
    assert Rerolled(cfg, [m[0]], [r]) == [RerollDie(cfg, m[0], r)];
  }

  /** The lower die, 5, is rerolled to 18: its old value moves to `original`, the new draw is kept in rerollRaw. */
  lemma RerollLowestLine()
    ensures LineRolls(RerollLowest(), [15, 5, 18]) == [Die(5, 18, Some(18), false, true, false), Fresh(15)]
    ensures LineTotal(RerollLowest(), [15, 5, 18]) == 33
  {
    RerollLowestRerolled(RerollLowest(), 15, 5, 18);
    KeptSumTwo(Die(5, 18, Some(18), false, true, false), Fresh(15));
  }

  /** A reroll may draw the value it replaces: then rerollRaw equals `original`. */
  lemma RerollSameValue()
    ensures LineRolls(RerollLowest(), [15, 5, 5]) == [Die(5, 5, Some(5), false, true, false), Fresh(15)]
    ensures LineTotal(RerollLowest(), [15, 5, 5]) == 20
  {
    RerollLowestRerolled(RerollLowest(), 15, 5, 5);
    KeptSumTwo(Die(5, 5, Some(5), false, true, false), Fresh(15));
  }

  /**
    Clamping a rerolled die rebuilds its record: the pre-reroll value 5 and
    the rerollRaw 18 are gone, only `rerolled` survives.
  */
  lemma RerollThenMinimum()
    ensures LineRolls(RerollLowest().(limitOn := true, limit := 19), [15, 5, 18]) ==
      [Die(18, 19, None, false, true, true), Die(15, 19, None, false, false, true)]
    ensures LineTotal(RerollLowest().(limitOn := true, limit := 19), [15, 5, 18]) == 38
  {
    RerollLowestRerolled(RerollLowest().(limitOn := true, limit := 19), 15, 5, 18);
    KeptSumTwo(Die(18, 19, None, false, true, true), Die(15, 19, None, false, false, true));
  }

  /** 1d4 with "-2 to each" on a draw of 1: the die reads -1 and the total is floored at 0. */
  lemma MinusToEachFloored()
    ensures LineRolls(LineConfig(1, 4, Minus, 2, ToEach, false, Drop, Lowest, 0, false, Minimum, 0), [1]) ==
      [Die(1, -1, None, false, false, false)]
    ensures LineTotal(LineConfig(1, 4, Minus, 2, ToEach, false, Drop, Lowest, 0, false, Minimum, 0), [1]) == 0
  {
    assert [Die(1, -1, None, false, false, false)][..0] == [];
  }
}
