# D&D dice roller: a Dafny model of its rolling core

This project models the two rolling engines of the enhanced D&D dice roller
and proves what they compute.

- **The browser roller** (`dnddiceroller.js`). rollDiceLine evaluates one
  configured line of dice in stages:
  1. draw `dCount` dice of `dSide` sides;
  2. apply a "to each" modifier;
  3. sort, and mark the lowest or highest `dropCount` dice as dropped;
  4. optionally reroll the dropped dice;
  5. clamp the kept dice to a minimum or maximum;
  6. sum the kept dice;
  7. add a "to total" modifier;
  8. floor the total at 0.

  The input handlers of the same page bound a line's number inputs:
  - the corrected drop rule (`DropCountRule`) keeps the drop count below
    the dice count; changeDropCount as written does not, because it
    compares the two values as strings (see Findings);
  - the limit stays at or below the die's sides;
  - changeModifier leaves the modifier in 0..99, and a negative modifier in
    1..9. Changing the sign select afterwards runs no clamping, so a
    modifier of 50 becomes -50 when "-" is selected;
  - `diceControl`, attached to the dice count, modifier and limit inputs
    (not to the drop count), keeps each of them between its `min`
    attribute (0 without one) and 99. A value above 99 becomes the input's
    `max` attribute, which for the limit is the constant 6 of the page
    template whatever die is selected.

  The label table `DTYPE` and `convertToNumber` turn a die label such as
  "d20" into its number of sides.
- **The command-line roller** (`dice_roller.py`). It covers:
  - `parse_dice_notation`, for notations like `3d6+2`;
  - `roll_dice` and `roll_from_notation`;
  - the text form of a `DiceRoll`;
  - `roll_spell`, with its table of four spells.

Randomness comes in as a parameter. What `Math.random()` and
`random.randint` would produce is a sequence `draws: seq<int>`, consumed in
order:
- rollDiceLine takes one draw per die, then one per rerolled die in index order;
- `roll_dice` takes one draw per die.

Lemmas about ranges assume that each draw lies in `[1, sides]`. That is
what `Math.floor(Math.random() * dSide) + 1` and `randint(1, sides)`
guarantee.

Modules:
- `Wrappers`: `Option` and `Result`.
- `Decimal`: digit strings, their values, and `str()` / `String()` of an integer.
- `RollEngine`: the rollDiceLine stages. Each loop of the source is a method,
  proved equal to a function that specifies that stage. The proved properties
  are about those functions.
- `EngineExamples`: worked lines, with the exact rolls array and total each one ends with.
- `LineInputs`: the page's input rules. The inputs of one line are a class
  whose handler methods update its fields. Each handler is proved against a
  pure rule function.
- `DiceRoller`: the Python roller.

### Where the code and its documented behaviour differ

The model follows the code:

- **Sort order.** `rolls.sort(...)` sorts the array in place. The rolls
  therefore come out, and are shown, in sorted order, not in the order they
  were drawn: when the drop/reroll option is on with a positive drop count,
  `LineRolls` is the sorted array. The sort runs only in that branch, so
  otherwise the rolls stay in draw order.
- **Reroll `original`.** When a die is rerolled, its new record stores the
  old `final` as `original`. That value already includes a "to each"
  modifier. The record drops the old flags.
- **`rerollRaw` and `original` can be equal.** A reroll may draw the same
  number it replaces (`EngineExamples.RerollSameValue`).
- **A clamp replaces the whole record.** Clamping a die builds a new
  record:
  - `original` becomes the pre-clamp `final`;
  - `rerollRaw` is lost;
  - only `rerolled` survives.

  For a die that was rerolled, the pre-reroll value is gone
  (`EngineExamples.RerollThenMinimum`).
- **A dead assignment.** The modifier computed at lines 806-812 of
  `dnddiceroller.js` is never read: it is overwritten at 919-923 before
  use. The model has only the later computation.

## Model

| member | source | states |
|---|---|---|
| RollEngine.DrawDice | dnddiceroller.js:815-827 | the draw loop pushes one record per die, built from the next draw; `original` is the draw and `final` carries the "to each" modifier only when that applies and `dMod > 0` (`Drawn`, `WithPerDie`) |
| RollEngine.Insert | dnddiceroller.js:832 | one insertion step of the stable sort: the result is one entry longer than its input; its order, contents and stability are InsertSorted and InsertWithKey |
| RollEngine.StableSort | dnddiceroller.js:832 | the sort with the `final` comparator keeps the length; its order, permutation and stability are SortPermutation and SortStable |
| RollEngine.SortPermutation | dnddiceroller.js:832 | the sorted array is ordered by the comparator (ascending for lowest, descending for highest) and is a permutation of its input |
| RollEngine.InsertSorted | dnddiceroller.js:832 | inserting into a sorted array keeps it sorted and adds exactly that entry to the multiset |
| RollEngine.SortStable | dnddiceroller.js:832 | stability: for each comparator key, the entries with that key keep their relative order |
| RollEngine.InsertWithKey | dnddiceroller.js:832 | inserting into a sorted array appends the new entry after the entries with the same key |
| RollEngine.MarkDropped | dnddiceroller.js:835-837 | the marking loop flags exactly the first `Math.min(dropCount, rolls.length)` entries and changes nothing else |
| RollEngine.Selected | dnddiceroller.js:830-837 | the sort-and-mark stage keeps the number of dice |
| RollEngine.SelectionFacts | dnddiceroller.js:830-837 | after selection, an entry is dropped exactly when its index is below MarkCount; every dropped die is lower (lowest) or higher (highest) than every kept die, or equal to it; without the flags, the array is a permutation of the drawn dice |
| RollEngine.MarkedFacts | dnddiceroller.js:832-837 | on a sorted, unflagged array, marking flags exactly the first m entries, dropped entries are on the right side of kept ones, and removing the flags gives the array back |
| RollEngine.SelectedCount | dnddiceroller.js:835-837 | the number of dropped entries after selection is `Math.min(dropCount, dCount)` when the option is on, else 0 |
| RollEngine.CountDroppedMarked | dnddiceroller.js:835-837 | marking the first m entries of an unflagged array leaves exactly m entries dropped |
| RollEngine.RerollDropped | dnddiceroller.js:840-857 | the reroll loop replaces each dropped entry, in index order, using the next unused draw; it uses exactly as many draws as there are dropped entries (`Rerolled`) |
| RollEngine.RerolledStep | dnddiceroller.js:841-856 | one iteration of the reroll loop extends the rerolled prefix by one entry and uses a draw only for a dropped entry |
| RollEngine.RerollFacts | dnddiceroller.js:840-857 | with reroll on, no entry is left dropped; the i-th dropped entry becomes `{original: old final, rerollRaw: draw, final: draw with the "to each" modifier, rerolled: true}`, using draw `dCount + i`; kept entries are unchanged; with reroll off the stage changes nothing |
| RollEngine.RerolledAt | dnddiceroller.js:841-856 | when the first m entries are the dropped ones, entry i is rerolled from pool value i, and every other entry is kept as is |
| RollEngine.ClampDie | dnddiceroller.js:864-882 | a kept die below the minimum (above the maximum) becomes `{original: old final, final: limit, modified, isMinMax, rerolled}`; a dropped die, or a die within the limit, is unchanged; afterwards every kept die is within the limit |
| RollEngine.Clamped | dnddiceroller.js:862-885 | the clamp stage keeps the number of dice |
| RollEngine.ClampDice | dnddiceroller.js:862-885 | the clamp loop applies the per-die rule to every entry |
| RollEngine.ClampKeepsDropped | dnddiceroller.js:865 | clamping never changes whether an entry is dropped |
| RollEngine.CountDropped | dnddiceroller.js:841-842 | the number of dropped entries is at most the array's length |
| RollEngine.LineRolls | dnddiceroller.js:801-885 | the final rolls array has one entry per die drawn (`dCount`, 0 when not positive) |
| RollEngine.RollDiceLine | dnddiceroller.js:801-931 | the whole engine: the rolls array and total are those of `LineRolls` and `LineTotal`; the total is the floored kept sum plus the "to total" modifier; exactly `DrawsNeeded` draws are consumed |
| RollEngine.LineFacts | dnddiceroller.js:830-885 | with a minimum (maximum) on, every kept die is at least (at most) the limit; with reroll on, or with the option off, no die is dropped; with drop on, exactly the first MarkCount dice are dropped; a die the clamp changed records the pre-clamp final as `original`, keeps `rerolled`, and loses `rerollRaw` |
| RollEngine.SelectedFromDraws | dnddiceroller.js:815-837 | with every draw in `[1, dSide]`, every entry after selection shows a raw value in `[1, dSide]` plus the "to each" rule, not yet rerolled or clamped |
| RollEngine.AfterRerollFromDraws | dnddiceroller.js:840-857 | after the reroll stage, every entry still shows a raw value in `[1, dSide]` through the "to each" rule, and `rerolled` holds exactly when a `rerollRaw` is recorded |
| RollEngine.DrawRange | dnddiceroller.js:815-885 | every die the clamp did not touch shows a draw in `[1, dSide]` through the "to each" rule |
| RollEngine.SurvivorExists | dnddiceroller.js:298-301 | when the drop count is below the dice count, as changeDropCount intends, at least one die is kept |
| RollEngine.TotalFacts | dnddiceroller.js:916-931 | the total is never negative: it equals kept sum plus "to total" modifier when that is non-negative, and 0 otherwise |
| RollEngine.KeptSum | dnddiceroller.js:916 | the reduce over the rolls array; no contract of its own: KeptSumOfMarked, NoneKept and TotalFacts state what it sums |
| RollEngine.KeptSumOfMarked | dnddiceroller.js:916 | after marking the first m entries, the kept sum is the sum of the remaining entries |
| RollEngine.NoneKept | dnddiceroller.js:916 | when every entry is dropped, the kept sum is 0 |
| EngineExamples.DropLowestLine | dnddiceroller.js:801-931 | 4d6 drop lowest 1 on draws 1, 6, 3, 2: rolls sorted `1 (dropped), 2, 3, 6` and total 11 |
| EngineExamples.DropLowestPlusFiveToTotal | dnddiceroller.js:916-926 | the same line with "+5 to total": same rolls, total 16 |
| EngineExamples.DropLowestMinimumThree | dnddiceroller.js:862-885 | the same line with minimum 3: the kept 2 becomes 3 (clamped), the dropped 1 is untouched, and the total is 12 |
| EngineExamples.RerollLowestLine | dnddiceroller.js:840-857 | 2d20 reroll lowest 1 on draws 15, 5, then 18: the 5 is rerolled to `{original 5, rerollRaw 18, final 18}`, and the total is 33 |
| EngineExamples.RerollSameValue | dnddiceroller.js:843-854 | a reroll that draws the value it replaces records `rerollRaw == original` |
| EngineExamples.RerollThenMinimum | dnddiceroller.js:862-885 | clamping the rerolled die to minimum 19 gives `{original 18, final 19}`: the pre-reroll 5 and `rerollRaw` are gone, `rerolled` stays; the total is 38 |
| EngineExamples.MinusToEachFloored | dnddiceroller.js:819-821 | 1d4 with "-2 to each" on draw 1: the die reads -1 and the total is floored to 0 |
| LineInputs.ConvertToNumber | dnddiceroller.js:948-951 | `Number(dType.slice(1))`; no contract of its own: ConvertLabel proves that it reads back the number of every label `"d" + n`, and DTypeSides that of every label in the table |
| LineInputs.ConvertLabel | dnddiceroller.js:948-951 | `convertToNumber("d" + n)` is n, for every natural n |
| LineInputs.DTypeSides | dnddiceroller.js:991 | the option table has nine labels; each converts to its listed side count 2, 3, 4, 6, 8, 10, 12, 20, 100 |
| LineInputs.AllowedSidesListed | dnddiceroller.js:991 | the side counts the labels give are exactly the allowed die types |
| LineInputs.StringLess | dnddiceroller.js:298 | JavaScript's `<` on two strings, by code point (the same as JavaScript's code-unit order on the decimal numerals it is applied to); no contract of its own: DropCountAsWrittenKeepsTooMany and DropCountAsWrittenResetsValid show what it does to the comparison at line 298 |
| LineInputs.DropCountRuleAsWritten | dnddiceroller.js:298-301 | the drop-count rule with the string comparison `>=` that the code performs (see Findings) |
| LineInputs.DropCountAsWrittenKeepsTooMany | dnddiceroller.js:298-301 | as written, a drop count of 10 with 9 dice is kept, which exceeds `dCount - 1` |
| LineInputs.DropCountAsWrittenResetsValid | dnddiceroller.js:298-301 | as written, a valid drop count of 5 with 10 dice is reset to 9 |
| LineInputs.DropCountRule | dnddiceroller.js:298-301 | the intended rule: with at least one die the result lies in `0..dCount-1`; a drop count already in range is kept |
| LineInputs.DiceCountRule | dnddiceroller.js:310-315 | when the dice count changes, the drop count is pulled into `0..dCount-1`; a drop count below the dice count is kept |
| LineInputs.LimitRule | dnddiceroller.js:328-329 | a limit above the die's sides is lowered to the sides; any other limit is kept |
| LineInputs.ModifierRule | dnddiceroller.js:356-386 | the result is in 0..99; a negative modifier is in 1..9; 0 always has "+"; a positive entry in range is kept; in "-" mode, the spinner's one-step move is inverted (two steps back) so the magnitude moves the other way |
| LineInputs.DiceControlSettles | dnddiceroller.js:395-398 | after diceControl each controlled input lies between its `min` attribute (0 without one) and 99, and a second run leaves it unchanged |
| LineInputs.LimitControlIgnoresSides | dnddiceroller.js:395-396 | the limiter's `max` is the template's fixed 6 (line 107): a limit of 100 on a d100 line becomes 6, while a limit of 50 passes unchanged even on a d6 line |
| LineInputs.LineInputs.Sides | dnddiceroller.js:326-327 | the selected label converts to an allowed side count |
| LineInputs.LineInputs.constructor | dnddiceroller.js:94-107 | a new line starts with 1 die, d6 selected, modifier +0, drop count 0 with max 5, and limit 1 |
| LineInputs.LineInputs.ChangeDropCount | dnddiceroller.js:285-303 | from any state, sets the drop input's `max` to `dCount - 1` and its value by DropCountRule, so with at least one die the drop count ends in `0..count-1`; the line is bounded again when limit and modifier already were; the other fields stay |
| LineInputs.LineInputs.ChangeDiceCount | dnddiceroller.js:305-319 | from any state, stores the new count, sets the drop input's `max` to `count - 1`, and pulls the drop count in by DiceCountRule into `0..count-1` when the count is at least 1; this restores a bounded line that an earlier oversized drop count broke |
| LineInputs.LineInputs.ChangeDiceLimit | dnddiceroller.js:321-333 | from any state, the new limit is clamped to the selected die's sides; a bounded line stays bounded |
| LineInputs.LineInputs.ChangeDiceType | dnddiceroller.js:335-346 | from any state, selects the new label and lowers the current limit to its side count when it is above it; a bounded line stays bounded |
| LineInputs.LineInputs.ChangeModifier | dnddiceroller.js:348-390 | from any state, the modifier value and sign become ModifierRule's result, the value ends in 0..99 and a negative modifier in 1..9; a bounded line stays bounded |
| LineInputs.LineInputs.DiceControl | dnddiceroller.js:392-400 | the changed input gets DiceControlRule with its own `min`/`max` attributes; the other inputs stay; afterwards the count is in 1..99, the modifier in 0..99 and the limit in 1..99 |
| DiceRoller.ParseDiceNotation | dice_roller.py:61-80 | a rejected notation raises `ValueError("Invalid dice notation: " + normalised notation)` |
| DiceRoller.ParseAcceptsExactlyThePattern | dice_roller.py:67-74 | after removing spaces and lower-casing, a notation is accepted exactly when it matches `^(\d+)d(\d+)([+-]\d+)?$`; `$` also matches before a final newline; every rejection carries the message |
| DiceRoller.ParseValues | dice_roller.py:76-80 | an accepted notation yields the decimal values of its count and sides groups and its signed modifier group, or 0 without one |
| DiceRoller.MatchGroups | dice_roller.py:70-71 | the `re.match` of the pattern on the text without a final newline; no contract of its own: MatchComplete and MatchSound state that it accepts exactly the strings of the pattern's shape, with their groups |
| DiceRoller.MatchComplete | dice_roller.py:70-71 | every string of the pattern's shape is matched, with those groups |
| DiceRoller.MatchSound | dice_roller.py:70-71 | every string the matcher accepts has the pattern's shape |
| DiceRoller.NotationRoundTrip | dice_roller.py:61-80 | parsing the notation `f"{c}d{s}"`, or `f"{c}d{s}{m:+d}"`, gives back `(c, s, m)`, with modifier 0 when there is none |
| DiceRoller.NormalizeFacts | dice_roller.py:67 | the normalised notation has no space and no upper-case letter |
| DiceRoller.RollDice | dice_roller.py:82-99 | a non-positive count or sides raises `ValueError("Dice count and sides must be positive")`; otherwise the roll records count, sides and modifier and the first `diceCount` draws |
| DiceRoller.RollDiceFacts | dice_roller.py:88-91 | with draws in `[1, sides]`, every die is in `[1, sides]`, and the total lies between `count + modifier` and `count * sides + modifier` |
| DiceRoller.SumBounds | dice_roller.py:91 | a sum of n values in `[lo, hi]` lies in `[n*lo, n*hi]` |
| DiceRoller.RollDiceNotFloored | dice_roller.py:91 | unlike the browser engine, the total is not floored: 1d4-5 rolling 1 totals -4 |
| DiceRoller.RollFromNotation | dice_roller.py:101-104 | a parse error propagates unchanged; a notation that parses with count or sides 0 raises `ValueError("Dice count and sides must be positive")`; a roll has the parsed count, sides and modifier, uses the first `count` draws, and totals their sum plus the modifier |
| DiceRoller.ZeroDiceRejected | dice_roller.py:84-85 | notations such as `0d6` or `3d0` parse, but rolling them raises roll_dice's `ValueError` |
| DiceRoller.RollToStringHeader | dice_roller.py:22-28 | the text form starts with the notation `f"{c}d{s}"` (or with `{m:+d}` when the modifier is not 0), which parses back to the roll's count, sides and modifier; it ends with `"= " + str(total)` |
| DiceRoller.JoinRollsSingle | dice_roller.py:23 | `", ".join` of a single roll is that roll's `str` with no separator |
| DiceRoller.JoinRollsAppend | dice_roller.py:23 | joining two non-empty runs of rolls gives the two joined runs with exactly one `", "` between them |
| DiceRoller.RollToString | dice_roller.py:22-28 | `DiceRoll.__str__`; no contract of its own: RollToStringHeader states that its text starts with a notation that parses back to the roll and ends with the total |
| DiceRoller.MissileCount | dice_roller.py:118 | levels 1..9 give that many missiles; above 9 gives 9; levels -8..0 wrap to `level + 9` by negative indexing; -9 and below raise `IndexError` |
| DiceRoller.Spells | dice_roller.py:34-59 | the spell table as data; no contract of its own: SpellKeys, SpellDice, MagicMissileDice and OtherSpellDice state its keys and dice |
| DiceRoller.SpellKey | dice_roller.py:108 | `spell_name.lower().replace(" ", "_")`; no contract of its own: LowerFacts and SpacesToUnderscoresFacts state that it maps each character on its own, and RollSpell looks the spell up by it |
| DiceRoller.SpellNotation | dice_roller.py:131-135 | the notation roll_spell builds from a spell's dice and the modifier; no contract of its own: SpellNotationModifier states that it parses back with exactly that modifier |
| DiceRoller.LowerFacts | dice_roller.py:108 | lower-casing maps every character on its own and keeps the length |
| DiceRoller.SpacesToUnderscoresFacts | dice_roller.py:108 | every space becomes an underscore, every other character stays in place |
| DiceRoller.SpellKeys | dice_roller.py:34-59 | the spell table has exactly the keys magic_missile, cure_wounds, fireball and healing_word |
| DiceRoller.SpellDice | dice_roller.py:34-59 | the spells' dice are 1d4+1, 1d8, 8d6 and 1d4 |
| DiceRoller.MagicMissileDice | dice_roller.py:38 | Magic Missile's dice parse to one d4 with modifier +1 |
| DiceRoller.OtherSpellDice | dice_roller.py:41-58 | every other spell's dice are a plain `{c}d{s}` notation |
| DiceRoller.SpellNotationModifier | dice_roller.py:131-135 | appending `+m` for m > 0, or `str(m)` for m < 0, to a spell's plain dice gives a notation that parses to that spell's dice with modifier m |
| DiceRoller.SpellRoll | dice_roller.py:131-139 | a non-Magic-Missile spell rolls its dice once, with the caller's modifier added to the total |
| DiceRoller.OneDieRoll | dice_roller.py:121-124 | a one-die notation such as 1d4+1 takes one draw and totals draw plus modifier |
| DiceRoller.RollOneDie | dice_roller.py:82-99 | rolling one die records that single draw and totals it with the modifier |
| DiceRoller.RollEach | dice_roller.py:121-124 | the missile loop makes n rolls; the j-th roll uses draw j |
| DiceRoller.RollSpell | dice_roller.py:106-141 | the spell name is lower-cased with spaces turned into underscores; an unknown spell raises `ValueError("Unknown spell: " + key)`; Magic Missile rolls 1d4+1 once per missile, ignoring the modifier argument, or raises `IndexError` for levels -9 and below; any other spell gives one roll of its dice with the modifier added |
| Decimal.ValueOfNatToString | dice_roller.py:76-78 | the decimal value of `str(n)` is n |
| Decimal.DigitRunOfRun | dice_roller.py:70 | a `\d+` group followed by a non-digit is matched exactly |
| Decimal.SignedString | dice_roller.py:25 | `f"{m:+d}"` always has a sign followed by digits, and the sign is '-' exactly for negative m |

## Left out

- The page itself is not modelled: reading and writing DOM inputs and the result display, saving to localStorage, audio, drag and drop, log lines, `timeStamp`, the roll string's HTML (lines 887-913, 933-941) and the rest of the file's UI functions. The engine takes the line's settings already read, as a `LineConfig`.
- The inputs of the rollDiceLine line that are read through `parseInt` (count, modifier, drop count, limit) arrive as integers. parseInt's handling of non-numeric text (NaN) is not modelled.
- `inputDropCount` (dnddiceroller.js:262-283), the drop input's `oninput` handler, is not modelled. It first sets the drop input's `max` to `dCount - 1` (lines 274-275), the same as changeDropCount does, and then throws at line 277: `diceCount` is not defined anywhere in the file. Its `change` partner, changeDropCount, is modelled.
- `Math.random()` and `random.randint` are replaced by the `draws` parameter. Their range is a precondition of the range lemmas, not a computation.
- RollEngine.StableSort: `Array.prototype.sort` is a library call, not code of this repository. It is modelled as the unique result of a stable sort with the engine's comparator, which is what the language standard requires of it.
- LineInputs.JsNumber: only plain decimal digit strings are converted. Whitespace, signs, decimals, exponents and hexadecimal forms are treated as not a number. Every label in the page's table is plain digits.
- The sign select's change handler (dnddiceroller.js:96) only saves the line and clamps nothing, so the class has no method for it. A negative modifier above 9 that is reached by switching the sign after typing is therefore outside what ChangeModifier promises.
- LineInputs.LineInputs.ChangeModifier: the stored modifier read back from localStorage is a parameter. The sequence of browser spinner events is not modelled.
- LineInputs.LineInputs: input values are integers. The string form of an input's value only matters in changeDropCount's comparison, which the Findings row models.
- DiceRoller.ParseDiceNotation: lower-casing is ASCII only, and `\d` matches only the ASCII digits 0-9. Python's `str.lower()` and `\d` also cover other Unicode letters and digits.
- DiceRoller.RollSpell: the spell name is lower-cased in ASCII only, so for a name with other upper-case letters (such as "É") the "Unknown spell: …" message differs from Python's.
- DiceRoller.ParseValues: a group's value is unbounded. Python 3.11 and later raise `ValueError` in `int()` for a digit string longer than 4300 digits (the default `sys.get_int_max_str_digits`); the model returns the value.
- The output of `roll_spell`'s `print` calls is not modelled. Only the returned list is.
- `roll_advantage`, `roll_disadvantage`, `list_spells`, `interactive_mode` and `main` of `dice_roller.py` are outside this model, as are `test_roller.py`, `server.js` and `backend/services/gamingSaaS.js`.
- The `description` and `scalable` fields of the spell table are carried as data, and nothing is stated about them.

## Findings

| source | as written | input that shows it | evidently intended | confidence | as-written member | corrected member |
|---|---|---|---|---|---|---|
| dnddiceroller.js:298 | `target.value >= dCount.value` compares two input value strings, so the comparison is lexicographic | drop count 10 with 9 dice: "10" < "9", so 10 is kept and every die would be dropped; drop count 5 with 10 dice: "5" >= "10", so it is reset to 9 | a numeric comparison that keeps the drop count in `0..dCount-1` | not executed | LineInputs.DropCountAsWrittenKeepsTooMany | LineInputs.DropCountRule |
