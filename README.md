# PTCGL log viewer core, modelled in Dafny

This project models the engine of the PtcglLogViewer repository. The engine
turns the free-text battle log of the Pokémon Trading Card Game Live client
into three things:

- a setup section and a list of turns;
- a typed action for every line of a turn (the sample-log script);
- a board snapshot after every turn (the viewer).

It has five parts, one or more Dafny modules each:

| source file | Dafny modules | form |
|---|---|---|
| `web/src/utils/parseLog.ts` | `LogLines`, `TurnHeader`, `Segmentation`, `PlayerNames`, `ViewerParser` | methods with loops, proved against specification functions |
| `scripts/parse_logsample.js` | `Classifier`, `SampleParser` (plus the shared modules above) | methods with loops; the classification chain as an ordered rule list |
| `web/src/state/utils.ts` | `BoardLines`, `BoardState` | a `Board` class whose methods change the record of player boards in place, specified by functions on its value `Table` |
| `web/src/state/store.ts` | `ViewerStore` | pure updater functions over a state datatype |
| `server/src/normalizeName.js` | `NameNormalizer` | pure functions |

The helper modules are `Wrappers` (`Option`), `Text` (the JavaScript
whitespace set, `trim`, case folding, digits), `Lists` (`Set` insertion order)
and `Patterns` (the building blocks of the hand-written matchers).

Regular expressions are not interpreted. Each pattern the code uses is a
hand-written matcher that searches in the order a backtracking engine does:

- start positions from the left;
- each lazy group from its shortest length upwards;
- each alternation from left to right;
- an end-anchored optional tail as the list of its spellings.

The two parsers share one segmentation, `Segmentation.Segment`, which is
generic in the header recogniser and in what an action line becomes. The
viewer keeps each line as it is; the script classifies it.

What the code does, and what it does not do:

- `applyActionToBoard` (web/src/state/utils.ts:182-208) only handles
  active-slot changes and bench placements.
- A knockout line removes nothing and a prize line changes no prize count.
  The knockout, evolve, retreat and promote patterns (web/src/state/utils.ts:35-40)
  are declared but never used, and `prizes` stays 6 on every board
  (`BoardState.SnapshotsSound`).
- A draw during a turn does not change the hand size. Only the two setup
  patterns of `buildInitialSnapshot` set it.
- `removeCardFromAnyPlayer` is never called by the fold. It is modelled on its own.
- An actor is skipped as a placeholder when, trimmed and lower-cased, it is
  "your", "you", "opponent", "your opponent" or "the opponent"
  (web/src/state/utils.ts:67-73).
- After `promoteToActive`, a demoted card of another name is the last bench
  card, and the first copy of that name already on the bench is removed
  first. So the name occurs on the bench as often as it did before the
  promotion, or once when it was absent (`BoardState.PromotePrevious`).

## Model

| member | source | states |
|---|---|---|
| `NameNormalizer.NormalizeFullWidth` | server/src/normalizeName.js:4-6 | a full-width form becomes the ASCII character '!'..'~' that lies 0xFEE0 below it |
| `NameNormalizer.NormalizeName` | server/src/normalizeName.js:8-15 | definition; its properties are in `NormalizeNameFacts`, `NormalizeAsWords`, `SpacesIsolated` and `NormalizeIdempotent` |
| `NameNormalizer.NormalizeNameFacts` | server/src/normalizeName.js:8-15 | the output has no full-width form and no quotation mark, no whitespace at either end, and only single spaces as whitespace; its other characters are the input's narrowed characters that are neither quotes nor whitespace, in order; an absent or empty input gives "" |
| `NameNormalizer.NormalizeAsWords` | server/src/normalizeName.js:10-14 | the normalised name is the maximal runs of non-whitespace characters of the narrowed, quote-free input, joined by exactly one space each: a whitespace run between two words becomes one space, and runs at the ends disappear |
| `NameNormalizer.SpacesIsolated` | server/src/normalizeName.js:13-14 | every whitespace character of the output is a space with a character other than whitespace on both sides |
| `NameNormalizer.NormalizeIdempotent` | server/src/normalizeName.js:8-15 | normalising a normalised name gives the same name |
| `NameNormalizer.FullWidthApostropheDropped` | server/src/normalizeName.js:11-12 | narrowing runs before quote stripping, so `A＇B` (full-width apostrophe) normalises to `AB` |
| `ViewerStore.NonEmpty` | web/src/state/store.ts:54 | the filtered names are exactly the non-empty listed names |
| `ViewerStore.NonEmptyOrder` | web/src/state/store.ts:54 | the filter keeps order: two names first seen in one order in the filtered list are first seen in that order in the whole list |
| `ViewerStore.LoadedPlayers` | web/src/state/store.ts:54 | the loaded players are distinct, are exactly the non-empty listed names, and come in the order in which each is first listed |
| `ViewerStore.LoadedFirstPlayer` | web/src/state/store.ts:54 | the first loaded player, which decides each snapshot's side, is the log's first non-empty player name |
| `ViewerStore.Loaded` | web/src/state/store.ts:54-65 | after a load: not loading, no error, auto-play off, the players are `LoadedPlayers`, the steps are those built for them (one per turn), pointer 0 when there are turns and -1 otherwise |
| `ViewerStore.LoadParsedLog` | web/src/state/store.ts:52-65 | the loaded state, with one snapshot more than steps; snapshot k+1 has the turn number of step k; every snapshot has a fresh board equal to the board after its turn |
| `ViewerStore.Next` | web/src/state/store.ts:74-85 | definition; its properties are in `NextFacts`, `NextThenPrev` and `UpdatersKeepValid` |
| `ViewerStore.Prev` | web/src/state/store.ts:87-92 | definition; its properties are in `PrevFacts`, `PrevThenNext` and `UpdatersKeepValid` |
| `ViewerStore.ToggleAuto` | web/src/state/store.ts:94-100 | definition; its properties are in `ToggleAutoFacts` and `UpdatersKeepValid` |
| `ViewerStore.Tick` | web/src/state/store.ts:105-111 | definition; its properties are in `TicksAdvance`, `AutoPlayStops`, `TickReachesLastWithAuto` and `UpdatersKeepValid` |
| `ViewerStore.HasNext` | web/src/state/store.ts:127 | definition; its value after a load is stated by `LoadedShowsFirstStep` |
| `ViewerStore.HasPrev` | web/src/state/store.ts:128 | definition; its value after a load is stated by `LoadedShowsFirstStep` |
| `ViewerStore.NextFacts` | web/src/state/store.ts:74-85 | when loading or at the last step, the pointer stays put and auto-play stops; otherwise the pointer moves one on, and auto-play stays on only if a next step remains |
| `ViewerStore.PrevFacts` | web/src/state/store.ts:87-92 | no change when loading or when the pointer is at most 0; otherwise the pointer moves one back and auto-play stops |
| `ViewerStore.ToggleAutoFacts` | web/src/state/store.ts:94-100 | only auto-play can change, and it flips exactly when not loading, there are steps and a next step exists |
| `ViewerStore.UpdatersKeepValid` | web/src/state/store.ts:74-111 | next, prev, toggle and the timer tick keep the pointer in [0, steps-1], or at -1 when there are no steps, and keep snapshots aligned with steps |
| `ViewerStore.RunKeepsValid` | web/src/state/store.ts:74-111 | any sequence of those updates keeps the state valid and its steps unchanged |
| `ViewerStore.NextThenPrev` | web/src/state/store.ts:74-92 | next then prev returns to the same step, with auto-play off |
| `ViewerStore.PrevThenNext` | web/src/state/store.ts:74-92 | prev then next returns to the same step, with auto-play off |
| `ViewerStore.TicksAdvance` | web/src/state/store.ts:105-111 | up to the last step, k timer ticks move the pointer k steps on and change nothing else |
| `ViewerStore.AutoPlayStops` | web/src/state/store.ts:102-114 | the ticks that reach the last step, plus one more, leave the pointer on the last step with auto-play off |
| `ViewerStore.TickReachesLastWithAuto` | web/src/state/store.ts:107-110 | the tick that reaches the last step leaves auto-play on; only the next tick turns it off |
| `ViewerStore.CurrentStep` | web/src/state/store.ts:118 | in a valid state there is a current step exactly when there are steps, and it is `steps[pointer]` |
| `ViewerStore.CurrentSnapshot` | web/src/state/store.ts:119-120 | in a valid, aligned state the current snapshot is `snapshots[pointer+1]` |
| `ViewerStore.LoadedShowsFirstStep` | web/src/state/store.ts:116-128 | after a load the snapshot shown is snapshot 1 (snapshot 0 with no turns); with turns, the first step is current, there is no previous step, and a next step exists iff there are two or more turns |
| `ViewerStore.SnapshotMatchesStep` | web/src/state/store.ts:116-128 | the current snapshot has the turn number of the current step |
| `LogLines.SplitLines` | web/src/utils/parseLog.ts:21 | one piece per piece of splitting at line feeds; every piece but the last loses its final carriage return if it has one and is otherwise kept; the last piece is kept as it is |
| `LogLines.SplitLFRoundTrip` | web/src/utils/parseLog.ts:21 | joining the pieces with line feeds gives back the text |
| `LogLines.NonEmptyTrimmedLines` | web/src/utils/parseLog.ts:20-23 | every normalised line is non-empty and trimmed |
| `LogLines.NormalizeLinesEmpty` | web/src/utils/parseLog.ts:20-27 | no line is left exactly when the text is empty or only whitespace |
| `TurnHeader.ParseTurnHeader` | web/src/utils/parseLog.ts:3 | a header line starts with "Turn #", ignoring case; the parsed number is the value of the digits after it (past blanks), a dash follows (past blanks), and the player is the trimmed text from there to the first following "'s Turn" |
| `TurnHeader.HeaderNameFromLine` | web/src/utils/parseLog.ts:3 | a name read after the dash is the trimmed text between the blanks and the first "'s Turn" after them |
| `TurnHeader.HeaderName` | web/src/utils/parseLog.ts:48 | the captured player name is trimmed |
| `TurnHeader.HeaderRoundTrip` | web/src/utils/parseLog.ts:44-51 | the header the client writes for (n, name) reads back as number n and player name |
| `Segmentation.SegmentSetupIsPrefix` | web/src/utils/parseLog.ts:34-59 | the setup is exactly the lines before the first header, so the branch for a line read while no turn is open is never taken after that |
| `Segmentation.SegmentKeepsOrder` | web/src/utils/parseLog.ts:41-58 | the non-header lines, in order, are the setup followed by the lines of all turns' actions |
| `Segmentation.SegmentTurnsFromHeaders` | web/src/utils/parseLog.ts:44-51 | there is one turn per header line, and the k-th turn has the number and player read from the k-th header |
| `Segmentation.SegmentConservation` | web/src/utils/parseLog.ts:34-59 | setup lines plus all actions plus turns (one per header) equal the number of lines |
| `Segmentation.SegmentSnoc` | web/src/utils/parseLog.ts:41-58 | one more line extends the segmentation by one step |
| `Lists.Insert` | web/src/utils/parseLog.ts:12 | `Set.add` keeps distinctness, keeps the earlier elements as a prefix, and adds exactly the new element |
| `Lists.Dedup` | web/src/utils/parseLog.ts:16 | `Array.from(new Set(xs))` is distinct and has exactly the elements of xs |
| `Lists.DedupFirstSeenOrder` | web/src/utils/parseLog.ts:8-17 | the distinct elements come out in the order of their first occurrence |
| `Lists.DedupAppend` | web/src/utils/parseLog.ts:61-65 | the names added first stay in front; every later name comes from the second list and is new |
| `PlayerNames.PlayerLineName` | web/src/utils/parseLog.ts:11-12 | a player-line capture is trimmed |
| `PlayerNames.OpeningDrawName` | web/src/utils/parseLog.ts:13-14 | an opening-draw capture is trimmed |
| `PlayerNames.ExtractPlayersFromSetup` | web/src/utils/parseLog.ts:8-17 | the result is the distinct names of the setup lines in first-seen order: for each line, the player-line capture and then the opening-draw capture |
| `PlayerNames.AddLineNames` | web/src/utils/parseLog.ts:10-14 | one line adds its player-line capture, then its opening-draw capture, each only if new |
| `PlayerNames.SetupPlayers` | web/src/utils/parseLog.ts:8-17 | the extracted players are distinct and trimmed, and a name is among them iff some setup line yields it |
| `ViewerParser.ParsePtcglLog` | web/src/utils/parseLog.ts:19-73 | the parsed log equals the segmentation of the normalised lines with its players; empty input gives the empty log |
| `ViewerParser.ParsePastedLog` | web/src/utils/parseLog.ts:19 | without a file name the log is named "pasted-log" and is otherwise the parse of the text |
| `ViewerParser.SplitTurns` | web/src/utils/parseLog.ts:34-59 | the two loops and the final push compute the segmentation |
| `ViewerParser.ReadSetup` | web/src/utils/parseLog.ts:34-39 | the first loop collects the lines before the first header and stops on it |
| `ViewerParser.ReadTurns` | web/src/utils/parseLog.ts:41-58 | the second loop finishes the segmentation, with the open turn still to be pushed |
| `ViewerParser.ReadTurnLine` | web/src/utils/parseLog.ts:42-57 | a header closes the open turn and opens a new one; any other line goes to the open turn, or to the setup while none is open |
| `ViewerParser.CollectPlayers` | web/src/utils/parseLog.ts:61-65 | the player set is the setup players followed by the named turn players, without repetitions |
| `ViewerParser.AddTurnPlayers` | web/src/utils/parseLog.ts:63-65 | adding each non-empty turn player gives Dedup of the names followed by the turn players |
| `ViewerParser.ParsedOfBlank` | web/src/utils/parseLog.ts:25-27 | a text gives `{file, [], [], []}` with no lines exactly when it is blank |
| `ViewerParser.ParsedOfSetup` | web/src/utils/parseLog.ts:34-39 | the setup is exactly the normalised lines before the first header |
| `ViewerParser.ParsedOfTurns` | web/src/utils/parseLog.ts:41-59 | the turns match the header lines one to one, in order, by number and player |
| `ViewerParser.ParsedOfActions` | web/src/utils/parseLog.ts:41-58 | the non-header lines after the setup are, in order, the turns' actions |
| `ViewerParser.ParsedOfPlayers` | web/src/utils/parseLog.ts:61-70 | the players are distinct, begin with the setup players in first-seen order, and include every non-empty turn player |
| `ViewerParser.ParsedOfPlayersSound` | web/src/utils/parseLog.ts:61-70 | every player comes from a setup line or is a non-empty turn player |
| `ViewerParser.LooksLikeParsedLog` | web/src/utils/parseLog.ts:75-84 | true iff the value is an object whose `file` is a string and whose `players`, `setup` and `turns` are arrays |
| `ViewerParser.SavedLogIsAccepted` | web/src/utils/parseLog.ts:75-84 | every parsed log, saved as a document, passes the check |
| `Classifier.Classify` | scripts/parse_logsample.js:78-135 | every turn line yields an action whose `raw` is the line |
| `Classifier.FirstFiring` | scripts/parse_logsample.js:81-135 | the chosen rule is the first in the list whose test succeeds, or the fallback when none does |
| `Classifier.KindFor` | scripts/parse_logsample.js:81-135 | the action's type is the one of the rule that fired |
| `Classifier.ClassifyFirstMatch` | scripts/parse_logsample.js:81-135 | the type comes from a succeeding test with no earlier test succeeding, in the order draw, attach, attack, evolve, play, knockout, vstar, special_condition, prize, pokemon_checkup, result; it is `other` iff no test succeeds |
| `Classifier.DrawCount` | scripts/parse_logsample.js:81-84 | a draw counts the captured number, else 1, and then the line says "drew a card" |
| `Classifier.AttackExtra` | scripts/parse_logsample.js:90-102 | an attack carries extra damage iff its line has the Weakness clause, with the clause's number |
| `Classifier.AttackKind` | scripts/parse_logsample.js:92-102 | owner, attacker, attack and target are the trimmed captures and the damage is the captured one; extra fields are present iff the Weakness clause matched, with its damage and trimmed reason |
| `Classifier.EvolveKind` | scripts/parse_logsample.js:103-108 | from and to are the trimmed captures; `to_vstar` is set iff the VSTAR evolution pattern matched or the captured target contains "VSTAR" |
| `Classifier.PlayKind` | scripts/parse_logsample.js:109-113 | the card is the trimmed capture; the play has a place iff the tail named one, and it is the trimmed place |
| `Classifier.ConditionKind` | scripts/parse_logsample.js:121-125 | the condition is the one captured, and the target is the trimmed text before " is now " |
| `Classifier.BeforeIsNow` | scripts/parse_logsample.js:125 | the target is a prefix of the line |
| `Classifier.MatchesOf` | scripts/parse_logsample.js:81-131 | definition: what every test of the chain reads off one line; used by `ClassifyFirstMatch` and `ClassifyBranch` |
| `Classifier.Fires` | scripts/parse_logsample.js:81-131 | definition: the condition of each `if`/`else if` of the chain, with the fallback always succeeding; used by `ClassifyFirstMatch` |
| `Classifier.ClassifyBranch` | scripts/parse_logsample.js:81-135 | the type of an action comes from a rule whose test succeeds on the line, and the fields are those that rule's branch computes |
| `Classifier.DrawAt` | scripts/parse_logsample.js:37 | definition of `drew (\d+) cards?` at one position; its meaning is stated by `DrawReSound` |
| `Classifier.DrawRe` | scripts/parse_logsample.js:37 | definition: the first position where the draw pattern matches; its meaning is stated by `DrawReSound` |
| `Classifier.DrawReSound` | scripts/parse_logsample.js:37 | the captured count is the value of a digit run that follows "drew " and is followed by " card" (any case) |
| `Classifier.DrawSingle` | scripts/parse_logsample.js:38 | definition: the line contains "drew a card", ignoring case; used by `DrawCount` and `ClassifyDrawSound` |
| `Classifier.ClassifyDrawSound` | scripts/parse_logsample.js:81-84 | a draw action's count is a digit run read between "drew " and " card", or 1 when the line says "drew a card" |
| `Classifier.TwoGroups` | scripts/parse_logsample.js:40-41 | definition of the two lazy groups `(.+?) to (.+?)` with an end-anchored tail; its meaning is stated by `TwoGroupsSound` |
| `Classifier.TwoGroupsSound` | scripts/parse_logsample.js:40-41 | the first group is non-empty and ends at a " to "; the second is non-empty, follows it, and the rest of the line spells the tail |
| `Classifier.GroupsAfterSound` | scripts/parse_logsample.js:40-41 | the same two groups, after the literal that opens the pattern |
| `Classifier.AttachRe` | scripts/parse_logsample.js:40 | definition of the attach pattern's match; its meaning is stated by `AttachReSound` |
| `Classifier.AttachReSound` | scripts/parse_logsample.js:40 | the energy and the target are read, in this order, after "attached " and around " to ", and an attach tail ends the line |
| `Classifier.AttachKind` | scripts/parse_logsample.js:87-89 | the energy and the target are the trimmed captures |
| `Classifier.ClassifyAttachSound` | scripts/parse_logsample.js:85-89 | an attach action's energy and target are the trimmed groups read after "attached " and around " to " |
| `Classifier.EvolveRe` | scripts/parse_logsample.js:41 | definition of the evolve pattern's match; its meaning is stated by `EvolveReSound` |
| `Classifier.EvolveReSound` | scripts/parse_logsample.js:41 | from and to are read, in this order, after "evolved " and around " to ", and an evolve tail ends the line |
| `Classifier.VstarEvolve` | scripts/parse_logsample.js:45 | definition: "evolved ", then " to " with at least one character between, then "VSTAR" after at least one more character, or " to V STAR"; used by `EvolveKind` |
| `Classifier.ClassifyEvolveSound` | scripts/parse_logsample.js:103-108 | an evolve action's from and to are the trimmed groups read after "evolved " and around " to " |
| `Classifier.AttackRe` | scripts/parse_logsample.js:42 | definition of the attack pattern's match; its meaning is stated by `AttackReSound` |
| `Classifier.AttackReSound` | scripts/parse_logsample.js:42 | owner, attacker, attack and target are non-empty and read in this order before "'s ", " used ", " on " and " for ", and the damage is the digit run before " damage" |
| `Classifier.DamageTail` | scripts/parse_logsample.js:42 | definition of `(.+?) for (\d+) damage`; its meaning is stated by `DamageTailSound` |
| `Classifier.DamageTailSound` | scripts/parse_logsample.js:42 | the fourth group ends at the first " for " after which digits and " damage" follow, and the damage is those digits |
| `Classifier.ExtraWeakRe` | scripts/parse_logsample.js:43 | definition of the Weakness pattern's match; its meaning is stated by `ExtraWeakReSound` |
| `Classifier.ExtraWeakReSound` | scripts/parse_logsample.js:43 | the extra damage is the digit run after "took ", followed by " more damage because of ", and the reason is the non-empty text up to the first " Weakness" after it |
| `Classifier.ClassifyAttack` | scripts/parse_logsample.js:90-102 | an attack action is built from the attack pattern's captures and the Weakness pattern's match |
| `Classifier.ClassifyAttackSound` | scripts/parse_logsample.js:90-102 | an attack action's owner, attacker, attack and target are the trimmed groups read in this order in the line, its damage the digits before " damage", and its extra damage and reason those of the Weakness clause |
| `Classifier.PlayedRe` | scripts/parse_logsample.js:39 | definition of the play pattern's match; its meaning is stated by `PlayedReSound` |
| `Classifier.HeadPlaceSound` | scripts/parse_logsample.js:39 | a lazy group after a literal is non-empty and is followed by a tail spelling that ends the line, and the place is what that tail names |
| `Classifier.PlayedReSound` | scripts/parse_logsample.js:39 | the card is the non-empty text after "played " up to a play tail that ends the line, and the place is what the tail names |
| `Classifier.PlacePart` | scripts/parse_logsample.js:39 | the captured place is shorter than the tail; its meaning is stated by `PlacePartSound` |
| `Classifier.PlacePartSound` | scripts/parse_logsample.js:39 | on a play tail, a place is captured iff the tail is more than the optional dot, and it spells Active Spot, Bench or Stadium spot, ignoring case |
| `Classifier.PlayedPlaceSound` | scripts/parse_logsample.js:39 | the place of a play line is one of Active Spot, Bench or Stadium spot, ignoring case |
| `Classifier.ClassifyPlaySound` | scripts/parse_logsample.js:109-113 | a play action is built from a card read after "played " and the place its tail names, which is one of the three places |
| `Classifier.KnockoutRe` | scripts/parse_logsample.js:44 | definition of the knock-out pattern's match; its meaning is stated by `KnockoutReSound` |
| `Classifier.KnockoutReSound` | scripts/parse_logsample.js:44 | the pattern matches iff " was Knocked Out" occurs after at least one character, and the capture is the text before the first such occurrence |
| `Classifier.KnockoutKind` | scripts/parse_logsample.js:117 | the target is the trimmed capture |
| `Classifier.ClassifyKnockoutSound` | scripts/parse_logsample.js:114-117 | a knock-out action's target is the trimmed text before the first " was Knocked Out" that has text before it |
| `Classifier.VstarUse` | scripts/parse_logsample.js:46 | definition: the line contains "Legacy Star", "Apex Dragon" or "VSTAR", ignoring case; used by `ClassifyFirstMatch` |
| `Classifier.SpecialCondRe` | scripts/parse_logsample.js:47 | definition of the condition pattern's match; its meaning is stated by `SpecialCondReSound` |
| `Classifier.SpecialCondReSound` | scripts/parse_logsample.js:47 | the condition is the text right after "is now ", and it spells one of Burned, Poisoned, Asleep, Paralyzed or Confused, ignoring case |
| `Classifier.BeforeIsNowSound` | scripts/parse_logsample.js:125 | the target text is the line before the first exact " is now ", or the whole line when it has none |
| `Classifier.ClassifyConditionSound` | scripts/parse_logsample.js:121-125 | a condition action's condition is the text after "is now " and spells one of the five conditions; its target is the trimmed text before the first exact " is now " |
| `Classifier.PrizeLine` | scripts/parse_logsample.js:48 | definition: the line contains "took a Prize card", ignoring case; used by `ClassifyFirstMatch` |
| `Classifier.CheckupLine` | scripts/parse_logsample.js:50 | definition: the line starts with "Pokémon Checkup", ignoring case; used by `ClassifyFirstMatch` |
| `Classifier.WinnerLine` | scripts/parse_logsample.js:49 | definition: the line contains "You conceded.", "wins", "wins!" or "conceded.", ignoring case; used by `ClassifyFirstMatch` |
| `SampleParser.SplitLog` | scripts/parse_logsample.js:52-140 | the two loops over the trimmed pieces compute the segmentation of the non-empty trimmed lines |
| `SampleParser.PieceStep` | scripts/parse_logsample.js:64-65 | a piece that trims to nothing is skipped; any other is one segmentation step on its trimmed form |
| `SampleParser.ReadSetupLines` | scripts/parse_logsample.js:53-60 | the first loop collects the lines before the first header |
| `SampleParser.SetupPiece` | scripts/parse_logsample.js:55-59 | a piece before the first header adds its trimmed form to the setup, unless it trims to nothing |
| `SampleParser.ReadTurnLines` | scripts/parse_logsample.js:63-139 | the second loop finishes the segmentation, with the open turn still to be pushed |
| `SampleParser.ReadTurnPiece` | scripts/parse_logsample.js:64-65 | a piece that trims to nothing is skipped; any other is one segmentation step |
| `SampleParser.ReadTurnLine` | scripts/parse_logsample.js:66-78 | a header closes the open turn and opens a new one; any other line becomes an action of the open turn |
| `SampleParser.BuildSummary` | scripts/parse_logsample.js:144-177 | the summary is the fold of all actions, in turn and action order |
| `SampleParser.RecordTurn` | scripts/parse_logsample.js:155-176 | the inner loop folds one turn's actions |
| `SampleParser.OtherPlayer` | scripts/parse_logsample.js:165 | the first listed player other than the turn's player (the first listed player when that is empty): every player before it is the turn's player; none only when every listed player is the turn's player |
| `SampleParser.Record` | scripts/parse_logsample.js:155-175 | definition of one action's effect on the summary; its properties are in the `Fold…` lemmas and `RecordHow` |
| `SampleParser.Fold` | scripts/parse_logsample.js:154-177 | definition; its properties are in `FoldKnockouts`, `FoldVstarConditions`, `FoldFinalTurn`, `FoldMethod` and `FoldWinner` |
| `SampleParser.FoldKnockouts` | scripts/parse_logsample.js:154-158 | the fold keeps turn count and players, and appends every knockout action, tagged with its turn, in order |
| `SampleParser.FoldVstarConditions` | scripts/parse_logsample.js:159-175 | the fold appends, in turn and action order, a VSTAR entry for each VSTAR power use and then one for each attack whose text names a VSTAR move, and a special-condition entry for each special-condition action, each with its turn |
| `SampleParser.FoldFinalTurn` | scripts/parse_logsample.js:161-171 | `final_turn` is the turn of the last result action |
| `SampleParser.FoldMethod` | scripts/parse_logsample.js:161-163 | `method` becomes "concession" once any result action reports a concession, and never changes back |
| `SampleParser.RecordHow` | scripts/parse_logsample.js:161-163 | one action sets `method` to "concession" iff it is a result reporting a concession, and otherwise leaves it |
| `SampleParser.WinsName` | scripts/parse_logsample.js:168-169 | definition; its use is stated by `WinnerOfLast` |
| `SampleParser.WinnerOfLast` | scripts/parse_logsample.js:161-170 | a later result decides the winner: a concession names the other player; "X wins" names X; otherwise the earlier winner stays |
| `SampleParser.FoldWinner` | scripts/parse_logsample.js:161-170 | the fold's winner is the one read back from the last result action |
| `SampleParser.ParseLog` | scripts/parse_logsample.js:30-186 | the parsed log is the segmentation with classified actions, the setup players and the folded summary |
| `SampleParser.LogSegments` | scripts/parse_logsample.js:52-78 | the setup is the lines before the first header; the other non-header lines are, in order, the raw lines of the actions, each classified |
| `SampleParser.LogSummary` | scripts/parse_logsample.js:143-176 | `turn_count` is the number of turns, the players are repeated, the knockouts, the VSTAR entries and the special conditions are those of all actions in order, and `final_turn` and the winner are those of the last result |
| `SampleParser.ReplaceForbidden` | scripts/parse_logsample.js:15 | each forbidden character becomes '_' and all others are kept |
| `SampleParser.SafeName` | scripts/parse_logsample.js:14-16 | definition; its properties are in `SafeNameClean` |
| `SampleParser.SafeNameClean` | scripts/parse_logsample.js:14-16 | a safe name has no whitespace and no character from `/\?%*:\|"<>`, and keeps all other characters except '_' in order |
| `SampleParser.CollapseSpaces` | scripts/parse_logsample.js:15 | definition of `.replace(/\s+/g, '_')`; its meaning is stated by `CollapseSpacesRuns` |
| `SampleParser.RunsMarked` | scripts/parse_logsample.js:15 | definition of the independent reference: position by position, whitespace becomes '_' unless the character before it is whitespace too, when it is dropped; other characters stay |
| `SampleParser.CollapseSpacesRuns` | scripts/parse_logsample.js:15 | replacing every maximal whitespace run with one '_' is the same as the position-by-position reference `RunsMarked` |
| `SampleParser.SafeNameRuns` | scripts/parse_logsample.js:14-16 | a safe name is the reference `RunsMarked` applied to the name with its forbidden characters replaced: one '_' per whitespace run, at the run's first position |
| `SampleParser.ConcessionDetail` | scripts/parse_logsample.js:162 | definition: the detail contains "conceded" or "You conceded", ignoring case; used by `RecordHow`, `FoldMethod` and `WinnerOfLast` |
| `SampleParser.ConcessionWinner` | scripts/parse_logsample.js:164-166 | the winner of a concession is the first listed player other than the turn's player when that name is not empty, and no one otherwise |
| `SampleParser.Resolve` | scripts/parse_logsample.js:161-171 | definition of one result action's effect; its properties are in `RecordHow`, `WinnerOfLast` and `FoldFinalTurn` |
| `BoardLines.ActiveAssign` | web/src/state/utils.ts:41-42 | definition; its shape is stated by `BoardPatternsSound` |
| `BoardLines.ActiveSwitch` | web/src/state/utils.ts:43-44 | definition; its shape is stated by `BoardPatternsSound` |
| `BoardLines.ActiveIsNow` | web/src/state/utils.ts:45-46 | definition; its shape is stated by `BoardPatternsSound` |
| `BoardLines.BenchAssign` | web/src/state/utils.ts:47-48 | definition; its shape is stated by `BoardPatternsSound` |
| `BoardLines.BenchBenched` | web/src/state/utils.ts:49 | definition; its shape is stated by `BoardPatternsSound` |
| `BoardLines.TwoCapturesSound` | web/src/state/utils.ts:41-49 | a two-capture pattern that matches reads the line as a non-empty first capture, a text that `Spells` the literal groups (one alternative of each group, in order, ignoring case), a non-empty second capture and one spelling of the tail, in that order |
| `BoardLines.BoardPatternsSound` | web/src/state/utils.ts:41-49 | each of the five board patterns, when it matches, gives a non-empty player and card that occur in that order in the line, separated by a spelling of that pattern's verbs and literals, and the line ends with a spelling of that pattern's tail |
| `BoardLines.OpeningHand` | web/src/state/utils.ts:219 | definition; its reading is stated by `OpeningHandSound` |
| `BoardLines.OpeningHandSound` | web/src/state/utils.ts:219 | a matched opening-hand line has the non-empty player before " drew ", the count is the value of the digits after it, and a spelling of " cards for the opening hand" with optional punctuation ends the line |
| `BoardLines.BonusDraw` | web/src/state/utils.ts:220-221 | definition; its use is stated by `SetupLineHand` |
| `BoardLines.Candidate` | web/src/state/utils.ts:64-76 | a candidate qualifies as its trimmed form, non-empty and not a placeholder |
| `BoardLines.Candidates` | web/src/state/utils.ts:62 | the candidates are actor, fallback, then the players in order |
| `BoardLines.ResolvePlayerName` | web/src/state/utils.ts:57-79 | a resolved name is non-empty, trimmed and not a placeholder, ignoring case |
| `BoardLines.ResolvePlayerNameFirst` | web/src/state/utils.ts:57-79 | the result is the first qualifying candidate, and there is none iff no candidate qualifies |
| `BoardLines.ResolveNamedActor` | web/src/state/utils.ts:63-76 | an actor that is not blank and not a placeholder resolves to itself, trimmed |
| `BoardLines.Attempt` | web/src/state/utils.ts:86-90 | a pattern gives an active change iff it matches and its actor resolves, with the trimmed card |
| `BoardLines.ParseActiveChange` | web/src/state/utils.ts:81-105 | the assign, switch and "is now" patterns are tried in that order: the first attempt that matches with a resolved actor is the result, and there is none iff no attempt succeeds |
| `BoardState.FindCard` | web/src/state/utils.ts:119 | `findIndex` gives the first bench card with the name, or none when no card has it |
| `BoardState.RemoveFirstCount` | web/src/state/utils.ts:117-125 | removing the first card of a name lowers that name's count by one, if any, and keeps every other count |
| `BoardState.RemoveFirstFacts` | web/src/state/utils.ts:119-122 | removing the first card of a name takes out exactly the card at the first index carrying it, and nothing when no card carries it |
| `BoardState.TakeBenchCard` | web/src/state/utils.ts:117-125 | the board loses the first bench card of the name, and that card is returned iff the bench has one |
| `BoardState.Promote` | web/src/state/utils.ts:132-149 | definition; its properties are in `PromoteActive`, `PromoteCount`, `PromotePrevious` and `PromoteOthers` |
| `BoardState.PromoteActive` | web/src/state/utils.ts:137-140 | after a promotion the named card is active; prizes and hand size are unchanged |
| `BoardState.PromoteCount` | web/src/state/utils.ts:139-148 | the promoted name's count drops by one when it was on the bench; the bench is the old bench without its first card of that name, and, when a card of another name was active, also without the first card of that other name and with the demoted card appended |
| `BoardState.PromotePrevious` | web/src/state/utils.ts:142-148 | a previous active card of another name is the last bench card, and its name occurs as often as before, or once if it was absent |
| `BoardState.PromoteOthers` | web/src/state/utils.ts:132-149 | a promotion keeps the bench count of every other name |
| `BoardState.PromoteInOthers` | web/src/state/utils.ts:132-149 | a promotion changes no other player's board |
| `BoardState.RemoveCard` | web/src/state/utils.ts:151-167 | definition; its properties are in `RemoveCardFacts` |
| `BoardState.AddBench` | web/src/state/utils.ts:127-130 | definition; its properties are in `BenchMoveFacts` |
| `BoardState.RemoveCardFacts` | web/src/state/utils.ts:151-167 | it reports a removal iff the card was active or on the bench; the active slot is checked first; at most one card goes |
| `BoardState.BenchMoveFacts` | web/src/state/utils.ts:203-204 | a bench placement makes the card the last bench card and empties the active slot if the card was there |
| `BoardState.Ensure` | web/src/state/utils.ts:107-115 | the player has a board afterwards; the rest is in `EnsureFacts` |
| `BoardState.EnsureFacts` | web/src/state/utils.ts:107-115 | existing entries are untouched; only a missing key gets a fresh board (no active, empty bench, 6 prizes, no hand size), added last |
| `BoardState.BenchMatch` | web/src/state/utils.ts:197-198 | the bench-assign pattern is tried before the "benched" one |
| `BoardState.EffectOf` | web/src/state/utils.ts:188-207 | definition; its properties are in `EffectActiveFirst`, `EffectNeither` and `EffectBench` |
| `BoardState.Apply` | web/src/state/utils.ts:182-208 | definition; its properties are in `ApplyBench`, `ApplySound` and `ApplyKeepsHands` |
| `BoardState.EffectActiveFirst` | web/src/state/utils.ts:191-195 | an active change takes precedence over a bench placement |
| `BoardState.EffectNeither` | web/src/state/utils.ts:188-208 | a blank line, or one that matches neither kind, has no effect |
| `BoardState.EffectBench` | web/src/state/utils.ts:197-206 | a bench placement only happens when no active change applies, for the resolved actor and the trimmed card |
| `BoardState.ApplyBench` | web/src/state/utils.ts:197-206 | a bench placement moves the card to the end of that player's bench, out of the active slot if it was there, and changes no other player's board |
| `BoardState.ApplySound` | web/src/state/utils.ts:182-208 | every line keeps each key listed once and 6 prizes on every board |
| `BoardState.RemoveFromListStops` | web/src/state/utils.ts:174-176 | once a card is removed the remaining players are not visited |
| `BoardState.RemoveFromList` | web/src/state/utils.ts:174-176 | definition of the first loop; its properties are in `RemoveFromListStops`, `RemoveFromAnySound` and `Board.RemoveFromEach` |
| `BoardState.RemoveFromAny` | web/src/state/utils.ts:169-180 | definition; its properties are in `RemoveFromListStops` and `RemoveFromAnySound` |
| `BoardState.RemoveFromAnySound` | web/src/state/utils.ts:169-180 | `removeCardFromAnyPlayer` keeps each key listed once and 6 prizes on every board |
| `BoardState.FreshTable` | web/src/state/utils.ts:214-217 | definition; its properties are in `FreshTableFacts` |
| `BoardState.FreshTableFacts` | web/src/state/utils.ts:214-217 | before the setup, each listed player has a fresh board, keyed in first-seen order, and nothing else is in the record |
| `BoardState.ApplyKeepsHands` | web/src/state/utils.ts:182-208 | board lines never change a hand size |
| `BoardState.HandOf` | web/src/state/utils.ts:229-246 | definition; its effect is stated by `ApplyHandFacts` and `SetupLineHand` |
| `BoardState.SetupLine` | web/src/state/utils.ts:224-246 | definition; its properties are in `SetupLineHand` and `SnapshotsSound` |
| `BoardState.ApplyHandFacts` | web/src/state/utils.ts:229-246 | the hand-size step changes only the named player's hand size |
| `BoardState.SetupLineHand` | web/src/state/utils.ts:223-247 | an opening-hand line sets the named player's hand size to the count; a mulligan-bonus line adds its count, treating a missing size as 0; other players keep theirs |
| `BoardState.PromoteWaiting` | web/src/state/utils.ts:250-253 | definition; its properties are in `PromoteAllEffect` and `PromoteAllOthers` |
| `BoardState.PromoteAllEffect` | web/src/state/utils.ts:249-254 | each listed player with an empty active slot and a non-empty bench gets the first bench card as active and loses it from the bench; afterwards no listed player has an empty active slot with a non-empty bench |
| `BoardState.PromoteAllOthers` | web/src/state/utils.ts:249-254 | players not listed keep their boards |
| `BoardState.ActionText` | web/src/state/utils.ts:51-55 | definition: a plain action's text, or a structured action's `raw`; used by `TurnLine` and `StepActions` |
| `BoardState.TurnLine` | web/src/state/utils.ts:272-275 | definition: an action with no text or empty text is skipped, any other line is applied with the turn's player as default; folded by `TurnFold`, which `SnapshotTablesStep` and `Board.ApplyTurn` use |
| `BoardState.SnapshotSide` | web/src/state/utils.ts:280 | definition: `first` iff the turn's player is the first listed player; used by `BuildSnapshots` and `SidesAgree` |
| `BoardState.SnapshotTables` | web/src/state/utils.ts:263-286 | there is one board more than there are turns |
| `BoardState.SnapshotTablesStep` | web/src/state/utils.ts:267-283 | board 0 is the initial board, and board k+1 is board k with the lines of turn k applied |
| `BoardState.SnapshotsSound` | web/src/state/utils.ts:263-286 | every snapshot's record lists each key once and keeps 6 prizes on every board |
| `BoardState.Board.constructor` | web/src/state/utils.ts:214 | a new record is empty |
| `BoardState.Board.Assign` | web/src/state/utils.ts:112 | `board[p] = pb` adds a new key last, or keeps an existing key in its place |
| `BoardState.Board.EnsurePlayerBoard` | web/src/state/utils.ts:107-115 | the record becomes `Ensure`, and the player's board is returned |
| `BoardState.Board.RemoveBenchCard` | web/src/state/utils.ts:117-125 | the first bench card of the name is removed and returned |
| `BoardState.Board.AddBenchCard` | web/src/state/utils.ts:127-130 | the card is appended to the player's bench |
| `BoardState.Board.PromoteToActive` | web/src/state/utils.ts:132-149 | the record becomes the promotion of the player's board |
| `BoardState.Board.RemoveCardFromBoard` | web/src/state/utils.ts:151-167 | the record and the flag are those of `RemoveCard` on the player's board |
| `BoardState.Board.RemoveFromEach` | web/src/state/utils.ts:174-179 | one pass removes from the first player that has the card, and stops there |
| `BoardState.Board.RemoveCardFromAnyPlayer` | web/src/state/utils.ts:169-180 | the listed players are tried first, then every key of the record as it is after that pass |
| `BoardState.Board.ApplyAction` | web/src/state/utils.ts:182-208 | the record becomes `Apply` of the line |
| `BoardState.Board.ApplyBenchLine` | web/src/state/utils.ts:197-207 | the bench half of a line that is not an active change |
| `BoardState.Board.MoveToBench` | web/src/state/utils.ts:203-204 | remove the card, then append it to the bench |
| `BoardState.Board.Clone` | web/src/state/utils.ts:18-31 | a fresh record with the same keys, in the same order, and equal boards |
| `BoardState.Board.AddFreshBoards` | web/src/state/utils.ts:215-217 | the record holds a fresh board for each listed player |
| `BoardState.Board.UpdateHandSize` | web/src/state/utils.ts:229-246 | the hand-size half of a setup line |
| `BoardState.Board.SetHandSize` | web/src/state/utils.ts:233 | the player's hand size becomes the count, the board being created first if missing |
| `BoardState.Board.AddHandSize` | web/src/state/utils.ts:241-245 | the count is added to the player's hand size, a missing size counting as 0 |
| `BoardState.Board.ReadSetupLine` | web/src/state/utils.ts:224-246 | a blank line is skipped; any other goes through the board half, then the hand-size half |
| `BoardState.Board.ReadSetup` | web/src/state/utils.ts:223-247 | the setup lines are folded in order |
| `BoardState.Board.FillActive` | web/src/state/utils.ts:250-253 | an empty active slot takes the first bench card |
| `BoardState.Board.FillActiveSlots` | web/src/state/utils.ts:249-254 | the promotion pass over the listed players |
| `BoardState.Board.ApplyTurn` | web/src/state/utils.ts:272-276 | the turn's lines are applied in order with the turn's player as default; actions with no text are skipped |
| `BoardState.BuildInitialSnapshot` | web/src/state/utils.ts:210-261 | snapshot 0 has turn number 0, side `first`, and a fresh record equal to the initial board |
| `BoardState.BuildSnapshots` | web/src/state/utils.ts:263-286 | turns+1 snapshots; snapshot k+1 has turn k's number, and side `first` iff the turn's player is the first listed player; each snapshot has its own fresh record, equal to the board after its turn, and no two share one |
| `BoardState.SnapshotTurns` | web/src/state/utils.ts:268-283 | the initial snapshot stays first; one snapshot per turn follows, with the turn's number and side and a fresh record equal to the board after that turn; no two snapshots share a record |
| `BoardState.SnapshotOfTurn` | web/src/state/utils.ts:271-282 | the working record moves from board i to board i+1, and the turn's snapshot gets a fresh copy with the turn's number and side |
| `BoardState.PlayTurn` | web/src/state/utils.ts:271-282 | the working record gets the turn's lines, and the snapshot gets a fresh copy of it |
| `BoardState.BuildSteps` | web/src/state/utils.ts:288-305 | one step per turn, with that turn's number, player and action count |
| `BoardState.StepText` | web/src/state/utils.ts:298-303 | definition; its properties are in `StepActions` |
| `BoardState.StepActions` | web/src/state/utils.ts:298-303 | a step shows a plain line as it is, the non-empty `raw` of a structured action, and otherwise its rendering |
| `BoardState.StepIdInjective` | web/src/state/utils.ts:294 | two equal step ids have the same index |
| `BoardState.StepIdsDistinct` | web/src/state/utils.ts:294 | step ids are unique, whatever the turn numbers |
| `BoardState.SidesAgree` | web/src/state/utils.ts:292-297 | a step and its snapshot give the turn the same side, except when there are no players and the turn's player is empty |

## Left out

- Regular expressions are modelled only as hand-written matchers for the patterns used. The `.` of a pattern is taken to match every character of a line. The code's `.` refuses a carriage return, U+2028 or U+2029 left inside a line.
- Case-insensitive matching folds only ASCII letters and É/é, the only letters in the patterns' literals. Other Unicode case folding is not modelled.
- Strings are sequences of Unicode scalar values, not UTF-16 code units. Every character the code tests is in the Basic Multilingual Plane.
- `Number()` of a digit capture is its natural-number value. Floating-point precision for very long digit strings is not modelled. Turn numbers are natural numbers.
- `Object.keys` and `Object.entries` list keys in insertion order. JavaScript's earlier listing of integer-like keys is not modelled.
- `JSON.stringify` of a structured action in `buildSteps` is the parameter `render`.
- ViewerParser.ParsePtcglLog: the turn-header recogniser is a parameter (the viewer passes `TurnHeader.ParseTurnHeader`). This keeps the proofs small; the sample-log parser uses `ParseTurnHeader` directly.
- The `catch` branch of `loadParsedLog` (web/src/state/store.ts:66-71) is not modelled. In the model, `buildSteps` and `buildSnapshots` never fail.
- BoardState.Ensure: the record is a plain object (web/src/state/utils.ts:214), so `!board[player]` (utils.ts:111) also sees members inherited from `Object.prototype`. The model treats every name as an ordinary key. It does not capture two consequences:
  - a line whose actor resolves to an inherited name such as "toString" makes `ensurePlayerBoard` return that inherited function, and the next `pb.bench` access throws, which sends `loadParsedLog` into its `catch` branch;
  - a listed player named `__proto__` (utils.ts:216) replaces the record's prototype instead of becoming a key, so that player never appears among the keys and `cloneBoard` drops it.
- `loading` is a field of the state, but no updater of store.ts sets it.
- React plumbing is not modelled: `useState`, `useCallback`, `useMemo`, the context value, and the `setInterval` schedule of the timer. `Tick` is the timer's updater body.
- The filesystem part of scripts/parse_logsample.js (lines 1-12 and 188-215) is I/O and is not modelled. That covers directory listing, file reads and writes, and SUMMARY.md.
- `normalizeName` of a truthy non-string value is not modelled (JavaScript would throw). The input is an optional string.
- `looksLikeParsedLog` sees values as JSON-like data (`Json`). Functions, symbols and class instances are not modelled.
- The rendering components, the card-image service and its cache, the log loader component, `translate.ts`, and the superseded `store.tsx` and `store_backup.tsx` are not part of this model.
