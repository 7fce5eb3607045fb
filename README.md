# Cube engine, modelled and proved in Dafny

This project models the core of a 3×3 Rubik's-cube tutor's engine
(`src/lib/cube-engine/`). The engine has five parts:

- **The notation parser** (`parser.ts`). It reads move tokens such as `R`, `U'`, `F2`, `Rw`, `r`, `M`, `x` and `R2'`, and whole algorithms with `( … )` comments. It also inverts moves and algorithms, and prints a move list back as notation.
- **The cube state** (`state.ts`). A cube is six faces of nine coloured stickers. This part covers the solved cube, cloning, solvedness, equality and a text dump.
- **The move executor** (`executor.ts`). It turns the six sticker arrays in place: the face turns, slice moves, wide moves, whole-cube rotations and z2. Its public operations clone the cube first.
- **The validator** (`validator.ts`). These checks never throw. They report whether a move or an algorithm parses, whether a stored algorithm record agrees with its own notation, and give a summary over many records.
- **The text net** (`renderer.ts`, `renderCubeNet`). It draws U on top, then L F R B side by side, then D below, each as rows of colour initials.

The Dafny modules follow that structure:

| module | file | form |
|---|---|---|
| `Text` | `text.dfy` | JavaScript's `trim`, splitting on white space, comment removal, `join` and `split`, as functions with lemmas |
| `Notation` | `notation.dfy` | the move datatypes and the parser, as functions with lemmas |
| `CubeState` | `cube_state.dfy` | the value `State` that the pure functions work on, and the class `Cube` with its six `array<Color>` fields |
| `Turns` | `turns.dfy` | what every move does, as a function on `State`, with the lemmas about moves |
| `Executor` | `executor.dfy` | the executor as methods that write the arrays of a `Cube`, each proved against `Turns` |
| `Validator` | `validator.dfy` | the pure checks as functions; `validateAlgorithmData` as methods with its early return and its loop |
| `Renderer` | `renderer.dfy` | `renderCubeNet` as a method with its three loops, proved against the function `NetLines` |
| `Scenarios` | `scenarios.dfy` | the concrete algorithms the engine's own tests rely on: R U R' U', R F R' F', the sledgehammer, the T-permutation and a single R |

A thrown error becomes the `Err` side of a `Result`, and each error message becomes a datatype variant carrying the values the message shows.

## Model

| member | source | states |
|---|---|---|
| `Text.TrimStart` | src/lib/cube-engine/parser.ts:25 | the result is the suffix of the input that starts at its first non-space; everything dropped is white space |
| `Text.TrimEnd` | src/lib/cube-engine/parser.ts:25 | the result is the prefix that ends at the last non-space; everything dropped is white space |
| `Text.Trim` | src/lib/cube-engine/parser.ts:25-29 | the result neither starts nor ends with white space, and it is empty exactly when the input is all white space |
| `Text.TrimOfTrimmed` | src/lib/cube-engine/parser.ts:25 | a string that neither starts nor ends with white space is its own trim |
| `Text.Words` | src/lib/cube-engine/parser.ts:97-100 | every word is non-empty and holds no white space |
| `Text.WordsAllSpace` | src/lib/cube-engine/parser.ts:97-100 | a string of white space only holds no words |
| `Text.WordsNotAllSpace` | src/lib/cube-engine/parser.ts:97-100 | a string with a non-space character holds at least one word |
| `Text.WordsSkipSpace` | src/lib/cube-engine/parser.ts:97-100 | leading white space does not change the words |
| `Text.WordsOfJoin` | src/lib/cube-engine/parser.ts:97-100 | splitting a single-space join of non-empty, space-free words gives back exactly those words |
| `Text.StripComments` | src/lib/cube-engine/parser.ts:94 | removing comments never lengthens the text or adds a character |
| `Text.StripCommentsRemovesAll` | src/lib/cube-engine/parser.ts:94 | after removal no `(` is followed anywhere by a `)`, so no comment is left |
| `Text.StripCommentsNoParen` | src/lib/cube-engine/parser.ts:94 | text without `(` is left unchanged |
| `Text.JoinAppend` | src/lib/cube-engine/parser.ts:167-169 | joining two non-empty lists is joining each, with one separator between |
| `Text.JoinInjective` | src/lib/cube-engine/state.ts:124-131 | joins of equally many parts of one length are equal only when the parts are |
| `Text.SplitOfJoin` | src/lib/cube-engine/__tests__/render-cube-net.test.ts:25 | splitting a join on a character no part holds gives the parts back |
| `Text.JoinEndsWithLast` | src/lib/cube-engine/renderer.ts:398 | a join ends with its last part |
| `Notation.WideTable` | src/lib/cube-engine/parser.ts:12 | the wide table holds exactly the twelve wide bases (`Uw` … `Rw`, `u` … `r`) |
| `Notation.BaseTable` | src/lib/cube-engine/parser.ts:9 | the base table holds exactly the twelve one-letter bases that are not wide |
| `Notation.BaseNamed` | src/lib/cube-engine/parser.ts:9-12 | finds the base spelled exactly as given, or proves that no base is spelled so |
| `Notation.NameInjective` | src/lib/cube-engine/parser.ts:9-12 | no two bases share a name |
| `Notation.FindWide` | src/lib/cube-engine/parser.ts:34 | a hit is in the wide table and has the given name; a miss means no wide base has it |
| `Notation.FindBasic` | src/lib/cube-engine/parser.ts:66 | a hit is in the base table and has the given name; a miss means no one-letter base has it |
| `Notation.FindModifier` | src/lib/cube-engine/parser.ts:15 | a hit is in the modifier table and is written as the given text; a miss means no modifier is written so |
| `Notation.FindModifierText` | src/lib/cube-engine/parser.ts:15 | each modifier's own text is found as that modifier, `2'` included |
| `Notation.WithModifier` | src/lib/cube-engine/parser.ts:37-39 | success keeps the base and the trimmed text and reads the modifier from the rest; failure is "invalid modifier" carrying the rest and the move |
| `Notation.SplitBase` | src/lib/cube-engine/parser.ts:32-68 | the base found is the one named by the token's prefix of one or two letters, and it is the two-letter wide base exactly when the token's first two letters name a base; when none is found, no base name is a prefix of the token |
| `Notation.ParseMove` | src/lib/cube-engine/parser.ts:23-79 | blank input, and only blank input, is the empty-move error; a success carries the trimmed text as its notation and is well formed |
| `Notation.ParseToken` | src/lib/cube-engine/parser.ts:32-79 | a success's text is its base name followed by its modifier; "invalid modifier" names a real base followed by an unknown modifier, the base being the two-letter one exactly when the first two letters name a base; "invalid move" carries the first character, and then no base name is a prefix of the token |
| `Notation.NameLength` | src/lib/cube-engine/parser.ts:12 | a base name has one letter, or two ending in `w` for the upper-case wide bases |
| `Notation.SplitCanonical` | src/lib/cube-engine/parser.ts:32-68 | the base found at the start of a well-formed token is that token's own base, so `Uw'` is never read as `U` followed by `w'` |
| `Notation.ParseCanonical` | src/lib/cube-engine/parser.ts:23-79 | every base followed by every modifier parses back to exactly that base and modifier |
| `Notation.ParseMoveSucceeds` | src/lib/cube-engine/parser.ts:23-79 | a move parses exactly when its trimmed text is a base name followed by a modifier |
| `Notation.ParseUnknownBase` | src/lib/cube-engine/__tests__/parser.test.ts:86-88 | `X` is rejected as an invalid move |
| `Notation.ParseUnknownModifier` | src/lib/cube-engine/__tests__/parser.test.ts:90-92 | `R3` is rejected as an invalid modifier `3` |
| `Notation.RejectedModifier` | src/lib/cube-engine/parser.ts:70-72 | a trimmed token whose base is followed by an unknown modifier is rejected with that modifier |
| `Notation.ParseWidePrefix` | src/lib/cube-engine/__tests__/parser.test.ts:70-74 | `Uw'` is the wide move `Uw` with a prime |
| `Notation.ParseLowerWide` | src/lib/cube-engine/__tests__/parser.test.ts:64-68 | `r` is the lower-case wide move with no modifier |
| `Notation.ParseWideUnknownModifier` | src/lib/cube-engine/parser.ts:32-39 | `Uw3` is read with the wide base `Uw` and rejected with modifier `3`, not `w3` |
| `Notation.InvertModifier` | src/lib/cube-engine/parser.ts:124-140 | the inverse modifier's quarter turns and the original's add up to a whole number of full turns, and the inverse is never `2'` |
| `Notation.InvertMove` | src/lib/cube-engine/parser.ts:121-148 | the inverse keeps the base; its quarter turns and the move's add up to a full turn; it is never `2'`; its text is its base and new modifier |
| `Notation.InvertAlgorithm` | src/lib/cube-engine/parser.ts:155-160 | the same length, with element `i` the inverse of element `n-1-i` |
| `Notation.InvertMoveTwice` | src/lib/cube-engine/__tests__/parser.test.ts:143-166 | inverting a well-formed move other than `2'` twice gives it back |
| `Notation.InvertAlgorithmTwice` | src/lib/cube-engine/__tests__/parser.test.ts:168-187 | inverting twice gives back every well-formed move list that holds no `2'` |
| `Notation.InvertTwiceLosesDoublePrime` | src/lib/cube-engine/parser.ts:134-136 | a `2'` comes back from double inversion as `2` |
| `Notation.MovesToNotation` | src/lib/cube-engine/parser.ts:167-169 | the move texts joined by single spaces; its words are the notations (`Notation.PrintedWords`), and parsing it gives a well-formed list back (`Notation.ParsePrinted`) |
| `Notation.Notations` | src/lib/cube-engine/parser.ts:167-169 | one text per move, each that move's notation |
| `Notation.MovesToNotationAppend` | src/lib/cube-engine/parser.ts:167-169 | printing two non-empty lists one after the other puts one space between their texts |
| `Notation.ParseEach` | src/lib/cube-engine/parser.ts:103-105 | one parse outcome per word, each that word's own outcome |
| `Notation.FirstError` | src/lib/cube-engine/parser.ts:103-113 | every outcome before the index succeeded, and the outcome at the index failed |
| `Notation.Values` | src/lib/cube-engine/parser.ts:103-105 | the moves of outcomes that all succeeded, one for one |
| `Notation.ParseWords` | src/lib/cube-engine/parser.ts:103-113 | succeeds exactly when every word parses, giving one move per word; otherwise the error names the first failing word, the whole algorithm and that word's own error |
| `Notation.ParseAlgorithm` | src/lib/cube-engine/parser.ts:87-114 | blank input is the empty list; a success holds one well-formed move per comment-free word, carrying that word; a failure is the first failing word's error |
| `Notation.BlankHasNoWords` | src/lib/cube-engine/parser.ts:89-91 | a blank algorithm has no words, so the early return agrees with the general path |
| `Notation.ParseAlgorithmSucceeds` | src/lib/cube-engine/parser.ts:87-114 | an algorithm parses exactly when every comment-free word parses as a move |
| `Notation.NotationRoundTrip` | src/lib/cube-engine/__tests__/integration.test.ts:103-109 | printing parsed moves gives the comment-free words joined by single spaces |
| `Notation.ParsePrinted` | src/lib/cube-engine/parser.ts:167-169 | printing well-formed moves and parsing the text gives back the same moves |
| `Notation.ParseWellFormed` | src/lib/cube-engine/parser.ts:23-79 | a well-formed move's text parses back to that move |
| `Notation.PrintedWords` | src/lib/cube-engine/parser.ts:167-169 | the words of printed well-formed moves are their notations |
| `Notation.CanonicalShape` | src/lib/cube-engine/parser.ts:9-15 | a token text is non-empty and holds no white space and no parenthesis |
| `CubeState.Initial` | src/lib/cube-engine/state.ts:120 | the letter a colour prints as; `CubeState.InitialIsUpperFirst` shows it is the upper-cased first letter of the colour's name |
| `CubeState.InitialIsUpperFirst` | src/lib/cube-engine/state.ts:120 | each colour prints as the upper-cased first letter of its name, and no two colours share a letter |
| `CubeState.SolvedFace` | src/lib/cube-engine/state.ts:29-35 | all nine stickers have the given colour |
| `CubeState.SolvedState` | src/lib/cube-engine/state.ts:13-22 | every sticker has its face's home colour: U white, D yellow, F green, B blue, L orange, R red |
| `CubeState.IsFaceSolved` | src/lib/cube-engine/state.ts:76-79 | every sticker has sticker 0's colour; `CubeState.FaceSolvedIff` shows this means the face is uniform |
| `CubeState.IsStateSolved` | src/lib/cube-engine/state.ts:59-69 | all six faces are solved; `CubeState.StateSolvedIff` gives it sticker by sticker |
| `CubeState.FaceSolvedIff` | src/lib/cube-engine/state.ts:76-79 | a face is solved exactly when it is the uniform face of its first sticker's colour |
| `CubeState.StateSolvedIff` | src/lib/cube-engine/state.ts:59-69 | a cube is solved exactly when, on every face, every sticker matches that face's sticker 0 |
| `CubeState.SolvedStateIsSolved` | src/lib/cube-engine/__tests__/state.test.ts:96-99 | the solved cube is solved |
| `CubeState.SolvedStatesAreUniform` | src/lib/cube-engine/state.ts:59-69 | on a solved cube every sticker matches its face's centre |
| `CubeState.SetSticker` | src/lib/cube-engine/__tests__/state.test.ts:82-93 | the chosen sticker gets the new colour and every other sticker is unchanged |
| `CubeState.OneStickerUnsolves` | src/lib/cube-engine/__tests__/state.test.ts:101-111 | recolouring any one sticker of the solved cube with another colour unsolves it |
| `CubeState.FacesEqual` | src/lib/cube-engine/state.ts:104-111 | the faces agree at all nine positions; `CubeState.FacesEqualIff` shows this is equality of faces |
| `CubeState.StatesEqual` | src/lib/cube-engine/state.ts:87-97 | the six pairs of faces agree; `CubeState.StatesEqualIff` shows this is equality of cubes |
| `CubeState.FacesEqualIff` | src/lib/cube-engine/state.ts:104-111 | two faces compare equal exactly when they are the same face |
| `CubeState.StatesEqualIff` | src/lib/cube-engine/state.ts:87-96 | two states compare equal exactly when they are the same state, that is, when all 54 stickers agree |
| `CubeState.RowText` | src/lib/cube-engine/state.ts:121 | a row of a face prints as three initials |
| `CubeState.FaceBlock` | src/lib/cube-engine/state.ts:119-122 | a block is the face's name, a colon and its three rows, with a newline before each row |
| `CubeState.StateToString` | src/lib/cube-engine/state.ts:118-132 | the dump is 94 characters: the blocks U, F, R, B, L, D of 14 characters each, block k at 16·k, with a blank line after every block but the last |
| `CubeState.StateToStringInjective` | src/lib/cube-engine/state.ts:118-132 | different states give different dumps |
| `CubeState.SolvedStateText` | src/lib/cube-engine/__tests__/state.test.ts:155-175 | the solved dump shows the blocks `U:`, `F:`, `R:`, `B:`, `L:` and `D:`, holding `WWW`, `GGG`, `RRR`, `BBB`, `OOO` and `YYY` rows |
| `CubeState.RecolouredStateText` | src/lib/cube-engine/__tests__/state.test.ts:177-184 | recolouring U's first sticker red shows `RWW` in the dump's first row |
| `CubeState.BlockInjective` | src/lib/cube-engine/state.ts:119-122 | a face block determines its face |
| `CubeState.Cube.Solved` | src/lib/cube-engine/state.ts:13-22 | fresh, distinct arrays holding the solved cube |
| `CubeState.Cube.Clone` | src/lib/cube-engine/state.ts:42-51 | fresh, distinct arrays holding the same stickers as the original |
| `CubeState.CopyFace` | src/lib/cube-engine/state.ts:44 | a fresh array with the same nine stickers |
| `CubeState.NewSolvedFace` | src/lib/cube-engine/state.ts:29-35 | a fresh array of nine stickers of one colour |
| `Turns.RotateCw` | src/lib/cube-engine/executor.ts:124-144 | a face's own quarter turn; `Turns.RotateCwCycles` gives its cycles and order four |
| `Turns.TurnR` | src/lib/cube-engine/executor.ts:150-173 | what the routine does to a cube value; `Turns.CycleR` gives its ring and frame, `Executor.ApplyR` proves the in-place routine equal to it |
| `Turns.TurnL` | src/lib/cube-engine/executor.ts:178-201 | what the routine does to a cube value; `Turns.CycleL` gives its ring and frame, `Executor.ApplyL` proves the in-place routine equal to it |
| `Turns.TurnU` | src/lib/cube-engine/executor.ts:206-229 | what the routine does to a cube value; `Turns.CycleU` gives its ring and frame, `Executor.ApplyU` proves the in-place routine equal to it |
| `Turns.TurnD` | src/lib/cube-engine/executor.ts:234-257 | what the routine does to a cube value; `Turns.CycleD` gives its ring and frame, `Executor.ApplyD` proves the in-place routine equal to it |
| `Turns.TurnF` | src/lib/cube-engine/executor.ts:262-285 | what the routine does to a cube value; `Turns.CycleF` gives its ring and frame, `Executor.ApplyF` proves the in-place routine equal to it |
| `Turns.TurnB` | src/lib/cube-engine/executor.ts:290-313 | what the routine does to a cube value; `Turns.CycleB` gives its ring and frame, `Executor.ApplyB` proves the in-place routine equal to it |
| `Turns.SliceM` | src/lib/cube-engine/executor.ts:382-401 | what the routine does to a cube value; `Turns.CycleM` gives its ring and frame, `Executor.ApplyM` proves the in-place routine equal to it |
| `Turns.SliceE` | src/lib/cube-engine/executor.ts:407-426 | what the routine does to a cube value; `Turns.CycleE` gives its ring and frame, `Executor.ApplyE` proves the in-place routine equal to it |
| `Turns.SliceS` | src/lib/cube-engine/executor.ts:432-451 | what the routine does to a cube value; `Turns.CycleS` gives its ring and frame, `Executor.ApplyS` proves the in-place routine equal to it |
| `Turns.WideR` | src/lib/cube-engine/executor.ts:319-325 | R then M three times, in the executor's order; `Turns.WideAsMoves` and `Turns.WideOrderFour` state its properties |
| `Turns.WideL` | src/lib/cube-engine/executor.ts:331-334 | L then M, in the executor's order; `Turns.WideAsMoves` and `Turns.WideOrderFour` state its properties |
| `Turns.WideU` | src/lib/cube-engine/executor.ts:340-346 | U then E three times, in the executor's order; `Turns.WideAsMoves` and `Turns.WideOrderFour` state its properties |
| `Turns.WideD` | src/lib/cube-engine/executor.ts:352-355 | D then E, in the executor's order; `Turns.WideAsMoves` and `Turns.WideOrderFour` state its properties |
| `Turns.WideF` | src/lib/cube-engine/executor.ts:361-364 | F then S, in the executor's order; `Turns.WideAsMoves` and `Turns.WideOrderFour` state its properties |
| `Turns.WideB` | src/lib/cube-engine/executor.ts:370-376 | B then S three times, in the executor's order; `Turns.WideAsMoves` and `Turns.WideOrderFour` state its properties |
| `Turns.RotX` | src/lib/cube-engine/executor.ts:457-467 | the rotation composed in the executor's order; `Turns.RotXFaces` says where it carries each face |
| `Turns.RotY` | src/lib/cube-engine/executor.ts:473-483 | the rotation composed in the executor's order; `Turns.RotYFaces` says where it carries each face |
| `Turns.RotZ` | src/lib/cube-engine/executor.ts:489-496 | the rotation composed in the executor's order; `Turns.RotZFaces` says where it carries each face |
| `Turns.Z2` | src/lib/cube-engine/executor.ts:539-544 | z twice; `Turns.Z2Faces` and `Turns.Z2Twice` state its effect and order |
| `Turns.Basic` | src/lib/cube-engine/executor.ts:50-118 | one clockwise application of any base, `r` and `Rw` alike; `Turns.OrderFour` shows four of them are no move |
| `Turns.Apply` | src/lib/cube-engine/executor.ts:15-44 | the base applied once, three times or twice by modifier; `Turns.MoveThenInverse` shows the inverse undoes it |
| `Turns.ApplyAll` | src/lib/cube-engine/executor.ts:504-512 | the moves applied first to last; `Turns.ApplyAllAppend` and `Turns.AlgorithmThenInverse` state its properties |
| `Turns.RotateCwCycles` | src/lib/cube-engine/executor.ts:124-144 | a face's own quarter turn keeps its centre, moves each corner and each edge one place clockwise, and has order four |
| `Turns.CycleR` | src/lib/cube-engine/executor.ts:150-173 | R turns the R face and carries its twelve ring stickers F → U → B → D → F, with B's column reversed; nothing else moves |
| `Turns.CycleL` | src/lib/cube-engine/executor.ts:178-201 | L turns the L face and carries U → F → D → B → U; nothing else moves |
| `Turns.CycleU` | src/lib/cube-engine/executor.ts:206-229 | U turns the U face and carries the top rows F → L → B → R → F; nothing else moves |
| `Turns.CycleD` | src/lib/cube-engine/executor.ts:234-257 | D turns the D face and carries the bottom rows F → R → B → L → F; nothing else moves |
| `Turns.CycleF` | src/lib/cube-engine/executor.ts:262-285 | F turns the F face and carries U → R → D → L → U around it; nothing else moves |
| `Turns.CycleB` | src/lib/cube-engine/executor.ts:290-313 | B turns the B face and carries U → L → D → R → U around it; nothing else moves |
| `Turns.CycleM` | src/lib/cube-engine/executor.ts:382-401 | M carries the middle columns U → F → D → B → U and turns no face |
| `Turns.CycleE` | src/lib/cube-engine/executor.ts:407-426 | E carries the middle rows F → R → B → L → F and turns no face |
| `Turns.CycleS` | src/lib/cube-engine/executor.ts:432-451 | S carries the middle slice U → R → D → L → U and turns no face |
| `Turns.RotXFaces` | src/lib/cube-engine/executor.ts:457-467 | x brings F to U and D to F, moves U to B and B to D turned half way, and turns R clockwise and L anticlockwise |
| `Turns.RotYFaces` | src/lib/cube-engine/executor.ts:473-483 | y brings R to F, F to L, L to B and B to R, and turns U clockwise and D anticlockwise |
| `Turns.RotZFaces` | src/lib/cube-engine/executor.ts:489-496 | z brings L to U, U to R, R to D and D to L, each turned, and turns F clockwise and B anticlockwise |
| `Turns.Z2Faces` | src/lib/cube-engine/executor.ts:539-544 | z2 swaps U with D and L with R, turning every face half way |
| `Turns.RepeatAdd` | src/lib/cube-engine/executor.ts:26-39 | m quarter turns of a base followed by n more are m + n quarter turns |
| `Turns.OrderFour` | src/lib/cube-engine/__tests__/executor.test.ts:129-163 | every base applied four times gives back the state it started from |
| `Turns.RotationOrderFour` | src/lib/cube-engine/executor.ts:457-496 | each rotation applied four times is no rotation |
| `Turns.FaceOrderFour` | src/lib/cube-engine/executor.ts:150-313 | each face turn applied four times is no move |
| `Turns.WideOrderFour` | src/lib/cube-engine/executor.ts:319-376 | each wide move applied four times is no move |
| `Turns.SliceOrderFour` | src/lib/cube-engine/executor.ts:382-451 | each slice move applied four times is no move |
| `Turns.MoveThenInverse` | src/lib/cube-engine/__tests__/executor.test.ts:141-155 | a move followed by its inverse leaves every cube as it was, for every modifier including `2'` |
| `Turns.ApplyAllAppend` | src/lib/cube-engine/executor.ts:504-512 | applying `a + b` is applying `a`, then `b` |
| `Turns.ApplyAllStep` | src/lib/cube-engine/executor.ts:504-512 | applying one more move extends the prefix applied so far |
| `Turns.Trace` | src/lib/cube-engine/executor.ts:521-531 | the start, then one state per move |
| `Turns.TraceStep` | src/lib/cube-engine/executor.ts:521-531 | each state of the trace is the one before it with the next move applied |
| `Turns.TraceIsPrefixes` | src/lib/cube-engine/executor.ts:521-531 | element `k` of the trace is the start with the first `k` moves applied, and the last is the whole algorithm's result |
| `Turns.AlgorithmThenInverse` | src/lib/cube-engine/__tests__/integration.test.ts:33-44 | an algorithm followed by its inverse returns every cube to where it started |
| `Turns.UDCommute` | src/lib/cube-engine/__tests__/commutation.test.ts:41-53 | U and D commute as turns |
| `Turns.UDMovesCommute` | src/lib/cube-engine/__tests__/commutation.test.ts:41-53 | U then D and D then U give the same cube |
| `Turns.Mv` | src/lib/cube-engine/parser.ts:74-78 | the move built from a base and a modifier is well formed |
| `Turns.RepeatUpToThree` | src/lib/cube-engine/executor.ts:26-39 | one, two and three quarter turns, spelled out |
| `Turns.ApplyPair` | src/lib/cube-engine/executor.ts:504-512 | a two-move list is its first move, then its second |
| `Turns.ApplyTriple` | src/lib/cube-engine/executor.ts:504-512 | a three-move list is its moves in order |
| `Turns.WideAsMoves` | src/lib/cube-engine/executor.ts:319-376 | Rw = R M', Lw = L M, Uw = U E', Dw = D E, Fw = F S, Bw = B S', and `r` is the same move as `Rw` |
| `Turns.RotationsAsMoves` | src/lib/cube-engine/executor.ts:457-496 | x = R M' L', y = U E' D', z = F S B' |
| `Turns.RotateUniform` | src/lib/cube-engine/executor.ts:124-144 | turning a uniform face keeps it uniform, with the same centre |
| `Turns.RotationKeepsSolved` | src/lib/cube-engine/executor.ts:457-496 | a whole-cube rotation keeps a solved cube solved |
| `Turns.Z2OfSolved` | src/lib/cube-engine/__tests__/z2-rotation.test.ts:6-28 | z2 on the solved cube puts yellow on top, white below, red left and orange right; F and B keep their colours |
| `Turns.Z2Twice` | src/lib/cube-engine/__tests__/z2-rotation.test.ts:40-52 | z2 twice is no rotation |
| `Executor.RotateFaceClockwise` | src/lib/cube-engine/executor.ts:124-144 | the face array afterwards holds its old stickers turned a quarter clockwise |
| `Executor.ApplyR` | src/lib/cube-engine/executor.ts:150-173 | the arrays afterwards hold `TurnR` of the old cube; only U, D, F, B and R are written |
| `Executor.ApplyL` | src/lib/cube-engine/executor.ts:178-201 | the arrays afterwards hold `TurnL` of the old cube; only U, D, F, B and L are written |
| `Executor.ApplyU` | src/lib/cube-engine/executor.ts:206-229 | the arrays afterwards hold `TurnU` of the old cube; D is not written |
| `Executor.ApplyD` | src/lib/cube-engine/executor.ts:234-257 | the arrays afterwards hold `TurnD` of the old cube; U is not written |
| `Executor.ApplyF` | src/lib/cube-engine/executor.ts:262-285 | the arrays afterwards hold `TurnF` of the old cube; B is not written |
| `Executor.ApplyB` | src/lib/cube-engine/executor.ts:290-313 | the arrays afterwards hold `TurnB` of the old cube; F is not written |
| `Executor.ApplyM` | src/lib/cube-engine/executor.ts:382-401 | the arrays afterwards hold `SliceM` of the old cube; L and R are not written |
| `Executor.ApplyE` | src/lib/cube-engine/executor.ts:407-426 | the arrays afterwards hold `SliceE` of the old cube; U and D are not written |
| `Executor.ApplyS` | src/lib/cube-engine/executor.ts:432-451 | the arrays afterwards hold `SliceS` of the old cube; F and B are not written |
| `Executor.ApplyRw` | src/lib/cube-engine/executor.ts:319-325 | the arrays afterwards hold the wide R move of the old cube |
| `Executor.ApplyLw` | src/lib/cube-engine/executor.ts:331-334 | the arrays afterwards hold the wide L move of the old cube |
| `Executor.ApplyUw` | src/lib/cube-engine/executor.ts:340-346 | the arrays afterwards hold the wide U move of the old cube |
| `Executor.ApplyDw` | src/lib/cube-engine/executor.ts:352-355 | the arrays afterwards hold the wide D move of the old cube |
| `Executor.ApplyFw` | src/lib/cube-engine/executor.ts:361-364 | the arrays afterwards hold the wide F move of the old cube |
| `Executor.ApplyBw` | src/lib/cube-engine/executor.ts:370-376 | the arrays afterwards hold the wide B move of the old cube |
| `Executor.ApplyX` | src/lib/cube-engine/executor.ts:457-467 | the arrays afterwards hold the old cube rotated by x |
| `Executor.ApplyY` | src/lib/cube-engine/executor.ts:473-483 | the arrays afterwards hold the old cube rotated by y |
| `Executor.ApplyZ` | src/lib/cube-engine/executor.ts:489-496 | the arrays afterwards hold the old cube rotated by z |
| `Executor.ApplyBasicMove` | src/lib/cube-engine/executor.ts:50-118 | the arrays afterwards hold one clockwise application of the base; `r` and `Rw` are the same move |
| `Executor.ApplyMove` | src/lib/cube-engine/executor.ts:15-43 | a fresh cube holding the move applied to the input: once, three times for `'`, twice for `2` and `2'`; the input is not written |
| `Executor.RepeatSteps` | src/lib/cube-engine/executor.ts:19-39 | one, two or three successive applications are the repeat the modifier asks for |
| `Executor.ApplyAlgorithm` | src/lib/cube-engine/executor.ts:504-512 | the result holds all the moves applied in order; with no moves it is the input cube itself, otherwise a fresh cube |
| `Executor.ApplyAlgorithmStepByStep` | src/lib/cube-engine/executor.ts:521-531 | one more cube than moves: the input first, then each later cube fresh and holding the state after that many moves |
| `Executor.ApplyZ2` | src/lib/cube-engine/executor.ts:539-544 | the arrays afterwards hold z2 of the old cube |
| `Executor.ApplyZ2Rotation` | src/lib/cube-engine/executor.ts:553-557 | a fresh cube holding z2 of the input; the input is not written |
| `Validator.IsValidMove` | src/lib/cube-engine/validator.ts:19-26 | the text parses as one move; `Validator.ValidMoveShape` gives the exact shape of valid texts |
| `Validator.IsValidAlgorithm` | src/lib/cube-engine/validator.ts:33-40 | the text parses as an algorithm; `Validator.ValidAlgorithmWords` gives it word by word |
| `Validator.ValidMoveShape` | src/lib/cube-engine/validator.ts:19-26 | a move text is valid exactly when, once trimmed, it is a base name followed by a modifier |
| `Validator.BlankMoveInvalid` | src/lib/cube-engine/validator.ts:19-26 | empty and blank move texts are invalid |
| `Validator.ValidAlgorithmWords` | src/lib/cube-engine/validator.ts:33-40 | an algorithm is valid exactly when every comment-free word is a valid move, so blank algorithms are valid |
| `Validator.PrintedAlgorithmValid` | src/lib/cube-engine/validator.ts:33-40 | printed well-formed moves always form a valid algorithm |
| `Validator.MismatchErrors` | src/lib/cube-engine/validator.ts:73-79 | at most one error per position, each a mismatch error |
| `Validator.MismatchErrorsExact` | src/lib/cube-engine/validator.ts:73-79 | exactly one mismatch error per position below the bound where the texts differ, carrying the position and both texts |
| `Validator.NoMismatchIff` | src/lib/cube-engine/validator.ts:73-79 | no mismatch error exactly when the texts agree at every position below the bound |
| `Validator.Check` | src/lib/cube-engine/validator.ts:47-95 | the record is valid exactly when no error is reported |
| `Validator.CompareMoves` | src/lib/cube-engine/validator.ts:65-79 | the loop reports the count error when the lengths differ, then one error per differing position |
| `Validator.CollectErrors` | src/lib/cube-engine/validator.ts:48-94 | appending errors check by check, with the early return, gives exactly the errors and verdict of `Check` |
| `Validator.ValidateAlgorithmData` | src/lib/cube-engine/validator.ts:47-95 | the result is the validation of the record against its own parsed notation |
| `Validator.Validate` | src/lib/cube-engine/validator.ts:47-95 | a record checked against its own parse; `Validator.ValidIff` gives exactly when it is valid |
| `Validator.ValidIff` | src/lib/cube-engine/validator.ts:47-95 | a record is valid exactly when its moves list is present, its notation parses to moves with the same texts as the stored ones, and its id is not blank |
| `Validator.ParsedRecordValid` | src/lib/cube-engine/__tests__/validator.test.ts:55-65 | a record stored from its own parsed notation is valid when its id is not blank |
| `Validator.MissingMovesStops` | src/lib/cube-engine/validator.ts:56-59 | a missing moves list makes the record invalid, is the last error, stops before the id check, and is the only error exactly when the notation parses |
| `Validator.UnparseableReportedTwice` | src/lib/cube-engine/validator.ts:51-53 | notation that does not parse is reported twice, first as invalid notation, then as the parse failure |
| `Validator.ParsedErrors` | src/lib/cube-engine/validator.ts:62-89 | when the notation parses, the errors are the comparison's followed by the id check's |
| `Validator.CountMismatchReported` | src/lib/cube-engine/validator.ts:66-70 | a length difference gives exactly one count error, first, with both lengths; equal lengths give none |
| `Validator.MoveMismatchesReported` | src/lib/cube-engine/validator.ts:73-79 | every position below both lengths where the texts differ is reported with its position and both texts |
| `Validator.MoveMismatchesGenuine` | src/lib/cube-engine/validator.ts:73-79 | each reported mismatch names a position below both lengths where the texts really differ |
| `Validator.ErrorLayout` | src/lib/cube-engine/validator.ts:62-89 | in a count error followed by mismatch and id errors, the count error comes first and is the only one of its kind |
| `Validator.BlankIdReported` | src/lib/cube-engine/validator.ts:87-89 | with the moves list present, a blank id is reported exactly when the id is blank, and as the last error |
| `Validator.CheckAll` | src/lib/cube-engine/validator.ts:108-111 | one result per record, in order, each the record's id with its validation |
| `Validator.Failures` | src/lib/cube-engine/validator.ts:113 | no more failures than results |
| `Validator.CountValid` | src/lib/cube-engine/validator.ts:117 | no more valid results than results |
| `Validator.FailureCount` | src/lib/cube-engine/validator.ts:113-118 | the failures and the valid results together are all the results |
| `Validator.FailuresAppend` | src/lib/cube-engine/validator.ts:113 | the failures of a concatenation are the failures of each part, in order |
| `Validator.FailuresExact` | src/lib/cube-engine/validator.ts:113-122 | every failed result is listed with its errors, and everything listed is a failed result |
| `Validator.ValidateAlgorithmBatch` | src/lib/cube-engine/validator.ts:102-124 | the total is the number of records; valid plus invalid is the total; the invalid count is the length of the list of failures |
| `Validator.BatchListsInvalid` | src/lib/cube-engine/validator.ts:102-124 | the summary lists exactly the records that fail validation, each with its id and errors |
| `Validator.FailuresOfTwo` | src/lib/cube-engine/__tests__/validator.test.ts:151-171 | with one valid and one invalid record, only the invalid one is listed, and one is counted valid |
| `Renderer.IndentedRow` | src/lib/cube-engine/renderer.ts:380-382 | a U or D line is four spaces and then one row of the face, seven characters in all |
| `Renderer.MiddleRow` | src/lib/cube-engine/renderer.ts:385-391 | a middle line is rows of L, F, R and B separated by single spaces, fifteen characters in all |
| `Renderer.NetLines` | src/lib/cube-engine/renderer.ts:377-396 | the net has nine lines |
| `Renderer.NetText` | src/lib/cube-engine/renderer.ts:398 | the nine lines joined by newlines; `Renderer.NetIsNineLines` splits it back into them and `Renderer.RenderCubeNet` is proved to return it |
| `Renderer.FaceRow` | src/lib/cube-engine/renderer.ts:371-374 | a row of a face array is the row of initials of the face it holds |
| `Renderer.RenderCubeNet` | src/lib/cube-engine/renderer.ts:367-398 | the text the three loops build and join is the net of the cube the arrays hold |
| `Renderer.RowHasNoNewline` | src/lib/cube-engine/renderer.ts:371-374 | a row of initials holds no newline |
| `Renderer.LinesHaveNoNewline` | src/lib/cube-engine/renderer.ts:377-396 | no line of the net holds a newline |
| `Renderer.NetIsNineLines` | src/lib/cube-engine/__tests__/render-cube-net.test.ts:25-26 | the net splits on newlines into exactly its nine lines, and it does not end with a newline |
| `Renderer.NetInjective` | src/lib/cube-engine/renderer.ts:367-398 | different cubes render differently |
| `Renderer.RowsDetermineFace` | src/lib/cube-engine/renderer.ts:371-374 | a face is determined by its three rows of initials |
| `Renderer.SolvedNet` | src/lib/cube-engine/__tests__/render-cube-net.test.ts:12-42 | the solved cube renders as three `WWW` lines, three `OOO GGG RRR BBB` lines and three `YYY` lines |
| `Scenarios.SexyAsTurns` | src/lib/cube-engine/executor.ts:15-43 | R U R' U' is the turns R, U, three Rs, three Us |
| `Scenarios.SexyTurnsOrderSix` | src/lib/cube-engine/__tests__/executor.test.ts:176-186 | six R U R' U' give back every cube |
| `Scenarios.SexyOrderSix` | src/lib/cube-engine/__tests__/integration.test.ts:70-85 | R U R' U' applied six times gives back every cube, not only the solved one |
| `Scenarios.SexyCycle` | src/lib/cube-engine/__tests__/executor.test.ts:176-186 | R U R' U' carries the solved cube through five given cubes and back |
| `Scenarios.SexyFromSolved` | src/lib/cube-engine/__tests__/integration.test.ts:70-85 | one to five applications of R U R' U' leave the solved cube unsolved; the sixth restores it |
| `Scenarios.SexyCycleApplied` | src/lib/cube-engine/__tests__/executor.test.ts:176-186 | the same cycle, stepped by applying the algorithm's moves |
| `Scenarios.SexyPowersUnsolved` | src/lib/cube-engine/__tests__/integration.test.ts:70-85 | none of the five cubes on the way is solved |
| `Scenarios.SexyRepeatFrom` | src/lib/cube-engine/__tests__/executor.test.ts:176-186 | repeating an algorithm walks along a list of cubes that it carries one to the next |
| `Scenarios.CommutatorUnsolves` | src/lib/cube-engine/__tests__/commutation.test.ts:11-25 | R F R' F' does not bring a solved cube back to solved |
| `Scenarios.FRDiffersFromRF` | src/lib/cube-engine/__tests__/commutation.test.ts:27-39 | F then R and R then F give different cubes |
| `Scenarios.SexyStepsUnsolved` | src/lib/cube-engine/__tests__/integration.test.ts:87-101 | stepping R U R' U' from a solved cube gives five cubes, the first solved and the other four unsolved |
| `Scenarios.RUFStepsDiffer` | src/lib/cube-engine/__tests__/executor.test.ts:233-243 | stepping R U F from a solved cube, each cube differs from the one before it |
| `Scenarios.ROnSolved` | src/lib/cube-engine/__tests__/r-move-detailed.test.ts:11-58 | after R the R face is all red, and D's colour has reached F, F's U, U's B and B's D |
| `Scenarios.RNet` | src/lib/cube-engine/__tests__/render-cube-net.test.ts:69-100 | the net after R on a solved cube, line by line |
| `Scenarios.ApplyAllChain` | src/lib/cube-engine/executor.ts:504-512 | a list of cubes, each the one before with the next move applied, ends where the whole list of moves leads |
| `Scenarios.SledgeAsTurns` | src/lib/cube-engine/__tests__/algs.test.ts:13-27 | the sledgehammer as turns |
| `Scenarios.SledgeNet` | src/lib/cube-engine/__tests__/algs.test.ts:13-27 | the net after R' F R F' on a solved cube, line by line |
| `Scenarios.SledgeParsed` | src/lib/cube-engine/__tests__/algs.test.ts:13-27 | the sledgehammer's text parses to the sledgehammer |
| `Scenarios.SexyThreeTimes` | src/lib/cube-engine/__tests__/algs.test.ts:29-45 | three R U R' U' in one list equal three applications of R U R' U' |
| `Scenarios.SexyThreeNet` | src/lib/cube-engine/__tests__/algs.test.ts:29-45 | the net after R U R' U' three times on a solved cube, line by line |
| `Scenarios.SexyThreeParsed` | src/lib/cube-engine/__tests__/algs.test.ts:29-45 | the text of three R U R' U' parses to three copies of it |
| `Scenarios.TPermAsTurns` | src/lib/cube-engine/__tests__/algs.test.ts:47-62 | the T-permutation as turns |
| `Scenarios.TPermFromSolved` | src/lib/cube-engine/__tests__/render-cube-net.test.ts:44-67 | the T-permutation on a solved cube gives the cube whose only moved stickers are on the U layer's sides |
| `Scenarios.TPermNet` | src/lib/cube-engine/__tests__/render-cube-net.test.ts:44-67 | the net after the T-permutation on a solved cube, line by line |
| `Scenarios.TPermParsed` | src/lib/cube-engine/__tests__/algs.test.ts:47-62 | the T-permutation's text parses to the T-permutation |
| `Scenarios.ParsesTo` | src/lib/cube-engine/parser.ts:87-114 | a text that prints a list of well-formed moves parses to that list |

## Left out

- Aliasing between faces: `Cube.Valid` requires six distinct arrays. The source never shares an array between faces, and cloning always makes new ones.
- The modifier `2'`: the type of modifiers in `src/types/cube.ts` lists only none, `'` and `2`. The parser's runtime table also accepts `2'`, and the model follows the runtime table: `2'` is parsed, executed as two quarter turns and inverted to `2`. A move list holding `2'` therefore does not survive double inversion (`Notation.InvertTwiceLosesDoublePrime`). The move itself is still undone by its inverse (`Turns.MoveThenInverse`).
- `Executor.ApplyAlgorithmStepByStep`: as in the source, the first element is the input cube itself, not a copy. The contract does not state that the later cubes are pairwise distinct, only that each was created during the call.
- The "each state differs from the previous" expectation of the step-by-step tests is not a general property: it does not hold for every move list (x on a solved cube is solved again, for example). It is proved for the two step-by-step cases the tests use, R U F (`Scenarios.RUFStepsDiffer`) and R U R' U' (`Scenarios.SexyStepsUnsolved`). The aliasing expectation of those tests (writing to one returned cube leaves the others alone) is covered only as far as `Executor.ApplyAlgorithmStepByStep`'s freshness clauses go.
- Regular expressions are modelled as scans. `\s` and `trim` use JavaScript's white-space set as listed in `Text.IsSpace`; characters outside that list, such as U+0085, count as non-space, as in JavaScript.
- Characters: a Dafny `char` here is a Unicode scalar value, while JavaScript indexes strings by UTF-16 code unit. Every character the parser accepts, and every white-space character, is a single code unit, so valid input parses the same. A token that starts with a character outside the Basic Multilingual Plane differs only in its error: for `😀R` the source reports the lone high surrogate as the invalid base, while `Notation.ParseToken` reports the whole character.
- Error messages: each thrown error or message string is a datatype variant carrying the values the message shows; the wording is not modelled. The "failed to parse" error keeps the underlying error itself rather than its message text.
- Loose record fields: a record whose id is missing or not a string is modelled with the empty string as its id, which the validator reports in the same way. A moves field that is missing or not an array is `None`.
- `applyBasicMove`'s throw for an unknown base: it cannot happen, because `Base` is a closed datatype holding exactly the names the parser accepts.
- `Notation.MovesToNotation` has no contract of its own; its properties are stated by `Notation.ParsePrinted`, `Notation.PrintedWords`, `Notation.NotationRoundTrip` and `Notation.MovesToNotationAppend`.
- `Validator.ValidateAlgorithmData` parses the notation once and uses the outcome for both the validity check and the comparison. The source parses it twice; parsing is deterministic, so the result is the same.
- The rest of `renderer.ts` (SVG and 3D rendering) is not part of this model. Neither are the data loaders, the scripts, the user interface or the performance tests.
- Console logging in the tests is left out.
