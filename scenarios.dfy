/**
 * Concrete move sequences whose effect the engine's callers rely on: the
 * "sexy move" R U R' U' and its order, commutators, the T-permutation, and
 * what a single R does to a solved cube.
 */
module Scenarios {
  import opened Wrappers
  import opened Notation
  import opened Text
  import opened CubeState
  import opened Turns
  import opened Renderer

  const SexyMove: seq<Move> :=
    [Mv(Turn(R), Clockwise), Mv(Turn(U), Clockwise), Mv(Turn(R), Prime), Mv(Turn(U), Prime)]

  /** R F R' F'. */
  const Commutator: seq<Move> :=
    [Mv(Turn(R), Clockwise), Mv(Turn(F), Clockwise), Mv(Turn(R), Prime), Mv(Turn(F), Prime)]

  /** R' F R F', the "sledgehammer". */
  const Sledge: seq<Move> :=
    [Mv(Turn(R), Prime), Mv(Turn(F), Clockwise), Mv(Turn(R), Clockwise), Mv(Turn(F), Prime)]

  /** R U R' U' R' F R2 U' R' U' R U R' F'. */
  const TPerm: seq<Move> :=
    [Mv(Turn(R), Clockwise), Mv(Turn(U), Clockwise), Mv(Turn(R), Prime), Mv(Turn(U), Prime),
     Mv(Turn(R), Prime), Mv(Turn(F), Clockwise), Mv(Turn(R), Double), Mv(Turn(U), Prime),
     Mv(Turn(R), Prime), Mv(Turn(U), Prime), Mv(Turn(R), Clockwise), Mv(Turn(U), Clockwise),
     Mv(Turn(R), Prime), Mv(Turn(F), Prime)]

  /** An algorithm applied `n` times in a row. */
  function RepeatAlgorithm(s: State, moves: seq<Move>, n: nat): State
    decreases n
  {
    if n == 0 then s else RepeatAlgorithm(ApplyAll(s, moves), moves, n - 1)
  }

  /** R U R' U' as primitive turns. */
  function SexyTurns(s: State): State {
    TurnU(TurnU(TurnU(TurnR(TurnR(TurnR(TurnU(TurnR(s))))))))
  }

  lemma ApplyFour(s: State, a: Move, b: Move, c: Move, d: Move)
    ensures ApplyAll(s, [a, b, c, d]) == ApplyAll(Apply(Apply(s, a), b), [c, d])
  {
    assert [a, b, c, d][1..] == [b, c, d];
    assert [b, c, d][1..] == [c, d];
  }

  lemma SexyAsTurns(s: State)
    ensures ApplyAll(s, SexyMove) == SexyTurns(s)
  {
    var s2 := TurnU(TurnR(s));
    RepeatUpToThree(s, Turn(R));
    RepeatUpToThree(TurnR(s), Turn(U));
    RepeatUpToThree(s2, Turn(R));
    RepeatUpToThree(TurnR(TurnR(TurnR(s2))), Turn(U));
    ApplyFour(s, SexyMove[0], SexyMove[1], SexyMove[2], SexyMove[3]);
    ApplyPair(s2, SexyMove[2], SexyMove[3]);
  }

  lemma SexyTurnsOrderSix(s: State)
    ensures SexyTurns(SexyTurns(SexyTurns(SexyTurns(SexyTurns(SexyTurns(s)))))) == s
  {
  }

  /** R U R' U' has order six on every cube, not only the solved one. */
  lemma SexyOrderSix(s: State)
    ensures RepeatAlgorithm(s, SexyMove, 6) == s
  {
    var s1 := SexyTurns(s);
    var s2 := SexyTurns(s1);
    var s3 := SexyTurns(s2);
    var s4 := SexyTurns(s3);
    var s5 := SexyTurns(s4);
    SexyAsTurns(s); SexyAsTurns(s1); SexyAsTurns(s2); SexyAsTurns(s3); SexyAsTurns(s4); SexyAsTurns(s5);
    assert RepeatAlgorithm(s, SexyMove, 6) == RepeatAlgorithm(s1, SexyMove, 5) == RepeatAlgorithm(s2, SexyMove, 4)
        == RepeatAlgorithm(s3, SexyMove, 3) == RepeatAlgorithm(s4, SexyMove, 2) == RepeatAlgorithm(s5, SexyMove, 1);
    SexyTurnsOrderSix(s);
  }

  /** A solved cube after one to five applications of R U R' U'. */
  const SexyOnce := State(
    Face(White, White, Orange, White, White, Green, White, White, Green),
    Face(Yellow, Yellow, Red, Yellow, Yellow, Yellow, Yellow, Yellow, Yellow),
    Face(Green, Green, Yellow, Green, Green, White, Green, Green, Green),
    Face(Blue, Red, Red, Blue, Blue, Blue, Blue, Blue, Blue),
    Face(Blue, Orange, Orange, Orange, Orange, Orange, Orange, Orange, Orange),
    Face(Red, Red, White, Blue, Red, Red, White, Red, Red))

  const SexyTwice := State(
    Face(Orange, Green, Blue, White, White, White, White, White, Green),
    Face(Yellow, Yellow, Red, Yellow, Yellow, Yellow, Yellow, Yellow, Yellow),
    Face(Green, Green, Red, Green, Green, White, Green, Green, Yellow),
    Face(Red, Red, White, Blue, Blue, Blue, Blue, Blue, Blue),
    Face(Blue, Orange, Orange, Orange, Orange, Orange, Orange, Orange, Orange),
    Face(White, Blue, White, Red, Red, Red, Green, Red, Red))

  const SexyThrice := State(
    Face(Blue, White, Blue, White, White, White, White, White, Yellow),
    Face(Yellow, Yellow, White, Yellow, Yellow, Yellow, Yellow, Yellow, Yellow),
    Face(Green, Green, Red, Green, Green, Green, Green, Green, Red),
    Face(White, Blue, White, Blue, Blue, Blue, Blue, Blue, Blue),
    Face(Red, Orange, Orange, Orange, Orange, Orange, Orange, Orange, Orange),
    Face(Green, Red, Orange, Red, Red, Red, Green, Red, Red))

  const SexyFourTimes := State(
    Face(Blue, White, Red, White, White, Green, White, White, Red),
    Face(Yellow, Yellow, Green, Yellow, Yellow, Yellow, Yellow, Yellow, Yellow),
    Face(Green, Green, White, Green, Green, White, Green, Green, Red),
    Face(White, Red, Orange, Blue, Blue, Blue, Blue, Blue, Blue),
    Face(White, Orange, Orange, Orange, Orange, Orange, Orange, Orange, Orange),
    Face(Green, Red, Blue, Blue, Red, Red, Yellow, Red, Red))

  const SexyFiveTimes := State(
    Face(Red, Green, White, White, White, White, White, White, Red),
    Face(Yellow, Yellow, Green, Yellow, Yellow, Yellow, Yellow, Yellow, Yellow),
    Face(Green, Green, Green, Green, Green, White, Green, Green, White),
    Face(Orange, Red, Blue, Blue, Blue, Blue, Blue, Blue, Blue),
    Face(White, Orange, Orange, Orange, Orange, Orange, Orange, Orange, Orange),
    Face(Yellow, Blue, Blue, Red, Red, Red, Red, Red, Red))

  /** R U R' U' carries the solved cube through five unsolved cubes and back. */
  lemma SexyCycle()
    ensures SexyTurns(SolvedState()) == SexyOnce && SexyTurns(SexyOnce) == SexyTwice
    ensures SexyTurns(SexyTwice) == SexyThrice && SexyTurns(SexyThrice) == SexyFourTimes
    ensures SexyTurns(SexyFourTimes) == SexyFiveTimes && SexyTurns(SexyFiveTimes) == SolvedState()
  {
  }

  /** One to five applications of R U R' U' leave a solved cube unsolved; the sixth restores it. */
  lemma SexyFromSolved(k: nat)
    requires 1 <= k <= 6
    ensures IsStateSolved(RepeatAlgorithm(SolvedState(), SexyMove, k)) <==> k == 6
  {
    var powers := [SolvedState(), SexyOnce, SexyTwice, SexyThrice, SexyFourTimes, SexyFiveTimes, SolvedState()];
    SexyCycleApplied(powers);
    SexyRepeatFrom(powers, 0, k);
    var t := RepeatAlgorithm(SolvedState(), SexyMove, k);
    assert t == powers[k];
    SexyPowersUnsolved();
    if k == 6 {
      SolvedStateIsSolved();
    } else {
      assert t in {SexyOnce, SexyTwice, SexyThrice, SexyFourTimes, SexyFiveTimes};
    }
  }

  /** The same cycle, stepped by the algorithm rather than its turns. */
  lemma SexyCycleApplied(powers: seq<State>)
    requires powers == [SolvedState(), SexyOnce, SexyTwice, SexyThrice, SexyFourTimes, SexyFiveTimes, SolvedState()]
    ensures forall j :: 0 <= j < 6 ==> ApplyAll(powers[j], SexyMove) == powers[j + 1]
  {
    SexyCycle();
    forall j | 0 <= j < 6
      ensures ApplyAll(powers[j], SexyMove) == powers[j + 1]
    {
      SexyAsTurns(powers[j]);
    }
  }

  /** None of the five intermediate cubes is solved: each has a U face with two different stickers. */
  lemma SexyPowersUnsolved()
    ensures !IsStateSolved(SexyOnce) && !IsStateSolved(SexyTwice) && !IsStateSolved(SexyThrice)
    ensures !IsStateSolved(SexyFourTimes) && !IsStateSolved(SexyFiveTimes)
  {
    assert At(SexyOnce.u, 2) != At(SexyOnce.u, 0);
    assert At(SexyTwice.u, 1) != At(SexyTwice.u, 0);
    assert At(SexyThrice.u, 1) != At(SexyThrice.u, 0);
    assert At(SexyFourTimes.u, 1) != At(SexyFourTimes.u, 0);
    assert At(SexyFiveTimes.u, 1) != At(SexyFiveTimes.u, 0);
  }

  /** Repeating an algorithm walks along a list of states each of which it carries to the next. */
  lemma {:induction false} SexyRepeatFrom(powers: seq<State>, j: nat, k: nat)
    requires j + k < |powers|
    requires forall i :: 0 <= i < |powers| - 1 ==> ApplyAll(powers[i], SexyMove) == powers[i + 1]
    ensures RepeatAlgorithm(powers[j], SexyMove, k) == powers[j + k]
    decreases k
  {
    if k > 0 {
      SexyRepeatFrom(powers, j + 1, k - 1);
    }
  }

  /** The trace of a three-move list: the start, then each move applied in turn. */
  lemma TraceOfThree(s: State, a: Move, b: Move, c: Move)
    ensures Trace(s, [a, b, c]) == [s, Apply(s, a), Apply(Apply(s, a), b), Apply(Apply(Apply(s, a), b), c)]
  {
    var s1 := Apply(s, a);
    var s2 := Apply(s1, b);
    assert [a, b, c][1..] == [b, c];
    assert [b, c][1..] == [c];
    assert [c][1..] == [];
    assert Trace(s2, [c]) == [s2] + Trace(Apply(s2, c), []);
    assert Trace(s1, [b, c]) == [s1] + Trace(s2, [c]);
    assert Trace(s, [a, b, c]) == [s] + Trace(s1, [b, c]);
  }

  /** The trace of a four-move list: the start, then each move applied in turn. */
  lemma TraceOfFour(s: State, a: Move, b: Move, c: Move, d: Move)
    ensures Trace(s, [a, b, c, d]) == [s] + Trace(Apply(s, a), [b, c, d])
  {
    assert [a, b, c, d][1..] == [b, c, d];
  }

  /** The cubes a solved cube passes through under R U R' U', as primitive turns. */
  function SexySteps(): seq<State> {
    var s1 := TurnR(SolvedState());
    var s2 := TurnU(s1);
    var s3 := TurnR(TurnR(TurnR(s2)));
    [SolvedState(), s1, s2, s3, TurnU(TurnU(TurnU(s3)))]
  }

  /** Stepping R U R' U' from a solved cube: the start is solved, every later cube is not. */
  lemma SexyStepsUnsolved()
    ensures var t := Trace(SolvedState(), SexyMove);
      |t| == 5 && IsStateSolved(t[0]) && forall k :: 1 <= k < 5 ==> !IsStateSolved(t[k])
  {
    SexyTrace();
    SolvedStateIsSolved();
    SexyStepsNotSolved();
  }

  lemma SexyTrace()
    ensures Trace(SolvedState(), SexyMove) == SexySteps()
  {
    var t := SexySteps();
    RepeatUpToThree(t[0], Turn(R));
    RepeatUpToThree(t[1], Turn(U));
    RepeatUpToThree(t[2], Turn(R));
    RepeatUpToThree(t[3], Turn(U));
    TraceOfFour(t[0], SexyMove[0], SexyMove[1], SexyMove[2], SexyMove[3]);
    TraceOfThree(t[1], SexyMove[1], SexyMove[2], SexyMove[3]);
  }

  lemma SexyStepsNotSolved()
    ensures forall k :: 1 <= k < 5 ==> !IsStateSolved(SexySteps()[k])
  {
    var t := SexySteps();
    SexyCycle();
    assert t[4] == SexyOnce;
    SexyPowersUnsolved();
    assert At(t[1].u, 2) != At(t[1].u, 0);
    assert At(t[2].u, 6) != At(t[2].u, 0);
    assert At(t[3].u, 6) != At(t[3].u, 0);
  }

  /** Stepping R U F from a solved cube: each cube differs from the one before it. */
  lemma RUFStepsDiffer()
    ensures var t := Trace(SolvedState(), [Mv(Turn(R), Clockwise), Mv(Turn(U), Clockwise), Mv(Turn(F), Clockwise)]);
      |t| == 4 && !StatesEqual(t[0], t[1]) && !StatesEqual(t[1], t[2]) && !StatesEqual(t[2], t[3])
  {
    var s0 := SolvedState();
    var s1 := TurnR(s0);
    var s2 := TurnU(s1);
    var s3 := TurnF(s2);
    RepeatUpToThree(s0, Turn(R));
    RepeatUpToThree(s1, Turn(U));
    RepeatUpToThree(s2, Turn(F));
    TraceOfThree(s0, Mv(Turn(R), Clockwise), Mv(Turn(U), Clockwise), Mv(Turn(F), Clockwise));
    RUFDiffer(s0, s1, s2, s3);
  }

  lemma RUFDiffer(s0: State, s1: State, s2: State, s3: State)
    requires s0 == SolvedState() && s1 == TurnR(s0) && s2 == TurnU(s1) && s3 == TurnF(s2)
    ensures !StatesEqual(s0, s1) && !StatesEqual(s1, s2) && !StatesEqual(s2, s3)
  {
    StatesEqualIff(s0, s1);
    StatesEqualIff(s1, s2);
    StatesEqualIff(s2, s3);
    assert s0.u.s2 != s1.u.s2;
    assert s1.u.s6 != s2.u.s6;
    assert s2.u.s6 != s3.u.s6;
  }

  /** The commutator R F R' F' does not return a solved cube to solved: R and F do not commute. */
  lemma CommutatorUnsolves()
    ensures !IsStateSolved(ApplyAll(SolvedState(), Commutator))
  {
    var s := SolvedState();
    var t := TurnF(TurnF(TurnF(TurnR(TurnR(TurnR(TurnF(TurnR(s))))))));
    RepeatUpToThree(s, Turn(R));
    RepeatUpToThree(TurnR(s), Turn(F));
    RepeatUpToThree(TurnF(TurnR(s)), Turn(R));
    RepeatUpToThree(TurnR(TurnR(TurnR(TurnF(TurnR(s))))), Turn(F));
    ApplyFour(s, Commutator[0], Commutator[1], Commutator[2], Commutator[3]);
    ApplyPair(TurnF(TurnR(s)), Commutator[2], Commutator[3]);
    assert At(t.u, 6) != At(t.u, 0);
  }

  /** F then R and R then F give different cubes. */
  lemma FRDiffersFromRF()
    ensures ApplyAll(SolvedState(), [Mv(Turn(F), Clockwise), Mv(Turn(R), Clockwise)])
         != ApplyAll(SolvedState(), [Mv(Turn(R), Clockwise), Mv(Turn(F), Clockwise)])
  {
    var s := SolvedState();
    ApplyPair(s, Mv(Turn(F), Clockwise), Mv(Turn(R), Clockwise));
    ApplyPair(s, Mv(Turn(R), Clockwise), Mv(Turn(F), Clockwise));
    RepeatUpToThree(s, Turn(R)); RepeatUpToThree(s, Turn(F));
    RepeatUpToThree(TurnF(s), Turn(R)); RepeatUpToThree(TurnR(s), Turn(F));
    assert TurnR(TurnF(s)).u.s8 != TurnF(TurnR(s)).u.s8;
  }

  /** R on a solved cube keeps R all red and carries D's colour to F, F's to U, U's to B and B's to D. */
  lemma ROnSolved()
    ensures var t := Apply(SolvedState(), Mv(Turn(R), Clockwise));
      t.r == SolvedFace(Red) && t.f.s2 == Yellow && t.u.s2 == Green && t.b.s6 == White && t.d.s2 == Blue
  {
    RepeatUpToThree(SolvedState(), Turn(R));
  }

  /** A solved cube after R. */
  const ROnce := State(
    Face(White, White, Green, White, White, Green, White, White, Green),
    Face(Yellow, Yellow, Blue, Yellow, Yellow, Blue, Yellow, Yellow, Blue),
    Face(Green, Green, Yellow, Green, Green, Yellow, Green, Green, Yellow),
    Face(White, Blue, Blue, White, Blue, Blue, White, Blue, Blue),
    Face(Orange, Orange, Orange, Orange, Orange, Orange, Orange, Orange, Orange),
    Face(Red, Red, Red, Red, Red, Red, Red, Red, Red))

  /** The net after R on a solved cube: a column of each of U, F, D and B has moved on. */
  lemma RNet()
    ensures NetLines(ApplyAll(SolvedState(), [Mv(Turn(R), Clockwise)])) ==
      ["    WWG", "    WWG", "    WWG",
       "OOO GGY RRR WBB", "OOO GGY RRR WBB", "OOO GGY RRR WBB",
       "    YYB", "    YYB", "    YYB"]
  {
    RepeatUpToThree(SolvedState(), Turn(R));
    assert ApplyAll(SolvedState(), [Mv(Turn(R), Clockwise)]) == Apply(SolvedState(), Mv(Turn(R), Clockwise));
    assert TurnR(SolvedState()) == ROnce;
    assert ApplyAll(SolvedState(), [Mv(Turn(R), Clockwise)]) == ROnce;
    ROnceNet();
  }

  lemma ROnceNet()
    ensures NetLines(ROnce) ==
      ["    WWG", "    WWG", "    WWG",
       "OOO GGY RRR WBB", "OOO GGY RRR WBB", "OOO GGY RRR WBB",
       "    YYB", "    YYB", "    YYB"]
  {
  }

  /** A list of states each of which is the one before it with the next move applied ends where the moves lead. */
  lemma {:induction false} ApplyAllChain(states: seq<State>, moves: seq<Move>)
    requires |states| == |moves| + 1
    requires forall k :: 0 <= k < |moves| ==> Apply(states[k], moves[k]) == states[k + 1]
    ensures ApplyAll(states[0], moves) == states[|moves|]
    decreases |moves|
  {
    if moves != [] {
      ApplyAllChain(states[1..], moves[1..]);
    }
  }

  /** R' F R F' as primitive turns. */
  function SledgeTurns(s: State): State {
    TurnF(TurnF(TurnF(TurnR(TurnF(TurnR(TurnR(TurnR(s))))))))
  }

  lemma SledgeAsTurns(s: State)
    ensures ApplyAll(s, Sledge) == SledgeTurns(s)
  {
    var s1 := TurnR(TurnR(TurnR(s)));
    var s2 := TurnF(s1);
    var s3 := TurnR(s2);
    RepeatUpToThree(s, Turn(R));
    RepeatUpToThree(s1, Turn(F));
    RepeatUpToThree(s2, Turn(R));
    RepeatUpToThree(s3, Turn(F));
    ApplyAllChain([s, s1, s2, s3, SledgeTurns(s)], Sledge);
  }

  /** The net after R' F R F' on a solved cube. */
  lemma SledgeNet()
    ensures NetLines(ApplyAll(SolvedState(), Sledge)) ==
      ["    WWG", "    WWG", "    BRR",
       "OOW RGG YWW OBB", "OOO GGW RRR BBB", "OOO GGW RRR BBB",
       "    YYG", "    YYY", "    YYY"]
  {
    SledgeAsTurns(SolvedState());
    assert SledgeTurns(SolvedState()) == SledgeResult;
    SledgeResultNet();
  }

  /** A solved cube after R' F R F'. */
  const SledgeResult := State(
    Face(White, White, Green, White, White, Green, Blue, Red, Red),
    Face(Yellow, Yellow, Green, Yellow, Yellow, Yellow, Yellow, Yellow, Yellow),
    Face(Red, Green, Green, Green, Green, White, Green, Green, White),
    Face(Orange, Blue, Blue, Blue, Blue, Blue, Blue, Blue, Blue),
    Face(Orange, Orange, White, Orange, Orange, Orange, Orange, Orange, Orange),
    Face(Yellow, White, White, Red, Red, Red, Red, Red, Red))

  lemma SledgeResultNet()
    ensures NetLines(SledgeResult) ==
      ["    WWG", "    WWG", "    BRR",
       "OOW RGG YWW OBB", "OOO GGW RRR BBB", "OOO GGW RRR BBB",
       "    YYG", "    YYY", "    YYY"]
  {
  }

  /** Three R U R' U' in a row, as one algorithm, equal three applications of R U R' U'. */
  lemma SexyThreeTimes(s: State)
    ensures ApplyAll(s, SexyMove + SexyMove + SexyMove) == SexyTurns(SexyTurns(SexyTurns(s)))
  {
    ApplyAllAppend(s, SexyMove + SexyMove, SexyMove);
    ApplyAllAppend(s, SexyMove, SexyMove);
    SexyAsTurns(s);
    SexyAsTurns(SexyTurns(s));
    SexyAsTurns(SexyTurns(SexyTurns(s)));
  }

  /** The net after R U R' U' three times on a solved cube. */
  lemma SexyThreeNet()
    ensures NetLines(ApplyAll(SolvedState(), SexyMove + SexyMove + SexyMove)) ==
      ["    BWB", "    WWW", "    WWY",
       "ROO GGR GRO WBW", "OOO GGG RRR BBB", "OOO GGR GRR BBB",
       "    YYW", "    YYY", "    YYY"]
  {
    SexyThreeTimes(SolvedState());
    SexyCycle();
    SexyThriceNet();
  }

  lemma SexyThriceNet()
    ensures NetLines(SexyThrice) ==
      ["    BWB", "    WWW", "    WWY",
       "ROO GGR GRO WBW", "OOO GGG RRR BBB", "OOO GGR GRR BBB",
       "    YYW", "    YYY", "    YYY"]
  {
  }

  /** R' F R2, U' R' U' and R U R' F': the three stretches of the T-permutation after R U R' U'. */
  function TPermSecond(s: State): State {
    TurnR(TurnR(TurnF(TurnR(TurnR(TurnR(s))))))
  }

  function TPermThird(s: State): State {
    TurnU(TurnU(TurnU(TurnR(TurnR(TurnR(TurnU(TurnU(TurnU(s)))))))))
  }

  function TPermFourth(s: State): State {
    TurnF(TurnF(TurnF(TurnR(TurnR(TurnR(TurnU(TurnR(s))))))))
  }

  /** The T-permutation as primitive turns. */
  function TPermTurns(s: State): State {
    TPermFourth(TPermThird(TPermSecond(SexyTurns(s))))
  }

  lemma TPermSecondAsTurns(s: State)
    ensures ApplyAll(s, TPerm[4..7]) == TPermSecond(s)
  {
    var s1 := TurnR(TurnR(TurnR(s)));
    var s2 := TurnF(s1);
    RepeatUpToThree(s, Turn(R)); RepeatUpToThree(s1, Turn(F)); RepeatUpToThree(s2, Turn(R));
    ApplyAllChain([s, s1, s2, TPermSecond(s)], TPerm[4..7]);
  }

  lemma TPermThirdAsTurns(s: State)
    ensures ApplyAll(s, TPerm[7..10]) == TPermThird(s)
  {
    var s1 := TurnU(TurnU(TurnU(s)));
    var s2 := TurnR(TurnR(TurnR(s1)));
    RepeatUpToThree(s, Turn(U)); RepeatUpToThree(s1, Turn(R)); RepeatUpToThree(s2, Turn(U));
    ApplyAllChain([s, s1, s2, TPermThird(s)], TPerm[7..10]);
  }

  lemma TPermFourthAsTurns(s: State)
    ensures ApplyAll(s, TPerm[10..]) == TPermFourth(s)
  {
    var s1 := TurnR(s);
    var s2 := TurnU(s1);
    var s3 := TurnR(TurnR(TurnR(s2)));
    RepeatUpToThree(s, Turn(R)); RepeatUpToThree(s1, Turn(U)); RepeatUpToThree(s2, Turn(R));
    RepeatUpToThree(s3, Turn(F));
    ApplyAllChain([s, s1, s2, s3, TPermFourth(s)], TPerm[10..]);
  }

  lemma TPermAsTurns(s: State)
    ensures ApplyAll(s, TPerm) == TPermTurns(s)
  {
    assert TPerm == SexyMove + TPerm[4..7] + TPerm[7..10] + TPerm[10..];
    ApplyAllAppend(s, SexyMove + TPerm[4..7] + TPerm[7..10], TPerm[10..]);
    ApplyAllAppend(s, SexyMove + TPerm[4..7], TPerm[7..10]);
    ApplyAllAppend(s, SexyMove, TPerm[4..7]);
    SexyAsTurns(s);
    TPermSecondAsTurns(SexyTurns(s));
    TPermThirdAsTurns(TPermSecond(SexyTurns(s)));
    TPermFourthAsTurns(TPermThird(TPermSecond(SexyTurns(s))));
  }

  /** The cube after each later stretch of the T-permutation on a solved cube. */
  const TPermAfterSecond := State(
    Face(White, White, White, White, White, White, Orange, Orange, Green),
    Face(Red, Red, Blue, Yellow, Yellow, Blue, Yellow, Yellow, Orange),
    Face(Green, Green, Red, Green, Green, Yellow, Green, Green, Yellow),
    Face(Orange, Red, Red, Green, Blue, Blue, Green, Blue, Blue),
    Face(Blue, Orange, Yellow, Orange, Orange, Yellow, Orange, Orange, Yellow),
    Face(White, Blue, Blue, Red, Red, White, Red, Red, White))

  const TPermAfterThird := State(
    Face(Green, Green, White, White, White, White, White, White, White),
    Face(Red, Red, Yellow, Yellow, Yellow, Yellow, Yellow, Yellow, Yellow),
    Face(Orange, Red, Red, Green, Green, Orange, Green, Green, Orange),
    Face(Red, White, White, Blue, Blue, Blue, Blue, Blue, Blue),
    Face(Orange, Blue, Blue, Orange, Orange, Yellow, Orange, Orange, Yellow),
    Face(Blue, Orange, Green, Green, Red, Red, Green, Red, Red))

  const TPermResult := State(
    Face(White, White, White, White, White, White, White, White, White),
    Face(Yellow, Yellow, Yellow, Yellow, Yellow, Yellow, Yellow, Yellow, Yellow),
    Face(Green, Green, Red, Green, Green, Green, Green, Green, Green),
    Face(Red, Blue, Blue, Blue, Blue, Blue, Blue, Blue, Blue),
    Face(Orange, Red, Orange, Orange, Orange, Orange, Orange, Orange, Orange),
    Face(Blue, Orange, Green, Red, Red, Red, Red, Red, Red))

  /** The T-permutation on a solved cube moves only four stickers of the U layer's sides. */
  lemma TPermFromSolved()
    ensures ApplyAll(SolvedState(), TPerm) == TPermResult
  {
    TPermAsTurns(SolvedState());
    assert SexyTurns(SolvedState()) == SexyOnce;
    assert TPermSecond(SexyOnce) == TPermAfterSecond;
    assert TPermThird(TPermAfterSecond) == TPermAfterThird;
    assert TPermFourth(TPermAfterThird) == TPermResult;
  }

  /** The net after the T-permutation on a solved cube: only the U layer's side stickers move. */
  lemma TPermNet()
    ensures NetLines(ApplyAll(SolvedState(), TPerm)) ==
      ["    WWW", "    WWW", "    WWW",
       "ORO GGR BOG RBB", "OOO GGG RRR BBB", "OOO GGG RRR BBB",
       "    YYY", "    YYY", "    YYY"]
  {
    TPermFromSolved();
    TPermResultNet();
  }

  lemma TPermResultNet()
    ensures NetLines(TPermResult) ==
      ["    WWW", "    WWW", "    WWW",
       "ORO GGR BOG RBB", "OOO GGG RRR BBB", "OOO GGG RRR BBB",
       "    YYY", "    YYY", "    YYY"]
  {
  }

  /** The sledgehammer's text parses to the sledgehammer. */
  lemma SledgeParsed()
    ensures ParseAlgorithm("R' F R F'") == Ok(Sledge)
  {
    SledgeText();
    ParsesTo("R' F R F'", Sledge);
  }

  lemma SledgeText()
    ensures MovesToNotation(Sledge) == "R' F R F'"
  {
  }

  /** The T-permutation's text parses to the T-permutation. */
  lemma TPermParsed()
    ensures ParseAlgorithm("R U R' U' R' F R2 U' R' U' R U R' F'") == Ok(TPerm)
  {
    TPermText();
    TPermWellFormed();
    ParsesTo("R U R' U' R' F R2 U' R' U' R U R' F'", TPerm);
  }

  lemma TPermWellFormed()
    ensures forall i :: 0 <= i < |TPerm| ==> WellFormed(TPerm[i])
  {
    forall i | 0 <= i < |TPerm| ensures WellFormed(TPerm[i]) {
      var m := TPerm[i];
      assert m == Mv(m.base, m.modifier);
    }
  }

  lemma TPermText()
    ensures MovesToNotation(TPerm) == "R U R' U' R' F R2 U' R' U' R U R' F'"
  {
    var setup := [Mv(Turn(R), Prime), Mv(Turn(F), Clockwise), Mv(Turn(R), Double)];
    var middle := [Mv(Turn(U), Prime), Mv(Turn(R), Prime), Mv(Turn(U), Prime)];
    var finish := [Mv(Turn(R), Clockwise), Mv(Turn(U), Clockwise), Mv(Turn(R), Prime), Mv(Turn(F), Prime)];
    assert TPerm == (SexyMove + setup) + (middle + finish);
    SexyText();
    TPermSetupText();
    TPermMiddleText();
    TPermFinishText();
    MovesToNotationAppend(SexyMove, setup);
    MovesToNotationAppend(middle, finish);
    MovesToNotationAppend(SexyMove + setup, middle + finish);
    JoinedHalves(MovesToNotation(SexyMove + setup), MovesToNotation(middle + finish));
  }

  lemma JoinedHalves(a: string, b: string)
    requires a == "R U R' U'" + " " + "R' F R2"
    requires b == "U' R' U'" + " " + "R U R' F'"
    ensures a + " " + b == "R U R' U' R' F R2 U' R' U' R U R' F'"
  {
  }

  lemma TPermSetupText()
    ensures MovesToNotation([Mv(Turn(R), Prime), Mv(Turn(F), Clockwise), Mv(Turn(R), Double)]) == "R' F R2"
  {
  }

  lemma TPermMiddleText()
    ensures MovesToNotation([Mv(Turn(U), Prime), Mv(Turn(R), Prime), Mv(Turn(U), Prime)]) == "U' R' U'"
  {
  }

  lemma TPermFinishText()
    ensures MovesToNotation([Mv(Turn(R), Clockwise), Mv(Turn(U), Clockwise), Mv(Turn(R), Prime), Mv(Turn(F), Prime)])
         == "R U R' F'"
  {
  }

  lemma SexyText()
    ensures MovesToNotation(SexyMove) == "R U R' U'"
  {
  }

  /** A text that prints a list of well-formed moves parses to that list. */
  lemma ParsesTo(s: string, moves: seq<Move>)
    requires forall i :: 0 <= i < |moves| ==> WellFormed(moves[i])
    requires MovesToNotation(moves) == s
    ensures ParseAlgorithm(s) == Ok(moves)
  {
    ParsePrinted(moves);
  }

  /** R U R' U' written out three times parses to three copies of R U R' U'. */
  lemma SexyThreeParsed()
    ensures ParseAlgorithm("R U R' U' R U R' U' R U R' U'") == Ok(SexyMove + SexyMove + SexyMove)
  {
    SexyThreeText();
    ParsesTo("R U R' U' R U R' U' R U R' U'", SexyMove + SexyMove + SexyMove);
  }

  lemma SexyThreeText()
    ensures MovesToNotation(SexyMove + SexyMove + SexyMove) == "R U R' U' R U R' U' R U R' U'"
  {
    SexyText();
    MovesToNotationAppend(SexyMove + SexyMove, SexyMove);
    MovesToNotationAppend(SexyMove, SexyMove);
    ThreeJoined(MovesToNotation(SexyMove + SexyMove), MovesToNotation(SexyMove));
  }

  lemma ThreeJoined(a: string, b: string)
    requires b == "R U R' U'" && a == b + " " + b
    ensures a + " " + b == "R U R' U' R U R' U' R U R' U'"
  {
  }
}
