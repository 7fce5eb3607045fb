/**
 * The move executor: routines that turn the six sticker arrays of a cube in
 * place, and the functional wrappers that clone a cube before turning it.
 * Every routine is proved to leave the cube in the state the corresponding
 * function of the Turns module computes, and to write no array outside its
 * `modifies` clause.
 */
module Executor {
  import opened Notation
  import opened CubeState
  import opened Turns

  /** `rotateFaceClockwise`: a quarter turn of one face's own stickers, through a copy of the old ones. */
  method RotateFaceClockwise(face: array<Color>)
    requires face.Length == 9
    modifies face
    ensures FaceOfArray(face) == RotateCw(old(FaceOfArray(face)))
  {
    var temp := face[..];
    face[0] := temp[6];
    face[1] := temp[3];
    face[2] := temp[0];
    face[3] := temp[7];
    face[4] := temp[4];
    face[5] := temp[1];
    face[6] := temp[8];
    face[7] := temp[5];
    face[8] := temp[2];
  }

  // The primitive routines `applyR` … `applyS`: each saves three stickers,
  // moves three triples one face along the cycle and writes the saved ones
  // last.

  method ApplyR(c: Cube)
    requires c.Valid()
    modifies c.U, c.D, c.F, c.B, c.R
    ensures c.Model() == TurnR(old(c.Model()))
  {
    RotateFaceClockwise(c.R);
    var temp := [c.F[2], c.F[5], c.F[8]];
    c.F[2] := c.D[2];
    c.F[5] := c.D[5];
    c.F[8] := c.D[8];
    c.D[2] := c.B[6];
    c.D[5] := c.B[3];
    c.D[8] := c.B[0];
    c.B[6] := c.U[2];
    c.B[3] := c.U[5];
    c.B[0] := c.U[8];
    c.U[2] := temp[0];
    c.U[5] := temp[1];
    c.U[8] := temp[2];
  }

  method ApplyL(c: Cube)
    requires c.Valid()
    modifies c.U, c.D, c.F, c.B, c.L
    ensures c.Model() == TurnL(old(c.Model()))
  {
    RotateFaceClockwise(c.L);
    var temp := [c.F[0], c.F[3], c.F[6]];
    c.F[0] := c.U[0];
    c.F[3] := c.U[3];
    c.F[6] := c.U[6];
    c.U[0] := c.B[8];
    c.U[3] := c.B[5];
    c.U[6] := c.B[2];
    c.B[8] := c.D[0];
    c.B[5] := c.D[3];
    c.B[2] := c.D[6];
    c.D[0] := temp[0];
    c.D[3] := temp[1];
    c.D[6] := temp[2];
  }

  method ApplyU(c: Cube)
    requires c.Valid()
    modifies c.U, c.F, c.B, c.L, c.R
    ensures c.Model() == TurnU(old(c.Model()))
  {
    RotateFaceClockwise(c.U);
    var temp := [c.F[0], c.F[1], c.F[2]];
    c.F[0] := c.R[0];
    c.F[1] := c.R[1];
    c.F[2] := c.R[2];
    c.R[0] := c.B[0];
    c.R[1] := c.B[1];
    c.R[2] := c.B[2];
    c.B[0] := c.L[0];
    c.B[1] := c.L[1];
    c.B[2] := c.L[2];
    c.L[0] := temp[0];
    c.L[1] := temp[1];
    c.L[2] := temp[2];
  }

  method ApplyD(c: Cube)
    requires c.Valid()
    modifies c.D, c.F, c.B, c.L, c.R
    ensures c.Model() == TurnD(old(c.Model()))
  {
    RotateFaceClockwise(c.D);
    var temp := [c.F[6], c.F[7], c.F[8]];
    c.F[6] := c.L[6];
    c.F[7] := c.L[7];
    c.F[8] := c.L[8];
    c.L[6] := c.B[6];
    c.L[7] := c.B[7];
    c.L[8] := c.B[8];
    c.B[6] := c.R[6];
    c.B[7] := c.R[7];
    c.B[8] := c.R[8];
    c.R[6] := temp[0];
    c.R[7] := temp[1];
    c.R[8] := temp[2];
  }

  method ApplyF(c: Cube)
    requires c.Valid()
    modifies c.U, c.D, c.F, c.L, c.R
    ensures c.Model() == TurnF(old(c.Model()))
  {
    RotateFaceClockwise(c.F);
    var temp := [c.U[6], c.U[7], c.U[8]];
    c.U[6] := c.L[8];
    c.U[7] := c.L[5];
    c.U[8] := c.L[2];
    c.L[8] := c.D[2];
    c.L[5] := c.D[1];
    c.L[2] := c.D[0];
    c.D[2] := c.R[0];
    c.D[1] := c.R[3];
    c.D[0] := c.R[6];
    c.R[0] := temp[0];
    c.R[3] := temp[1];
    c.R[6] := temp[2];
  }

  method ApplyB(c: Cube)
    requires c.Valid()
    modifies c.U, c.D, c.B, c.L, c.R
    ensures c.Model() == TurnB(old(c.Model()))
  {
    RotateFaceClockwise(c.B);
    var temp := [c.U[2], c.U[1], c.U[0]];
    c.U[2] := c.R[8];
    c.U[1] := c.R[5];
    c.U[0] := c.R[2];
    c.R[8] := c.D[6];
    c.R[5] := c.D[7];
    c.R[2] := c.D[8];
    c.D[6] := c.L[0];
    c.D[7] := c.L[3];
    c.D[8] := c.L[6];
    c.L[0] := temp[0];
    c.L[3] := temp[1];
    c.L[6] := temp[2];
  }

  method ApplyM(c: Cube)
    requires c.Valid()
    modifies c.U, c.D, c.F, c.B
    ensures c.Model() == SliceM(old(c.Model()))
  {
    var temp := [c.F[1], c.F[4], c.F[7]];
    c.F[1] := c.U[1];
    c.F[4] := c.U[4];
    c.F[7] := c.U[7];
    c.U[1] := c.B[7];
    c.U[4] := c.B[4];
    c.U[7] := c.B[1];
    c.B[7] := c.D[1];
    c.B[4] := c.D[4];
    c.B[1] := c.D[7];
    c.D[1] := temp[0];
    c.D[4] := temp[1];
    c.D[7] := temp[2];
  }

  method ApplyE(c: Cube)
    requires c.Valid()
    modifies c.F, c.B, c.L, c.R
    ensures c.Model() == SliceE(old(c.Model()))
  {
    var temp := [c.F[3], c.F[4], c.F[5]];
    c.F[3] := c.L[3];
    c.F[4] := c.L[4];
    c.F[5] := c.L[5];
    c.L[3] := c.B[3];
    c.L[4] := c.B[4];
    c.L[5] := c.B[5];
    c.B[3] := c.R[3];
    c.B[4] := c.R[4];
    c.B[5] := c.R[5];
    c.R[3] := temp[0];
    c.R[4] := temp[1];
    c.R[5] := temp[2];
  }

  method ApplyS(c: Cube)
    requires c.Valid()
    modifies c.U, c.D, c.L, c.R
    ensures c.Model() == SliceS(old(c.Model()))
  {
    var temp := [c.U[3], c.U[4], c.U[5]];
    c.U[3] := c.L[7];
    c.U[4] := c.L[4];
    c.U[5] := c.L[1];
    c.L[7] := c.D[5];
    c.L[4] := c.D[4];
    c.L[1] := c.D[3];
    c.D[5] := c.R[1];
    c.D[4] := c.R[4];
    c.D[3] := c.R[7];
    c.R[1] := temp[0];
    c.R[4] := temp[1];
    c.R[7] := temp[2];
  }

  // Wide moves and rotations: the primitive routines in the order the
  // executor calls them (a primed slice or face is three clockwise calls).

  method ApplyRw(c: Cube)
    requires c.Valid()
    modifies c.U, c.D, c.F, c.B, c.R
    ensures c.Model() == WideR(old(c.Model()))
  {
    ApplyR(c);
    ApplyM(c);
    ApplyM(c);
    ApplyM(c);
  }

  method ApplyLw(c: Cube)
    requires c.Valid()
    modifies c.U, c.D, c.F, c.B, c.L
    ensures c.Model() == WideL(old(c.Model()))
  {
    ApplyL(c);
    ApplyM(c);
  }

  method ApplyUw(c: Cube)
    requires c.Valid()
    modifies c.U, c.F, c.B, c.L, c.R
    ensures c.Model() == WideU(old(c.Model()))
  {
    ApplyU(c);
    ApplyE(c);
    ApplyE(c);
    ApplyE(c);
  }

  method ApplyDw(c: Cube)
    requires c.Valid()
    modifies c.D, c.F, c.B, c.L, c.R
    ensures c.Model() == WideD(old(c.Model()))
  {
    ApplyD(c);
    ApplyE(c);
  }

  method ApplyFw(c: Cube)
    requires c.Valid()
    modifies c.U, c.D, c.F, c.L, c.R
    ensures c.Model() == WideF(old(c.Model()))
  {
    ApplyF(c);
    ApplyS(c);
  }

  method ApplyBw(c: Cube)
    requires c.Valid()
    modifies c.U, c.D, c.B, c.L, c.R
    ensures c.Model() == WideB(old(c.Model()))
  {
    ApplyB(c);
    ApplyS(c);
    ApplyS(c);
    ApplyS(c);
  }

  method ApplyX(c: Cube)
    requires c.Valid()
    modifies c.U, c.D, c.F, c.B, c.L, c.R
    ensures c.Model() == RotX(old(c.Model()))
  {
    ApplyR(c);
    ApplyM(c);
    ApplyM(c);
    ApplyM(c);
    ApplyL(c);
    ApplyL(c);
    ApplyL(c);
  }

  method ApplyY(c: Cube)
    requires c.Valid()
    modifies c.U, c.D, c.F, c.B, c.L, c.R
    ensures c.Model() == RotY(old(c.Model()))
  {
    ApplyU(c);
    ApplyE(c);
    ApplyE(c);
    ApplyE(c);
    ApplyD(c);
    ApplyD(c);
    ApplyD(c);
  }

  method ApplyZ(c: Cube)
    requires c.Valid()
    modifies c.U, c.D, c.F, c.B, c.L, c.R
    ensures c.Model() == RotZ(old(c.Model()))
  {
    ApplyF(c);
    ApplyS(c);
    ApplyB(c);
    ApplyB(c);
    ApplyB(c);
  }

  /** `applyBasicMove`: one clockwise application of a base; `r` and `Rw` share a routine. */
  method ApplyBasicMove(c: Cube, b: Base)
    requires c.Valid()
    modifies c.U, c.D, c.F, c.B, c.L, c.R
    ensures c.Model() == Basic(old(c.Model()), b)
  {
    match b
    case Turn(R) => ApplyR(c);
    case Turn(L) => ApplyL(c);
    case Turn(U) => ApplyU(c);
    case Turn(D) => ApplyD(c);
    case Turn(F) => ApplyF(c);
    case Turn(B) => ApplyB(c);
    case Wide(R, _) => ApplyRw(c);
    case Wide(L, _) => ApplyLw(c);
    case Wide(U, _) => ApplyUw(c);
    case Wide(D, _) => ApplyDw(c);
    case Wide(F, _) => ApplyFw(c);
    case Wide(B, _) => ApplyBw(c);
    case Slice(M) => ApplyM(c);
    case Slice(E) => ApplyE(c);
    case Slice(S) => ApplyS(c);
    case Rotation(X) => ApplyX(c);
    case Rotation(Y) => ApplyY(c);
    case Rotation(Z) => ApplyZ(c);
  }

  /**
   * `applyMove`: clones the cube, then applies the base once, three times or
   * twice as the modifier says. The input cube is not written.
   */
  method ApplyMove(c: Cube, mv: Move) returns (t: Cube)
    requires c.Valid()
    ensures fresh(t) && fresh(t.Arrays()) && t.Valid()
    ensures t.Model() == Apply(old(c.Model()), mv)
  {
    t := new Cube.Clone(c);
    ghost var s0 := t.Model();
    ApplyBasicMove(t, mv.base);
    ghost var s1 := t.Model();
    match mv.modifier
    case Clockwise =>
      RepeatSteps(s0, s1, s1, s1, mv.base, 1);
    case Prime =>
      ApplyBasicMove(t, mv.base);
      ghost var s2 := t.Model();
      ApplyBasicMove(t, mv.base);
      RepeatSteps(s0, s1, s2, t.Model(), mv.base, 3);
    case Double =>
      ApplyBasicMove(t, mv.base);
      RepeatSteps(s0, s1, t.Model(), t.Model(), mv.base, 2);
    case DoublePrime =>
      ApplyBasicMove(t, mv.base);
      RepeatSteps(s0, s1, t.Model(), t.Model(), mv.base, 2);
  }

  lemma RepeatSteps(s0: State, s1: State, s2: State, s3: State, b: Base, n: nat)
    requires 1 <= n <= 3
    requires s1 == Basic(s0, b)
    requires n >= 2 ==> s2 == Basic(s1, b)
    requires n == 3 ==> s3 == Basic(s2, b)
    ensures Repeat(s0, b, n) == (if n == 1 then s1 else if n == 2 then s2 else s3)
  {
    RepeatUpToThree(s0, b);
  }

  /**
   * `applyAlgorithm`: applies the moves one after another, each to the
   * result of the previous one. With no moves the input cube itself is
   * returned; otherwise the result is a fresh cube.
   */
  method ApplyAlgorithm(c: Cube, moves: seq<Move>) returns (t: Cube)
    requires c.Valid()
    ensures t.Valid() && t.Model() == ApplyAll(old(c.Model()), moves)
    ensures moves == [] ==> t == c
    ensures moves != [] ==> fresh(t) && fresh(t.Arrays())
  {
    ghost var trace := Trace(c.Model(), moves);
    t := c;
    for i := 0 to |moves|
      invariant t.Valid() && t.Model() == trace[i]
      invariant i == 0 ==> t == c
      invariant i > 0 ==> fresh(t) && fresh(t.Arrays())
    {
      TraceStep(old(c.Model()), moves, i);
      t := ApplyMove(t, moves[i]);
    }
    TraceIsPrefixes(old(c.Model()), moves);
  }

  /**
   * `applyAlgorithmStepByStep`: the input cube followed by the cube after
   * each move. The first element is the input itself, not a copy; every
   * later one is a cube whose arrays did not exist before the call, so
   * writing to it cannot disturb the input.
   */
  method ApplyAlgorithmStepByStep(c: Cube, moves: seq<Move>) returns (states: seq<Cube>)
    requires c.Valid()
    ensures |states| == |moves| + 1 && states[0] == c
    ensures forall i :: 0 <= i < |states| ==> states[i].Valid() && states[i].Model() == Trace(old(c.Model()), moves)[i]
    ensures forall i :: 0 < i < |states| ==> fresh(states[i].Arrays())
  {
    ghost var trace := Trace(c.Model(), moves);
    states := [c];
    var t := c;
    for i := 0 to |moves|
      invariant |states| == i + 1 && states[0] == c && states[i] == t
      invariant forall k :: 0 <= k < |states| ==>
        states[k].Valid() && states[k].Model() == trace[k] && (k > 0 ==> fresh(states[k].Arrays()))
    {
      TraceStep(old(c.Model()), moves, i);
      t := ApplyMove(t, moves[i]);
      states := states + [t];
    }
  }

  /** `applyZ2`: z twice, in place. */
  method ApplyZ2(c: Cube)
    requires c.Valid()
    modifies c.U, c.D, c.F, c.B, c.L, c.R
    ensures c.Model() == Z2(old(c.Model()))
  {
    ApplyZ(c);
    ApplyZ(c);
  }

  /** `applyZ2Rotation`: a fresh cube turned upside down by z2; the input is not written. */
  method ApplyZ2Rotation(c: Cube) returns (t: Cube)
    requires c.Valid()
    ensures fresh(t) && fresh(t.Arrays()) && t.Valid()
    ensures t.Model() == Z2(old(c.Model()))
  {
    t := new Cube.Clone(c);
    ApplyZ2(t);
  }
}
