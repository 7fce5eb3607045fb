/**
 * What every move does to the cube, as functions on cube states. Each
 * primitive (the six face turns and the three slice moves) moves the
 * stickers the executor's assignments move; wide moves and rotations are the
 * compositions the executor performs. The lemmas state what the turns
 * amount to: a 4-cycle of twelve stickers, order four, inverse moves,
 * commuting and non-commuting pairs, and whole-cube rotations.
 */
module Turns {
  import opened Notation
  import opened CubeState

  /** A quarter turn of a face's own stickers: new 0..8 are old 6, 3, 0, 7, 4, 1, 8, 5, 2. */
  function RotateCw(f: Face): Face {
    Face(f.s6, f.s3, f.s0, f.s7, f.s4, f.s1, f.s8, f.s5, f.s2)
  }

  /** A clockwise face rotation keeps the centre, carries each corner and each edge one place clockwise, and has order four. */
  lemma RotateCwCycles(f: Face)
    ensures RotateCw(f).s4 == f.s4
    ensures RotateCw(f).s2 == f.s0 && RotateCw(f).s8 == f.s2 && RotateCw(f).s6 == f.s8 && RotateCw(f).s0 == f.s6
    ensures RotateCw(f).s5 == f.s1 && RotateCw(f).s7 == f.s5 && RotateCw(f).s3 == f.s7 && RotateCw(f).s1 == f.s3
    ensures RotateCw(RotateCw(RotateCw(RotateCw(f)))) == f
    ensures f != RotateCw(f) ==> f != RotateCw(RotateCw(RotateCw(f)))
  {
  }

  // The primitive moves. Each writes the same stickers, from the same
  // places, as the corresponding executor routine.

  function TurnR(s: State): State {
    s.(r := RotateCw(s.r),
       f := s.f.(s2 := s.d.s2, s5 := s.d.s5, s8 := s.d.s8),
       d := s.d.(s2 := s.b.s6, s5 := s.b.s3, s8 := s.b.s0),
       b := s.b.(s6 := s.u.s2, s3 := s.u.s5, s0 := s.u.s8),
       u := s.u.(s2 := s.f.s2, s5 := s.f.s5, s8 := s.f.s8))
  }

  function TurnL(s: State): State {
    s.(l := RotateCw(s.l),
       f := s.f.(s0 := s.u.s0, s3 := s.u.s3, s6 := s.u.s6),
       u := s.u.(s0 := s.b.s8, s3 := s.b.s5, s6 := s.b.s2),
       b := s.b.(s8 := s.d.s0, s5 := s.d.s3, s2 := s.d.s6),
       d := s.d.(s0 := s.f.s0, s3 := s.f.s3, s6 := s.f.s6))
  }

  function TurnU(s: State): State {
    s.(u := RotateCw(s.u),
       f := s.f.(s0 := s.r.s0, s1 := s.r.s1, s2 := s.r.s2),
       r := s.r.(s0 := s.b.s0, s1 := s.b.s1, s2 := s.b.s2),
       b := s.b.(s0 := s.l.s0, s1 := s.l.s1, s2 := s.l.s2),
       l := s.l.(s0 := s.f.s0, s1 := s.f.s1, s2 := s.f.s2))
  }

  function TurnD(s: State): State {
    s.(d := RotateCw(s.d),
       f := s.f.(s6 := s.l.s6, s7 := s.l.s7, s8 := s.l.s8),
       l := s.l.(s6 := s.b.s6, s7 := s.b.s7, s8 := s.b.s8),
       b := s.b.(s6 := s.r.s6, s7 := s.r.s7, s8 := s.r.s8),
       r := s.r.(s6 := s.f.s6, s7 := s.f.s7, s8 := s.f.s8))
  }

  function TurnF(s: State): State {
    s.(f := RotateCw(s.f),
       u := s.u.(s6 := s.l.s8, s7 := s.l.s5, s8 := s.l.s2),
       l := s.l.(s8 := s.d.s2, s5 := s.d.s1, s2 := s.d.s0),
       d := s.d.(s2 := s.r.s0, s1 := s.r.s3, s0 := s.r.s6),
       r := s.r.(s0 := s.u.s6, s3 := s.u.s7, s6 := s.u.s8))
  }

  function TurnB(s: State): State {
    s.(b := RotateCw(s.b),
       u := s.u.(s2 := s.r.s8, s1 := s.r.s5, s0 := s.r.s2),
       r := s.r.(s8 := s.d.s6, s5 := s.d.s7, s2 := s.d.s8),
       d := s.d.(s6 := s.l.s0, s7 := s.l.s3, s8 := s.l.s6),
       l := s.l.(s0 := s.u.s2, s3 := s.u.s1, s6 := s.u.s0))
  }

  function SliceM(s: State): State {
    s.(f := s.f.(s1 := s.u.s1, s4 := s.u.s4, s7 := s.u.s7),
       u := s.u.(s1 := s.b.s7, s4 := s.b.s4, s7 := s.b.s1),
       b := s.b.(s7 := s.d.s1, s4 := s.d.s4, s1 := s.d.s7),
       d := s.d.(s1 := s.f.s1, s4 := s.f.s4, s7 := s.f.s7))
  }

  function SliceE(s: State): State {
    s.(f := s.f.(s3 := s.l.s3, s4 := s.l.s4, s5 := s.l.s5),
       l := s.l.(s3 := s.b.s3, s4 := s.b.s4, s5 := s.b.s5),
       b := s.b.(s3 := s.r.s3, s4 := s.r.s4, s5 := s.r.s5),
       r := s.r.(s3 := s.f.s3, s4 := s.f.s4, s5 := s.f.s5))
  }

  function SliceS(s: State): State {
    s.(u := s.u.(s3 := s.l.s7, s4 := s.l.s4, s5 := s.l.s1),
       l := s.l.(s7 := s.d.s5, s4 := s.d.s4, s1 := s.d.s3),
       d := s.d.(s5 := s.r.s1, s4 := s.r.s4, s3 := s.r.s7),
       r := s.r.(s1 := s.u.s3, s4 := s.u.s4, s7 := s.u.s5))
  }

  // Wide moves and rotations, composed in the executor's order.

  function WideR(s: State): State { SliceM(SliceM(SliceM(TurnR(s)))) }
  function WideL(s: State): State { SliceM(TurnL(s)) }
  function WideU(s: State): State { SliceE(SliceE(SliceE(TurnU(s)))) }
  function WideD(s: State): State { SliceE(TurnD(s)) }
  function WideF(s: State): State { SliceS(TurnF(s)) }
  function WideB(s: State): State { SliceS(SliceS(SliceS(TurnB(s)))) }

  function RotX(s: State): State { TurnL(TurnL(TurnL(SliceM(SliceM(SliceM(TurnR(s))))))) }
  function RotY(s: State): State { TurnD(TurnD(TurnD(SliceE(SliceE(SliceE(TurnU(s))))))) }
  function RotZ(s: State): State { TurnB(TurnB(TurnB(SliceS(TurnF(s))))) }

  /** z2: z applied twice. */
  function Z2(s: State): State { RotZ(RotZ(s)) }

  function FaceTurn(s: State, f: FaceName): State {
    match f
    case R => TurnR(s) case L => TurnL(s) case U => TurnU(s)
    case D => TurnD(s) case F => TurnF(s) case B => TurnB(s)
  }

  function WideTurn(s: State, f: FaceName): State {
    match f
    case R => WideR(s) case L => WideL(s) case U => WideU(s)
    case D => WideD(s) case F => WideF(s) case B => WideB(s)
  }

  /** One clockwise application of a base; `r` and `Rw` are the same move. */
  function Basic(s: State, b: Base): State {
    match b
    case Turn(f) => FaceTurn(s, f)
    case Wide(f, _) => WideTurn(s, f)
    case Slice(sl) => (match sl case M => SliceM(s) case E => SliceE(s) case S => SliceS(s))
    case Rotation(a) => (match a case X => RotX(s) case Y => RotY(s) case Z => RotZ(s))
  }

  /** `n` clockwise applications of a base. */
  function Repeat(s: State, b: Base, n: nat): State
    decreases n
  {
    if n == 0 then s else Repeat(Basic(s, b), b, n - 1)
  }

  /** A move: its base, applied as many times as its modifier says. */
  function Apply(s: State, mv: Move): State {
    Repeat(s, mv.base, QuarterTurns(mv.modifier))
  }

  /** A move list, applied from first to last. */
  function ApplyAll(s: State, moves: seq<Move>): State
    decreases |moves|
  {
    if moves == [] then s else ApplyAll(Apply(s, moves[0]), moves[1..])
  }

  // ---------------------------------------------------------------------
  // Each primitive is a 4-cycle of twelve stickers

  /** Carrying the twelve stickers of `ring` three places along it. */
  ghost predicate Carries(s: State, t: State, ring: seq<Pos>)
    requires IsRing(ring)
  {
    forall k :: 0 <= k < 12 ==> Sticker(t, ring[(k + 3) % 12]) == Sticker(s, ring[k])
  }

  /** Every sticker off `ring` and off the faces in `turned` stays where it is. */
  ghost predicate Fixes(s: State, t: State, ring: seq<Pos>, turned: set<FaceName>) {
    forall p :: ValidPos(p) && p.face !in turned && p !in ring ==> Sticker(t, p) == Sticker(s, p)
  }

  predicate IsRing(ring: seq<Pos>) {
    |ring| == 12 && forall k :: 0 <= k < 12 ==> ValidPos(ring[k])
  }

  const RingR: seq<Pos> := [Pos(F, 2), Pos(F, 5), Pos(F, 8), Pos(U, 2), Pos(U, 5), Pos(U, 8),
                            Pos(B, 6), Pos(B, 3), Pos(B, 0), Pos(D, 2), Pos(D, 5), Pos(D, 8)]
  const RingL: seq<Pos> := [Pos(U, 0), Pos(U, 3), Pos(U, 6), Pos(F, 0), Pos(F, 3), Pos(F, 6),
                            Pos(D, 0), Pos(D, 3), Pos(D, 6), Pos(B, 8), Pos(B, 5), Pos(B, 2)]
  const RingU: seq<Pos> := [Pos(F, 0), Pos(F, 1), Pos(F, 2), Pos(L, 0), Pos(L, 1), Pos(L, 2),
                            Pos(B, 0), Pos(B, 1), Pos(B, 2), Pos(R, 0), Pos(R, 1), Pos(R, 2)]
  const RingD: seq<Pos> := [Pos(F, 6), Pos(F, 7), Pos(F, 8), Pos(R, 6), Pos(R, 7), Pos(R, 8),
                            Pos(B, 6), Pos(B, 7), Pos(B, 8), Pos(L, 6), Pos(L, 7), Pos(L, 8)]
  const RingF: seq<Pos> := [Pos(U, 6), Pos(U, 7), Pos(U, 8), Pos(R, 0), Pos(R, 3), Pos(R, 6),
                            Pos(D, 2), Pos(D, 1), Pos(D, 0), Pos(L, 8), Pos(L, 5), Pos(L, 2)]
  const RingB: seq<Pos> := [Pos(U, 2), Pos(U, 1), Pos(U, 0), Pos(L, 0), Pos(L, 3), Pos(L, 6),
                            Pos(D, 6), Pos(D, 7), Pos(D, 8), Pos(R, 8), Pos(R, 5), Pos(R, 2)]
  const RingM: seq<Pos> := [Pos(U, 1), Pos(U, 4), Pos(U, 7), Pos(F, 1), Pos(F, 4), Pos(F, 7),
                            Pos(D, 1), Pos(D, 4), Pos(D, 7), Pos(B, 7), Pos(B, 4), Pos(B, 1)]
  const RingE: seq<Pos> := [Pos(F, 3), Pos(F, 4), Pos(F, 5), Pos(R, 3), Pos(R, 4), Pos(R, 5),
                            Pos(B, 3), Pos(B, 4), Pos(B, 5), Pos(L, 3), Pos(L, 4), Pos(L, 5)]
  const RingS: seq<Pos> := [Pos(U, 3), Pos(U, 4), Pos(U, 5), Pos(R, 1), Pos(R, 4), Pos(R, 7),
                            Pos(D, 5), Pos(D, 4), Pos(D, 3), Pos(L, 7), Pos(L, 4), Pos(L, 1)]

  /** R turns the R face and carries the right columns F to U to B to D to F (B's column reversed). */
  lemma CycleR(s: State)
    ensures IsRing(RingR)
    ensures TurnR(s).r == RotateCw(s.r)
    ensures Carries(s, TurnR(s), RingR)
    ensures Fixes(s, TurnR(s), RingR, {R})
  {
    assert IsRing(RingR);
    var t := TurnR(s);
    forall k | 0 <= k < 12 ensures Sticker(t, RingR[(k + 3) % 12]) == Sticker(s, RingR[k]) {
      if k == 0 { } else if k == 1 { } else if k == 2 { } else if k == 3 { } else if k == 4 { } else if k == 5 { }
      else if k == 6 { } else if k == 7 { } else if k == 8 { } else if k == 9 { } else if k == 10 { } else { }
    }
    forall p | ValidPos(p) && p.face !in {R} && p !in RingR ensures Sticker(t, p) == Sticker(s, p) {
      assert p == Pos(p.face, p.index);
    }
  }

  /** L turns the L face and carries the left columns U to F to D to B to U (B's column reversed). */
  lemma CycleL(s: State)
    ensures IsRing(RingL)
    ensures TurnL(s).l == RotateCw(s.l)
    ensures Carries(s, TurnL(s), RingL)
    ensures Fixes(s, TurnL(s), RingL, {L})
  {
    assert IsRing(RingL);
    var t := TurnL(s);
    forall k | 0 <= k < 12 ensures Sticker(t, RingL[(k + 3) % 12]) == Sticker(s, RingL[k]) {
      if k == 0 { } else if k == 1 { } else if k == 2 { } else if k == 3 { } else if k == 4 { } else if k == 5 { }
      else if k == 6 { } else if k == 7 { } else if k == 8 { } else if k == 9 { } else if k == 10 { } else { }
    }
    forall p | ValidPos(p) && p.face !in {L} && p !in RingL ensures Sticker(t, p) == Sticker(s, p) {
      assert p == Pos(p.face, p.index);
    }
  }

  /** U turns the U face and carries the top rows F to L to B to R to F. */
  lemma CycleU(s: State)
    ensures IsRing(RingU)
    ensures TurnU(s).u == RotateCw(s.u)
    ensures Carries(s, TurnU(s), RingU)
    ensures Fixes(s, TurnU(s), RingU, {U})
  {
    assert IsRing(RingU);
    var t := TurnU(s);
    forall k | 0 <= k < 12 ensures Sticker(t, RingU[(k + 3) % 12]) == Sticker(s, RingU[k]) {
      if k == 0 { } else if k == 1 { } else if k == 2 { } else if k == 3 { } else if k == 4 { } else if k == 5 { }
      else if k == 6 { } else if k == 7 { } else if k == 8 { } else if k == 9 { } else if k == 10 { } else { }
    }
    forall p | ValidPos(p) && p.face !in {U} && p !in RingU ensures Sticker(t, p) == Sticker(s, p) {
      assert p == Pos(p.face, p.index);
    }
  }

  /** D turns the D face and carries the bottom rows F to R to B to L to F. */
  lemma CycleD(s: State)
    ensures IsRing(RingD)
    ensures TurnD(s).d == RotateCw(s.d)
    ensures Carries(s, TurnD(s), RingD)
    ensures Fixes(s, TurnD(s), RingD, {D})
  {
    assert IsRing(RingD);
    var t := TurnD(s);
    forall k | 0 <= k < 12 ensures Sticker(t, RingD[(k + 3) % 12]) == Sticker(s, RingD[k]) {
      if k == 0 { } else if k == 1 { } else if k == 2 { } else if k == 3 { } else if k == 4 { } else if k == 5 { }
      else if k == 6 { } else if k == 7 { } else if k == 8 { } else if k == 9 { } else if k == 10 { } else { }
    }
    forall p | ValidPos(p) && p.face !in {D} && p !in RingD ensures Sticker(t, p) == Sticker(s, p) {
      assert p == Pos(p.face, p.index);
    }
  }

  /** F turns the F face and carries the stickers around it U to R to D to L to U. */
  lemma CycleF(s: State)
    ensures IsRing(RingF)
    ensures TurnF(s).f == RotateCw(s.f)
    ensures Carries(s, TurnF(s), RingF)
    ensures Fixes(s, TurnF(s), RingF, {F})
  {
    assert IsRing(RingF);
    var t := TurnF(s);
    forall k | 0 <= k < 12 ensures Sticker(t, RingF[(k + 3) % 12]) == Sticker(s, RingF[k]) {
      if k == 0 { } else if k == 1 { } else if k == 2 { } else if k == 3 { } else if k == 4 { } else if k == 5 { }
      else if k == 6 { } else if k == 7 { } else if k == 8 { } else if k == 9 { } else if k == 10 { } else { }
    }
    forall p | ValidPos(p) && p.face !in {F} && p !in RingF ensures Sticker(t, p) == Sticker(s, p) {
      assert p == Pos(p.face, p.index);
    }
  }

  /** B turns the B face and carries the stickers around it U to L to D to R to U. */
  lemma CycleB(s: State)
    ensures IsRing(RingB)
    ensures TurnB(s).b == RotateCw(s.b)
    ensures Carries(s, TurnB(s), RingB)
    ensures Fixes(s, TurnB(s), RingB, {B})
  {
    assert IsRing(RingB);
    var t := TurnB(s);
    forall k | 0 <= k < 12 ensures Sticker(t, RingB[(k + 3) % 12]) == Sticker(s, RingB[k]) {
      if k == 0 { } else if k == 1 { } else if k == 2 { } else if k == 3 { } else if k == 4 { } else if k == 5 { }
      else if k == 6 { } else if k == 7 { } else if k == 8 { } else if k == 9 { } else if k == 10 { } else { }
    }
    forall p | ValidPos(p) && p.face !in {B} && p !in RingB ensures Sticker(t, p) == Sticker(s, p) {
      assert p == Pos(p.face, p.index);
    }
  }

  /** M turns no face and carries the middle columns U to F to D to B to U (B's column reversed). */
  lemma CycleM(s: State)
    ensures IsRing(RingM)
    ensures Carries(s, SliceM(s), RingM)
    ensures Fixes(s, SliceM(s), RingM, {})
  {
    assert IsRing(RingM);
    var t := SliceM(s);
    forall k | 0 <= k < 12 ensures Sticker(t, RingM[(k + 3) % 12]) == Sticker(s, RingM[k]) {
      if k == 0 { } else if k == 1 { } else if k == 2 { } else if k == 3 { } else if k == 4 { } else if k == 5 { }
      else if k == 6 { } else if k == 7 { } else if k == 8 { } else if k == 9 { } else if k == 10 { } else { }
    }
    forall p | ValidPos(p) && p.face !in {} && p !in RingM ensures Sticker(t, p) == Sticker(s, p) {
      assert p == Pos(p.face, p.index);
    }
  }

  /** E turns no face and carries the middle rows F to R to B to L to F. */
  lemma CycleE(s: State)
    ensures IsRing(RingE)
    ensures Carries(s, SliceE(s), RingE)
    ensures Fixes(s, SliceE(s), RingE, {})
  {
    assert IsRing(RingE);
    var t := SliceE(s);
    forall k | 0 <= k < 12 ensures Sticker(t, RingE[(k + 3) % 12]) == Sticker(s, RingE[k]) {
      if k == 0 { } else if k == 1 { } else if k == 2 { } else if k == 3 { } else if k == 4 { } else if k == 5 { }
      else if k == 6 { } else if k == 7 { } else if k == 8 { } else if k == 9 { } else if k == 10 { } else { }
    }
    forall p | ValidPos(p) && p.face !in {} && p !in RingE ensures Sticker(t, p) == Sticker(s, p) {
      assert p == Pos(p.face, p.index);
    }
  }

  /** S turns no face and carries the middle slice U to R to D to L to U. */
  lemma CycleS(s: State)
    ensures IsRing(RingS)
    ensures Carries(s, SliceS(s), RingS)
    ensures Fixes(s, SliceS(s), RingS, {})
  {
    assert IsRing(RingS);
    var t := SliceS(s);
    forall k | 0 <= k < 12 ensures Sticker(t, RingS[(k + 3) % 12]) == Sticker(s, RingS[k]) {
      if k == 0 { } else if k == 1 { } else if k == 2 { } else if k == 3 { } else if k == 4 { } else if k == 5 { }
      else if k == 6 { } else if k == 7 { } else if k == 8 { } else if k == 9 { } else if k == 10 { } else { }
    }
    forall p | ValidPos(p) && p.face !in {} && p !in RingS ensures Sticker(t, p) == Sticker(s, p) {
      assert p == Pos(p.face, p.index);
    }
  }

  // ---------------------------------------------------------------------
  // Whole-cube rotations relocate whole faces

  function RotateCcw(f: Face): Face { RotateCw(RotateCw(RotateCw(f))) }
  function Rotate180(f: Face): Face { RotateCw(RotateCw(f)) }

  /** x brings F up to U and D to F; U goes to B and B to D, both turned half way; R turns clockwise, L anticlockwise. */
  lemma RotXFaces(s: State)
    ensures RotX(s) == State(s.f, Rotate180(s.b), s.d, Rotate180(s.u), RotateCcw(s.l), RotateCw(s.r))
  {
  }

  /** y brings R round to F, F to L, L to B and B to R; U turns clockwise, D anticlockwise. */
  lemma RotYFaces(s: State)
    ensures RotY(s) == State(RotateCw(s.u), RotateCcw(s.d), s.r, s.l, s.f, s.b)
  {
  }

  /** z brings L up to U, U to R, R to D and D to L, each turned clockwise; F turns clockwise, B anticlockwise. */
  lemma RotZFaces(s: State)
    ensures RotZ(s) == State(RotateCw(s.l), RotateCw(s.r), RotateCw(s.f), RotateCcw(s.b), RotateCw(s.d), RotateCw(s.u))
  {
  }

  /** z2 swaps U with D and L with R, turning every face half way. */
  lemma Z2Faces(s: State)
    ensures Z2(s) == State(Rotate180(s.d), Rotate180(s.u), Rotate180(s.f), Rotate180(s.b), Rotate180(s.r), Rotate180(s.l))
  {
    RotZFaces(s);
    RotZFaces(RotZ(s));
  }

  lemma RepeatFour(s: State, b: Base)
    ensures Repeat(s, b, 4) == Basic(Basic(Basic(Basic(s, b), b), b), b)
  {
    var s1 := Basic(s, b);
    var s2 := Basic(s1, b);
    var s3 := Basic(s2, b);
    assert Repeat(s, b, 4) == Repeat(s1, b, 3) == Repeat(s2, b, 2) == Repeat(s3, b, 1);
  }

  /** Applying `m` then `n` quarter turns of one base is applying `m + n`. */
  lemma {:induction false} RepeatAdd(s: State, b: Base, m: nat, n: nat)
    ensures Repeat(Repeat(s, b, m), b, n) == Repeat(s, b, m + n)
    decreases m
  {
    if m > 0 {
      RepeatAdd(Basic(s, b), b, m - 1, n);
    }
  }

  lemma RotationOrderFour(s: State, a: Axis)
    ensures Repeat(s, Rotation(a), 4) == s
  {
    RepeatFour(s, Rotation(a));
    var s1 := Basic(s, Rotation(a));
    var s2 := Basic(s1, Rotation(a));
    var s3 := Basic(s2, Rotation(a));
    match a
    case X => RotXFaces(s); RotXFaces(s1); RotXFaces(s2); RotXFaces(s3);
    case Y => RotYFaces(s); RotYFaces(s1); RotYFaces(s2); RotYFaces(s3);
    case Z => RotZFaces(s); RotZFaces(s1); RotZFaces(s2); RotZFaces(s3);
  }

  lemma FaceOrderFour(s: State, f: FaceName)
    ensures FaceTurn(FaceTurn(FaceTurn(FaceTurn(s, f), f), f), f) == s
  {
  }

  lemma WideOrderFour(s: State, f: FaceName)
    ensures WideTurn(WideTurn(WideTurn(WideTurn(s, f), f), f), f) == s
  {
  }

  lemma SliceOrderFour(s: State, sl: SliceName)
    ensures Repeat(s, Slice(sl), 4) == s
  {
    RepeatFour(s, Slice(sl));
  }

  /** Every base applied four times gives back the state it started from. */
  lemma OrderFour(s: State, b: Base)
    ensures Repeat(s, b, 4) == s
  {
    RepeatFour(s, b);
    match b
    case Turn(f) => FaceOrderFour(s, f);
    case Wide(f, _) => WideOrderFour(s, f);
    case Slice(sl) => SliceOrderFour(s, sl);
    case Rotation(a) => RotationOrderFour(s, a);
  }

  /** A move followed by its inverse leaves the cube as it was, whatever the modifier, `2'` included. */
  lemma MoveThenInverse(s: State, mv: Move)
    ensures Apply(Apply(s, mv), InvertMove(mv)) == s
  {
    var inv := InvertMove(mv);
    RepeatAdd(s, mv.base, QuarterTurns(mv.modifier), QuarterTurns(inv.modifier));
    OrderFour(s, mv.base);
  }

  /** Applying `a + b` is applying `a`, then `b`. */
  lemma {:induction false} ApplyAllAppend(s: State, a: seq<Move>, b: seq<Move>)
    ensures ApplyAll(s, a + b) == ApplyAll(ApplyAll(s, a), b)
    decreases |a|
  {
    if a == [] {
      assert a + b == b;
    } else {
      assert (a + b)[0] == a[0] && (a + b)[1..] == a[1..] + b;
      ApplyAllAppend(Apply(s, a[0]), a[1..], b);
    }
  }

  /** Applying one more move of a list extends the prefix applied so far. */
  lemma ApplyAllStep(s: State, moves: seq<Move>, i: nat)
    requires i < |moves|
    ensures ApplyAll(s, moves[..i + 1]) == Apply(ApplyAll(s, moves[..i]), moves[i])
  {
    assert moves[..i + 1] == moves[..i] + [moves[i]];
    ApplyAllAppend(s, moves[..i], [moves[i]]);
    assert ApplyAll(Apply(ApplyAll(s, moves[..i]), moves[i]), []) == Apply(ApplyAll(s, moves[..i]), moves[i]);
    assert [moves[i]][1..] == [];
  }

  /** The states an algorithm passes through: the start, then the state after each move. */
  function Trace(s: State, moves: seq<Move>): (r: seq<State>)
    ensures |r| == |moves| + 1 && r[0] == s
    decreases |moves|
  {
    if moves == [] then [s] else [s] + Trace(Apply(s, moves[0]), moves[1..])
  }

  /** Each state of a trace is the previous one with the next move applied. */
  lemma {:induction false} TraceStep(s: State, moves: seq<Move>, k: nat)
    requires k < |moves|
    ensures Trace(s, moves)[k + 1] == Apply(Trace(s, moves)[k], moves[k])
    decreases k
  {
    if k > 0 {
      TraceStep(Apply(s, moves[0]), moves[1..], k - 1);
    }
  }

  /** Element `k` of the trace is the start with the first `k` moves applied; the last is the whole algorithm's result. */
  lemma {:induction false} TraceIsPrefixes(s: State, moves: seq<Move>)
    ensures forall k :: 0 <= k <= |moves| ==> Trace(s, moves)[k] == ApplyAll(s, moves[..k])
    ensures Trace(s, moves)[|moves|] == ApplyAll(s, moves)
  {
    forall k | 0 <= k <= |moves| ensures Trace(s, moves)[k] == ApplyAll(s, moves[..k]) {
      TraceAt(s, moves, k);
    }
    assert moves[..|moves|] == moves;
  }

  lemma {:induction false} TraceAt(s: State, moves: seq<Move>, k: nat)
    requires k <= |moves|
    ensures Trace(s, moves)[k] == ApplyAll(s, moves[..k])
  {
    if k > 0 {
      TraceAt(s, moves, k - 1);
      TraceStep(s, moves, k - 1);
      ApplyAllStep(s, moves, k - 1);
    }
  }

  /** An algorithm followed by its inverse returns every cube to where it started. */
  lemma {:induction false} AlgorithmThenInverse(s: State, moves: seq<Move>)
    ensures ApplyAll(ApplyAll(s, moves), InvertAlgorithm(moves)) == s
    decreases |moves|
  {
    if moves != [] {
      var s1 := Apply(s, moves[0]);
      var mid := ApplyAll(s1, moves[1..]);
      assert ApplyAll(s, moves) == mid;
      ApplyAllAppend(mid, InvertAlgorithm(moves[1..]), [InvertMove(moves[0])]);
      AlgorithmThenInverse(s1, moves[1..]);
      assert ApplyAll(s1, [InvertMove(moves[0])]) == Apply(s1, InvertMove(moves[0]));
      MoveThenInverse(s, moves[0]);
    }
  }

  /** U and D turn disjoint layers, so their order does not matter. */
  lemma UDCommute(s: State)
    ensures TurnU(TurnD(s)) == TurnD(TurnU(s))
  {
  }

  /** The canonical move with a given base and modifier, as the parser produces it. */
  function Mv(b: Base, m: Modifier): (mv: Move)
    ensures WellFormed(mv)
  {
    Move(b, m, Canonical(b, m))
  }

  /** One, two and three quarter turns spelled out. */
  lemma RepeatUpToThree(s: State, b: Base)
    ensures Repeat(s, b, 1) == Basic(s, b)
    ensures Repeat(s, b, 2) == Basic(Basic(s, b), b)
    ensures Repeat(s, b, 3) == Basic(Basic(Basic(s, b), b), b)
  {
    var s1 := Basic(s, b);
    var s2 := Basic(s1, b);
    assert Repeat(s, b, 3) == Repeat(s1, b, 2) == Repeat(s2, b, 1);
  }

  lemma ApplyPair(s: State, a: Move, b: Move)
    ensures ApplyAll(s, [a, b]) == Apply(Apply(s, a), b)
  {
    var s1 := Apply(s, a);
    assert [a, b][1..] == [b];
    assert ApplyAll(s, [a, b]) == ApplyAll(s1, [b]);
    assert [b][1..] == [];
    assert ApplyAll(s1, [b]) == ApplyAll(Apply(s1, b), []);
  }

  lemma ApplyTriple(s: State, a: Move, b: Move, c: Move)
    ensures ApplyAll(s, [a, b, c]) == Apply(Apply(Apply(s, a), b), c)
  {
    assert [a, b, c][1..] == [b, c];
    ApplyPair(Apply(s, a), b, c);
  }

  /**
   * Each wide move is its face turn followed by a slice move: Rw = R M',
   * Lw = L M, Uw = U E', Dw = D E, Fw = F S, Bw = B S'; the lower-case
   * spelling is the same move.
   */
  lemma WideAsMoves(s: State, lower: bool)
    ensures Basic(s, Wide(R, lower)) == ApplyAll(s, [Mv(Turn(R), Clockwise), Mv(Slice(M), Prime)])
    ensures Basic(s, Wide(L, lower)) == ApplyAll(s, [Mv(Turn(L), Clockwise), Mv(Slice(M), Clockwise)])
    ensures Basic(s, Wide(U, lower)) == ApplyAll(s, [Mv(Turn(U), Clockwise), Mv(Slice(E), Prime)])
    ensures Basic(s, Wide(D, lower)) == ApplyAll(s, [Mv(Turn(D), Clockwise), Mv(Slice(E), Clockwise)])
    ensures Basic(s, Wide(F, lower)) == ApplyAll(s, [Mv(Turn(F), Clockwise), Mv(Slice(S), Clockwise)])
    ensures Basic(s, Wide(B, lower)) == ApplyAll(s, [Mv(Turn(B), Clockwise), Mv(Slice(S), Prime)])
  {
    RepeatUpToThree(TurnR(s), Slice(M)); RepeatUpToThree(TurnU(s), Slice(E)); RepeatUpToThree(TurnB(s), Slice(S));
    ApplyPair(s, Mv(Turn(R), Clockwise), Mv(Slice(M), Prime));
    ApplyPair(s, Mv(Turn(L), Clockwise), Mv(Slice(M), Clockwise));
    ApplyPair(s, Mv(Turn(U), Clockwise), Mv(Slice(E), Prime));
    ApplyPair(s, Mv(Turn(D), Clockwise), Mv(Slice(E), Clockwise));
    ApplyPair(s, Mv(Turn(F), Clockwise), Mv(Slice(S), Clockwise));
    ApplyPair(s, Mv(Turn(B), Clockwise), Mv(Slice(S), Prime));
  }

  /** The rotations as move lists: x = R M' L', y = U E' D', z = F S B'. */
  lemma RotationsAsMoves(s: State)
    ensures Basic(s, Rotation(X)) == ApplyAll(s, [Mv(Turn(R), Clockwise), Mv(Slice(M), Prime), Mv(Turn(L), Prime)])
    ensures Basic(s, Rotation(Y)) == ApplyAll(s, [Mv(Turn(U), Clockwise), Mv(Slice(E), Prime), Mv(Turn(D), Prime)])
    ensures Basic(s, Rotation(Z)) == ApplyAll(s, [Mv(Turn(F), Clockwise), Mv(Slice(S), Clockwise), Mv(Turn(B), Prime)])
  {
    RepeatUpToThree(TurnR(s), Slice(M)); RepeatUpToThree(SliceM(SliceM(SliceM(TurnR(s)))), Turn(L));
    RepeatUpToThree(TurnU(s), Slice(E)); RepeatUpToThree(SliceE(SliceE(SliceE(TurnU(s)))), Turn(D));
    RepeatUpToThree(SliceS(TurnF(s)), Turn(B));
    ApplyTriple(s, Mv(Turn(R), Clockwise), Mv(Slice(M), Prime), Mv(Turn(L), Prime));
    ApplyTriple(s, Mv(Turn(U), Clockwise), Mv(Slice(E), Prime), Mv(Turn(D), Prime));
    ApplyTriple(s, Mv(Turn(F), Clockwise), Mv(Slice(S), Clockwise), Mv(Turn(B), Prime));
  }

  /** U and D commute as moves too. */
  lemma UDMovesCommute(s: State)
    ensures ApplyAll(s, [Mv(Turn(U), Clockwise), Mv(Turn(D), Clockwise)])
         == ApplyAll(s, [Mv(Turn(D), Clockwise), Mv(Turn(U), Clockwise)])
  {
    ApplyPair(s, Mv(Turn(U), Clockwise), Mv(Turn(D), Clockwise));
    ApplyPair(s, Mv(Turn(D), Clockwise), Mv(Turn(U), Clockwise));
    UDCommute(s);
  }

  lemma RotateUniform(f: Face)
    requires IsFaceSolved(f)
    ensures IsFaceSolved(RotateCw(f)) && RotateCw(f).s4 == f.s4
  {
    FaceSolvedIff(f);
    FaceSolvedIff(RotateCw(f));
  }

  /** A whole-cube rotation keeps a solved cube solved. */
  lemma RotationKeepsSolved(s: State, a: Axis)
    requires IsStateSolved(s)
    ensures IsStateSolved(Basic(s, Rotation(a)))
  {
    StateSolvedIff(s);
    RotateUniform(s.u); RotateUniform(s.d); RotateUniform(s.f);
    RotateUniform(s.b); RotateUniform(s.l); RotateUniform(s.r);
    RotateUniform(RotateCw(s.u)); RotateUniform(RotateCw(s.d)); RotateUniform(RotateCw(s.b)); RotateUniform(RotateCw(s.l));
    RotateUniform(RotateCw(RotateCw(s.d))); RotateUniform(RotateCw(RotateCw(s.b))); RotateUniform(RotateCw(RotateCw(s.l)));
    match a
    case X => RotXFaces(s);
    case Y => RotYFaces(s);
    case Z => RotZFaces(s);
    StateSolvedIff(Basic(s, Rotation(a)));
  }

  /** z2 on the solved cube: yellow on top, white below, red on the left, orange on the right, F and B keep their colours. */
  lemma Z2OfSolved()
    ensures Z2(SolvedState()) == State(SolvedFace(Yellow), SolvedFace(White), SolvedFace(Green), SolvedFace(Blue), SolvedFace(Red), SolvedFace(Orange))
  {
    Z2Faces(SolvedState());
  }

  /** z2 twice is no rotation at all. */
  lemma Z2Twice(s: State)
    ensures Z2(Z2(s)) == s
  {
    Z2Faces(s);
    Z2Faces(Z2(s));
  }
}
