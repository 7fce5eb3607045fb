/**
 * Cube state: six faces of nine stickers. The value `State` is what the
 * pure functions (solved state, solvedness, equality, text dump) work on;
 * the class `Cube` holds the six sticker arrays that the executor mutates.
 *
 * Sticker layout of a face:
 *   0 1 2
 *   3 4 5
 *   6 7 8
 */
module CubeState {
  import opened Text
  import opened Notation

  datatype Color = White | Yellow | Green | Blue | Red | Orange

  /** The colour's name, as the state stores it. */
  function ColorName(c: Color): string {
    match c
    case White => "white"
    case Yellow => "yellow"
    case Green => "green"
    case Blue => "blue"
    case Red => "red"
    case Orange => "orange"
  }

  function UpperAscii(ch: char): char {
    if 'a' <= ch <= 'z' then (ch as int - 32) as char else ch
  }

  /** The letter a colour is printed as. */
  function Initial(c: Color): char {
    match c
    case White => 'W'
    case Yellow => 'Y'
    case Green => 'G'
    case Blue => 'B'
    case Red => 'R'
    case Orange => 'O'
  }

  /** Each colour is printed as the upper-cased first letter of its name, and no two colours share one. */
  lemma InitialIsUpperFirst(c: Color)
    ensures Initial(c) == UpperAscii(ColorName(c)[0])
    ensures forall d: Color :: Initial(d) == Initial(c) ==> d == c
  {
  }

  /** One face: the nine stickers in reading order. */
  datatype Face = Face(s0: Color, s1: Color, s2: Color,
                       s3: Color, s4: Color, s5: Color,
                       s6: Color, s7: Color, s8: Color)

  /** The sticker at index `i` of a face. */
  function At(f: Face, i: int): Color
    requires 0 <= i < 9
  {
    match i
    case 0 => f.s0 case 1 => f.s1 case 2 => f.s2
    case 3 => f.s3 case 4 => f.s4 case 5 => f.s5
    case 6 => f.s6 case 7 => f.s7 case _ => f.s8
  }

  /** The whole cube, one face per side. */
  datatype State = State(u: Face, d: Face, f: Face, b: Face, l: Face, r: Face)

  function FaceOf(s: State, n: FaceName): Face {
    match n
    case U => s.u case D => s.d case F => s.f
    case B => s.b case L => s.l case R => s.r
  }

  /** A sticker position: a face and an index 0..8 on it. */
  datatype Pos = Pos(face: FaceName, index: int)

  predicate ValidPos(p: Pos) {
    0 <= p.index < 9
  }

  function Sticker(s: State, p: Pos): Color
    requires ValidPos(p)
  {
    At(FaceOf(s, p.face), p.index)
  }

  /** The colour each face has on a solved cube. */
  function HomeColor(n: FaceName): Color {
    match n
    case U => White case D => Yellow case F => Green
    case B => Blue case L => Orange case R => Red
  }

  /** A face with all nine stickers of one colour. */
  function SolvedFace(c: Color): (f: Face)
    ensures forall i :: 0 <= i < 9 ==> At(f, i) == c
  {
    Face(c, c, c, c, c, c, c, c, c)
  }

  /** The solved cube: every sticker has its face's home colour. */
  function SolvedState(): (s: State)
    ensures forall p :: ValidPos(p) ==> Sticker(s, p) == HomeColor(p.face)
  {
    State(SolvedFace(White), SolvedFace(Yellow), SolvedFace(Green),
          SolvedFace(Blue), SolvedFace(Orange), SolvedFace(Red))
  }

  /** Every sticker matches the first one. */
  predicate IsFaceSolved(f: Face) {
    forall i :: 0 <= i < 9 ==> At(f, i) == At(f, 0)
  }

  /** A face is solved exactly when it is the uniform face of its first sticker. */
  lemma FaceSolvedIff(f: Face)
    ensures IsFaceSolved(f) <==> f == SolvedFace(f.s0)
  {
    if IsFaceSolved(f) {
      assert At(f, 1) == f.s0 && At(f, 2) == f.s0 && At(f, 3) == f.s0 && At(f, 4) == f.s0;
      assert At(f, 5) == f.s0 && At(f, 6) == f.s0 && At(f, 7) == f.s0 && At(f, 8) == f.s0;
    }
  }

  /** Every face is solved. */
  predicate IsStateSolved(s: State) {
    IsFaceSolved(s.u) && IsFaceSolved(s.d) && IsFaceSolved(s.f)
    && IsFaceSolved(s.b) && IsFaceSolved(s.l) && IsFaceSolved(s.r)
  }

  /** A cube is solved exactly when on every face every sticker has the colour of that face's sticker 0. */
  lemma StateSolvedIff(s: State)
    ensures IsStateSolved(s) <==>
      forall p :: ValidPos(p) ==> Sticker(s, p) == Sticker(s, Pos(p.face, 0))
  {
    if IsStateSolved(s) {
      forall p | ValidPos(p) ensures Sticker(s, p) == Sticker(s, Pos(p.face, 0)) {
        assert IsFaceSolved(FaceOf(s, p.face));
      }
    } else {
      if !IsFaceSolved(s.u) { FaceWitness(s, U); }
      else if !IsFaceSolved(s.d) { FaceWitness(s, D); }
      else if !IsFaceSolved(s.f) { FaceWitness(s, F); }
      else if !IsFaceSolved(s.b) { FaceWitness(s, B); }
      else if !IsFaceSolved(s.l) { FaceWitness(s, L); }
      else { FaceWitness(s, R); }
    }
  }

  lemma FaceWitness(s: State, n: FaceName)
    requires !IsFaceSolved(FaceOf(s, n))
    ensures exists i :: 0 <= i < 9 && Sticker(s, Pos(n, i)) != Sticker(s, Pos(n, 0))
  {
    var i :| 0 <= i < 9 && At(FaceOf(s, n), i) != At(FaceOf(s, n), 0);
    assert Sticker(s, Pos(n, i)) != Sticker(s, Pos(n, 0));
  }

  lemma SolvedStateIsSolved()
    ensures IsStateSolved(SolvedState())
  {
  }

  /** Solved faces are uniform, so every solved cube has one colour per face. */
  lemma SolvedStatesAreUniform(s: State)
    requires IsStateSolved(s)
    ensures forall p :: ValidPos(p) ==> Sticker(s, p) == Sticker(s, Pos(p.face, 4))
  {
    StateSolvedIff(s);
  }

  /** Replaces one sticker. */
  function SetSticker(s: State, p: Pos, c: Color): (t: State)
    requires ValidPos(p)
    ensures Sticker(t, p) == c
    ensures forall q :: ValidPos(q) && q != p ==> Sticker(t, q) == Sticker(s, q)
  {
    var f := FaceOf(s, p.face);
    var g := match p.index
      case 0 => f.(s0 := c) case 1 => f.(s1 := c) case 2 => f.(s2 := c)
      case 3 => f.(s3 := c) case 4 => f.(s4 := c) case 5 => f.(s5 := c)
      case 6 => f.(s6 := c) case 7 => f.(s7 := c) case _ => f.(s8 := c);
    match p.face
    case U => s.(u := g) case D => s.(d := g) case F => s.(f := g)
    case B => s.(b := g) case L => s.(l := g) case R => s.(r := g)
  }

  /** Recolouring any one sticker of the solved cube with a different colour unsolves it. */
  lemma OneStickerUnsolves(p: Pos, c: Color)
    requires ValidPos(p) && c != HomeColor(p.face)
    ensures !IsStateSolved(SetSticker(SolvedState(), p, c))
  {
    var t := SetSticker(SolvedState(), p, c);
    var q := Pos(p.face, if p.index == 4 then 0 else 4);
    assert Sticker(t, q) == HomeColor(p.face);
    StateSolvedIff(t);
  }

  /** Sticker-by-sticker comparison of two faces. */
  predicate FacesEqual(a: Face, b: Face) {
    forall i :: 0 <= i < 9 ==> At(a, i) == At(b, i)
  }

  predicate StatesEqual(a: State, b: State) {
    FacesEqual(a.u, b.u) && FacesEqual(a.d, b.d) && FacesEqual(a.f, b.f)
    && FacesEqual(a.b, b.b) && FacesEqual(a.l, b.l) && FacesEqual(a.r, b.r)
  }

  lemma FacesEqualIff(a: Face, b: Face)
    ensures FacesEqual(a, b) <==> a == b
  {
    if FacesEqual(a, b) {
      assert At(a, 0) == At(b, 0) && At(a, 1) == At(b, 1) && At(a, 2) == At(b, 2);
      assert At(a, 3) == At(b, 3) && At(a, 4) == At(b, 4) && At(a, 5) == At(b, 5);
      assert At(a, 6) == At(b, 6) && At(a, 7) == At(b, 7) && At(a, 8) == At(b, 8);
    }
  }

  /** Two states compare equal exactly when all 54 stickers agree, that is, when they are the same state. */
  lemma StatesEqualIff(a: State, b: State)
    ensures StatesEqual(a, b) <==> a == b
    ensures StatesEqual(a, b) <==> forall p :: ValidPos(p) ==> Sticker(a, p) == Sticker(b, p)
  {
    FacesEqualIff(a.u, b.u);
    FacesEqualIff(a.d, b.d);
    FacesEqualIff(a.f, b.f);
    FacesEqualIff(a.b, b.b);
    FacesEqualIff(a.l, b.l);
    FacesEqualIff(a.r, b.r);
    if forall p :: ValidPos(p) ==> Sticker(a, p) == Sticker(b, p) {
      forall n: FaceName ensures FacesEqual(FaceOf(a, n), FaceOf(b, n)) {
        forall i | 0 <= i < 9 ensures At(FaceOf(a, n), i) == At(FaceOf(b, n), i) {
          assert Sticker(a, Pos(n, i)) == Sticker(b, Pos(n, i));
        }
      }
      assert FacesEqual(FaceOf(a, U), FaceOf(b, U)) && FacesEqual(FaceOf(a, D), FaceOf(b, D));
      assert FacesEqual(FaceOf(a, F), FaceOf(b, F)) && FacesEqual(FaceOf(a, B), FaceOf(b, B));
      assert FacesEqual(FaceOf(a, L), FaceOf(b, L)) && FacesEqual(FaceOf(a, R), FaceOf(b, R));
    }
  }

  /** The three initials of row `row` of a face. */
  function RowText(f: Face, row: int): (t: string)
    requires 0 <= row < 3
    ensures |t| == 3
  {
    [Initial(At(f, 3 * row)), Initial(At(f, 3 * row + 1)), Initial(At(f, 3 * row + 2))]
  }

  /** A face block of the text dump: its name and a colon, then its three rows, one per line. */
  function FaceBlock(f: Face, name: char): (t: string)
    ensures |t| == 14 && t[0] == name && t[1] == ':' && t[2] == '\n'
    ensures t[3..6] == RowText(f, 0) && t[6] == '\n'
    ensures t[7..10] == RowText(f, 1) && t[10] == '\n'
    ensures t[11..14] == RowText(f, 2)
  {
    [name, ':', '\n'] + RowText(f, 0) + ['\n'] + RowText(f, 1) + ['\n'] + RowText(f, 2)
  }

  /** The blocks of the text dump, in the order U, F, R, B, L, D. */
  function Blocks(s: State): seq<string> {
    [FaceBlock(s.u, 'U'), FaceBlock(s.f, 'F'), FaceBlock(s.r, 'R'),
     FaceBlock(s.b, 'B'), FaceBlock(s.l, 'L'), FaceBlock(s.d, 'D')]
  }

  /** The text dump: the six face blocks separated by blank lines. */
  function StateToString(s: State): (t: string)
    ensures |t| == 94
    ensures forall k :: 0 <= k < 6 ==> t[16 * k..16 * k + 14] == Blocks(s)[k]
    ensures forall k :: 0 <= k < 5 ==> t[16 * k + 14..16 * k + 16] == "\n\n"
  {
    var bs := Blocks(s);
    var t := Join(bs, "\n\n");
    JoinLaidOut(bs, "\n\n");
    t
  }

  /** Blocks of 14 characters joined by a two-character separator: block `k` starts at `16 * k`. */
  lemma {:induction false} JoinLaidOut(bs: seq<string>, sep: string)
    requires |bs| >= 1 && |sep| == 2
    requires forall i :: 0 <= i < |bs| ==> |bs[i]| == 14
    ensures |Join(bs, sep)| == 16 * |bs| - 2
    ensures forall k :: 0 <= k < |bs| ==> Join(bs, sep)[16 * k..16 * k + 14] == bs[k]
    ensures forall k :: 0 <= k < |bs| - 1 ==> Join(bs, sep)[16 * k + 14..16 * k + 16] == sep
  {
    if |bs| > 1 {
      var j := Join(bs, sep);
      var tail := bs[1..];
      var rest := Join(tail, sep);
      assert j == bs[0] + sep + rest;
      JoinLaidOut(tail, sep);
      forall k | 1 <= k < |bs| ensures j[16 * k..16 * k + 14] == bs[k] {
        assert tail[k - 1] == bs[k];
        assert j[16 * k..16 * k + 14] == rest[16 * (k - 1)..16 * (k - 1) + 14];
      }
      forall k | 1 <= k < |bs| - 1 ensures j[16 * k + 14..16 * k + 16] == sep {
        assert j[16 * k + 14..16 * k + 16] == rest[16 * (k - 1) + 14..16 * (k - 1) + 16];
      }
    }
  }

  /** The text dump loses nothing: different states print differently. */
  lemma StateToStringInjective(a: State, b: State)
    requires StateToString(a) == StateToString(b)
    ensures a == b
  {
    JoinInjective(Blocks(a), Blocks(b), "\n\n", 14);
    assert FaceBlock(a.u, 'U') == Blocks(a)[0] == Blocks(b)[0] == FaceBlock(b.u, 'U');
    assert FaceBlock(a.f, 'F') == Blocks(a)[1] == Blocks(b)[1] == FaceBlock(b.f, 'F');
    assert FaceBlock(a.r, 'R') == Blocks(a)[2] == Blocks(b)[2] == FaceBlock(b.r, 'R');
    assert FaceBlock(a.b, 'B') == Blocks(a)[3] == Blocks(b)[3] == FaceBlock(b.b, 'B');
    assert FaceBlock(a.l, 'L') == Blocks(a)[4] == Blocks(b)[4] == FaceBlock(b.l, 'L');
    assert FaceBlock(a.d, 'D') == Blocks(a)[5] == Blocks(b)[5] == FaceBlock(b.d, 'D');
    BlockInjective(a.u, b.u, 'U');
    BlockInjective(a.f, b.f, 'F');
    BlockInjective(a.r, b.r, 'R');
    BlockInjective(a.b, b.b, 'B');
    BlockInjective(a.l, b.l, 'L');
    BlockInjective(a.d, b.d, 'D');
  }

  /**
   * The dump of the solved cube: each block shows its face's name and nine
   * copies of its home colour's initial.
   */
  lemma SolvedStateText()
    ensures var t := StateToString(SolvedState());
      t[0..14] == "U:\nWWW\nWWW\nWWW" && t[16..30] == "F:\nGGG\nGGG\nGGG"
      && t[32..46] == "R:\nRRR\nRRR\nRRR" && t[48..62] == "B:\nBBB\nBBB\nBBB"
      && t[64..78] == "L:\nOOO\nOOO\nOOO" && t[80..94] == "D:\nYYY\nYYY\nYYY"
  {
    SolvedDumpBlock(0, White, 'U');
    SolvedDumpBlock(1, Green, 'F');
    SolvedDumpBlock(2, Red, 'R');
    SolvedDumpBlock(3, Blue, 'B');
    SolvedDumpBlock(4, Orange, 'L');
    SolvedDumpBlock(5, Yellow, 'D');
  }

  /** Recolouring sticker 0 of the solved cube's U face red shows `RWW` in the dump's first row. */
  lemma RecolouredStateText()
    ensures StateToString(SetSticker(SolvedState(), Pos(U, 0), Red))[3..6] == "RWW"
  {
    var t := StateToString(SetSticker(SolvedState(), Pos(U, 0), Red));
    assert t[3..6] == t[16 * 0..16 * 0 + 14][3..6];
  }

  /** Block `k` of the solved cube's dump is the uniform block of colour `c`. */
  lemma SolvedDumpBlock(k: nat, c: Color, name: char)
    requires k < 6 && Blocks(SolvedState())[k] == FaceBlock(SolvedFace(c), name)
    ensures var i := Initial(c);
      StateToString(SolvedState())[16 * k..16 * k + 14]
        == [name, ':', '\n', i, i, i, '\n', i, i, i, '\n', i, i, i]
  {
    UniformBlock(c, name);
  }

  lemma UniformBlock(c: Color, name: char)
    ensures var i := Initial(c);
      FaceBlock(SolvedFace(c), name) == [name, ':', '\n', i, i, i, '\n', i, i, i, '\n', i, i, i]
  {
  }

  /** A face block determines the face. */
  lemma BlockInjective(f: Face, g: Face, name: char)
    requires FaceBlock(f, name) == FaceBlock(g, name)
    ensures f == g
  {
    RowInjective(f, g, 0);
    RowInjective(f, g, 1);
    RowInjective(f, g, 2);
    assert FacesEqual(f, g);
    FacesEqualIff(f, g);
  }

  lemma RowInjective(f: Face, g: Face, row: int)
    requires 0 <= row < 3 && RowText(f, row) == RowText(g, row)
    ensures At(f, 3 * row) == At(g, 3 * row)
    ensures At(f, 3 * row + 1) == At(g, 3 * row + 1)
    ensures At(f, 3 * row + 2) == At(g, 3 * row + 2)
  {
    assert RowText(f, row)[0] == RowText(g, row)[0];
    assert RowText(f, row)[1] == RowText(g, row)[1];
    assert RowText(f, row)[2] == RowText(g, row)[2];
  }

  /** The face arrays as one face value. */
  function FaceOfArray(a: array<Color>): Face
    requires a.Length == 9
    reads a
  {
    Face(a[0], a[1], a[2], a[3], a[4], a[5], a[6], a[7], a[8])
  }

  /**
   * A cube in memory: six arrays of nine stickers. The arrays are never
   * replaced, only written element by element, so the fields are constant.
   */
  class Cube {
    const U: array<Color>
    const D: array<Color>
    const F: array<Color>
    const B: array<Color>
    const L: array<Color>
    const R: array<Color>

    /** Six distinct arrays of nine stickers. */
    predicate Valid() {
      U.Length == 9 && D.Length == 9 && F.Length == 9
      && B.Length == 9 && L.Length == 9 && R.Length == 9
      && U != D && U != F && U != B && U != L && U != R
      && D != F && D != B && D != L && D != R
      && F != B && F != L && F != R
      && B != L && B != R
      && L != R
    }

    ghost function Arrays(): set<array<Color>> {
      {U, D, F, B, L, R}
    }

    /** The state the arrays hold. */
    function Model(): State
      requires Valid()
      reads U, D, F, B, L, R
    {
      State(FaceOfArray(U), FaceOfArray(D), FaceOfArray(F),
            FaceOfArray(B), FaceOfArray(L), FaceOfArray(R))
    }

    /** `createSolvedState`: fresh arrays holding the solved cube. */
    constructor Solved()
      ensures Valid() && fresh(Arrays())
      ensures Model() == SolvedState()
    {
      var u := NewSolvedFace(White);
      var d := NewSolvedFace(Yellow);
      var f := NewSolvedFace(Green);
      var b := NewSolvedFace(Blue);
      var l := NewSolvedFace(Orange);
      var r := NewSolvedFace(Red);
      U, D, F, B, L, R := u, d, f, b, l, r;
    }

    /** `cloneState`: fresh arrays holding the same stickers as `c`. */
    constructor Clone(c: Cube)
      requires c.Valid()
      ensures Valid() && fresh(Arrays())
      ensures Model() == c.Model()
    {
      var u := CopyFace(c.U);
      var d := CopyFace(c.D);
      var f := CopyFace(c.F);
      var b := CopyFace(c.B);
      var l := CopyFace(c.L);
      var r := CopyFace(c.R);
      U, D, F, B, L, R := u, d, f, b, l, r;
    }
  }

  /** `[...face]`: a fresh array with the same stickers. */
  method CopyFace(a: array<Color>) returns (b: array<Color>)
    requires a.Length == 9
    ensures fresh(b) && b.Length == 9 && b[..] == a[..]
  {
    b := new Color[9](i requires 0 <= i < 9 reads a => a[i]);
  }

  /** `createSolvedFace`: a fresh array of nine stickers of one colour. */
  method NewSolvedFace(c: Color) returns (a: array<Color>)
    ensures fresh(a) && a.Length == 9 && FaceOfArray(a) == SolvedFace(c)
  {
    a := new Color[9](_ => c);
  }
}
