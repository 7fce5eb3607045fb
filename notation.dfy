/**
 * The move notation: move tokens, the tables of accepted bases and
 * modifiers, parsing of single moves and whole algorithms, inversion, and
 * printing a move list back as notation.
 */
module Notation {
  import opened Wrappers
  import opened Text

  /** The six faces, by their letters in the notation. */
  datatype FaceName = U | D | F | B | L | R

  /** The three middle layers: M follows L, E follows D, S follows F. */
  datatype SliceName = M | E | S

  /** The three whole-cube rotations x, y, z. */
  datatype Axis = X | Y | Z

  /**
   * The base of a move: a face turn, a slice move, a rotation, or a wide
   * move, which is written either `Rw` (lower == false) or `r` (lower == true).
   */
  datatype Base =
    | Turn(face: FaceName)
    | Slice(slice: SliceName)
    | Rotation(axis: Axis)
    | Wide(face: FaceName, lower: bool)

  /** The modifiers the parser accepts: none, `'`, `2` and `2'`. */
  datatype Modifier = Clockwise | Prime | Double | DoublePrime

  /** A parsed move token; `notation` is the text it was parsed from. */
  datatype Move = Move(base: Base, modifier: Modifier, notation: string)

  datatype MoveError =
    | EmptyMove
    | InvalidModifier(modifier: string, move: string)
    | InvalidMove(base: string, move: string)

  /** A word of an algorithm failed to parse; `algorithm` is the whole input. */
  datatype AlgorithmError = MoveFailed(word: string, algorithm: string, cause: MoveError)

  function FaceChar(f: FaceName): char {
    match f
    case U => 'U' case D => 'D' case F => 'F' case B => 'B' case L => 'L' case R => 'R'
  }

  function LowerChar(f: FaceName): char {
    match f
    case U => 'u' case D => 'd' case F => 'f' case B => 'b' case L => 'l' case R => 'r'
  }

  /** The letter a base is written with. */
  function Letter(b: Base): char {
    match b
    case Turn(f) => FaceChar(f)
    case Slice(sl) => (match sl case M => 'M' case E => 'E' case S => 'S')
    case Rotation(a) => (match a case X => 'x' case Y => 'y' case Z => 'z')
    case Wide(f, lower) => if lower then LowerChar(f) else FaceChar(f)
  }

  /** The text of a base, as it appears in the tables: one letter, or a face letter and `w`. */
  function Name(b: Base): string {
    if b.Wide? && !b.lower then [Letter(b), 'w'] else [Letter(b)]
  }

  function ModifierText(m: Modifier): string {
    match m
    case Clockwise => ""
    case Prime => "'"
    case Double => "2"
    case DoublePrime => "2'"
  }

  /** The text a well-formed move token carries. */
  function Canonical(b: Base, m: Modifier): string {
    Name(b) + ModifierText(m)
  }

  /** Clockwise quarter turns the executor performs for a modifier. */
  function QuarterTurns(m: Modifier): nat {
    match m
    case Clockwise => 1
    case Prime => 3
    case Double => 2
    case DoublePrime => 2
  }

  /** The single-letter bases, in table order. */
  const BaseMoves: seq<Base> :=
    [Turn(U), Turn(D), Turn(F), Turn(B), Turn(L), Turn(R),
     Slice(M), Slice(E), Slice(S), Rotation(X), Rotation(Y), Rotation(Z)]

  /** The wide bases, in table order: `Uw` … `Rw`, then `u` … `r`. */
  const WideMoves: seq<Base> :=
    [Wide(U, false), Wide(D, false), Wide(F, false), Wide(B, false), Wide(L, false), Wide(R, false),
     Wide(U, true), Wide(D, true), Wide(F, true), Wide(B, true), Wide(L, true), Wide(R, true)]

  /** The accepted modifiers, `2'` included. */
  const Modifiers: seq<Modifier> := [Clockwise, Prime, Double, DoublePrime]

  /** The wide table holds exactly the wide bases. */
  lemma WideTable(b: Base)
    ensures b in WideMoves <==> b.Wide?
  {
    if b.Wide? {
      var k := if b.lower then 6 else 0;
      match b.face
      case U => assert b == WideMoves[k];
      case D => assert b == WideMoves[k + 1];
      case F => assert b == WideMoves[k + 2];
      case B => assert b == WideMoves[k + 3];
      case L => assert b == WideMoves[k + 4];
      case R => assert b == WideMoves[k + 5];
    } else {
      assert forall i :: 0 <= i < |WideMoves| ==> WideMoves[i].Wide?;
    }
  }

  /** The base table holds exactly the bases that are not wide. */
  lemma BaseTable(b: Base)
    ensures b in BaseMoves <==> !b.Wide?
  {
    match b
    case Turn(f) => {
      match f
      case U => assert b == BaseMoves[0];
      case D => assert b == BaseMoves[1];
      case F => assert b == BaseMoves[2];
      case B => assert b == BaseMoves[3];
      case L => assert b == BaseMoves[4];
      case R => assert b == BaseMoves[5];
    }
    case Slice(sl) => {
      match sl
      case M => assert b == BaseMoves[6];
      case E => assert b == BaseMoves[7];
      case S => assert b == BaseMoves[8];
    }
    case Rotation(a) => {
      match a
      case X => assert b == BaseMoves[9];
      case Y => assert b == BaseMoves[10];
      case Z => assert b == BaseMoves[11];
    }
    case Wide(_, _) =>
      assert forall i :: 0 <= i < |BaseMoves| ==> !BaseMoves[i].Wide?;
  }

  /** The base written with the single letter `c`, if any. */
  function BaseOfLetter(c: char): (r: Option<Base>)
    ensures r.Some? ==> Name(r.value) == [c]
    ensures r.None? ==> forall b :: Name(b) != [c]
  {
    match c
    case 'U' => Some(Turn(U)) case 'D' => Some(Turn(D)) case 'F' => Some(Turn(F))
    case 'B' => Some(Turn(B)) case 'L' => Some(Turn(L)) case 'R' => Some(Turn(R))
    case 'M' => Some(Slice(M)) case 'E' => Some(Slice(E)) case 'S' => Some(Slice(S))
    case 'x' => Some(Rotation(X)) case 'y' => Some(Rotation(Y)) case 'z' => Some(Rotation(Z))
    case 'u' => Some(Wide(U, true)) case 'd' => Some(Wide(D, true)) case 'f' => Some(Wide(F, true))
    case 'b' => Some(Wide(B, true)) case 'l' => Some(Wide(L, true)) case 'r' => Some(Wide(R, true))
    case _ =>
      assert forall b :: Name(b) != [c] by {
        forall b ensures Name(b) != [c] {
          assert Name(b)[0] == Letter(b);
        }
      }
      None
  }

  /** The face whose upper-case letter is `c`, if any. */
  function FaceOfChar(c: char): (r: Option<FaceName>)
    ensures r.Some? ==> FaceChar(r.value) == c
    ensures r.None? ==> forall f :: FaceChar(f) != c
  {
    match c
    case 'U' => Some(U) case 'D' => Some(D) case 'F' => Some(F)
    case 'B' => Some(B) case 'L' => Some(L) case 'R' => Some(R)
    case _ => None
  }

  /** The base spelled exactly `n`, if any. */
  function BaseNamed(n: string): (r: Option<Base>)
    ensures r.Some? ==> Name(r.value) == n
    ensures r.None? ==> forall b :: Name(b) != n
  {
    if |n| == 1 then
      assert n == [n[0]];
      BaseOfLetter(n[0])
    else if |n| == 2 && n[1] == 'w' && FaceOfChar(n[0]).Some? then
      assert n == [n[0], 'w'];
      Some(Wide(FaceOfChar(n[0]).value, false))
    else
      assert forall b :: Name(b) != n by {
        forall b ensures Name(b) != n {
          assert Name(b)[0] == Letter(b);
        }
      }
      None
  }

  /** No two bases share a name. */
  lemma NameInjective(b1: Base, b2: Base)
    requires Name(b1) == Name(b2)
    ensures b1 == b2
  {
    assert Letter(b1) == Name(b1)[0] == Name(b2)[0] == Letter(b2);
  }

  /** `WIDE_MOVES.includes(n)`, returning the base so named. */
  function FindWide(n: string): (r: Option<Base>)
    ensures r.Some? ==> r.value in WideMoves && Name(r.value) == n
    ensures r.None? ==> forall b :: b in WideMoves ==> Name(b) != n
  {
    match BaseNamed(n)
    case None => None
    case Some(b) =>
      WideTable(b);
      if b.Wide? then Some(b)
      else
        assert forall b' :: b' in WideMoves ==> Name(b') != n by {
          forall b' ensures b' in WideMoves ==> Name(b') != n {
            WideTable(b');
            if Name(b') == n { NameInjective(b, b'); }
          }
        }
        None
  }

  /** `BASE_MOVES.includes(n)`, returning the base so named. */
  function FindBasic(n: string): (r: Option<Base>)
    ensures r.Some? ==> r.value in BaseMoves && Name(r.value) == n
    ensures r.None? ==> forall b :: b in BaseMoves ==> Name(b) != n
  {
    match BaseNamed(n)
    case None => None
    case Some(b) =>
      BaseTable(b);
      if !b.Wide? then Some(b)
      else
        assert forall b' :: b' in BaseMoves ==> Name(b') != n by {
          forall b' ensures b' in BaseMoves ==> Name(b') != n {
            BaseTable(b');
            if Name(b') == n { NameInjective(b, b'); }
          }
        }
        None
  }

  /** `MODIFIERS.includes(text)`, returning the modifier so written. */
  function FindModifier(text: string): (r: Option<Modifier>)
    ensures r.Some? ==> r.value in Modifiers && ModifierText(r.value) == text
    ensures r.None? ==> forall m: Modifier :: ModifierText(m) != text
  {
    if |text| == 0 then Some(Clockwise)
    else if |text| == 1 && text[0] == '\'' then Some(Prime)
    else if |text| == 1 && text[0] == '2' then Some(Double)
    else if |text| == 2 && text[0] == '2' && text[1] == '\'' then Some(DoublePrime)
    else
      None
  }

  /** Some base is spelled exactly `n`. */
  predicate IsBaseName(n: string) {
    BaseNamed(n).Some?
  }

  /** The modifier check: `modText` must be an accepted modifier. */
  function WithModifier(base: Base, modText: string, trimmed: string): (r: Result<Move, MoveError>)
    ensures r.Ok? ==> r.value.base == base && r.value.notation == trimmed && ModifierText(r.value.modifier) == modText
    ensures r.Err? ==> r.error == InvalidModifier(modText, trimmed) && FindModifier(modText).None?
  {
    match FindModifier(modText)
    case None => Err(InvalidModifier(modText, trimmed))
    case Some(m) => Ok(Move(base, m, trimmed))
  }

  /** Some base name is a prefix of `t`. */
  ghost predicate StartsWithBase(t: string) {
    exists b :: |Name(b)| <= |t| && t[..|Name(b)|] == Name(b)
  }

  /**
   * Finds the base a trimmed move text starts with: first a two-letter wide
   * base, then a one-letter wide base, then a one-letter base. Returns the
   * base and where it ends.
   */
  function SplitBase(t: string): (r: Option<(Base, nat)>)
    requires t != []
    ensures r.Some? ==> 0 < r.value.1 <= |t| && Name(r.value.0) == t[..r.value.1]
    ensures r.Some? ==> (r.value.1 == 2 <==> |t| >= 2 && IsBaseName(t[..2]))
    ensures r.None? ==> !StartsWithBase(t)
  {
    if |t| >= 2 && FindWide(t[..2]).Some? then Some((FindWide(t[..2]).value, 2))
    else if FindWide(t[..1]).Some? then Some((FindWide(t[..1]).value, 1))
    else if FindBasic(t[..1]).Some? then Some((FindBasic(t[..1]).value, 1))
    else
      assert !StartsWithBase(t) by {
        forall b ensures !(|Name(b)| <= |t| && t[..|Name(b)|] == Name(b)) {
          WideTable(b);
          BaseTable(b);
        }
      }
      None
  }

  /**
   * Parses one move: the input is trimmed, and blank input is an error;
   * the rest is a move token.
   */
  function ParseMove(s: string): (r: Result<Move, MoveError>)
    ensures r.Ok? ==> r.value.notation == Trim(s) && WellFormed(r.value)
    ensures r == Err(EmptyMove) <==> Trim(s) == []
    ensures Trim(s) != [] ==> r == ParseToken(Trim(s))
  {
    var t := Trim(s);
    if t == [] then Err(EmptyMove) else ParseToken(t)
  }

  /**
   * Parses a non-empty trimmed move token: a two-letter wide prefix is tried
   * before a one-letter base, and whatever follows the base must be an
   * accepted modifier.
   */
  function ParseToken(t: string): (r: Result<Move, MoveError>)
    requires t != []
    ensures r.Ok? ==> r.value.notation == t == Canonical(r.value.base, r.value.modifier)
    ensures r != Err(EmptyMove)
    ensures r.Err? && r.error.InvalidModifier? ==>
      (var k := |t| - |r.error.modifier|;
       r.error.move == t && 0 < k <= |t| && t[k..] == r.error.modifier
       && IsBaseName(t[..k]) && FindModifier(r.error.modifier).None?
       && (k == 2 <==> |t| >= 2 && IsBaseName(t[..2])))
    ensures r.Err? && r.error.InvalidMove? ==>
      r.error.move == t && r.error.base == t[..1] && !StartsWithBase(t)
  {
    match SplitBase(t)
    case None => Err(InvalidMove(t[..1], t))
    case Some((base, k)) =>
      assert t == t[..k] + t[k..];
      WithModifier(base, t[k..], t)
  }

  /** The name of a base is one letter, or two for the upper-case wide bases, ending in `w`. */
  lemma NameLength(b: Base)
    ensures |Name(b)| == (if b.Wide? && !b.lower then 2 else 1)
    ensures |Name(b)| == 2 ==> Name(b)[1] == 'w'
  {
  }

  /** Every well-formed token text parses back to its own base and modifier. */
  lemma ParseCanonical(b: Base, m: Modifier)
    ensures ParseMove(Canonical(b, m)) == Ok(Move(b, m, Canonical(b, m)))
  {
    var t := Canonical(b, m);
    CanonicalShape(b, m);
    TrimOfTrimmed(t);
    assert ParseMove(t) == ParseToken(t);
    SplitCanonical(b, m);
    assert t[|Name(b)|..] == ModifierText(m);
    FindModifierText(m);
  }

  /** `X` is neither a base nor a wide base. */
  lemma ParseUnknownBase()
    ensures ParseMove("X") == Err(InvalidMove("X", "X"))
  {
    TrimOfTrimmed("X");
    SplitBaseX();
  }

  lemma SplitBaseX()
    ensures SplitBase("X").None?
  {
    assert "X"[..1] == "X";
    assert FindWide("X").None? && FindBasic("X").None?;
  }

  /** In `R3` the base `R` is followed by `3`, which is no modifier. */
  lemma ParseUnknownModifier()
    ensures ParseMove("R3") == Err(InvalidModifier("3", "R3"))
  {
    TrimR3();
    NoModifierThree();
    SplitBaseR3();
    RejectedModifier("R3", Turn(R), 1, "3");
  }

  /** A trimmed token whose base is followed by an unknown modifier is rejected with that modifier. */
  lemma RejectedModifier(t: string, base: Base, k: nat, modText: string)
    requires t != [] && Trim(t) == t
    requires SplitBase(t) == Some((base, k)) && t[k..] == modText
    requires FindModifier(modText).None?
    ensures ParseMove(t) == Err(InvalidModifier(modText, t))
  {
  }

  lemma TrimR3()
    ensures Trim("R3") == "R3"
  {
    TrimOfTrimmed("R3");
  }

  lemma NoModifierThree()
    ensures "R3"[1..] == "3" && FindModifier("3").None?
  {
  }

  lemma SplitBaseR3()
    ensures SplitBase("R3") == Some((Turn(R), 1))
  {
    assert "R3"[..2] == "R3" && "R3"[..1] == "R";
    assert FindWide("R3").None? && FindWide("R").None?;
    BaseTable(Turn(R));
    assert Name(Turn(R)) == "R";
    NameInjective(FindBasic("R").value, Turn(R));
  }

  /** In `Uw3` the wide base `Uw` wins over `U`, so the modifier reported is `3`, not `w3`. */
  lemma ParseWideUnknownModifier()
    ensures ParseMove("Uw3") == Err(InvalidModifier("3", "Uw3"))
  {
    TrimUw3();
    NoModifierAfterUw();
    SplitBaseUw3();
    RejectedModifier("Uw3", Wide(U, false), 2, "3");
  }

  lemma TrimUw3()
    ensures Trim("Uw3") == "Uw3"
  {
    TrimOfTrimmed("Uw3");
  }

  lemma NoModifierAfterUw()
    ensures "Uw3"[2..] == "3" && FindModifier("3").None?
  {
  }

  lemma SplitBaseUw3()
    ensures SplitBase("Uw3") == Some((Wide(U, false), 2))
  {
    assert "Uw3"[..2] == "Uw";
    WideTable(Wide(U, false));
    assert Name(Wide(U, false)) == "Uw";
    NameInjective(FindWide("Uw").value, Wide(U, false));
  }

  /** `Uw'` is read with the two-letter wide base `Uw`, not as `U` followed by `w'`. */
  lemma ParseWidePrefix()
    ensures ParseMove("Uw'") == Ok(Move(Wide(U, false), Prime, "Uw'"))
  {
    assert Canonical(Wide(U, false), Prime) == "Uw'";
    ParseCanonical(Wide(U, false), Prime);
  }

  /** `r` is the lower-case wide base. */
  lemma ParseLowerWide()
    ensures ParseMove("r") == Ok(Move(Wide(R, true), Clockwise, "r"))
  {
    assert Canonical(Wide(R, true), Clockwise) == "r";
    ParseCanonical(Wide(R, true), Clockwise);
  }

  /** Each modifier's text is found as that modifier. */
  lemma FindModifierText(m: Modifier)
    ensures FindModifier(ModifierText(m)) == Some(m)
  {
  }

  /** The base found at the start of a well-formed token is the token's own base. */
  lemma SplitCanonical(b: Base, m: Modifier)
    ensures SplitBase(Canonical(b, m)) == Some((b, |Name(b)|))
  {
    var t := Canonical(b, m);
    NameLength(b);
    WideTable(b);
    BaseTable(b);
    var n := |Name(b)|;
    assert t[..n] == Name(b);
    if n == 1 {
      if |t| >= 2 {
        assert t[..2][1] == ModifierText(m)[0] != 'w';
      }
      if b.Wide? {
        NameInjective(b, FindWide(t[..1]).value);
      } else {
        NameInjective(b, FindBasic(t[..1]).value);
      }
    } else {
      NameInjective(b, FindWide(t[..2]).value);
    }
  }

  /** A move parses exactly when its trimmed text is a base name followed by a modifier. */
  lemma ParseMoveSucceeds(s: string)
    ensures ParseMove(s).Ok? <==> exists b, m :: Trim(s) == Canonical(b, m)
  {
    if b, m :| Trim(s) == Canonical(b, m) {
      ParseCanonical(b, m);
      assert ParseMove(s) == ParseMove(Canonical(b, m));
    }
  }

  /** The inverse modifier: none and `'` swap, and both half turns become `2`. */
  function InvertModifier(m: Modifier): (r: Modifier)
    ensures (QuarterTurns(m) + QuarterTurns(r)) % 4 == 0
    ensures r != DoublePrime
  {
    match m
    case Clockwise => Prime
    case Prime => Clockwise
    case Double => Double
    case DoublePrime => Double
  }

  /** The inverse move: same base, the quarter turns of the two add up to a full turn. */
  function InvertMove(mv: Move): (r: Move)
    ensures r.base == mv.base
    ensures QuarterTurns(mv.modifier) + QuarterTurns(r.modifier) == 4
    ensures r.modifier != DoublePrime
    ensures r.notation == Canonical(r.base, r.modifier)
  {
    var m := InvertModifier(mv.modifier);
    Move(mv.base, m, Name(mv.base) + ModifierText(m))
  }

  /** The reversed list with every move inverted: (ABC)⁻¹ = C⁻¹B⁻¹A⁻¹. */
  function InvertAlgorithm(moves: seq<Move>): (r: seq<Move>)
    ensures |r| == |moves|
    ensures forall i :: 0 <= i < |r| ==> r[i] == InvertMove(moves[|moves| - 1 - i])
  {
    if moves == [] then [] else InvertAlgorithm(moves[1..]) + [InvertMove(moves[0])]
  }

  /** A move the parser could have produced: its text is its base and modifier. */
  predicate WellFormed(mv: Move) {
    mv.notation == Canonical(mv.base, mv.modifier)
  }

  /** Inverting a well-formed move that is not `2'` twice gives it back. */
  lemma InvertMoveTwice(mv: Move)
    requires WellFormed(mv) && mv.modifier != DoublePrime
    ensures InvertMove(InvertMove(mv)) == mv
  {
    assert InvertModifier(InvertModifier(mv.modifier)) == mv.modifier;
  }

  /** Inverting twice gives back every well-formed move list that holds no `2'`. */
  lemma InvertAlgorithmTwice(moves: seq<Move>)
    requires forall i :: 0 <= i < |moves| ==> WellFormed(moves[i]) && moves[i].modifier != DoublePrime
    ensures InvertAlgorithm(InvertAlgorithm(moves)) == moves
  {
    var twice := InvertAlgorithm(InvertAlgorithm(moves));
    forall i | 0 <= i < |moves| ensures twice[i] == moves[i] {
      InvertTwiceAt(moves, i);
    }
  }

  lemma InvertTwiceAt(moves: seq<Move>, i: nat)
    requires i < |moves| && WellFormed(moves[i]) && moves[i].modifier != DoublePrime
    ensures InvertAlgorithm(InvertAlgorithm(moves))[i] == moves[i]
  {
    InvertMoveTwice(moves[i]);
  }

  /** A `2'` does not survive double inversion: it comes back as `2`. */
  lemma InvertTwiceLosesDoublePrime(b: Base)
    ensures var mv := Move(b, DoublePrime, Canonical(b, DoublePrime));
      InvertMove(InvertMove(mv)) == Move(b, Double, Canonical(b, Double)) != mv
  {
  }

  /** The notations of the moves, joined by single spaces. */
  function MovesToNotation(moves: seq<Move>): (r: string)
  {
    Join(Notations(moves), " ")
  }

  function Notations(moves: seq<Move>): (ns: seq<string>)
    ensures |ns| == |moves| && forall i :: 0 <= i < |moves| ==> ns[i] == moves[i].notation
  {
    if moves == [] then [] else [moves[0].notation] + Notations(moves[1..])
  }

  /** Printing two non-empty move lists one after the other puts one space between their texts. */
  lemma MovesToNotationAppend(a: seq<Move>, b: seq<Move>)
    requires a != [] && b != []
    ensures MovesToNotation(a + b) == MovesToNotation(a) + " " + MovesToNotation(b)
  {
    assert Notations(a + b) == Notations(a) + Notations(b);
    JoinAppend(Notations(a), Notations(b), " ");
  }

  /** The outcome of parsing each word on its own. */
  function ParseEach(words: seq<string>): (rs: seq<Result<Move, MoveError>>)
    ensures |rs| == |words| && forall i :: 0 <= i < |words| ==> rs[i] == ParseMove(words[i])
  {
    seq(|words|, i requires 0 <= i < |words| => ParseMove(words[i]))
  }

  /** The index of the first failed outcome, or the number of outcomes when none failed. */
  function FirstError(rs: seq<Result<Move, MoveError>>): (k: nat)
    ensures k <= |rs|
    ensures forall j :: 0 <= j < k ==> rs[j].Ok?
    ensures k < |rs| ==> rs[k].Err?
  {
    if rs == [] || rs[0].Err? then 0 else 1 + FirstError(rs[1..])
  }

  /** The moves of outcomes that all succeeded. */
  function Values(rs: seq<Result<Move, MoveError>>): (ms: seq<Move>)
    requires forall i :: 0 <= i < |rs| ==> rs[i].Ok?
    ensures |ms| == |rs| && forall i :: 0 <= i < |rs| ==> rs[i] == Ok(ms[i])
  {
    seq(|rs|, i requires 0 <= i < |rs| => rs[i].value)
  }

  /** Parses the words in order; the first word that fails names the error. */
  function ParseWords(words: seq<string>, algorithm: string): (r: Result<seq<Move>, AlgorithmError>)
    ensures r.Ok? <==> forall i :: 0 <= i < |words| ==> ParseMove(words[i]).Ok?
    ensures r.Ok? ==> |r.value| == |words| && forall i :: 0 <= i < |words| ==> Ok(r.value[i]) == ParseMove(words[i])
    ensures r.Err? ==> (var k := FirstError(ParseEach(words));
      k < |words| && r.error == MoveFailed(words[k], algorithm, ParseMove(words[k]).error))
  {
    var rs := ParseEach(words);
    var k := FirstError(rs);
    if k == |rs| then Ok(Values(rs)) else Err(MoveFailed(words[k], algorithm, rs[k].error))
  }

  /** The words of an algorithm once comments are removed. */
  function AlgorithmWords(s: string): seq<string> {
    Words(StripComments(s))
  }

  /**
   * Parses an algorithm: empty or blank input is the empty list; otherwise
   * comments are removed, the rest is split on white space and every word
   * is parsed as a move.
   */
  function ParseAlgorithm(s: string): (r: Result<seq<Move>, AlgorithmError>)
    ensures AllSpace(s) ==> r == Ok([])
    ensures r.Ok? ==> (|r.value| == |AlgorithmWords(s)|
      && forall i :: 0 <= i < |r.value| ==> r.value[i].notation == AlgorithmWords(s)[i] && WellFormed(r.value[i]))
    ensures r.Err? ==> (var ws := AlgorithmWords(s); var k := FirstError(ParseEach(ws));
      k < |ws| && r.error == MoveFailed(ws[k], s, ParseMove(ws[k]).error))
  {
    if Trim(s) == [] then
      BlankHasNoWords(s);
      Ok([])
    else ParseWords(AlgorithmWords(s), s)
  }

  /** A blank algorithm has no words. */
  lemma BlankHasNoWords(s: string)
    requires AllSpace(s)
    ensures AlgorithmWords(s) == []
  {
    assert forall k :: 0 <= k < |s| ==> s[k] != '(' by {
      forall k | 0 <= k < |s| ensures s[k] != '(' {
        assert IsSpace(s[k]);
      }
    }
    StripCommentsNoParen(s);
    WordsAllSpace(s);
  }

  /** An algorithm parses exactly when every word left after removing comments parses as a move. */
  lemma ParseAlgorithmSucceeds(s: string)
    ensures ParseAlgorithm(s).Ok? <==> forall w :: w in AlgorithmWords(s) ==> ParseMove(w).Ok?
  {
    if AllSpace(s) {
      BlankHasNoWords(s);
    }
  }

  /** Printing the parsed moves gives the comment-free words joined by single spaces. */
  lemma NotationRoundTrip(s: string)
    requires ParseAlgorithm(s).Ok?
    ensures MovesToNotation(ParseAlgorithm(s).value) == Join(AlgorithmWords(s), " ")
  {
    var ms := ParseAlgorithm(s).value;
    assert Notations(ms) == AlgorithmWords(s);
  }

  /** Printing a list of well-formed moves and parsing it again gives the same list. */
  lemma ParsePrinted(moves: seq<Move>)
    requires forall i :: 0 <= i < |moves| ==> WellFormed(moves[i])
    ensures ParseAlgorithm(MovesToNotation(moves)) == Ok(moves)
  {
    var s := MovesToNotation(moves);
    var ns := Notations(moves);
    PrintedWords(moves);
    if moves != [] {
      assert Trim(s) != [] by {
        if AllSpace(s) {
          BlankHasNoWords(s);
        }
      }
      forall i | 0 <= i < |moves| ensures ParseMove(ns[i]) == Ok(moves[i]) {
        ParseWellFormed(moves[i]);
      }
      ParseWordsAll(ns, moves, s);
    }
  }

  /** A well-formed move's text parses back to it. */
  lemma ParseWellFormed(mv: Move)
    requires WellFormed(mv)
    ensures ParseMove(mv.notation) == Ok(mv)
  {
    ParseCanonical(mv.base, mv.modifier);
  }

  /** The words of printed well-formed moves are their notations. */
  lemma PrintedWords(moves: seq<Move>)
    requires forall i :: 0 <= i < |moves| ==> WellFormed(moves[i])
    ensures AlgorithmWords(MovesToNotation(moves)) == Notations(moves)
  {
    var ns := Notations(moves);
    var s := MovesToNotation(moves);
    forall i | 0 <= i < |ns| ensures ns[i] != [] && NoSpace(ns[i]) && '(' !in ns[i] {
      CanonicalShape(moves[i].base, moves[i].modifier);
    }
    WordsOfJoin(ns);
    JoinAvoids(ns, '(');
    StripCommentsNoParen(s);
  }

  lemma ParseWordsAll(ws: seq<string>, moves: seq<Move>, alg: string)
    requires |ws| == |moves| && forall i :: 0 <= i < |ws| ==> ParseMove(ws[i]) == Ok(moves[i])
    ensures ParseWords(ws, alg) == Ok(moves)
  {
    assert ParseWords(ws, alg).value == moves;
  }

  /** A token text is non-empty, has no white space and no parenthesis. */
  lemma CanonicalShape(b: Base, m: Modifier)
    ensures Canonical(b, m) != [] && NoSpace(Canonical(b, m)) && '(' !in Canonical(b, m)
  {
    var t := Canonical(b, m);
    NameLength(b);
    assert forall k :: 0 <= k < |t| ==> t[k] in {Letter(b), 'w', '2', '\''};
  }

  lemma {:induction false} JoinAvoids(parts: seq<string>, c: char)
    requires c != ' ' && forall i :: 0 <= i < |parts| ==> c !in parts[i]
    ensures c !in Join(parts, " ")
  {
    if |parts| > 1 {
      JoinAvoids(parts[1..], c);
    }
  }
}
