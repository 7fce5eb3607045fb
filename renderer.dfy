/**
 * The text net of a cube: U on top, L F R B side by side, D below, each face
 * as three rows of colour initials.
 */
module Renderer {
  import opened Text
  import opened CubeState

  /** A line of the U or D block: four spaces, then one row of the face. */
  function IndentedRow(f: Face, row: int): (line: string)
    requires 0 <= row < 3
    ensures line == "    " + RowText(f, row)
    ensures |line| == 7 && line[..4] == "    " && line[4..] == RowText(f, row)
  {
    var t := RowText(f, row);
    [' ', ' ', ' ', ' ', t[0], t[1], t[2]]
  }

  /** A line of the middle block: row `row` of L, F, R and B, separated by single spaces. */
  function MiddleRow(s: State, row: int): (line: string)
    requires 0 <= row < 3
    ensures line == RowText(s.l, row) + " " + RowText(s.f, row) + " " + RowText(s.r, row) + " " + RowText(s.b, row)
    ensures |line| == 15
    ensures line[..3] == RowText(s.l, row) && line[4..7] == RowText(s.f, row)
    ensures line[8..11] == RowText(s.r, row) && line[12..] == RowText(s.b, row)
    ensures line[3] == ' ' && line[7] == ' ' && line[11] == ' '
  {
    var l := RowText(s.l, row);
    var f := RowText(s.f, row);
    var r := RowText(s.r, row);
    var b := RowText(s.b, row);
    [l[0], l[1], l[2], ' ', f[0], f[1], f[2], ' ', r[0], r[1], r[2], ' ', b[0], b[1], b[2]]
  }

  /** The nine lines of the net, top to bottom. */
  function NetLines(s: State): (lines: seq<string>)
    ensures |lines| == 9
  {
    [IndentedRow(s.u, 0), IndentedRow(s.u, 1), IndentedRow(s.u, 2),
     MiddleRow(s, 0), MiddleRow(s, 1), MiddleRow(s, 2),
     IndentedRow(s.d, 0), IndentedRow(s.d, 1), IndentedRow(s.d, 2)]
  }

  /** The net: its lines joined by newlines. */
  function NetText(s: State): string {
    Join(NetLines(s), "\n")
  }

  /** Row `row` of a face array: the initials of stickers `3 * row` to `3 * row + 2`. */
  function FaceRow(face: array<Color>, row: int): (t: string)
    requires face.Length == 9 && 0 <= row < 3
    reads face
    ensures t == RowText(FaceOfArray(face), row)
  {
    [Initial(face[3 * row]), Initial(face[3 * row + 1]), Initial(face[3 * row + 2])]
  }

  /**
   * `renderCubeNet`: three loops push the U lines, the middle lines and the
   * D lines, which are then joined with newlines.
   */
  method RenderCubeNet(c: Cube) returns (text: string)
    requires c.Valid()
    ensures text == NetText(c.Model())
  {
    ghost var s := c.Model();
    ghost var net := NetLines(s);
    var lines: seq<string> := [];
    for row := 0 to 3
      invariant |lines| == row
      invariant forall i :: 0 <= i < row ==> lines[i] == net[i]
    {
      lines := lines + ["    " + FaceRow(c.U, row)];
    }
    for row := 0 to 3
      invariant |lines| == 3 + row
      invariant forall i :: 0 <= i < 3 + row ==> lines[i] == net[i]
    {
      var l := FaceRow(c.L, row);
      var f := FaceRow(c.F, row);
      var r := FaceRow(c.R, row);
      var b := FaceRow(c.B, row);
      lines := lines + [l + " " + f + " " + r + " " + b];
    }
    for row := 0 to 3
      invariant |lines| == 6 + row
      invariant forall i :: 0 <= i < 6 + row ==> lines[i] == net[i]
    {
      lines := lines + ["    " + FaceRow(c.D, row)];
    }
    assert lines == net;
    text := Join(lines, "\n");
  }

  /** A row of initials holds no newline. */
  lemma RowHasNoNewline(f: Face, row: int)
    requires 0 <= row < 3
    ensures '\n' !in RowText(f, row)
  {
  }

  /** The lines hold no newline. */
  lemma LinesHaveNoNewline(s: State)
    ensures forall i :: 0 <= i < 9 ==> '\n' !in NetLines(s)[i]
  {
    forall row | 0 <= row < 3
      ensures '\n' !in IndentedRow(s.u, row) && '\n' !in IndentedRow(s.d, row) && '\n' !in MiddleRow(s, row)
    {
      RowHasNoNewline(s.u, row);
      RowHasNoNewline(s.d, row);
      RowHasNoNewline(s.l, row);
      RowHasNoNewline(s.f, row);
      RowHasNoNewline(s.r, row);
      RowHasNoNewline(s.b, row);
    }
  }

  /**
   * The net splits on newlines into exactly its nine lines, and it does not
   * end with a newline.
   */
  lemma NetIsNineLines(s: State)
    ensures Split(NetText(s), '\n') == NetLines(s)
    ensures var t := NetText(s); |t| > 0 && t[|t| - 1] != '\n'
  {
    LinesHaveNoNewline(s);
    SplitOfJoin(NetLines(s), '\n');
    JoinEndsWithLast(NetLines(s), "\n");
    var t := NetText(s);
    var last := NetLines(s)[8];
    assert t[|t| - 1] == t[|t| - |last|..][|last| - 1] == last[6];
    assert last[6] == RowText(s.d, 2)[2];
  }

  /** The net loses nothing: different cubes render differently. */
  lemma NetInjective(a: State, b: State)
    requires NetText(a) == NetText(b)
    ensures a == b
  {
    NetIsNineLines(a);
    NetIsNineLines(b);
    var la := NetLines(a);
    assert la == NetLines(b);
    forall row | 0 <= row < 3
      ensures RowText(a.u, row) == RowText(b.u, row) && RowText(a.d, row) == RowText(b.d, row)
      ensures RowText(a.l, row) == RowText(b.l, row) && RowText(a.f, row) == RowText(b.f, row)
      ensures RowText(a.r, row) == RowText(b.r, row) && RowText(a.b, row) == RowText(b.b, row)
    {
      assert IndentedRow(a.u, row) == la[row] == IndentedRow(b.u, row);
      assert IndentedRow(a.d, row) == la[6 + row] == IndentedRow(b.d, row);
      assert MiddleRow(a, row) == la[3 + row] == MiddleRow(b, row);
    }
    RowsDetermineFace(a.u, b.u);
    RowsDetermineFace(a.d, b.d);
    RowsDetermineFace(a.l, b.l);
    RowsDetermineFace(a.f, b.f);
    RowsDetermineFace(a.r, b.r);
    RowsDetermineFace(a.b, b.b);
  }

  /** A face is determined by its three rows of initials. */
  lemma RowsDetermineFace(f: Face, g: Face)
    requires forall row :: 0 <= row < 3 ==> RowText(f, row) == RowText(g, row)
    ensures f == g
  {
    RowInjective(f, g, 0);
    RowInjective(f, g, 1);
    RowInjective(f, g, 2);
    assert FacesEqual(f, g);
    FacesEqualIff(f, g);
  }

  /** The solved cube renders as three white rows, three rows of orange, green, red and blue, and three yellow rows. */
  lemma SolvedNet()
    ensures NetLines(SolvedState()) ==
      ["    WWW", "    WWW", "    WWW",
       "OOO GGG RRR BBB", "OOO GGG RRR BBB", "OOO GGG RRR BBB",
       "    YYY", "    YYY", "    YYY"]
  {
    var s := SolvedState();
    forall row | 0 <= row < 3
      ensures IndentedRow(s.u, row) == "    WWW" && IndentedRow(s.d, row) == "    YYY"
      ensures MiddleRow(s, row) == "OOO GGG RRR BBB"
    {
      assert RowText(s.u, row) == "WWW" && RowText(s.d, row) == "YYY";
      assert RowText(s.l, row) == "OOO" && RowText(s.f, row) == "GGG";
      assert RowText(s.r, row) == "RRR" && RowText(s.b, row) == "BBB";
    }
  }
}
