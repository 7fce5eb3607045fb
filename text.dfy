/**
 * String helpers the notation parser relies on: JavaScript's notion of white
 * space, `String.prototype.trim`, splitting on runs of white space, deleting
 * `( … )` comments the way `replace(/\([^)]*\)/g, "")` does, and `join`.
 */
module Text {

  /** The characters JavaScript's `trim` removes and the regex class `\s` matches. */
  predicate IsSpace(c: char) {
    c == ' ' || c == '\t' || c == '\n' || c == '\r' || c == '\U{000B}' || c == '\U{000C}'
    || c == '\U{00A0}' || c == '\U{1680}' || ('\U{2000}' <= c <= '\U{200A}')
    || c == '\U{2028}' || c == '\U{2029}' || c == '\U{202F}' || c == '\U{205F}'
    || c == '\U{3000}' || c == '\U{FEFF}'
  }

  predicate AllSpace(s: string) {
    forall k :: 0 <= k < |s| ==> IsSpace(s[k])
  }

  predicate NoSpace(s: string) {
    forall k :: 0 <= k < |s| ==> !IsSpace(s[k])
  }

  /** Drops leading white space: the result is the suffix that starts at the first non-space. */
  function TrimStart(s: string): (r: string)
    ensures |r| <= |s| && r == s[|s| - |r|..]
    ensures r != [] ==> !IsSpace(r[0])
    ensures AllSpace(s[..|s| - |r|])
    decreases |s|
  {
    if s != [] && IsSpace(s[0]) then
      var r := TrimStart(s[1..]);
      assert s[..|s| - |r|] == [s[0]] + s[1..][..|s| - 1 - |r|];
      r
    else s
  }

  /** Drops trailing white space: the result is the prefix that ends at the last non-space. */
  function TrimEnd(s: string): (r: string)
    ensures |r| <= |s| && r == s[..|r|]
    ensures r != [] ==> !IsSpace(r[|r| - 1])
    ensures AllSpace(s[|r|..])
    decreases |s|
  {
    if s != [] && IsSpace(s[|s| - 1]) then
      var r := TrimEnd(s[..|s| - 1]);
      assert s[|r|..] == s[..|s| - 1][|r|..] + [s[|s| - 1]];
      r
    else s
  }

  /** `String.prototype.trim`. */
  function Trim(s: string): (r: string)
    ensures r != [] ==> !IsSpace(r[0]) && !IsSpace(r[|r| - 1])
    ensures r == [] <==> AllSpace(s)
  {
    var t := TrimStart(s);
    var r := TrimEnd(t);
    assert r == [] ==> AllSpace(s) by {
      if r == [] {
        assert s == s[..|s| - |t|] + t;
        assert t[|r|..] == t;
      }
    }
    r
  }

  /** A string that neither starts nor ends with white space is its own trim. */
  lemma TrimOfTrimmed(s: string)
    requires s != [] ==> !IsSpace(s[0]) && !IsSpace(s[|s| - 1])
    ensures Trim(s) == s
  {
  }

  /** Length of the leading run of non-space characters. */
  function RunLength(s: string): (n: nat)
    ensures n <= |s| && NoSpace(s[..n])
    ensures n < |s| ==> IsSpace(s[n])
    decreases |s|
  {
    if s == [] || IsSpace(s[0]) then 0 else 1 + RunLength(s[1..])
  }

  /**
   * The maximal runs of non-space characters, in order: what
   * `s.trim().split(/\s+/).filter(w => w.length > 0)` yields.
   */
  function Words(s: string): (ws: seq<string>)
    ensures forall i :: 0 <= i < |ws| ==> ws[i] != [] && NoSpace(ws[i])
    decreases |s|
  {
    if s == [] then []
    else if IsSpace(s[0]) then Words(s[1..])
    else
      var n := RunLength(s);
      [s[..n]] + Words(s[n..])
  }

  /** `parts.join(sep)`. */
  function Join(parts: seq<string>, sep: string): (r: string)
    ensures parts == [] ==> r == []
    ensures |parts| == 1 ==> r == parts[0]
  {
    if parts == [] then []
    else if |parts| == 1 then parts[0]
    else parts[0] + sep + Join(parts[1..], sep)
  }

  /** Index of the first `c` in `s`, or `|s|` when there is none. */
  function IndexOf(s: string, c: char): (k: nat)
    ensures k <= |s|
    ensures k < |s| ==> s[k] == c
    ensures forall j :: 0 <= j < k ==> s[j] != c
  {
    if s == [] then 0 else if s[0] == c then 0 else 1 + IndexOf(s[1..], c)
  }

  /**
   * `s.replace(/\([^)]*\)/g, "")`: scanning left to right, a `(` that has a `)`
   * somewhere after it is deleted together with everything up to and including
   * the first such `)`; a `(` with no `)` after it is kept.
   */
  function StripComments(s: string): (r: string)
    ensures |r| <= |s|
    ensures forall c :: c in r ==> c in s
    decreases |s|
  {
    if s == [] then []
    else if s[0] == '(' && IndexOf(s, ')') < |s| then StripComments(s[IndexOf(s, ')') + 1..])
    else [s[0]] + StripComments(s[1..])
  }

  /** After comment stripping, no `(` is followed by a `)`: every comment is gone. */
  lemma {:induction false} StripCommentsRemovesAll(s: string)
    ensures forall i, j :: 0 <= i < j < |StripComments(s)| && StripComments(s)[i] == '(' ==> StripComments(s)[j] != ')'
    decreases |s|
  {
    if s == [] {
    } else if s[0] == '(' && IndexOf(s, ')') < |s| {
      StripCommentsRemovesAll(s[IndexOf(s, ')') + 1..]);
    } else {
      var rest := StripComments(s[1..]);
      StripCommentsRemovesAll(s[1..]);
      assert StripComments(s) == [s[0]] + rest;
      if s[0] == '(' {
        assert ')' !in s[1..];
        assert ')' !in rest;
      }
    }
  }

  /** A string with no `(` has no comments to strip. */
  lemma {:induction false} StripCommentsNoParen(s: string)
    requires '(' !in s
    ensures StripComments(s) == s
    decreases |s|
  {
    if s != [] {
      StripCommentsNoParen(s[1..]);
    }
  }

  /** A string of white space only holds no words. */
  lemma {:induction false} WordsAllSpace(s: string)
    requires AllSpace(s)
    ensures Words(s) == []
    decreases |s|
  {
    if s != [] {
      WordsAllSpace(s[1..]);
    }
  }

  /** A string with a non-space character holds a word. */
  lemma {:induction false} WordsNotAllSpace(s: string)
    requires !AllSpace(s)
    ensures Words(s) != []
    decreases |s|
  {
    if IsSpace(s[0]) {
      assert !AllSpace(s[1..]) by {
        var k :| 0 <= k < |s| && !IsSpace(s[k]);
        assert s[1..][k - 1] == s[k];
      }
      WordsNotAllSpace(s[1..]);
    }
  }

  /** Joining two non-empty lists is joining each and putting the separator between. */
  lemma {:induction false} JoinAppend(xs: seq<string>, ys: seq<string>, sep: string)
    requires xs != [] && ys != []
    ensures Join(xs + ys, sep) == Join(xs, sep) + sep + Join(ys, sep)
  {
    assert (xs + ys)[0] == xs[0];
    if |xs| == 1 {
      assert (xs + ys)[1..] == ys;
    } else {
      assert (xs + ys)[1..] == xs[1..] + ys;
      JoinAppend(xs[1..], ys, sep);
    }
  }

  /** Splitting a single-space join of words gives the words back. */
  lemma {:induction false} WordsOfJoin(ws: seq<string>)
    requires forall i :: 0 <= i < |ws| ==> ws[i] != [] && NoSpace(ws[i])
    ensures Words(Join(ws, " ")) == ws
  {
    if ws == [] {
    } else if |ws| == 1 {
      WordsOfWord(ws[0], []);
      assert ws[0] + [] == ws[0];
    } else {
      WordsOfJoin(ws[1..]);
      assert Join(ws, " ") == ws[0] + (" " + Join(ws[1..], " "));
      WordsOfWord(ws[0], " " + Join(ws[1..], " "));
      var t := " " + Join(ws[1..], " ");
      assert t[1..] == Join(ws[1..], " ");
    }
  }

  /** A word followed by nothing or by white space is split off whole. */
  lemma {:induction false} WordsOfWord(w: string, t: string)
    requires w != [] && NoSpace(w)
    requires t != [] ==> IsSpace(t[0])
    ensures Words(w + t) == [w] + Words(t)
  {
    RunLengthOfWord(w, t);
    var s := w + t;
    assert s[..|w|] == w && s[|w|..] == t;
  }

  lemma {:induction false} RunLengthOfWord(w: string, t: string)
    requires NoSpace(w)
    requires t != [] ==> IsSpace(t[0])
    ensures RunLength(w + t) == |w|
    decreases |w|
  {
    if w != [] {
      assert (w + t)[1..] == w[1..] + t;
      RunLengthOfWord(w[1..], t);
    }
  }

  /** Leading white space does not change the words. */
  lemma {:induction false} WordsSkipSpace(s: string, t: string)
    requires AllSpace(s)
    ensures Words(s + t) == Words(t)
    decreases |s|
  {
    if s != [] {
      assert (s + t)[0] == s[0];
      assert (s + t)[1..] == s[1..] + t;
      WordsSkipSpace(s[1..], t);
    } else {
      assert s + t == t;
    }
  }

  /** Joins of equally many parts, all of one length, are equal only when the parts are. */
  lemma {:induction false} JoinInjective(ps: seq<string>, qs: seq<string>, sep: string, n: nat)
    requires |ps| == |qs|
    requires forall i :: 0 <= i < |ps| ==> |ps[i]| == n && |qs[i]| == n
    requires Join(ps, sep) == Join(qs, sep)
    ensures ps == qs
  {
    if |ps| > 1 {
      var a := Join(ps, sep);
      assert a == ps[0] + sep + Join(ps[1..], sep);
      assert a == qs[0] + sep + Join(qs[1..], sep);
      assert a[..n] == ps[0] && a[..n] == qs[0];
      assert a[n + |sep|..] == Join(ps[1..], sep) && a[n + |sep|..] == Join(qs[1..], sep);
      JoinInjective(ps[1..], qs[1..], sep, n);
      assert ps == [ps[0]] + ps[1..] && qs == [qs[0]] + qs[1..];
    }
  }

  /** `s.split(c)`: the pieces between occurrences of `c`, empty pieces included. */
  function Split(s: string, c: char): (parts: seq<string>)
    ensures |parts| >= 1
    decreases |s|
  {
    var k := IndexOf(s, c);
    if k == |s| then [s] else [s[..k]] + Split(s[k + 1..], c)
  }

  /** Splitting a join on a separator that no part holds gives the parts back. */
  lemma {:induction false} SplitOfJoin(parts: seq<string>, c: char)
    requires |parts| >= 1
    requires forall i :: 0 <= i < |parts| ==> c !in parts[i]
    ensures Split(Join(parts, [c]), c) == parts
  {
    var p := parts[0];
    assert c !in p;
    if |parts| == 1 {
      assert IndexOf(p, c) == |p|;
    } else {
      var tail := parts[1..];
      assert parts == [p] + tail;
      assert forall i :: 0 <= i < |tail| ==> c !in tail[i] by {
        forall i | 0 <= i < |tail| ensures c !in tail[i] {
          assert tail[i] == parts[i + 1];
        }
      }
      var rest := Join(tail, [c]);
      var s := Join(parts, [c]);
      assert s == p + [c] + rest;
      SplitStep(p, rest, c);
      SplitOfJoin(tail, c);
    }
  }

  /** Splitting `p`, a `c`, then `rest`, where `p` holds no `c`, splits off `p`. */
  lemma SplitStep(p: string, rest: string, c: char)
    requires c !in p
    ensures Split(p + [c] + rest, c) == [p] + Split(rest, c)
  {
    var s := p + [c] + rest;
    assert s == p + ([c] + rest);
    IndexOfAfter(p, [c] + rest, c);
    assert s[..|p|] == p;
    assert s[|p| + 1..] == rest;
  }

  /** The first `c` in `p + t`, where `p` holds none and `t` starts with one, is right after `p`. */
  lemma {:induction false} IndexOfAfter(p: string, t: string, c: char)
    requires c !in p && t != [] && t[0] == c
    ensures IndexOf(p + t, c) == |p|
    decreases |p|
  {
    if p == [] {
      assert p + t == t;
    } else {
      assert (p + t)[1..] == p[1..] + t;
      IndexOfAfter(p[1..], t, c);
    }
  }

  /** A join ends with its last part. */
  lemma {:induction false} JoinEndsWithLast(parts: seq<string>, sep: string)
    requires |parts| >= 1
    ensures var j := Join(parts, sep); var last := parts[|parts| - 1];
      |last| <= |j| && j[|j| - |last|..] == last
  {
    if |parts| > 1 {
      JoinEndsWithLast(parts[1..], sep);
      var rest := Join(parts[1..], sep);
      var j := Join(parts, sep);
      assert j == (parts[0] + sep) + rest;
      assert j[|j| - |rest|..] == rest;
    }
  }
}
