/** normalizeQuery: `query.trim().replace(/\s+/g, " ")`. */
module Normalizer {

  import opened Strings

  /**
   * ECMAScript WhiteSpace and LineTerminator code points, the set that both `trim` and `\s`
   * use. No proof below depends on which characters are in it.
   */
  predicate IsSpace(c: char) {
    || c == '\t' || c == '\n' || c == '\U{000B}' || c == '\U{000C}' || c == '\r' || c == ' '
    || c == '\U{00A0}' || c == '\U{1680}' || ('\U{2000}' <= c <= '\U{200A}')
    || c == '\U{2028}' || c == '\U{2029}' || c == '\U{202F}' || c == '\U{205F}'
    || c == '\U{3000}' || c == '\U{FEFF}'
  }

  predicate AllSpaces(s: string) {
    forall i :: 0 <= i < |s| ==> IsSpace(s[i])
  }

  /** Neither the first nor the last character is whitespace. */
  predicate NoEdgeSpace(s: string) {
    s == [] || (!IsSpace(s[0]) && !IsSpace(s[|s| - 1]))
  }

  predicate NoAdjacentSpaces(s: string) {
    forall i :: 0 <= i < |s| - 1 ==> !(IsSpace(s[i]) && IsSpace(s[i + 1]))
  }

  /** Every whitespace character is the plain space U+0020. */
  predicate OnlyPlainSpaces(s: string) {
    forall i :: 0 <= i < |s| && IsSpace(s[i]) ==> s[i] == ' '
  }

  /** The shape of a normalized query. */
  predicate IsNormalized(s: string) {
    NoEdgeSpace(s) && NoAdjacentSpaces(s) && OnlyPlainSpaces(s)
  }

  /** The non-whitespace characters of `s`, in order: the words without their separators. */
  function Visible(s: string): string {
    if s == [] then "" else (if IsSpace(s[0]) then "" else [s[0]]) + Visible(s[1..])
  }

  /** `String.prototype.trimStart`. */
  function TrimStart(s: string): (r: string)
    ensures |r| <= |s| && r == s[|s| - |r|..]
    ensures AllSpaces(s[..|s| - |r|])
    ensures r != [] ==> !IsSpace(r[0])
  {
    if s != [] && IsSpace(s[0]) then TrimStart(s[1..]) else s
  }

  /** The number of whitespace characters `s` starts with. */
  function LeadingSpaces(s: string): (n: nat)
    ensures n <= |s|
    ensures forall k :: 0 <= k < n ==> IsSpace(s[k])
    ensures n < |s| ==> !IsSpace(s[n])
  {
    if s == [] || !IsSpace(s[0]) then 0 else 1 + LeadingSpaces(s[1..])
  }

  /** The number of whitespace characters `s` ends with. */
  function TrailingSpaces(s: string): (n: nat)
    ensures n <= |s|
    ensures forall k :: |s| - n <= k < |s| ==> IsSpace(s[k])
    ensures n < |s| ==> !IsSpace(s[|s| - n - 1])
  {
    if s == [] || !IsSpace(s[|s| - 1]) then 0 else 1 + TrailingSpaces(s[..|s| - 1])
  }

  /** `String.prototype.trim`: the input with its leading and trailing whitespace removed. */
  function Trim(s: string): (r: string)
    ensures |r| <= |s| && NoEdgeSpace(r)
    ensures exists i, j :: 0 <= i <= j <= |s| && r == s[i..j] && AllSpaces(s[..i]) && AllSpaces(s[j..])
    ensures NoEdgeSpace(s) ==> r == s
  {
    var i := LeadingSpaces(s);
    if i == |s| then
      assert AllSpaces(s[..i]) && s[i..i] == "";
      ""
    else
      var j := |s| - TrailingSpaces(s);
      assert !IsSpace(s[i]);
      assert i < j;
      assert AllSpaces(s[..i]) && AllSpaces(s[j..]);
      assert NoEdgeSpace(s) ==> i == 0 && j == |s| && s[i..j] == s;
      s[i..j]
  }

  /** `s.replace(/\s+/g, " ")`: every maximal run of whitespace becomes one plain space. */
  function CollapseRuns(s: string): (r: string)
    ensures |r| <= |s|
    decreases |s|
  {
    if s == [] then ""
    else if IsSpace(s[0]) then " " + CollapseRuns(TrimStart(s[1..]))
    else [s[0]] + CollapseRuns(s[1..])
  }

  /** A collapsed string starts with the input's first character when that is not whitespace. */
  lemma CollapseRunsFirst(s: string)
    requires s != [] && !IsSpace(s[0])
    ensures CollapseRuns(s) != [] && CollapseRuns(s)[0] == s[0]
  {
  }

  /** A collapsed string ends with the input's last character when that is not whitespace. */
  lemma {:induction false} CollapseRunsLast(s: string)
    requires s != [] && !IsSpace(s[|s| - 1])
    ensures CollapseRuns(s) != [] && CollapseRuns(s)[|CollapseRuns(s)| - 1] == s[|s| - 1]
    decreases |s|
  {
    if IsSpace(s[0]) {
      var t := TrimStart(s[1..]);
      assert s[1..] != [] && s[1..][|s| - 2] == s[|s| - 1];
      assert t != [] && t[|t| - 1] == s[|s| - 1];
      CollapseRunsLast(t);
    } else if |s| > 1 {
      assert s[1..][|s| - 2] == s[|s| - 1];
      CollapseRunsLast(s[1..]);
    }
  }

  /** The only whitespace a collapsed string holds is the plain space. */
  lemma {:induction false} CollapseRunsPlain(s: string)
    ensures OnlyPlainSpaces(CollapseRuns(s))
    decreases |s|
  {
    if s == [] {
    } else if IsSpace(s[0]) {
      var c := CollapseRuns(TrimStart(s[1..]));
      CollapseRunsPlain(TrimStart(s[1..]));
      assert forall i :: 0 < i < |" " + c| ==> (" " + c)[i] == c[i - 1];
    } else {
      var c := CollapseRuns(s[1..]);
      CollapseRunsPlain(s[1..]);
      assert forall i :: 0 < i < |[s[0]] + c| ==> ([s[0]] + c)[i] == c[i - 1];
    }
  }

  /** A whitespace character prepended to a string that does not start with whitespace makes no pair. */
  lemma ConsNoAdjacent(x: char, c: string)
    requires NoAdjacentSpaces(c)
    requires IsSpace(x) ==> c == [] || !IsSpace(c[0])
    ensures NoAdjacentSpaces([x] + c)
  {
    var r := [x] + c;
    forall i | 0 <= i < |r| - 1
      ensures !(IsSpace(r[i]) && IsSpace(r[i + 1]))
    {
      if i > 0 {
        assert r[i] == c[i - 1] && r[i + 1] == c[i];
      }
    }
  }

  /** A collapsed string has no two whitespace characters side by side. */
  lemma {:induction false} CollapseRunsNoAdjacent(s: string)
    ensures NoAdjacentSpaces(CollapseRuns(s))
    decreases |s|
  {
    if s == [] {
    } else if IsSpace(s[0]) {
      var t := TrimStart(s[1..]);
      CollapseRunsNoAdjacent(t);
      if t != [] {
        CollapseRunsFirst(t);
      }
      ConsNoAdjacent(' ', CollapseRuns(t));
      assert " " + CollapseRuns(t) == [' '] + CollapseRuns(t);
    } else {
      CollapseRunsNoAdjacent(s[1..]);
      ConsNoAdjacent(s[0], CollapseRuns(s[1..]));
    }
  }

  /** The longest prefix of `s` that holds no whitespace. */
  function WordPrefix(s: string): (w: string)
    ensures |w| <= |s| && w == s[..|w|]
    ensures forall i :: 0 <= i < |w| ==> !IsSpace(w[i])
    ensures |w| < |s| ==> IsSpace(s[|w|])
  {
    if s == [] || IsSpace(s[0]) then "" else [s[0]] + WordPrefix(s[1..])
  }

  /** The words of `s`: its maximal runs of non-whitespace characters, in order. */
  function Words(s: string): (ws: seq<string>)
    decreases |s|
  {
    if s == [] then []
    else if IsSpace(s[0]) then Words(s[1..])
    else
      var w := WordPrefix(s);
      [w] + Words(s[|w|..])
  }

  /** The normalized query. */
  function NormalizeQuery(query: string): (r: string)
    ensures IsNormalized(r)
    ensures |r| <= |query|
  {
    var t := Trim(query);
    CollapseRunsPlain(t);
    CollapseRunsNoAdjacent(t);
    assert NoEdgeSpace(CollapseRuns(t)) by {
      if t != [] {
        CollapseRunsFirst(t);
        CollapseRunsLast(t);
      }
    }
    CollapseRuns(t)
  }

  lemma {:induction false} CollapseRunsFixedPoint(s: string)
    requires NoAdjacentSpaces(s) && OnlyPlainSpaces(s)
    ensures CollapseRuns(s) == s
    decreases |s|
  {
    if s != [] {
      var u := s[1..];
      assert NoAdjacentSpaces(u) by {
        forall i | 0 <= i < |u| - 1 ensures !(IsSpace(u[i]) && IsSpace(u[i + 1])) {
          assert u[i] == s[i + 1] && u[i + 1] == s[i + 2];
        }
      }
      assert OnlyPlainSpaces(u) by {
        forall i | 0 <= i < |u| && IsSpace(u[i]) ensures u[i] == ' ' {
          assert u[i] == s[i + 1];
        }
      }
      CollapseRunsFixedPoint(u);
      if IsSpace(s[0]) {
        assert u != [] ==> !IsSpace(u[0]) by {
          if u != [] {
            assert u[0] == s[1];
          }
        }
        assert TrimStart(u) == u;
        assert s == " " + u;
      } else {
        assert s == [s[0]] + u;
      }
    }
  }

  /** A query already in normalized shape is left as it is. */
  lemma NormalizeFixedPoint(s: string)
    requires IsNormalized(s)
    ensures NormalizeQuery(s) == s
  {
    CollapseRunsFixedPoint(s);
  }

  /** The normalized queries are exactly the fixed points of normalization. */
  lemma NormalizeFixedPointIff(s: string)
    ensures NormalizeQuery(s) == s <==> IsNormalized(s)
  {
    if IsNormalized(s) {
      NormalizeFixedPoint(s);
    }
  }

  /** Normalizing twice is normalizing once. */
  lemma NormalizeIdempotent(s: string)
    ensures NormalizeQuery(NormalizeQuery(s)) == NormalizeQuery(s)
  {
    NormalizeFixedPoint(NormalizeQuery(s));
  }

  lemma {:induction false} VisibleAppend(a: string, b: string)
    ensures Visible(a + b) == Visible(a) + Visible(b)
    decreases |a|
  {
    if a == [] {
      assert a + b == b;
    } else {
      assert (a + b)[1..] == a[1..] + b;
      VisibleAppend(a[1..], b);
    }
  }

  lemma {:induction false} VisibleOfSpaces(s: string)
    requires AllSpaces(s)
    ensures Visible(s) == ""
    decreases |s|
  {
    if s != [] {
      VisibleOfSpaces(s[1..]);
    }
  }

  /** Dropping leading whitespace keeps every visible character. */
  lemma VisibleTrimStart(s: string)
    ensures Visible(TrimStart(s)) == Visible(s)
  {
    var k := |s| - |TrimStart(s)|;
    SplitAt(s, k);
    VisibleAfterSpaces(s[..k], s[k..]);
  }

  lemma VisibleAfterSpaces(a: string, m: string)
    requires AllSpaces(a)
    ensures Visible(a + m) == Visible(m)
  {
    VisibleAppend(a, m);
    VisibleOfSpaces(a);
  }

  /** Trimming keeps every visible character. */
  lemma VisibleTrim(s: string)
    ensures Visible(Trim(s)) == Visible(s)
  {
    var r := Trim(s);
    var i, j :| 0 <= i <= j <= |s| && r == s[i..j] && AllSpaces(s[..i]) && AllSpaces(s[j..]);
    SliceAround(s, i, j);
    VisibleBetweenSpaces(s[..i], r, s[j..]);
  }

  lemma VisibleBetweenSpaces(a: string, m: string, b: string)
    requires AllSpaces(a) && AllSpaces(b)
    ensures Visible(a + (m + b)) == Visible(m)
  {
    VisibleAppend(a, m + b);
    VisibleAppend(m, b);
    VisibleOfSpaces(a);
    VisibleOfSpaces(b);
  }

  lemma {:induction false} VisibleCollapseRuns(s: string)
    ensures Visible(CollapseRuns(s)) == Visible(s)
    decreases |s|
  {
    if s != [] {
      if IsSpace(s[0]) {
        var t := TrimStart(s[1..]);
        VisibleCollapseRuns(t);
        VisibleTrimStart(s[1..]);
        assert Visible(" ") == "";
        VisibleAppend(" ", CollapseRuns(t));
      } else {
        VisibleCollapseRuns(s[1..]);
        assert Visible([s[0]]) == [s[0]];
        VisibleAppend([s[0]], CollapseRuns(s[1..]));
      }
    }
  }

  /** Normalization changes only whitespace: the visible characters survive, in order. */
  lemma NormalizeKeepsVisible(s: string)
    ensures Visible(NormalizeQuery(s)) == Visible(s)
  {
    VisibleTrim(s);
    VisibleCollapseRuns(Trim(s));
  }

  lemma {:induction false} WordsTrimStart(s: string)
    ensures Words(TrimStart(s)) == Words(s)
    decreases |s|
  {
    if s != [] && IsSpace(s[0]) {
      WordsTrimStart(s[1..]);
    }
  }

  lemma {:induction false} WordPrefixBeforeSpaces(a: string, b: string)
    requires AllSpaces(b)
    ensures WordPrefix(a + b) == WordPrefix(a)
    decreases |a|
  {
    if a == [] {
      assert a + b == b;
    } else {
      assert (a + b)[0] == a[0];
      assert (a + b)[1..] == a[1..] + b;
      WordPrefixBeforeSpaces(a[1..], b);
    }
  }

  lemma {:induction false} WordsOfSpaces(s: string)
    requires AllSpaces(s)
    ensures Words(s) == []
    decreases |s|
  {
    if s != [] {
      WordsOfSpaces(s[1..]);
    }
  }

  /** Trailing whitespace adds no word. */
  lemma {:induction false} WordsBeforeSpaces(a: string, b: string)
    requires AllSpaces(b)
    ensures Words(a + b) == Words(a)
    decreases |a|
  {
    if a == [] {
      assert a + b == b;
      WordsOfSpaces(b);
    } else if IsSpace(a[0]) {
      assert (a + b)[0] == a[0];
      assert (a + b)[1..] == a[1..] + b;
      WordsBeforeSpaces(a[1..], b);
    } else {
      assert (a + b)[0] == a[0];
      var w := WordPrefix(a);
      WordPrefixBeforeSpaces(a, b);
      assert (a + b)[|w|..] == a[|w|..] + b;
      WordsBeforeSpaces(a[|w|..], b);
    }
  }

  /** Leading whitespace adds no word. */
  lemma {:induction false} WordsAfterSpaces(a: string, b: string)
    requires AllSpaces(a)
    ensures Words(a + b) == Words(b)
    decreases |a|
  {
    if a == [] {
      assert a + b == b;
    } else {
      assert (a + b)[0] == a[0];
      assert (a + b)[1..] == a[1..] + b;
      WordsAfterSpaces(a[1..], b);
    }
  }

  /** Trimming removes no word. */
  lemma WordsTrim(s: string)
    ensures Words(Trim(s)) == Words(s)
  {
    var r := Trim(s);
    var i, j :| 0 <= i <= j <= |s| && r == s[i..j] && AllSpaces(s[..i]) && AllSpaces(s[j..]);
    SliceAround(s, i, j);
    WordsBetweenSpaces(s[..i], r, s[j..]);
  }

  lemma WordsBetweenSpaces(a: string, m: string, b: string)
    requires AllSpaces(a) && AllSpaces(b)
    ensures Words(a + (m + b)) == Words(m)
  {
    WordsAfterSpaces(a, m + b);
    WordsBeforeSpaces(m, b);
  }

  /** A word at the front passes through run collapsing unchanged. */
  lemma {:induction false} CollapseRunsAfterWord(w: string, rest: string)
    requires forall i :: 0 <= i < |w| ==> !IsSpace(w[i])
    ensures CollapseRuns(w + rest) == w + CollapseRuns(rest)
    decreases |w|
  {
    if w != [] {
      var s := w + rest;
      assert s[0] == w[0] && !IsSpace(s[0]);
      assert s[1..] == w[1..] + rest;
      assert CollapseRuns(s) == [w[0]] + CollapseRuns(w[1..] + rest);
      assert forall i :: 0 <= i < |w[1..]| ==> w[1..][i] == w[i + 1];
      CollapseRunsAfterWord(w[1..], rest);
      assert [w[0]] + (w[1..] + CollapseRuns(rest)) == w + CollapseRuns(rest);
    } else {
      assert w + rest == rest;
    }
  }

  /** A non-empty string that does not end in whitespace keeps a non-empty rest after leading whitespace. */
  lemma {:induction false} TrimStartKeepsLast(s: string)
    requires s != [] && !IsSpace(s[|s| - 1])
    ensures TrimStart(s) != [] && TrimStart(s)[|TrimStart(s)| - 1] == s[|s| - 1]
    decreases |s|
  {
    if IsSpace(s[0]) {
      assert |s| > 1;
      assert s[1..][|s| - 2] == s[|s| - 1];
      TrimStartKeepsLast(s[1..]);
    }
  }

  /**
   * A whitespace run inside a string that ends in a non-whitespace character collapses to one
   * space before the rest, which keeps the words and has no whitespace at its ends.
   */
  lemma CollapseRunsAtSpace(rest: string)
    requires |rest| > 1 && IsSpace(rest[0]) && !IsSpace(rest[|rest| - 1])
    ensures var u := TrimStart(rest[1..]);
            && NoEdgeSpace(u) && u != [] && |u| < |rest|
            && CollapseRuns(rest) == " " + CollapseRuns(u)
            && Words(rest) == Words(u)
  {
    var tail := rest[1..];
    assert tail[|tail| - 1] == rest[|rest| - 1];
    TrimStartKeepsLast(tail);
    WordsTrimStart(tail);
  }

  /**
   * `replace(/\s+/g, " ")` on a string without whitespace at its ends: the words joined by
   * single plain spaces.
   */
  lemma {:induction false} CollapseRunsJoinsWords(t: string)
    requires NoEdgeSpace(t)
    ensures CollapseRuns(t) == Join(Words(t), " ")
    decreases |t|
  {
    if t != [] {
      var w, u, more := SplitFirstWord(t);
      if more {
        CollapseRunsJoinsWords(u);
        JoinCons(w, Words(u), " ");
      }
    }
  }

  /** One step of the collapse: the first word, then either nothing or one space and a shorter remainder. */
  lemma SplitFirstWord(t: string) returns (w: string, u: string, more: bool)
    requires NoEdgeSpace(t) && t != []
    ensures !more ==> CollapseRuns(t) == w && Words(t) == [w]
    ensures more ==> && NoEdgeSpace(u) && u != [] && |u| < |t|
                     && CollapseRuns(t) == w + " " + CollapseRuns(u)
                     && Words(t) == [w] + Words(u)
  {
    FirstWord(t);
    w := WordPrefix(t);
    var rest := t[|w|..];
    if rest == [] {
      more, u := false, [];
      assert w + "" == w;
      assert [w] + [] == [w];
    } else {
      more := true;
      CollapseRunsAtSpace(rest);
      u := TrimStart(rest[1..]);
      ConcatAssoc(w, " ", CollapseRuns(u));
    }
  }

  /** A string without edge whitespace is its first word followed by the rest, which is empty or starts a whitespace run. */
  lemma FirstWord(t: string)
    requires NoEdgeSpace(t) && t != []
    ensures var w := WordPrefix(t);
            var rest := t[|w|..];
            && Words(t) == [w] + Words(rest)
            && CollapseRuns(t) == w + CollapseRuns(rest)
            && (rest == [] ==> Words(rest) == [] && CollapseRuns(rest) == "")
            && (rest != [] ==> |rest| > 1 && IsSpace(rest[0]) && !IsSpace(rest[|rest| - 1]))
  {
    var w := WordPrefix(t);
    var rest := t[|w|..];
    assert t == w + rest;
    CollapseRunsAfterWord(w, rest);
    if rest != [] {
      assert rest[|rest| - 1] == t[|t| - 1];
    }
  }

  /** The normalized query is the query's words joined by single plain spaces. */
  lemma NormalizeJoinsWords(s: string)
    ensures NormalizeQuery(s) == Join(Words(s), " ")
  {
    CollapseRunsJoinsWords(Trim(s));
    WordsTrim(s);
  }
}
