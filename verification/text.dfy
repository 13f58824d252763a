/**
 * Text helpers shared by every stage of the indentation logic: the whitespace
 * class, the leading whitespace run of a line, trimming, splitting a text on
 * line feeds and joining lines back, and the list of non-blank lines.
 */
module Text {

  /** The whitespace class of the `\s` regular-expression escape, which is also
      the set of characters `trim` and `trimLeft` remove. */
  predicate IsWs(c: char)
  {
    || c == ' ' || c == '\t' || c == '\n' || c == '\r'
    || c == '\U{000B}' || c == '\U{000C}' || c == '\U{00A0}' || c == '\U{1680}'
    || ('\U{2000}' <= c <= '\U{200A}')
    || c == '\U{2028}' || c == '\U{2029}' || c == '\U{202F}' || c == '\U{205F}'
    || c == '\U{3000}' || c == '\U{FEFF}'
  }

  /** Length of the leading whitespace run, the group matched by `/^(\s*)/`:
      the longest prefix made of whitespace only. */
  function WsLen(s: string): (n: nat)
    ensures n <= |s|
    ensures forall i :: 0 <= i < n ==> IsWs(s[i])
    ensures n < |s| ==> !IsWs(s[n])
  {
    if |s| > 0 && IsWs(s[0]) then 1 + WsLen(s[1..]) else 0
  }

  /** The leading whitespace run itself. */
  function LeadingWs(s: string): string
  {
    s[..WsLen(s)]
  }

  /** `trimLeft`: the line without its leading whitespace. */
  function TrimLeft(s: string): string
  {
    s[WsLen(s)..]
  }

  /** The line without its trailing whitespace. */
  function TrimRight(s: string): (r: string)
    ensures r <= s
    ensures |r| > 0 ==> !IsWs(r[|r| - 1])
    ensures forall i :: |r| <= i < |s| ==> IsWs(s[i])
    decreases |s|
  {
    if |s| > 0 && IsWs(s[|s| - 1]) then TrimRight(s[..|s| - 1]) else s
  }

  /** `trim`: both ends stripped of whitespace. */
  function Trim(s: string): string
  {
    TrimRight(TrimLeft(s))
  }

  /** `line.trim() === ''`: the line holds whitespace only. */
  function IsBlank(s: string): (b: bool)
    ensures b <==> WsLen(s) == |s|
    ensures b <==> forall i :: 0 <= i < |s| ==> IsWs(s[i])
  {
    var t := TrimLeft(s);
    assert |t| > 0 ==> t[0] == s[WsLen(s)];
    |Trim(s)| == 0
  }

  /** `line.trim().endsWith(':')`: the last non-whitespace character of the
      line is a colon. */
  function EndsWithColon(s: string): (b: bool)
    ensures b <==> exists i :: 0 <= i < |s| && s[i] == ':' && IsWsAfter(s, i)
  {
    TrimmedLast(s);
    var t := Trim(s);
    |t| > 0 && t[|t| - 1] == ':'
  }

  /** The last character of the trimmed line is the last non-whitespace
      character of the line. */
  lemma TrimmedLast(s: string)
    ensures var t := Trim(s);
      |t| > 0 ==> t[|t| - 1] == s[WsLen(s) + |t| - 1] && IsWsAfter(s, WsLen(s) + |t| - 1)
    ensures var t := Trim(s);
      forall i :: 0 <= i < |s| && !IsWs(s[i]) && IsWsAfter(s, i) ==> |t| > 0 && i == WsLen(s) + |t| - 1
  {
    var w := WsLen(s);
    var t := Trim(s);
    assert forall k :: 0 <= k < |t| ==> t[k] == s[w + k];
    forall i | 0 <= i < |s| && !IsWs(s[i]) && IsWsAfter(s, i)
      ensures |t| > 0 && i == w + |t| - 1
    {
      assert w <= i;
      assert TrimLeft(s)[i - w] == s[i];
    }
  }

  /** Every character of `s` after position `i` is whitespace. */
  predicate IsWsAfter(s: string, i: nat)
  {
    forall j :: i < j < |s| ==> IsWs(s[j])
  }

  /** What `trimLeft` removes is whitespace, and what it keeps is a suffix of
      the line that is empty or starts with non-whitespace. */
  lemma TrimLeftShape(s: string)
    ensures var r := TrimLeft(s);
      && |r| <= |s| && r == s[|s| - |r|..]
      && (forall i :: 0 <= i < |s| - |r| ==> IsWs(s[i]))
      && (|r| > 0 ==> !IsWs(r[0]))
  {
  }

  /** `trim` keeps the slice of the line that starts after the leading run and
      ends at the last non-whitespace character; everything around it is
      whitespace. */
  lemma TrimShape(s: string)
    ensures var r := Trim(s);
      && WsLen(s) + |r| <= |s| && r == s[WsLen(s)..WsLen(s) + |r|]
      && (forall i :: 0 <= i < WsLen(s) ==> IsWs(s[i]))
      && (forall i :: WsLen(s) + |r| <= i < |s| ==> IsWs(s[i]))
      && (|r| > 0 ==> !IsWs(r[0]) && !IsWs(r[|r| - 1]))
  {
    var t := TrimLeft(s);
    var r := Trim(s);
    assert r == t[..|r|];
    assert |r| > 0 ==> r[0] == s[WsLen(s)];
  }

  /** `' '.repeat(n)`. */
  function Spaces(n: nat): (r: string)
    ensures |r| == n
    ensures forall i :: 0 <= i < n ==> r[i] == ' '
  {
    seq(n, _ => ' ')
  }

  /** A whitespace prefix followed by text that starts with non-whitespace has
      exactly that prefix as its leading run. */
  lemma WsLenOfIndented(w: string, t: string)
    requires forall i :: 0 <= i < |w| ==> IsWs(w[i])
    requires |t| > 0 && !IsWs(t[0])
    ensures WsLen(w + t) == |w|
    ensures LeadingWs(w + t) == w
    ensures TrimLeft(w + t) == t
  {
    WsLenUnique(w + t, |w|);
  }

  /** The leading run is the only prefix that is all whitespace and is followed
      by non-whitespace or the end of the line. */
  lemma WsLenUnique(s: string, n: nat)
    requires n <= |s|
    requires forall i :: 0 <= i < n ==> IsWs(s[i])
    requires n < |s| ==> !IsWs(s[n])
    ensures WsLen(s) == n
  {
  }

  /** Removing `n` characters of the leading run shortens the run by `n`. */
  lemma WsLenAfterDrop(s: string, n: nat)
    requires n <= WsLen(s)
    ensures WsLen(s[n..]) == WsLen(s) - n
    ensures TrimLeft(s[n..]) == TrimLeft(s)
  {
    WsLenUnique(s[n..], WsLen(s) - n);
  }

  // ---------------------------------------------------------------------
  // Splitting on line feeds and joining back
  // ---------------------------------------------------------------------

  /** `text.split('\n')`: one entry per line-feed-separated piece, so the
      empty text gives one empty line. */
  function Split(s: string): (r: seq<string>)
    ensures |r| >= 1
    ensures forall k :: 0 <= k < |r| ==> '\n' !in r[k]
    decreases |s|
  {
    if |s| == 0 then [""]
    else
      var rest := Split(s[1..]);
      assert s == [s[0]] + s[1..];
      if s[0] == '\n' then [""] + rest
      else [[s[0]] + rest[0]] + rest[1..]
  }

  /** One more line than there are line feeds. */
  lemma {:induction false} SplitCount(s: string)
    ensures |Split(s)| == multiset(s)['\n'] + 1
    decreases |s|
  {
    if |s| > 0 {
      SplitCount(s[1..]);
      assert s == [s[0]] + s[1..];
    }
  }

  /** `lines.join('\n')`. */
  function Join(lines: seq<string>): string
    decreases |lines|
  {
    if |lines| == 0 then ""
    else if |lines| == 1 then lines[0]
    else lines[0] + "\n" + Join(lines[1..])
  }

  /** The join starts with the first line and ends with the last. */
  lemma {:induction false} JoinEnds(lines: seq<string>)
    requires |lines| > 0
    ensures lines[0] <= Join(lines)
    ensures var last := lines[|lines| - 1]; var r := Join(lines);
      |last| <= |r| && r[|r| - |last|..] == last
    decreases |lines|
  {
    if |lines| > 1 {
      var rest := lines[1..];
      JoinEnds(rest);
      var j := Join(rest);
      var r := Join(lines);
      assert r == lines[0] + "\n" + j;
      assert rest[|rest| - 1] == lines[|lines| - 1];
      assert r[|r| - |j|..] == j;
    }
  }

  /** Lines free of line feeds are joined by exactly one line feed each. */
  lemma {:induction false} JoinSeparators(lines: seq<string>)
    requires |lines| > 0
    requires forall k :: 0 <= k < |lines| ==> '\n' !in lines[k]
    ensures multiset(Join(lines))['\n'] == |lines| - 1
    decreases |lines|
  {
    if |lines| > 1 {
      var rest := lines[1..];
      assert forall k :: 0 <= k < |rest| ==> rest[k] == lines[k + 1];
      JoinSeparators(rest);
      var j := Join(rest);
      assert Join(lines) == lines[0] + "\n" + j;
      assert multiset(lines[0])['\n'] == 0;
      assert multiset(Join(lines)) == multiset(lines[0]) + multiset("\n") + multiset(j);
    } else {
      assert multiset(lines[0])['\n'] == 0;
    }
  }

  /** Joining the pieces of a split gives the text back. */
  lemma {:induction false} JoinSplit(s: string)
    ensures Join(Split(s)) == s
    decreases |s|
  {
    if |s| > 0 {
      var rest := Split(s[1..]);
      JoinSplit(s[1..]);
      if s[0] == '\n' {
        assert Split(s) == [""] + rest;
        assert ([""] + rest)[1..] == rest;
        assert s == "\n" + s[1..];
      } else {
        assert Split(s) == [[s[0]] + rest[0]] + rest[1..];
        JoinPrepend(s[0], rest);
        assert s == [s[0]] + s[1..];
      }
    }
  }

  /** Prepending a character to the first line prepends it to the join. */
  lemma JoinPrepend(c: char, parts: seq<string>)
    requires |parts| >= 1
    ensures Join([[c] + parts[0]] + parts[1..]) == [c] + Join(parts)
  {
    if |parts| > 1 {
      JoinPrependMany([c] + parts[0], c, parts[0], parts[1..]);
      assert [parts[0]] + parts[1..] == parts;
    } else {
      assert [[c] + parts[0]] + parts[1..] == [[c] + parts[0]];
    }
  }

  lemma JoinPrependMany(first: string, c: char, p0: string, rest: seq<string>)
    requires first == [c] + p0
    requires |rest| >= 1
    ensures Join([first] + rest) == [c] + Join([p0] + rest)
  {
    assert ([first] + rest)[1..] == rest;
    assert ([p0] + rest)[1..] == rest;
    ConcatAssoc([c], p0, "\n");
    ConcatAssoc([c], p0 + "\n", Join(rest));
  }

  /** Concatenation is associative. */
  lemma ConcatAssoc(a: string, b: string, c: string)
    ensures (a + b) + c == a + (b + c)
  {
    assert forall i :: 0 <= i < |a + b + c| ==> ((a + b) + c)[i] == (a + (b + c))[i];
  }

  /** A line without a line feed splits into itself. */
  lemma {:induction false} SplitSingle(a: string)
    requires '\n' !in a
    ensures Split(a) == [a]
    decreases |a|
  {
    if |a| > 0 {
      assert a == [a[0]] + a[1..];
      SplitSingle(a[1..]);
    }
  }

  /** Splitting `a + "\n" + b` when `a` has no line feed. */
  lemma {:induction false} SplitCons(a: string, b: string)
    requires '\n' !in a
    ensures Split(a + "\n" + b) == [a] + Split(b)
    decreases |a|
  {
    var s := a + "\n" + b;
    if |a| == 0 {
      assert s[0] == '\n' && s[1..] == b;
    } else {
      assert a == [a[0]] + a[1..];
      assert s[0] == a[0] && s[1..] == a[1..] + "\n" + b;
      SplitCons(a[1..], b);
    }
  }

  /** Three pieces free of line feeds, joined by line feeds, split back. */
  lemma SplitThree(a: string, b: string, c: string)
    requires '\n' !in a && '\n' !in b && '\n' !in c
    ensures Split(a + "\n" + (b + "\n" + c)) == [a, b, c]
  {
    SplitSingle(c);
    SplitCons(b, c);
    SplitCons(a, b + "\n" + c);
  }

  /** Splitting the join of lines that hold no line feed gives the lines back. */
  lemma {:induction false} SplitJoin(lines: seq<string>)
    requires |lines| >= 1
    requires forall k :: 0 <= k < |lines| ==> '\n' !in lines[k]
    ensures Split(Join(lines)) == lines
    decreases |lines|
  {
    if |lines| == 1 {
      SplitSingle(lines[0]);
    } else {
      SplitCons(lines[0], Join(lines[1..]));
      SplitJoin(lines[1..]);
      assert lines == [lines[0]] + lines[1..];
    }
  }

  // ---------------------------------------------------------------------
  // Non-blank lines
  // ---------------------------------------------------------------------

  /** `lines.filter(line => line.trim().length > 0)`. */
  function NonBlankLines(lines: seq<string>): (r: seq<string>)
    ensures |r| <= |lines|
    ensures forall x :: x in r <==> x in lines && !IsBlank(x)
    decreases |lines|
  {
    if |lines| == 0 then []
    else
      var init := lines[..|lines| - 1];
      var last := lines[|lines| - 1];
      assert lines == init + [last];
      NonBlankLines(init) + (if IsBlank(last) then [] else [last])
  }

  /** Every kept line is a non-blank line of the block. */
  lemma KeptIsLine(lines: seq<string>, k: nat)
    requires k < |NonBlankLines(lines)|
    ensures exists i :: 0 <= i < |lines| && lines[i] == NonBlankLines(lines)[k] && !IsBlank(lines[i])
  {
    var kept := NonBlankLines(lines);
    assert kept[k] in kept;
  }

  /** A block of blank lines has no non-blank line. */
  lemma {:induction false} NonBlankNone(lines: seq<string>)
    requires forall i :: 0 <= i < |lines| ==> IsBlank(lines[i])
    ensures NonBlankLines(lines) == []
    decreases |lines|
  {
    if |lines| > 0 {
      NonBlankNone(lines[..|lines| - 1]);
    }
  }

  /** A block without a blank line loses no line to the filter. */
  lemma {:induction false} NonBlankAll(lines: seq<string>)
    requires forall i :: 0 <= i < |lines| ==> !IsBlank(lines[i])
    ensures NonBlankLines(lines) == lines
    decreases |lines|
  {
    if |lines| > 0 {
      var init := lines[..|lines| - 1];
      var last := lines[|lines| - 1];
      forall i | 0 <= i < |init|
        ensures !IsBlank(init[i])
      {
        assert init[i] == lines[i];
      }
      NonBlankAll(init);
      assert !IsBlank(last);
      LastSplit(lines);
    }
  }

  /** Spaces followed by text that starts with non-whitespace and holds no
      line feed: a non-blank line whose leading run is exactly the spaces. */
  lemma IndentedLine(n: nat, t: string)
    requires |t| > 0 && !IsWs(t[0]) && '\n' !in t
    ensures WsLen(Spaces(n) + t) == n && !IsBlank(Spaces(n) + t)
    ensures TrimLeft(Spaces(n) + t) == t && LeadingWs(Spaces(n) + t) == Spaces(n)
    ensures '\t' !in LeadingWs(Spaces(n) + t) && '\n' !in Spaces(n) + t
  {
    WsLenOfIndented(Spaces(n), t);
  }

  /** Two sequences of the same length with the same entries are equal. */
  lemma SameEntries<T>(r: seq<T>, s: seq<T>)
    requires |r| == |s|
    requires forall i :: 0 <= i < |r| ==> r[i] == s[i]
    ensures r == s
  {
  }

  /** A non-empty sequence is its prefix followed by its last element. */
  lemma LastSplit<T>(s: seq<T>)
    requires |s| > 0
    ensures s[..|s| - 1] + [s[|s| - 1]] == s
  {
  }

  /** Position of line `i` among the non-blank lines: how many non-blank
      lines come before it. */
  function Rank(lines: seq<string>, i: nat): nat
    requires i <= |lines|
  {
    |NonBlankLines(lines[..i])|
  }

  /** A line no blank line precedes has its own index as rank. */
  lemma RankNoBlankBefore(lines: seq<string>, i: nat)
    requires i <= |lines|
    requires forall k :: 0 <= k < i ==> !IsBlank(lines[k])
    ensures Rank(lines, i) == i
  {
    forall k | 0 <= k < i
      ensures !IsBlank(lines[..i][k])
    {
      assert lines[..i][k] == lines[k];
    }
    NonBlankAll(lines[..i]);
  }

  /** The non-blank lines of a prefix are a prefix of the non-blank lines. */
  lemma {:induction false} NonBlankPrefix(lines: seq<string>, n: nat)
    requires n <= |lines|
    ensures NonBlankLines(lines[..n]) <= NonBlankLines(lines)
    decreases |lines|
  {
    if n < |lines| {
      var init := lines[..|lines| - 1];
      assert lines[..n] == init[..n];
      NonBlankPrefix(init, n);
    } else {
      assert lines[..n] == lines;
    }
  }

  /** A non-blank line sits in the filtered list at its rank, so the filtered
      list keeps the non-blank lines in their original order. */
  lemma RankIndexes(lines: seq<string>, i: nat)
    requires i < |lines| && !IsBlank(lines[i])
    ensures Rank(lines, i) < |NonBlankLines(lines)|
    ensures NonBlankLines(lines)[Rank(lines, i)] == lines[i]
  {
    var upto := lines[..i + 1];
    assert upto[..i] == lines[..i];
    assert NonBlankLines(upto) == NonBlankLines(lines[..i]) + [lines[i]];
    NonBlankPrefix(lines, i + 1);
  }

  /** Line `i` is non-blank and is entry `k` of the filtered list. */
  predicate KeptAt(lines: seq<string>, i: nat, k: nat)
  {
    && i < |lines| && !IsBlank(lines[i]) && Rank(lines, i) == k
    && k < |NonBlankLines(lines)| && NonBlankLines(lines)[k] == lines[i]
  }

  /** Every entry of the filtered list is the non-blank line of that rank, so
      the list holds nothing but the non-blank lines, each at its own rank. */
  lemma {:induction false} KeptAtRank(lines: seq<string>, k: nat)
    requires k < |NonBlankLines(lines)|
    ensures exists i: nat :: KeptAt(lines, i, k)
    decreases |lines|
  {
    var n := |lines| - 1;
    if k < |NonBlankLines(lines[..n])| {
      KeptAtRank(lines[..n], k);
      var i: nat :| KeptAt(lines[..n], i, k);
      KeptInInit(lines, i, k);
    } else {
      KeptLast(lines, k);
    }
  }

  /** An entry of the filtered prefix keeps its line and rank in the block. */
  lemma KeptInInit(lines: seq<string>, i: nat, k: nat)
    requires |lines| > 0 && KeptAt(lines[..|lines| - 1], i, k)
    ensures KeptAt(lines, i, k)
  {
    var init := lines[..|lines| - 1];
    assert i < |lines| && !IsBlank(lines[i]) by {
      assert lines[i] == init[i];
    }
    assert Rank(lines, i) == k by {
      assert init[..i] == lines[..i];
    }
    RankIndexes(lines, i);
  }

  /** The entry past the filtered prefix is the last line. */
  lemma KeptLast(lines: seq<string>, k: nat)
    requires |lines| > 0
    requires |NonBlankLines(lines[..|lines| - 1])| <= k < |NonBlankLines(lines)|
    ensures KeptAt(lines, |lines| - 1, k)
  {
    var n := |lines| - 1;
    assert !IsBlank(lines[n]) && |NonBlankLines(lines[..n])| == k;
    RankIndexes(lines, n);
  }

  /** The indexes of the non-blank lines. */
  function NonBlankIndexes(lines: seq<string>): set<nat>
  {
    set i: nat | i < |lines| && !IsBlank(lines[i])
  }

  /** The filtered list has exactly one entry per non-blank line. */
  lemma {:induction false} NonBlankCount(lines: seq<string>)
    ensures |NonBlankLines(lines)| == |NonBlankIndexes(lines)|
    decreases |lines|
  {
    if |lines| == 0 {
      assert NonBlankIndexes(lines) == {};
    } else {
      var n := |lines| - 1;
      var init := lines[..n];
      var d := if IsBlank(lines[n]) then 0 else 1;
      assert |NonBlankLines(lines)| == |NonBlankLines(init)| + d by {
        assert NonBlankLines(lines) == NonBlankLines(init) + (if IsBlank(lines[n]) then [] else [lines[n]]);
      }
      NonBlankCount(init);
      IndexesSnoc(lines);
      assert |NonBlankIndexes(lines)| == |NonBlankIndexes(init)| + d;
    }
  }

  /** The non-blank indexes of a block are those of all but its last line,
      plus the last index when that line is non-blank. */
  lemma IndexesSnoc(lines: seq<string>)
    requires |lines| > 0
    ensures var n := |lines| - 1;
      |NonBlankIndexes(lines)| == |NonBlankIndexes(lines[..n])| + (if IsBlank(lines[n]) then 0 else 1)
  {
    var n := |lines| - 1;
    var before := NonBlankIndexes(lines[..n]);
    var after := NonBlankIndexes(lines);
    assert n !in before;
    var extra: set<nat> := if IsBlank(lines[n]) then {} else {n};
    forall i: nat
      ensures i in after <==> i in before + extra
    {
      if i < n {
        assert lines[..n][i] == lines[i];
      }
    }
    assert after == before + extra;
  }

  /** Earlier non-blank lines have smaller ranks. */
  lemma RankMonotone(lines: seq<string>, i: nat, j: nat)
    requires i < j <= |lines| && !IsBlank(lines[i])
    ensures Rank(lines, i) < Rank(lines, j)
  {
    var upto := lines[..j];
    assert upto[..i + 1] == lines[..i + 1];
    assert (lines[..i + 1])[..i] == lines[..i];
    assert NonBlankLines(lines[..i + 1]) == NonBlankLines(lines[..i]) + [lines[i]];
    NonBlankPrefix(upto, i + 1);
  }
}
