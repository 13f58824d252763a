/**
 * The indentation analyzer: from a block of text, the indentation level of
 * every non-blank line, whether the block is tab- or space-indented, and the
 * width of one indentation unit.
 */
module Analyzer {
  import opened Optional
  import opened Text
  import Frequency

  datatype IndentChar = Space | Tab

  /** The analyzer's answer: one level per non-blank line, in order, the
      indentation character and the unit width. */
  datatype Profile = Profile(levels: seq<nat>, indentChar: IndentChar, indentSize: nat)

  /** Unit width assumed when the block shows no indentation step. */
  function DefaultSize(ch: IndentChar): nat
  {
    if ch == Space then 4 else 1
  }

  /** Length of the leading whitespace of each line. */
  function WsLens(lines: seq<string>): seq<nat>
  {
    seq(|lines|, k requires 0 <= k < |lines| => WsLen(lines[k]))
  }

  // ---------------------------------------------------------------------
  // Candidate unit widths
  // ---------------------------------------------------------------------

  /** Line `j` is an ancestor for the dedent at line `i`: shallower than the
      line before `i`, and shallower than line `i` itself. */
  predicate IsDedentAnchor(lens: seq<nat>, i: nat, j: nat)
    requires j < i < |lens|
  {
    lens[j] < lens[i - 1] && lens[i] > lens[j]
  }

  /** The backward search for the nearest dedent anchor, from `j` down to 0. */
  function DedentAnchor(lens: seq<nat>, i: nat, j: int): (r: Option<nat>)
    requires 0 < i < |lens| && -1 <= j <= i - 2
    ensures r.Some? ==> r.value <= j && IsDedentAnchor(lens, i, r.value)
    ensures r.Some? ==> forall k :: r.value < k <= j ==> !IsDedentAnchor(lens, i, k)
    ensures r.None? ==> forall k :: 0 <= k <= j ==> !IsDedentAnchor(lens, i, k)
    decreases j + 1
  {
    if j < 0 then None
    else if IsDedentAnchor(lens, i, j) then Some(j)
    else DedentAnchor(lens, i, j - 1)
  }

  /** The candidate widths line `i` contributes: the step of an increase, or
      on a dedent to a non-zero depth the distance to the nearest ancestor. */
  function StepCandidate(lens: seq<nat>, i: nat): (r: seq<nat>)
    requires 0 < i < |lens|
    ensures |r| <= 1
    ensures forall k :: 0 <= k < |r| ==> r[k] > 0
    ensures |r| == 1 ==> exists j :: 0 <= j < i && lens[j] < lens[i] && r[0] == lens[i] - lens[j]
    ensures lens[i] > lens[i - 1] ==> r == [lens[i] - lens[i - 1]]
    ensures lens[i] == lens[i - 1] || lens[i] == 0 ==> r == []
    ensures lens[i] < lens[i - 1] ==>
      (|r| == 1 <==> exists j :: 0 <= j <= i - 2 && IsDedentAnchor(lens, i, j))
    ensures lens[i] < lens[i - 1] && |r| == 1 ==>
      exists j :: 0 <= j <= i - 2 && IsDedentAnchor(lens, i, j) && r[0] == lens[i] - lens[j]
               && forall k :: j < k <= i - 2 ==> !IsDedentAnchor(lens, i, k)
  {
    var prev := lens[i - 1];
    var curr := lens[i];
    if curr > prev then [curr - prev]
    else if curr < prev && curr > 0 then
      match DedentAnchor(lens, i, i - 2)
      case Some(j) => [curr - lens[j]]
      case None => []
    else []
  }

  /** The candidate widths of the first `n` lines, in the order found. */
  function CandidatesUpTo(lens: seq<nat>, n: nat): (r: seq<nat>)
    requires n <= |lens|
    ensures forall k :: 0 <= k < |r| ==> r[k] > 0
    ensures n > 0 ==> |r| < n
    decreases n
  {
    if n <= 1 then [] else CandidatesUpTo(lens, n - 1) + StepCandidate(lens, n - 1)
  }

  /** All candidate widths of a block with leading-whitespace lengths `lens`. */
  function Candidates(lens: seq<nat>): seq<nat>
  {
    CandidatesUpTo(lens, |lens|)
  }

  /**
   * The source's nested loops collecting the candidate widths; the inner
   * backward search is `FindAnchor`.
   */
  method CollectCandidates(lens: seq<nat>) returns (sizes: seq<nat>)
    ensures sizes == Candidates(lens)
    ensures forall k :: 0 <= k < |sizes| ==> sizes[k] > 0
    ensures |lens| > 0 ==> |sizes| < |lens|
  {
    sizes := [];
    if |lens| == 0 {
      return;
    }
    var i := 1;
    while i < |lens|
      invariant 1 <= i <= |lens|
      invariant sizes == CandidatesUpTo(lens, i)
    {
      var prev := lens[i - 1];
      var curr := lens[i];
      var step: seq<nat> := [];
      if curr > prev {
        step := [curr - prev];
      } else if curr < prev && curr > 0 {
        var anchor := FindAnchor(lens, i);
        if anchor.Some? {
          step := [curr - lens[anchor.value]];
        }
      }
      assert step == StepCandidate(lens, i);
      assert CandidatesUpTo(lens, i + 1) == sizes + step;
      sizes := sizes + step;
      i := i + 1;
    }
  }

  /** The inner loop: from line `i - 2` backwards, the first line shallower
      than both line `i - 1` and line `i`, left by `break`. */
  method FindAnchor(lens: seq<nat>, i: nat) returns (r: Option<nat>)
    requires 0 < i < |lens|
    ensures r == DedentAnchor(lens, i, i - 2)
  {
    var j := i - 2;
    while j >= 0
      invariant -1 <= j <= i - 2
      invariant DedentAnchor(lens, i, i - 2) == DedentAnchor(lens, i, j)
    {
      if lens[j] < lens[i - 1] && lens[i] > lens[j] {
        return Some(j);
      }
      j := j - 1;
    }
    return None;
  }

  // ---------------------------------------------------------------------
  // The unit width and the levels
  // ---------------------------------------------------------------------

  /** The unit width: the most frequent candidate when there is one, the
      default of the indentation character otherwise. */
  function IndentSizeOf(cands: seq<nat>, ch: IndentChar): (size: nat)
    requires forall k :: 0 <= k < |cands| ==> cands[k] > 0
    ensures size >= 1
    ensures |cands| == 0 ==> size == DefaultSize(ch)
    ensures |cands| > 0 ==> size in cands
    ensures |cands| > 0 ==> forall v :: multiset(cands)[v] <= multiset(cands)[size]
    ensures |cands| > 0 ==>
      exists p: nat :: Frequency.FirstToReach(cands, p, multiset(cands)[size]) && cands[p] == size
  {
    var size := DefaultSize(ch);
    if |cands| > 0 then
      var t := Frequency.Count(cands, size);
      Frequency.CountIsMostFrequent(cands, size);
      if t.maxCount > 0 then t.mostFrequent else size
    else size
  }

  /** The number of whole units of width `size` in `w` columns. */
  function Whole(w: nat, size: nat): nat
  {
    if size == 0 then 0 else w / size
  }

  /** Floor division bounds for the level of a line. */
  lemma DivBounds(a: nat, b: nat)
    requires b > 0
    ensures (a / b) * b <= a < (a / b) * b + b
  {
    assert a == (a / b) * b + a % b;
  }

  /** Columns of `n` indentation units of width `size`, that is `n * size`,
      spelled out by repetition so that the depth arithmetic stays linear. */
  function Units(n: nat, size: nat): nat
  {
    if n == 0 then 0 else Units(n - 1, size) + size
  }

  /** `Units` is the product of the level and the width. */
  lemma {:induction false} UnitsIsProduct(n: nat, size: nat)
    ensures Units(n, size) == n * size
  {
    if n > 0 {
      UnitsIsProduct(n - 1, size);
    }
  }

  /** More units never take fewer columns. */
  lemma {:induction false} UnitsMonotone(m: nat, n: nat, size: nat)
    requires m <= n
    ensures Units(m, size) <= Units(n, size)
    decreases n
  {
    if m < n {
      UnitsMonotone(m, n - 1, size);
    }
  }

  /** `level` is the number of whole units of width `size` in `w` columns. */
  predicate LevelFits(level: nat, w: nat, size: nat)
  {
    Units(level, size) <= w < Units(level, size) + size
  }

  /** The floor quotient is a level that fits. */
  lemma WholeFits(w: nat, size: nat)
    requires size > 0
    ensures LevelFits(Whole(w, size), w, size)
  {
    var q := w / size;
    DivBounds(w, size);
    UnitsIsProduct(q, size);
    assert Whole(w, size) == q;
  }

  /** At most one level fits a given number of columns. */
  lemma LevelFitsUnique(l: nat, q: nat, w: nat, size: nat)
    requires LevelFits(l, w, size) && LevelFits(q, w, size)
    ensures l == q
  {
    if l < q {
      UnitsMonotone(l + 1, q, size);
    } else if q < l {
      UnitsMonotone(q + 1, l, size);
    }
  }

  /** `Math.floor(ws.length / indentSize)` for every kept line: the number of
      whole units in the line's leading run. */
  function LevelsOf(kept: seq<string>, size: nat): (levels: seq<nat>)
    requires size > 0
    ensures |levels| == |kept|
    ensures forall k :: 0 <= k < |kept| ==> LevelFits(levels[k], WsLen(kept[k]), size)
    decreases |kept|
  {
    if |kept| == 0 then []
    else
      var w := WsLen(kept[0]);
      WholeFits(w, size);
      [Whole(w, size)] + LevelsOf(kept[1..], size)
  }

  /** Some non-blank line's leading whitespace holds a tab. */
  predicate HasTabs(kept: seq<string>)
  {
    exists k :: 0 <= k < |kept| && '\t' in LeadingWs(kept[k])
  }

  /** The analysis of a block of text: one level per non-blank line, each the
      number of whole units in that line's leading whitespace. */
  function Analyze(code: string): (p: Profile)
    ensures var kept := NonBlankLines(Split(code));
      && |p.levels| == |kept|
      && p.indentSize >= 1
      && forall k :: 0 <= k < |kept| ==> LevelFits(p.levels[k], WsLen(kept[k]), p.indentSize)
  {
    var kept := NonBlankLines(Split(code));
    var ch := if HasTabs(kept) then Tab else Space;
    var size := IndentSizeOf(Candidates(WsLens(kept)), ch);
    Profile(LevelsOf(kept, size), ch, size)
  }

  /** The block counts as tab-indented exactly when the leading whitespace of
      some non-blank line holds a tab. */
  lemma AnalyzeChar(code: string)
    ensures Analyze(code).indentChar == Tab <==>
      exists i :: 0 <= i < |Split(code)| && !IsBlank(Split(code)[i]) && '\t' in LeadingWs(Split(code)[i])
  {
    var kept := NonBlankLines(Split(code));
    assert Analyze(code).indentChar == if HasTabs(kept) then Tab else Space;
    TabsOfKept(Split(code));
  }

  /** The unit width is the default of the indentation character when the
      block shows no step, and otherwise a candidate of maximal count, the
      first whose count reached that maximum. */
  lemma AnalyzeUnit(code: string)
    ensures var p := Analyze(code);
      var cands := Candidates(WsLens(NonBlankLines(Split(code))));
      && (|cands| == 0 ==> p.indentSize == DefaultSize(p.indentChar))
      && (|cands| > 0 ==> p.indentSize in cands)
      && (|cands| > 0 ==> forall v :: multiset(cands)[v] <= multiset(cands)[p.indentSize])
      && (|cands| > 0 ==> exists q: nat :: Frequency.FirstToReach(cands, q, multiset(cands)[p.indentSize])
                                            && cands[q] == p.indentSize)
  {
    var kept := NonBlankLines(Split(code));
    var ch := if HasTabs(kept) then Tab else Space;
    assert Analyze(code).indentSize == IndentSizeOf(Candidates(WsLens(kept)), ch);
  }

  /** The tab test over the kept lines is the tab test over the non-blank
      lines of the whole block. */
  lemma TabsOfKept(lines: seq<string>)
    ensures HasTabs(NonBlankLines(lines)) <==>
      exists i :: 0 <= i < |lines| && !IsBlank(lines[i]) && '\t' in LeadingWs(lines[i])
  {
    var kept := NonBlankLines(lines);
    if HasTabs(kept) {
      var k :| 0 <= k < |kept| && '\t' in LeadingWs(kept[k]);
      assert kept[k] in kept;
      var i :| 0 <= i < |lines| && lines[i] == kept[k];
      assert !IsBlank(lines[i]);
    }
    if exists i :: 0 <= i < |lines| && !IsBlank(lines[i]) && '\t' in LeadingWs(lines[i]) {
      var i :| 0 <= i < |lines| && !IsBlank(lines[i]) && '\t' in LeadingWs(lines[i]);
      RankIndexes(lines, i);
    }
  }

  /** The level recorded for a non-blank line of the block is found at the
      line's rank among the non-blank lines. */
  lemma LevelOfLine(code: string, i: nat)
    requires i < |Split(code)| && !IsBlank(Split(code)[i])
    ensures Rank(Split(code), i) < |Analyze(code).levels|
    ensures Analyze(code).levels[Rank(Split(code), i)] == Whole(WsLen(Split(code)[i]), Analyze(code).indentSize)
  {
    var p := Analyze(code);
    RankIndexes(Split(code), i);
    var k := Rank(Split(code), i);
    var w := WsLen(Split(code)[i]);
    assert LevelFits(p.levels[k], w, p.indentSize);
    FloorUnique(w, p.indentSize, p.levels[k]);
  }

  /** Only one level fits a given leading-whitespace length. */
  lemma FloorUnique(a: nat, b: nat, l: nat)
    requires b > 0 && LevelFits(l, a, b)
    ensures l == Whole(a, b)
  {
    WholeFits(a, b);
    LevelFitsUnique(l, Whole(a, b), a, b);
  }

  /** A block without a non-blank line, the empty text among them, gets no
      level, spaces and the default width 4. */
  lemma AnalyzeBlank(code: string)
    requires forall i :: 0 <= i < |Split(code)| ==> IsBlank(Split(code)[i])
    ensures Analyze(code) == Profile([], Space, 4)
  {
    NonBlankNone(Split(code));
    assert Candidates(WsLens([])) == [];
  }

  /** The empty text is the blank block of one empty line. */
  lemma AnalyzeEmpty()
    ensures Analyze("") == Profile([], Space, 4)
  {
    assert Split("") == [""];
    AnalyzeBlank("");
  }
}
