/**
 * The paste re-indenter: every pasted line is rewritten to the target depth
 * plus its level relative to the block's reference level, with new
 * indentation made of spaces only; blank lines become empty.
 *
 * `ReformatLines` is the rewriting as the extension performs it: it looks up
 * the recorded level of a line by the line's index in the pasted text, while
 * the analyzer records levels for the non-blank lines only. The two agree
 * exactly when no blank line precedes the line. `ReformatLinesAligned` looks
 * the level up at the line's rank among the non-blank lines instead.
 */
module Paste {
  import opened Text
  import opened Analyzer
  import opened Target

  /** `Math.max(0, levels[index] || 0)`: the recorded level at `k`, or 0 when
      there is none. */
  function LevelAt(levels: seq<nat>, k: nat): nat
  {
    if k < |levels| then levels[k] else 0
  }

  /** `Math.max(1, indentSize)`. */
  function Unit(size: nat): nat
  {
    if size < 1 then 1 else size
  }

  /** Columns of new indentation for a line of recorded level `orig` when the
      reference level is `first`: the target depth shifted by the level
      difference, `max(0, target + (orig - first) * size)`. */
  function NewIndent(targetCols: nat, orig: nat, first: nat, size: nat): nat
  {
    var c := targetCols + Units(orig, Unit(size)) - Units(first, Unit(size));
    if c < 0 then 0 else c
  }

  /** One pasted line: blank lines become empty, others get `n` spaces in
      place of their leading whitespace. */
  function ReformatLine(line: string, n: nat): (r: string)
    ensures IsBlank(line) ==> r == ""
    ensures !IsBlank(line) ==> WsLen(r) == n && LeadingWs(r) == Spaces(n)
    ensures !IsBlank(line) ==> TrimLeft(r) == TrimLeft(line)
    ensures '\n' !in line ==> '\n' !in r
  {
    if IsBlank(line) then ""
    else
      WsLenOfIndented(Spaces(n), TrimLeft(line));
      Spaces(n) + TrimLeft(line)
  }

  /** The extension's rewriting of the pasted lines: the level of line `i` is
      read at index `i` of the recorded levels, the reference level at 0. */
  function ReformatLines(lines: seq<string>, prof: Profile, targetCols: nat): (out: seq<string>)
    ensures |out| == |lines|
    ensures forall i :: 0 <= i < |lines| && IsBlank(lines[i]) ==> out[i] == ""
    ensures forall i :: 0 <= i < |lines| && !IsBlank(lines[i]) ==>
      && WsLen(out[i]) == NewIndent(targetCols, LevelAt(prof.levels, i), LevelAt(prof.levels, 0), prof.indentSize)
      && LeadingWs(out[i]) == Spaces(WsLen(out[i]))
      && TrimLeft(out[i]) == TrimLeft(lines[i])
    ensures forall i :: 0 <= i < |lines| && '\n' !in lines[i] ==> '\n' !in out[i]
  {
    var first := LevelAt(prof.levels, 0);
    seq(|lines|, i requires 0 <= i < |lines| =>
      ReformatLine(lines[i], NewIndent(targetCols, LevelAt(prof.levels, i), first, prof.indentSize)))
  }

  /** The pasted text rewritten for depth `targetCols`, as one string. */
  function Reindent(text: string, prof: Profile, targetCols: nat): (r: string)
    ensures |Split(r)| == |Split(text)|
    ensures forall i :: 0 <= i < |Split(text)| && IsBlank(Split(text)[i]) ==> Split(r)[i] == ""
    ensures forall i :: 0 <= i < |Split(text)| && !IsBlank(Split(text)[i]) ==>
      && WsLen(Split(r)[i]) == NewIndent(targetCols, LevelAt(prof.levels, i), LevelAt(prof.levels, 0), prof.indentSize)
      && LeadingWs(Split(r)[i]) == Spaces(WsLen(Split(r)[i]))
      && '\t' !in LeadingWs(Split(r)[i])
      && TrimLeft(Split(r)[i]) == TrimLeft(Split(text)[i])
  {
    var out := ReformatLines(Split(text), prof, targetCols);
    SplitJoin(out);
    Join(out)
  }

  /** What the paste command does with the clipboard. */
  datatype PasteOutcome = NothingToPaste | Insert(text: string)

  /**
   * The paste command once the host has supplied the document lines, the
   * cursor and the clipboard text: an empty clipboard does nothing; otherwise
   * the clipboard is analyzed and rewritten for the depth at the cursor.
   */
  function HandlePaste(doc: seq<string>, line: nat, col: nat, clip: string): (r: PasteOutcome)
    requires line < |doc|
    ensures r.NothingToPaste? <==> clip == ""
    ensures r.Insert? ==> |Split(r.text)| == |Split(clip)|
    ensures r.Insert? ==> forall i :: 0 <= i < |Split(clip)| && IsBlank(Split(clip)[i]) ==> Split(r.text)[i] == ""
    ensures r.Insert? && !IsBlank(Split(clip)[0]) ==>
      WsLen(Split(r.text)[0]) == TargetColumns(doc, line, col, Analyze(clip).indentSize)
  {
    if clip == "" then NothingToPaste
    else
      var prof := Analyze(clip);
      Insert(Reindent(clip, prof, TargetColumns(doc, line, col, prof.indentSize)))
  }

  /** The new depth is not clamped at zero. */
  predicate Unclamped(targetCols: nat, orig: nat, first: nat, size: nat)
  {
    targetCols + Units(orig, size) >= Units(first, size)
  }

  /** Two non-blank pasted lines whose new depth is not clamped at zero keep
      the difference of their recorded levels, in units of the block's width. */
  lemma ReindentShift(text: string, prof: Profile, targetCols: nat, i: nat, j: nat)
    requires prof.indentSize >= 1
    requires i < |Split(text)| && j < |Split(text)|
    requires !IsBlank(Split(text)[i]) && !IsBlank(Split(text)[j])
    requires Unclamped(targetCols, LevelAt(prof.levels, i), LevelAt(prof.levels, 0), prof.indentSize)
    requires Unclamped(targetCols, LevelAt(prof.levels, j), LevelAt(prof.levels, 0), prof.indentSize)
    ensures var out := Split(Reindent(text, prof, targetCols));
      WsLen(out[i]) - WsLen(out[j])
        == Units(LevelAt(prof.levels, i), prof.indentSize) - Units(LevelAt(prof.levels, j), prof.indentSize)
  {
  }

  // ---------------------------------------------------------------------
  // The level lookup by rank among the non-blank lines
  // ---------------------------------------------------------------------

  /** The rewriting with each line's level read at its rank among the
      non-blank lines, the index the recorded levels are aligned to. */
  function ReformatLinesAligned(lines: seq<string>, prof: Profile, targetCols: nat): (out: seq<string>)
    ensures |out| == |lines|
    ensures forall i :: 0 <= i < |lines| && IsBlank(lines[i]) ==> out[i] == ""
    ensures forall i :: 0 <= i < |lines| && !IsBlank(lines[i]) ==>
      && WsLen(out[i]) == NewIndent(targetCols, LevelAt(prof.levels, Rank(lines, i)), LevelAt(prof.levels, 0), prof.indentSize)
      && LeadingWs(out[i]) == Spaces(WsLen(out[i]))
      && TrimLeft(out[i]) == TrimLeft(lines[i])
    ensures forall i :: 0 <= i < |lines| && '\n' !in lines[i] ==> '\n' !in out[i]
  {
    var first := LevelAt(prof.levels, 0);
    seq(|lines|, i requires 0 <= i < |lines| =>
      ReformatLine(lines[i], NewIndent(targetCols, LevelAt(prof.levels, Rank(lines, i)), first, prof.indentSize)))
  }

  /** `Reindent` with the level lookup by rank. */
  function ReindentAligned(text: string, prof: Profile, targetCols: nat): (r: string)
    ensures |Split(r)| == |Split(text)|
    ensures forall i :: 0 <= i < |Split(text)| && IsBlank(Split(text)[i]) ==> Split(r)[i] == ""
    ensures forall i :: 0 <= i < |Split(text)| && !IsBlank(Split(text)[i]) ==>
      && WsLen(Split(r)[i])
           == NewIndent(targetCols, LevelAt(prof.levels, Rank(Split(text), i)), LevelAt(prof.levels, 0), prof.indentSize)
      && LeadingWs(Split(r)[i]) == Spaces(WsLen(Split(r)[i]))
      && '\t' !in LeadingWs(Split(r)[i])
      && TrimLeft(Split(r)[i]) == TrimLeft(Split(text)[i])
  {
    var out := ReformatLinesAligned(Split(text), prof, targetCols);
    SplitJoin(out);
    Join(out)
  }

  /**
   * With the analyzer's own profile, the aligned rewriting gives every
   * non-blank line the target depth shifted by its own level minus the level
   * of the first non-blank line.
   */
  lemma AlignedUsesOwnLevel(text: string, targetCols: nat, i: nat)
    requires i < |Split(text)| && !IsBlank(Split(text)[i])
    ensures var prof := Analyze(text);
      WsLen(Split(ReindentAligned(text, prof, targetCols))[i])
        == NewIndent(targetCols, Whole(WsLen(Split(text)[i]), prof.indentSize), FirstLevel(text), prof.indentSize)
  {
    LevelOfLine(text, i);
    FirstLevelIsRecorded(text, i);
  }

  /** The level of the first non-blank line of a block. */
  function FirstLevel(text: string): nat
  {
    var kept := NonBlankLines(Split(text));
    if |kept| == 0 then 0 else Whole(WsLen(kept[0]), Analyze(text).indentSize)
  }

  /** The reference level of the rewriting is the first non-blank line's. */
  lemma FirstLevelIsRecorded(text: string, i: nat)
    requires i < |Split(text)| && !IsBlank(Split(text)[i])
    ensures LevelAt(Analyze(text).levels, 0) == FirstLevel(text)
  {
    var prof := Analyze(text);
    RankIndexes(Split(text), i);
    var kept := NonBlankLines(Split(text));
    assert LevelFits(prof.levels[0], WsLen(kept[0]), prof.indentSize);
    FloorUnique(WsLen(kept[0]), prof.indentSize, prof.levels[0]);
  }

  /**
   * With the analyzer's own profile, two non-blank lines whose new depth is
   * not clamped at zero end up exactly as far apart as their levels in the
   * pasted text: relative nesting is preserved.
   */
  lemma AlignedKeepsNesting(text: string, targetCols: nat, i: nat, j: nat)
    requires i < |Split(text)| && !IsBlank(Split(text)[i])
    requires j < |Split(text)| && !IsBlank(Split(text)[j])
    requires var size := Analyze(text).indentSize;
      && Unclamped(targetCols, Whole(WsLen(Split(text)[i]), size), FirstLevel(text), size)
      && Unclamped(targetCols, Whole(WsLen(Split(text)[j]), size), FirstLevel(text), size)
    ensures var size := Analyze(text).indentSize;
      var out := Split(ReindentAligned(text, Analyze(text), targetCols));
      WsLen(out[i]) - WsLen(out[j])
        == Units(Whole(WsLen(Split(text)[i]), size), size) - Units(Whole(WsLen(Split(text)[j]), size), size)
  {
    AlignedUsesOwnLevel(text, targetCols, i);
    AlignedUsesOwnLevel(text, targetCols, j);
  }

  /** The first non-blank pasted line lands exactly at the target depth. */
  lemma AlignedFirstAtTarget(text: string, targetCols: nat, i: nat)
    requires i < |Split(text)| && !IsBlank(Split(text)[i])
    requires forall k :: 0 <= k < i ==> IsBlank(Split(text)[k])
    ensures WsLen(Split(ReindentAligned(text, Analyze(text), targetCols))[i]) == targetCols
  {
    var lines := Split(text);
    forall k | 0 <= k < i
      ensures IsBlank(lines[..i][k])
    {
      assert lines[..i][k] == lines[k];
    }
    NonBlankNone(lines[..i]);
    assert Rank(lines, i) == 0;
  }

  /** The extension's lookup and the lookup by rank agree on every line that
      no blank line precedes. */
  lemma ReindentAgreesBeforeBlank(text: string, prof: Profile, targetCols: nat, i: nat)
    requires i < |Split(text)|
    requires forall k :: 0 <= k < i ==> !IsBlank(Split(text)[k])
    ensures Split(Reindent(text, prof, targetCols))[i] == Split(ReindentAligned(text, prof, targetCols))[i]
  {
    var lines := Split(text);
    RankNoBlankBefore(lines, i);
    assert ReformatLines(lines, prof, targetCols)[i] == ReformatLinesAligned(lines, prof, targetCols)[i];
    ReindentLines(text, prof, targetCols);
    ReindentAlignedLines(text, prof, targetCols);
  }

  /** The lines of the rewritten text are the rewritten lines. */
  lemma ReindentLines(text: string, prof: Profile, targetCols: nat)
    ensures Split(Reindent(text, prof, targetCols)) == ReformatLines(Split(text), prof, targetCols)
  {
    SplitJoin(ReformatLines(Split(text), prof, targetCols));
  }

  /** The lines of the text rewritten by rank are the lines rewritten by rank. */
  lemma ReindentAlignedLines(text: string, prof: Profile, targetCols: nat)
    ensures Split(ReindentAligned(text, prof, targetCols)) == ReformatLinesAligned(Split(text), prof, targetCols)
  {
    SplitJoin(ReformatLinesAligned(Split(text), prof, targetCols));
  }
}
