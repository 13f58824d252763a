/**
 * The strip command: the selected lines lose the indentation of the
 * shallowest level among them, so that the shallowest code starts at column
 * zero; blank lines become empty.
 */
module Strip {
  import opened Text
  import opened Analyzer

  /** `Number.MAX_SAFE_INTEGER`, where the search for the minimum starts. */
  const MaxSafeInteger: nat := 9007199254740991

  /** `Math.min` folded over `levels`, in order, from `start`. */
  function MinFrom(levels: seq<nat>, start: nat): (m: nat)
    ensures m <= start
    ensures forall k :: 0 <= k < |levels| ==> m <= levels[k]
    ensures m == start || exists k :: 0 <= k < |levels| && m == levels[k]
    decreases |levels|
  {
    if |levels| == 0 then start
    else
      var m := MinFrom(levels[1..], if levels[0] < start then levels[0] else start);
      assert forall k :: 0 < k < |levels| ==> levels[k] == levels[1..][k - 1];
      m
  }

  /** What the strip command does with a selection. */
  datatype StripOutcome =
    | NoCode                                          // every selected line is blank
    | AlreadyMinimal                                  // some line is already at level 0
    | Stripped(text: string, removedLevels: nat)      // the replacement text

  /** One selected line with up to `chars` leading columns removed, never more
      than its leading whitespace; blank lines become empty. */
  function StripLine(line: string, chars: nat): (r: string)
    ensures IsBlank(line) ==> r == ""
    ensures !IsBlank(line) ==> |r| <= |line| && r == line[|line| - |r|..]
    ensures !IsBlank(line) ==> TrimLeft(r) == TrimLeft(line)
    ensures !IsBlank(line) ==> WsLen(r) == (if chars <= WsLen(line) then WsLen(line) - chars else 0)
    ensures '\n' !in line ==> '\n' !in r
  {
    if IsBlank(line) then ""
    else
      var n := if chars < WsLen(line) then chars else WsLen(line);
      WsLenAfterDrop(line, n);
      line[n..]
  }

  /** Every selected line stripped of up to `chars` leading columns. */
  function StripLines(lines: seq<string>, chars: nat): (out: seq<string>)
    ensures |out| == |lines|
    ensures forall i :: 0 <= i < |lines| ==> out[i] == StripLine(lines[i], chars)
  {
    seq(|lines|, i requires 0 <= i < |lines| => StripLine(lines[i], chars))
  }

  /** The selected text with up to `chars` leading columns removed from
      every line, as one string. */
  function StripText(text: string, chars: nat): (r: string)
    ensures |Split(r)| == |Split(text)|
    ensures forall i :: 0 <= i < |Split(text)| ==> Split(r)[i] == StripLine(Split(text)[i], chars)
  {
    var out := StripLines(Split(text), chars);
    SplitJoin(out);
    Join(out)
  }

  /** Every line of the block is blank. */
  predicate AllBlank(lines: seq<string>)
  {
    forall i :: 0 <= i < |lines| ==> IsBlank(lines[i])
  }

  /** A block has no non-blank line exactly when all its lines are blank. */
  lemma NoNonBlank(lines: seq<string>)
    ensures |NonBlankLines(lines)| == 0 <==> AllBlank(lines)
  {
    if AllBlank(lines) {
      NonBlankNone(lines);
    } else {
      var i :| 0 <= i < |lines| && !IsBlank(lines[i]);
      RankIndexes(lines, i);
    }
  }

  /**
   * The strip command on the selected text: nothing when the selection holds
   * no code, nothing (but a notice) when the shallowest level is already 0,
   * otherwise the text with that many levels removed from every line.
   */
  function StripLeadingIndentation(text: string): (r: StripOutcome)
    ensures r.NoCode? <==> AllBlank(Split(text))
    ensures r.Stripped? ==> r.removedLevels >= 1
    ensures r.Stripped? ==> |Split(r.text)| == |Split(text)|
    ensures r.Stripped? ==> forall i :: 0 <= i < |Split(text)| && IsBlank(Split(text)[i]) ==>
      Split(r.text)[i] == ""
    ensures r.Stripped? ==> forall i :: 0 <= i < |Split(text)| && !IsBlank(Split(text)[i]) ==>
      TrimLeft(Split(r.text)[i]) == TrimLeft(Split(text)[i])
  {
    NoNonBlank(Split(text));
    if |NonBlankLines(Split(text))| == 0 then NoCode else StripCode(text)
  }

  /** The strip command once the selection is known to hold code. */
  function StripCode(text: string): (r: StripOutcome)
    ensures !r.NoCode?
    ensures r.Stripped? ==> r.removedLevels >= 1
    ensures r.Stripped? ==> |Split(r.text)| == |Split(text)|
    ensures r.Stripped? ==> forall i :: 0 <= i < |Split(text)| && IsBlank(Split(text)[i]) ==>
      Split(r.text)[i] == ""
    ensures r.Stripped? ==> forall i :: 0 <= i < |Split(text)| && !IsBlank(Split(text)[i]) ==>
      TrimLeft(Split(r.text)[i]) == TrimLeft(Split(text)[i])
  {
    var prof := Analyze(text);
    var m := MinFrom(prof.levels, MaxSafeInteger);
    if m == 0 then AlreadyMinimal
    else Stripped(StripText(text, Units(m, prof.indentSize)), m)
  }

  /** The recorded level of a non-blank selected line fits its leading
      whitespace. */
  lemma LevelOfSelectedLine(text: string, i: nat)
    requires i < |Split(text)| && !IsBlank(Split(text)[i])
    ensures Rank(Split(text), i) < |Analyze(text).levels|
    ensures LevelFits(Analyze(text).levels[Rank(Split(text), i)], WsLen(Split(text)[i]), Analyze(text).indentSize)
  {
    RankIndexes(Split(text), i);
  }

  /** Line `i` of `lines` is non-blank and indented by `level` units of
      width `size`. */
  predicate LineAtLevel(lines: seq<string>, i: nat, level: nat, size: nat)
  {
    i < |lines| && !IsBlank(lines[i]) && LevelFits(level, WsLen(lines[i]), size)
  }

  /** Every recorded level belongs to some non-blank selected line. */
  lemma SelectedLineOfLevel(text: string, k: nat)
    requires k < |Analyze(text).levels|
    ensures exists i: nat :: LineAtLevel(Split(text), i, Analyze(text).levels[k], Analyze(text).indentSize)
  {
    var lines := Split(text);
    var prof := Analyze(text);
    var kept := NonBlankLines(lines);
    var line := kept[k];
    assert LevelFits(prof.levels[k], WsLen(line), prof.indentSize);
    KeptIsLine(lines, k);
    var i :| 0 <= i < |lines| && lines[i] == line && !IsBlank(lines[i]);
    assert LineAtLevel(lines, i, prof.levels[k], prof.indentSize);
  }

  /** Level 0 is the level of the lines indented by less than one unit. */
  lemma ZeroLevelIffShallow(level: nat, w: nat, size: nat)
    requires LevelFits(level, w, size)
    ensures level == 0 <==> w < size
  {
    if level > 0 {
      UnitsMonotone(1, level, size);
    }
  }

  /** The minimum search from a positive start ends at 0 exactly when some
      level is 0. */
  lemma MinFromZero(levels: seq<nat>, start: nat)
    requires start > 0
    ensures MinFrom(levels, start) == 0 <==> exists k :: 0 <= k < |levels| && levels[k] == 0
  {
  }

  /** A level fits no more columns than it has units when the width is at least one. */
  lemma {:induction false} UnitsAtLeast(n: nat, size: nat)
    requires size >= 1
    ensures n <= Units(n, size)
  {
    if n > 0 {
      UnitsAtLeast(n - 1, size);
    }
  }

  /** A non-blank line indented by less than one unit of width `size`. */
  predicate Shallow(line: string, size: nat)
  {
    !IsBlank(line) && WsLen(line) < size
  }

  /** The selection counts as already minimal exactly when some non-blank
      line is indented by less than one unit. */
  lemma StripMinimal(text: string)
    requires !AllBlank(Split(text))
    ensures StripLeadingIndentation(text).AlreadyMinimal? <==>
      exists i :: 0 <= i < |Split(text)| && Shallow(Split(text)[i], Analyze(text).indentSize)
  {
    var lines := Split(text);
    var prof := Analyze(text);
    CodeOutcome(text);
    MinFromZero(prof.levels, MaxSafeInteger);
    if exists k :: 0 <= k < |prof.levels| && prof.levels[k] == 0 {
      var k :| 0 <= k < |prof.levels| && prof.levels[k] == 0;
      SelectedLineOfLevel(text, k);
      var i: nat :| LineAtLevel(lines, i, 0, prof.indentSize);
      ZeroLevelIffShallow(0, WsLen(lines[i]), prof.indentSize);
      assert Shallow(lines[i], prof.indentSize);
    }
    if exists i :: 0 <= i < |lines| && Shallow(lines[i], prof.indentSize) {
      var i :| 0 <= i < |lines| && Shallow(lines[i], prof.indentSize);
      LevelOfSelectedLine(text, i);
      ZeroLevelIffShallow(prof.levels[Rank(lines, i)], WsLen(lines[i]), prof.indentSize);
    }
  }

  /**
   * A stripped line loses exactly the removed levels' columns, all of them
   * whitespace: the shallowest level never exceeds any line's indentation,
   * so the source's guard against removing too much never cuts.
   */
  lemma StripRemovesWholeLevels(text: string, i: nat)
    requires StripLeadingIndentation(text).Stripped?
    requires i < |Split(text)| && !IsBlank(Split(text)[i])
    ensures var r := StripLeadingIndentation(text);
      var cut := Units(r.removedLevels, Analyze(text).indentSize);
      && cut <= WsLen(Split(text)[i])
      && Split(r.text)[i] == Split(text)[i][cut..]
      && forall c :: 0 <= c < cut ==> IsWs(Split(text)[i][c])
  {
    var lines := Split(text);
    var prof := Analyze(text);
    var m := MinFrom(prof.levels, MaxSafeInteger);
    var cut := Units(m, prof.indentSize);
    StrippedShape(text);
    LevelOfSelectedLine(text, i);
    UnitsMonotone(m, prof.levels[Rank(lines, i)], prof.indentSize);
    StripLineWhole(lines[i], cut);
  }

  /** The replacement text of a stripped selection is the text stripped of
      the minimum level's columns. */
  lemma StrippedShape(text: string)
    requires StripLeadingIndentation(text).Stripped?
    ensures var prof := Analyze(text);
      var m := MinFrom(prof.levels, MaxSafeInteger);
      StripLeadingIndentation(text) == Stripped(StripText(text, Units(m, prof.indentSize)), m)
  {
    CodeOutcome(text);
  }

  /** The outcome for a selection that holds code is decided by the minimum
      recorded level alone. */
  lemma CodeOutcome(text: string)
    requires !AllBlank(Split(text))
    ensures var prof := Analyze(text);
      var m := MinFrom(prof.levels, MaxSafeInteger);
      StripLeadingIndentation(text)
        == if m == 0 then AlreadyMinimal else Stripped(StripText(text, Units(m, prof.indentSize)), m)
  {
    NoNonBlank(Split(text));
  }

  /** Removing no more than the leading whitespace cuts exactly that prefix. */
  lemma StripLineWhole(line: string, chars: nat)
    requires !IsBlank(line) && chars <= WsLen(line)
    ensures StripLine(line, chars) == line[chars..]
  {
  }

  /** The minimum search ends at a recorded level once some level does not
      exceed its start. */
  lemma MinFromIsLevel(levels: seq<nat>, start: nat, j: nat)
    requires j < |levels| && levels[j] <= start
    ensures exists k :: 0 <= k < |levels| && levels[k] == MinFrom(levels, start)
  {
    var m := MinFrom(levels, start);
    if m == start {
      assert levels[j] == m;
    }
  }

  /** The minimum level is the level of some non-blank selected line, given
      one non-blank line of at most `MaxSafeInteger` columns. */
  lemma MinimumIsALevel(text: string, j: nat)
    requires j < |Split(text)| && !IsBlank(Split(text)[j]) && WsLen(Split(text)[j]) <= MaxSafeInteger
    ensures exists i: nat :: LineAtLevel(Split(text), i, MinFrom(Analyze(text).levels, MaxSafeInteger), Analyze(text).indentSize)
  {
    var lines := Split(text);
    var prof := Analyze(text);
    LevelOfSelectedLine(text, j);
    var r := Rank(lines, j);
    UnitsAtLeast(prof.levels[r], prof.indentSize);
    MinFromIsLevel(prof.levels, MaxSafeInteger, r);
    var k :| 0 <= k < |prof.levels| && prof.levels[k] == MinFrom(prof.levels, MaxSafeInteger);
    SelectedLineOfLevel(text, k);
  }

  /**
   * After stripping, some non-blank line is indented by less than one unit:
   * the shallowest code now starts at level 0. This needs one non-blank line
   * of at most `MaxSafeInteger` columns, so that the minimum search does not
   * stop at its starting value.
   */
  lemma StripReachesMinimum(text: string, j: nat)
    requires StripLeadingIndentation(text).Stripped?
    requires j < |Split(text)| && !IsBlank(Split(text)[j]) && WsLen(Split(text)[j]) <= MaxSafeInteger
    ensures var out := Split(StripLeadingIndentation(text).text);
      exists i :: 0 <= i < |Split(text)| && !IsBlank(Split(text)[i]) && WsLen(out[i]) < Analyze(text).indentSize
  {
    var lines := Split(text);
    var prof := Analyze(text);
    var m := MinFrom(prof.levels, MaxSafeInteger);
    MinimumIsALevel(text, j);
    var i: nat :| LineAtLevel(lines, i, m, prof.indentSize);
    var cut := Units(m, prof.indentSize);
    StrippedShape(text);
    StripRemovesWholeLevels(text, i);
    WsLenAfterDrop(lines[i], cut);
    var out := Split(StripLeadingIndentation(text).text);
    assert out[i] == lines[i][cut..];
    assert 0 <= i < |lines| && !IsBlank(lines[i]) && WsLen(out[i]) < prof.indentSize;
  }
}
