/**
 * Worked examples on small blocks: the frequency tie-break and the block that
 * shows the re-indenter's line-index lookup.
 */
module Examples {
  import opened Text
  import opened Frequency
  import opened Analyzer
  import opened Paste

  /** Widths 2 and 4 both occur twice; 4 reaches count 2 first and wins,
      although 2 was seen first. */
  lemma TieGoesToFirstToReach()
    ensures Count([2, 4, 4, 2], 4) == Tally(2, 4)
  {
    assert [2, 4, 4, 2][..3] == [2, 4, 4];
    assert [2, 4, 4][..2] == [2, 4];
    assert [2, 4][..1] == [2];
    assert [2][..0] == [];
    assert Count([2], 4) == Tally(1, 2);
    assert Count([2, 4], 4) == Tally(1, 2);
    assert Count([2, 4, 4], 4) == Tally(2, 4);
  }

  /** A blank line, then `x` at depth 0 and `y` one unit of 4 deeper. */
  const FindingBlock: string := "\nx\n    y"

  lemma FindingBlockLines()
    ensures Split(FindingBlock) == ["", "x", "    y"]
  {
    assert FindingBlock == "" + "\n" + ("x" + "\n" + "    y");
    SplitThree("", "x", "    y");
  }

  lemma LineX()
    ensures WsLen("x") == 0 && !IsBlank("x") && LeadingWs("x") == ""
  {
    assert Spaces(0) + "x" == "x" && Spaces(0) == "";
    IndentedLine(0, "x");
  }

  lemma LineY()
    ensures WsLen("    y") == 4 && !IsBlank("    y") && LeadingWs("    y") == "    "
  {
    assert Spaces(4) + "y" == "    y" && Spaces(4) == "    ";
    IndentedLine(4, "y");
  }

  lemma KeptOfBlock()
    ensures NonBlankLines(["", "x", "    y"]) == ["x", "    y"]
  {
    LineX();
    LineY();
    var lines := ["", "x", "    y"];
    assert lines[..2] == ["", "x"];
    assert lines[..2][..1] == [""];
    assert [""][..0] == [];
    assert NonBlankLines([""]) == [];
  }

  lemma WidthOfBlock()
    ensures Candidates(WsLens(["x", "    y"])) == [4]
    ensures IndentSizeOf([4], Space) == 4
  {
    LineX();
    LineY();
    assert WsLens(["x", "    y"]) == [0, 4];
    assert Candidates([0, 4]) == [4];
    assert [4][..0] == [];
    assert Count([4], 4) == Tally(1, 4);
  }

  lemma NoTabsInBlock()
    ensures !HasTabs(["x", "    y"])
  {
    LineX();
    LineY();
    var kept := ["x", "    y"];
    forall k | 0 <= k < |kept|
      ensures '\t' !in LeadingWs(kept[k])
    {
      assert "    "[0] == ' ';
    }
  }

  lemma LevelsOfBlock()
    ensures LevelsOf(["x", "    y"], 4) == [0, 1]
  {
    LineX();
    LineY();
    var kept := ["x", "    y"];
    assert kept[1..] == ["    y"];
    assert ["    y"][1..] == [];
    assert Whole(4, 4) == 1;
  }

  /** The analyzer records levels 0 and 1 for the two non-blank lines, with
      spaces and width 4. */
  lemma FindingBlockProfile()
    ensures Analyze(FindingBlock) == Profile([0, 1], Space, 4)
  {
    FindingBlockLines();
    KeptOfBlock();
    WidthOfBlock();
    NoTabsInBlock();
    LevelsOfBlock();
  }

  /** `x` as the extension rewrites it: one unit deep. */
  lemma AsWrittenLineX()
    ensures var out := Split(Reindent(FindingBlock, Profile([0, 1], Space, 4), 0));
      |out| == 3 && WsLen(out[1]) == 4 && TrimLeft(out[1]) == "x"
  {
    var prof := Profile([0, 1], Space, 4);
    var lines := Split(FindingBlock);
    FindingBlockLines();
    LineX();
    assert !IsBlank(lines[1]) && TrimLeft(lines[1]) == "x";
    assert LevelAt(prof.levels, 1) == 1 && LevelAt(prof.levels, 0) == 0;
    assert NewIndent(0, 1, 0, 4) == 4;
  }

  /** `y` as the extension rewrites it: at depth 0. */
  lemma AsWrittenLineY()
    ensures var out := Split(Reindent(FindingBlock, Profile([0, 1], Space, 4), 0));
      |out| == 3 && WsLen(out[2]) == 0 && TrimLeft(out[2]) == "y"
  {
    var prof := Profile([0, 1], Space, 4);
    var lines := Split(FindingBlock);
    FindingBlockLines();
    LineY();
    assert !IsBlank(lines[2]) && TrimLeft(lines[2]) == "y";
    assert LevelAt(prof.levels, 2) == 0 && LevelAt(prof.levels, 0) == 0;
    assert NewIndent(0, 0, 0, 4) == 0;
  }

  /**
   * The extension's rewriting of the block at depth 0 reads level 1 (the
   * level of `y`) for `x` and no level for `y`: `x` moves one unit right and
   * `y`, which was nested under `x`, lands to its left.
   */
  lemma AsWrittenInvertsNesting()
    ensures var out := Split(Reindent(FindingBlock, Analyze(FindingBlock), 0));
      && |out| == 3 && out[0] == ""
      && WsLen(out[1]) == 4 && TrimLeft(out[1]) == "x"
      && WsLen(out[2]) == 0 && TrimLeft(out[2]) == "y"
  {
    FindingBlockProfile();
    FindingBlockLines();
    AsWrittenLineX();
    AsWrittenLineY();
  }

  /** The reference level of the block is that of `x`, 0. */
  lemma FindingBlockFirstLevel()
    ensures FirstLevel(FindingBlock) == 0
  {
    FindingBlockLines();
    KeptOfBlock();
    LineX();
    FindingBlockProfile();
  }

  /** `x` rewritten by rank: at depth 0. */
  lemma AlignedLineX()
    ensures var out := Split(ReindentAligned(FindingBlock, Analyze(FindingBlock), 0));
      |out| == 3 && WsLen(out[1]) == 0 && TrimLeft(out[1]) == "x"
  {
    FindingBlockLines();
    FindingBlockProfile();
    FindingBlockFirstLevel();
    LineX();
    assert TrimLeft("x") == "x";
    AlignedUsesOwnLevel(FindingBlock, 0, 1);
    assert Whole(0, 4) == 0;
    assert NewIndent(0, 0, 0, 4) == 0;
  }

  /** `y` rewritten by rank: one unit deep. */
  lemma AlignedLineY()
    ensures var out := Split(ReindentAligned(FindingBlock, Analyze(FindingBlock), 0));
      |out| == 3 && WsLen(out[2]) == 4 && TrimLeft(out[2]) == "y"
  {
    FindingBlockLines();
    FindingBlockProfile();
    FindingBlockFirstLevel();
    LineY();
    assert TrimLeft("    y") == "y";
    AlignedUsesOwnLevel(FindingBlock, 0, 2);
    assert Whole(4, 4) == 1;
    assert NewIndent(0, 1, 0, 4) == 4;
  }

  /** The rewriting by rank keeps `x` at depth 0 and `y` one unit deeper. */
  lemma AlignedKeepsFindingBlock()
    ensures var out := Split(ReindentAligned(FindingBlock, Analyze(FindingBlock), 0));
      && |out| == 3 && out[0] == ""
      && WsLen(out[1]) == 0 && TrimLeft(out[1]) == "x"
      && WsLen(out[2]) == 4 && TrimLeft(out[2]) == "y"
  {
    FindingBlockLines();
    AlignedLineX();
    AlignedLineY();
  }
}
