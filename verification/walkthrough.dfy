/**
 * Worked examples of whole commands: a deeply indented block pasted at
 * depth 0, and a line pasted under a block opener.
 */
module Walkthrough {
  import opened Text
  import opened Frequency
  import opened Analyzer
  import opened Target
  import opened Paste

  /** Two lines indented by 12 and 16 spaces: `"            a = 1"` and
      `"                b = 2"`, joined by a line feed. */
  const DeepFirst: string := Spaces(12) + "a = 1"
  const DeepSecond: string := Spaces(16) + "b = 2"
  const DeepBlock: string := DeepFirst + "\n" + DeepSecond

  lemma DeepLines()
    ensures Split(DeepBlock) == [DeepFirst, DeepSecond]
  {
    IndentedLine(12, "a = 1");
    IndentedLine(16, "b = 2");
    SplitCons(DeepFirst, DeepSecond);
    SplitSingle(DeepSecond);
  }

  /** Both lines of the block are kept. */
  lemma DeepKept()
    ensures NonBlankLines([DeepFirst, DeepSecond]) == [DeepFirst, DeepSecond]
  {
    IndentedLine(12, "a = 1");
    IndentedLine(16, "b = 2");
    assert [DeepFirst, DeepSecond][..1] == [DeepFirst];
    assert [DeepFirst][..0] == [];
  }

  /** The one step of 4 columns is the only candidate, so the width is 4. */
  lemma DeepWidth()
    ensures Candidates(WsLens([DeepFirst, DeepSecond])) == [4]
    ensures IndentSizeOf([4], Space) == 4
  {
    DeepLens();
    assert Candidates([12, 16]) == [4];
    assert [4][..0] == [];
    assert Count([4], 4) == Tally(1, 4);
  }

  lemma DeepLens()
    ensures WsLens([DeepFirst, DeepSecond]) == [12, 16]
  {
    IndentedLine(12, "a = 1");
    IndentedLine(16, "b = 2");
  }

  lemma DeepNoTabs()
    ensures !HasTabs([DeepFirst, DeepSecond])
  {
    IndentedLine(12, "a = 1");
    IndentedLine(16, "b = 2");
  }

  /** Levels 3 and 4 of width 4. */
  lemma DeepLevels()
    ensures LevelsOf([DeepFirst, DeepSecond], 4) == [3, 4]
  {
    IndentedLine(12, "a = 1");
    IndentedLine(16, "b = 2");
    assert [DeepFirst, DeepSecond][1..] == [DeepSecond];
    assert [DeepSecond][1..] == [];
    assert Whole(12, 4) == 3 && Whole(16, 4) == 4;
  }

  /** The analyzer reads the block as spaces of width 4 at levels 3 and 4. */
  lemma DeepProfile()
    ensures Analyze(DeepBlock) == Profile([3, 4], Space, 4)
  {
    DeepLines();
    DeepKept();
    DeepWidth();
    DeepNoTabs();
    DeepLevels();
  }

  /** The line depths of the paste at depth 0: the first line's level 3 is
      the reference, so it lands at 0 and the second one unit deeper. */
  lemma DeepDepths()
    ensures NewIndent(0, 3, 3, 4) == 0 && NewIndent(0, 4, 3, 4) == 4
  {
    assert Units(3, 4) == 12 && Units(4, 4) == 16;
  }

  /** The rewritten lines of the block: `"a = 1"` and four spaces before
      `"b = 2"`. */
  lemma DeepRewritten()
    ensures var r := ReformatLines([DeepFirst, DeepSecond], Profile([3, 4], Space, 4), 0);
      |r| == 2 && r[0] == "a = 1" && r[1] == Spaces(4) + "b = 2"
  {
    var r := ReformatLines([DeepFirst, DeepSecond], Profile([3, 4], Space, 4), 0);
    assert r[0] == ReformatLine(DeepFirst, NewIndent(0, 3, 3, 4));
    assert r[1] == ReformatLine(DeepSecond, NewIndent(0, 4, 3, 4));
    DeepFirstRewritten();
    DeepSecondRewritten();
  }

  lemma DeepFirstRewritten()
    ensures ReformatLine(DeepFirst, NewIndent(0, 3, 3, 4)) == "a = 1"
  {
    assert Spaces(0) + "a = 1" == "a = 1" by {
      assert Spaces(0) == [];
    }
    IndentedLine(12, "a = 1");
    DeepDepths();
  }

  lemma DeepSecondRewritten()
    ensures ReformatLine(DeepSecond, NewIndent(0, 4, 3, 4)) == Spaces(4) + "b = 2"
  {
    IndentedLine(16, "b = 2");
    DeepDepths();
  }

  /** Pasting the block at depth 0 re-bases it: `"a = 1\n    b = 2"`. */
  lemma DeepPastedAtZero()
    ensures Reindent(DeepBlock, Analyze(DeepBlock), 0) == "a = 1\n    b = 2"
  {
    assert "a = 1" + "\n" + (Spaces(4) + "b = 2") == "a = 1\n    b = 2" by {
      assert Spaces(4) == "    ";
    }
    var r := ReformatLines([DeepFirst, DeepSecond], Profile([3, 4], Space, 4), 0);
    DeepProfile();
    DeepLines();
    DeepRewritten();
    JoinTwo(r);
    assert Reindent(DeepBlock, Profile([3, 4], Space, 4), 0) == Join(r);
  }

  /** Two lines join around one line feed. */
  lemma JoinTwo(r: seq<string>)
    requires |r| == 2
    ensures Join(r) == r[0] + "\n" + r[1]
  {
    assert r[1..] == [r[1]];
  }

  /** A document whose first line opens a block, with the cursor on the
      empty line below it, and a one-line clipboard. */
  const Opener: string := "def function():"
  const OpenerDoc: seq<string> := [Opener, ""]
  const Hello: string := "print(\"hello\")"

  lemma HelloLine()
    ensures '\n' !in Hello && |Hello| > 0 && !IsWs(Hello[0])
    ensures Split(Hello) == [Hello]
  {
    assert Hello[0] == 'p';
    assert forall i | 0 <= i < |Hello| :: Hello[i] != '\n';
    SplitSingle(Hello);
  }

  /** The clipboard line alone: level 0, spaces, the default width 4. */
  lemma HelloProfile()
    ensures Analyze(Hello) == Profile([0], Space, 4)
  {
    HelloLine();
    OneLineProfile(Hello);
  }

  /** A single unindented line: level 0, spaces, the default width 4. */
  lemma OneLineProfile(t: string)
    requires |t| > 0 && !IsWs(t[0]) && '\n' !in t
    ensures Analyze(t) == Profile([0], Space, 4)
  {
    SplitSingle(t);
    WsLenUnique(t, 0);
    assert [t][..0] == [];
    assert NonBlankLines([t]) == [t];
    assert Candidates(WsLens([t])) == [];
    assert LeadingWs(t) == [];
    assert !HasTabs([t]);
    assert [t][1..] == [];
    assert Whole(0, 4) == 0;
  }

  /** The line above the cursor ends with a colon at depth 0. */
  lemma OpenerLine()
    ensures WsLen(Opener) == 0 && !IsBlank(Opener) && EndsWithColon(Opener)
  {
    assert Opener[0] == 'd' && !IsWs(Opener[0]);
    WsLenUnique(Opener, 0);
    assert Opener[14] == ':' && IsWsAfter(Opener, 14);
  }

  /** Below the opener the paste goes one unit of 4 deeper. */
  lemma OpenerTarget()
    ensures TargetColumns(OpenerDoc, 1, 0, 4) == 4
  {
    OpenerLine();
    assert IsBlank(OpenerDoc[1]);
    assert IsAnchor(OpenerDoc, 1, 0);
  }

  /** The clipboard line rewritten four columns deep. */
  lemma HelloRewritten()
    ensures ReformatLines([Hello], Profile([0], Space, 4), 4) == [Spaces(4) + Hello]
  {
    HelloLine();
    OneLineRewritten(Hello, 4);
  }

  /** A single unindented line of level 0 rewritten `n` columns deep. */
  lemma OneLineRewritten(t: string, n: nat)
    requires |t| > 0 && !IsWs(t[0])
    ensures ReformatLines([t], Profile([0], Space, 4), n) == [Spaces(n) + t]
  {
    WsLenUnique(t, 0);
    assert TrimLeft(t) == t;
    assert NewIndent(n, 0, 0, 4) == n;
  }

  /** The paste under the opener inserts `"    print(\"hello\")"`. */
  lemma PasteUnderOpener()
    ensures HandlePaste(OpenerDoc, 1, 0, Hello) == Insert("    print(\"hello\")")
  {
    assert Spaces(4) + Hello == "    print(\"hello\")";
    HelloLine();
    HelloProfile();
    OpenerTarget();
    HelloRewritten();
    assert Reindent(Hello, Profile([0], Space, 4), 4) == Join([Spaces(4) + Hello]);
  }

  /** A block nested two deep with steps of 4:
      `"if True:\n    print(1)\n    if x:\n        print(2)"`. */
  const Nest0: string := "if True:"
  const Nest1: string := Spaces(4) + "print(1)"
  const Nest2: string := Spaces(4) + "if x:"
  const Nest3: string := Spaces(8) + "print(2)"
  const NestBlock: string := Nest0 + "\n" + (Nest1 + "\n" + (Nest2 + "\n" + Nest3))

  lemma NestLine0()
    ensures WsLen(Nest0) == 0 && !IsBlank(Nest0) && '\n' !in Nest0 && '\t' !in LeadingWs(Nest0)
  {
    assert Nest0[0] == 'i' && !IsWs(Nest0[0]);
    assert forall i | 0 <= i < |Nest0| :: Nest0[i] != '\n';
    WsLenUnique(Nest0, 0);
  }

  lemma NestLines()
    ensures Split(NestBlock) == [Nest0, Nest1, Nest2, Nest3]
  {
    assert '\n' !in Nest0 && '\n' !in Nest1 && '\n' !in Nest2 && '\n' !in Nest3 by {
      NestLine0();
      IndentedLine(4, "print(1)");
      IndentedLine(4, "if x:");
      IndentedLine(8, "print(2)");
    }
    SplitThree(Nest1, Nest2, Nest3);
    SplitCons(Nest0, Nest1 + "\n" + (Nest2 + "\n" + Nest3));
  }

  lemma NestKept()
    ensures NonBlankLines([Nest0, Nest1, Nest2, Nest3]) == [Nest0, Nest1, Nest2, Nest3]
  {
    NestLine0();
    IndentedLine(4, "print(1)");
    IndentedLine(4, "if x:");
    IndentedLine(8, "print(2)");
    NonBlankAll([Nest0, Nest1, Nest2, Nest3]);
  }

  lemma NestLens()
    ensures WsLens([Nest0, Nest1, Nest2, Nest3]) == [0, 4, 4, 8]
  {
    NestLine0();
    IndentedLine(4, "print(1)");
    IndentedLine(4, "if x:");
    IndentedLine(8, "print(2)");
  }

  /** Two increases of 4 give the candidates 4, 4. */
  lemma NestCandidates()
    ensures Candidates([0, 4, 4, 8]) == [4, 4]
  {
    var lens := [0, 4, 4, 8];
    assert CandidatesUpTo(lens, 1) == [];
    assert StepCandidate(lens, 1) == [4];
    assert StepCandidate(lens, 2) == [];
    assert StepCandidate(lens, 3) == [4];
  }

  lemma NestWidth()
    ensures IndentSizeOf([4, 4], Space) == 4
  {
    assert [4, 4][..1] == [4];
    assert [4][..0] == [];
    assert Count([4], 4) == Tally(1, 4);
    assert multiset([4, 4])[4] == 2;
  }

  lemma NestNoTabs()
    ensures !HasTabs([Nest0, Nest1, Nest2, Nest3])
  {
    NestLine0();
    IndentedLine(4, "print(1)");
    IndentedLine(4, "if x:");
    IndentedLine(8, "print(2)");
  }

  lemma NestLevels()
    ensures LevelsOf([Nest0, Nest1, Nest2, Nest3], 4) == [0, 1, 1, 2]
  {
    var kept := [Nest0, Nest1, Nest2, Nest3];
    var levels := LevelsOf(kept, 4);
    NestLens();
    assert WsLens(kept)[1] == 4 && WsLens(kept)[2] == 4 && WsLens(kept)[3] == 8;
    LevelsAreWhole(kept, 4);
    assert Whole(0, 4) == 0 && Whole(4, 4) == 1 && Whole(8, 4) == 2;
    SameEntries(levels, [0, 1, 1, 2]);
  }

  /** Each level is the floor quotient of its line's leading run. */
  lemma LevelsAreWhole(kept: seq<string>, size: nat)
    requires size > 0
    ensures forall k :: 0 <= k < |kept| ==> LevelsOf(kept, size)[k] == Whole(WsLens(kept)[k], size)
  {
    var levels := LevelsOf(kept, size);
    forall k | 0 <= k < |kept|
      ensures levels[k] == Whole(WsLens(kept)[k], size)
    {
      FloorUnique(WsLen(kept[k]), size, levels[k]);
    }
  }

  /** The analyzer reads the block as spaces of width 4 at levels 0, 1, 1, 2. */
  lemma NestProfile()
    ensures Analyze(NestBlock) == Profile([0, 1, 1, 2], Space, 4)
  {
    NestLines();
    NestKept();
    NestLens();
    NestCandidates();
    NestWidth();
    NestNoTabs();
    NestLevels();
  }
}
