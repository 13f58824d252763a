# Python paste re-indentation, modelled in Dafny

The extension re-indents a block of Python code so that it fits where it is
pasted. It also removes the common indentation of a selection. This project
models the pure logic of `src/python_indentation.ts`, which has four parts.

- **The analyzer** (`analyzePythonIndentation`) is modules `Text`,
  `Frequency` and `Analyzer`.
  - It splits the text on line feeds and keeps the non-blank lines.
  - It measures each kept line's leading whitespace.
  - It classifies the block as tab- or space-indented.
  - It collects candidate unit widths from indentation increases, and from
    dedents back to an earlier shallower line.
  - It picks the most frequent candidate as the unit width.
  - It records `floor(width / unit)` as each kept line's level.
- **Target depth** (module `Target`) is the depth at the cursor where the
  block is pasted. A trailing colon is the only block-opening signal.
- **The paste re-indenter** (module `Paste`) rewrites every clipboard line.
  Each non-blank line gets spaces for the target depth plus its level
  difference from the reference level. Blank lines become empty.
- **Strip to minimum** (module `Strip`) is the pure part of
  `stripLeadingIndentation`. It removes the shallowest recorded level's
  columns from every selected line.

Module `Examples` works through small concrete blocks.
- One shows the tie-break of the frequency count.
- One shows the behaviour described under "## Findings".

Module `Walkthrough` states the outcome of whole commands on three small
blocks.
- A block indented by 12 and 16 spaces, pasted at depth 0.
- A line pasted on the empty line under `def function():`.
- A two-deep block whose analysis gives levels 0, 1, 1, 2.

Text is `seq<char>`. A tab counts as one column everywhere, as in the
source. Whitespace is the character class of the `\s` regular-expression
escape. That same class drives leading-run extraction, `trim` and
`trimLeft`.

The source computes the target depth as a possibly fractional level. The
model keeps it in exact columns instead: the level times the unit width.
Depth arithmetic uses `Units(n, size)`, which is `n * size` spelled out by
repetition (`Analyzer.UnitsIsProduct`). Floor division is `Whole(w, size)`.

The host (VS Code) is replaced by parameters:
- the document lines, the cursor line and column, and the clipboard text for
  `Paste.HandlePaste`;
- the selected text for `Strip.StripLeadingIndentation`.

Two facts about the code shape the model.
- **Re-indenting.** The code shifts every line by its level minus
  `levels[0]`, and always writes spaces (`Paste.ReformatLines`).
- **Tie-break.** The code replaces its answer only on a strictly greater
  count, so ties go to the width whose count reached the maximum first, not
  the width seen first (`Frequency.CountIsMostFrequent`,
  `Examples.TieGoesToFirstToReach`).

## Model

| member | source | states |
|---|---|---|
| Text.WsLen | src/python_indentation.ts:24-27 | the leading run is the longest whitespace-only prefix: every character before it is whitespace, the next one is not |
| Text.IsBlank | src/python_indentation.ts:21 | a line trims to nothing exactly when every character is whitespace, that is when its leading run is the whole line |
| Text.TrimLeftShape | src/python_indentation.ts:186 | `trimLeft()` removes only whitespace and keeps a suffix of the line that is empty or starts with non-whitespace |
| Text.TrimShape | src/python_indentation.ts:21 | `trim()` keeps the slice after the leading run that ends at the last non-whitespace character; everything around it is whitespace |
| Text.EndsWithColon | src/python_indentation.ts:142 | a trimmed line ends with `:` exactly when some colon in the line has only whitespace after it |
| Text.Split | src/python_indentation.ts:18 | splitting on `'\n'` yields at least one piece and no piece contains a line feed |
| Text.SplitCount | src/python_indentation.ts:161 | a text splits into one more line than it has line feeds |
| Text.JoinEnds | src/python_indentation.ts:189 | `.join('\n')` starts with the first line and ends with the last |
| Text.JoinSeparators | src/python_indentation.ts:189 | lines free of line feeds are joined with exactly one line feed between neighbours, one fewer than there are lines |
| Text.JoinSplit | src/python_indentation.ts:161-189 | joining the split pieces with `'\n'` gives back the original text |
| Text.SplitJoin | src/python_indentation.ts:186-189 | splitting the joined lines gives back the lines when none contains a line feed, so rewritten lines keep their count and order |
| Text.NonBlankLines | src/python_indentation.ts:21 | a line is kept exactly when it is a non-blank line of the block, and the kept list is no longer than the block; `Text.KeptAtRank` and `Text.NonBlankCount` pin down its entries and count |
| Text.NonBlankAll | src/python_indentation.ts:21 | a block without blank lines is kept whole, in order |
| Text.RankIndexes | src/python_indentation.ts:21 | a non-blank line with k non-blank lines before it is entry k of the kept lines, the index its level is recorded at |
| Text.RankMonotone | src/python_indentation.ts:21 | an earlier non-blank line has a smaller rank, so the filter keeps the document order |
| Text.KeptAtRank | src/python_indentation.ts:21 | every entry of the kept list is the non-blank line of that rank, so the list holds nothing but the non-blank lines |
| Text.NonBlankCount | src/python_indentation.ts:21 | the kept list has exactly as many entries as the block has non-blank lines |
| Text.Spaces | src/python_indentation.ts:183 | `' '.repeat(n)` has length n and only spaces |
| Frequency.CountIsMostFrequent | src/python_indentation.ts:60-77 | the count ends with a width of maximal count; among tied widths it is the one whose count reached the maximum first; with no widths it keeps the initial answer with count 0 |
| Frequency.Count | src/python_indentation.ts:66-72 | without widths the answer is the initial width with count 0; otherwise the answer is one of the widths and its count is that width's number of occurrences |
| Frequency.MostFrequent | src/python_indentation.ts:62-72 | the loop with its count map ends with the answer and count of the ordered count, a width of maximal count that is first to reach it |
| Analyzer.DedentAnchor | src/python_indentation.ts:47-53 | the backward search finds the nearest earlier line shallower than both the previous and the current line, or reports that none exists |
| Analyzer.FindAnchor | src/python_indentation.ts:47-53 | the inner loop with its `break` returns what the backward search defines |
| Analyzer.StepCandidate | src/python_indentation.ts:36-55 | an increase contributes the step; a dedent to a non-zero depth contributes the distance to the nearest anchor exactly when there is one; equal depth or depth 0 contributes nothing; every candidate is positive |
| Analyzer.CandidatesUpTo | src/python_indentation.ts:34-55 | the candidates collected so far are all positive and fewer than the lines scanned |
| Analyzer.CollectCandidates | src/python_indentation.ts:34-55 | the nested loops collect exactly the candidate list, all positive, fewer than the kept lines |
| Analyzer.IndentSizeOf | src/python_indentation.ts:57-77 | the unit width is at least 1; it is the character's default without candidates, and otherwise a candidate of maximal count, the first to reach that count |
| Analyzer.LevelsOf | src/python_indentation.ts:80-82 | one level per kept line, each the number of whole units in that line's leading run |
| Analyzer.WholeFits | src/python_indentation.ts:81 | the floor quotient `l` satisfies `l*size <= w < (l+1)*size` |
| Analyzer.FloorUnique | src/python_indentation.ts:81 | only the floor quotient satisfies those bounds |
| Analyzer.UnitsIsProduct | src/python_indentation.ts:183 | the repeated-addition depth equals level times unit width |
| Analyzer.Analyze | src/python_indentation.ts:12-89 | one level per non-blank line, each fitting that line's leading run, and a unit width of at least 1 |
| Analyzer.AnalyzeChar | src/python_indentation.ts:29-31 | the block is tab-indented exactly when some non-blank line's leading whitespace contains a tab |
| Analyzer.AnalyzeUnit | src/python_indentation.ts:57-77 | the unit width is the default of the indentation character when the kept lines show no step, and otherwise a most frequent candidate, the first to reach the maximum count |
| Analyzer.LevelOfLine | src/python_indentation.ts:80-82 | a non-blank line's level is recorded at its rank among the non-blank lines and equals `floor(width / unit)` |
| Analyzer.AnalyzeBlank | src/python_indentation.ts:21-58 | a block of blank lines gets no levels, spaces and width 4 |
| Analyzer.AnalyzeEmpty | src/python_indentation.ts:18-58 | the empty text gets no levels, spaces and width 4 |
| Target.NearestNonBlankAbove | src/python_indentation.ts:134-149 | the upward scan finds the nearest non-blank line above the cursor, or reports that every line above is blank |
| Target.TargetColumns | src/python_indentation.ts:131-158 | blank cursor line: the nearest non-blank line's depth above, plus one unit if it ends with a colon, or 0 without such a line; non-blank cursor line: its own depth, plus one unit if it ends with a colon and the cursor is at or past its end |
| Paste.ReformatLine | src/python_indentation.ts:162-187 | a blank line becomes empty; any other line gets exactly n spaces of leading whitespace and keeps its text after the leading run |
| Paste.ReformatLines | src/python_indentation.ts:161-187 | every line is rewritten in place; a non-blank line at index i gets depth `max(0, target + (levels[i] - levels[0]) * unit)`, missing levels read as 0 |
| Paste.Reindent | src/python_indentation.ts:161-189 | the pasted text keeps its line count; blank lines become empty; non-blank lines get the computed depth as spaces, no tab, and their text after the leading run unchanged |
| Paste.HandlePaste | src/python_indentation.ts:116-189 | an empty clipboard inserts nothing; otherwise the insertion keeps the clipboard's line count and empties its blank lines; a non-blank first line lands at the target depth |
| Paste.ReindentShift | src/python_indentation.ts:168-183 | two non-blank lines that are not clamped at 0 end up as far apart as their looked-up levels times the unit |
| Paste.ReindentLines | src/python_indentation.ts:161-189 | the lines of the inserted text are the rewritten clipboard lines |
| Paste.ReindentAgreesBeforeBlank | src/python_indentation.ts:168 | the lookup by line index and the lookup by rank give the same line when no blank line precedes it |
| Paste.ReindentAligned | src/python_indentation.ts:161-189 | as `Reindent`, with each line's level read at its rank among the non-blank lines |
| Paste.ReformatLinesAligned | src/python_indentation.ts:161-187 | every line is rewritten in place; a non-blank line gets `max(0, target + (levels[rank] - levels[0]) * unit)` spaces, where rank counts the non-blank lines before it |
| Paste.AlignedUsesOwnLevel | src/python_indentation.ts:168-177 | with the analyzer's profile, each non-blank line is shifted by its own level minus the first non-blank line's level |
| Paste.FirstLevelIsRecorded | src/python_indentation.ts:171 | `levels[0]` is the level of the first non-blank line |
| Paste.AlignedKeepsNesting | src/python_indentation.ts:168-183 | two unclamped non-blank lines end up exactly as far apart as their original levels times the unit: relative nesting is preserved |
| Paste.AlignedFirstAtTarget | src/python_indentation.ts:171-177 | the first non-blank pasted line lands exactly at the target depth |
| Strip.MinFrom | src/python_indentation.ts:227-242 | the minimum fold from `MAX_SAFE_INTEGER` is at most every level and is either the start value or one of the levels |
| Strip.StripLine | src/python_indentation.ts:251-265 | a blank line becomes empty; another line loses up to `chars` leading columns, never past its leading run, and keeps the rest as a suffix |
| Strip.StripText | src/python_indentation.ts:251-268 | the stripped text keeps the line count and each line is the stripped original line |
| Strip.NoNonBlank | src/python_indentation.ts:230-236 | the filter finds no line exactly when every line is blank |
| Strip.StripLeadingIndentation | src/python_indentation.ts:224-268 | nothing happens exactly when all lines are blank; a stripped selection removes at least one level, keeps the line count, empties blank lines and keeps every line's text after its leading run |
| Strip.StripCode | src/python_indentation.ts:238-265 | for a selection known to hold code, the outcome is never "no code"; a strip removes at least one level, keeps the line count, empties blank lines and keeps every line's text after its leading run |
| Strip.CodeOutcome | src/python_indentation.ts:238-265 | for a selection with code, the outcome depends only on the minimum level: 0 means no edit, otherwise the text loses that many units |
| Strip.ZeroLevelIffShallow | src/python_indentation.ts:244-248 | a line is at level 0 exactly when its leading run is narrower than one unit |
| Strip.MinFromZero | src/python_indentation.ts:238-248 | the minimum is 0 exactly when some level is 0 |
| Strip.StripMinimal | src/python_indentation.ts:238-248 | a selection with code is left alone exactly when some non-blank line is indented by less than one unit |
| Strip.StripRemovesWholeLevels | src/python_indentation.ts:256-264 | every non-blank line loses exactly `minLevel * unit` columns, all whitespace, so the `Math.min` guard never truncates |
| Strip.MinimumIsALevel | src/python_indentation.ts:227-242 | the minimum found is the level of some non-blank selected line |
| Strip.StripReachesMinimum | src/python_indentation.ts:227-268 | after stripping, some non-blank line is indented by less than one unit |
| Examples.TieGoesToFirstToReach | src/python_indentation.ts:66-72 | for widths 2, 4, 4, 2 the answer is 4 with count 2, although 2 was seen first |
| Examples.FindingBlockProfile | src/python_indentation.ts:12-89 | the block blank line, `x`, four spaces plus `y` analyzes to levels [0, 1], spaces, width 4 |
| Examples.AsWrittenInvertsNesting | src/python_indentation.ts:168-171 | pasting that block at depth 0 puts `x` one unit deep and `y` at depth 0 |
| Examples.AlignedKeepsFindingBlock | src/python_indentation.ts:168 | with the lookup by rank, the same paste keeps `x` at depth 0 and `y` one unit deeper |
| Walkthrough.NestProfile | src/python_indentation.ts:12-89 | `"if True:\n    print(1)\n    if x:\n        print(2)"` analyzes to levels [0, 1, 1, 2], spaces, width 4 |
| Walkthrough.DeepProfile | src/python_indentation.ts:12-89 | a block of lines indented by 12 and 16 spaces analyzes to levels [3, 4], spaces, width 4 |
| Walkthrough.DeepPastedAtZero | src/python_indentation.ts:161-189 | that block pasted at depth 0 becomes `"a = 1\n    b = 2"` |
| Walkthrough.OneLineProfile | src/python_indentation.ts:12-89 | a single unindented line analyzes to level 0, spaces and the default width 4 |
| Walkthrough.OpenerTarget | src/python_indentation.ts:134-147 | on the empty line below `def function():` the target depth is one unit of 4 |
| Walkthrough.PasteUnderOpener | src/python_indentation.ts:116-189 | pasting `print("hello")` there inserts it four spaces deep |

## Left out

- The host API is left out: the active-editor and language checks, the fallback paste command, the clipboard read, `editor.edit` insert/replace, and the information messages (`src/python_indentation.ts:107-113`, `192-198`, `206-221`, `271-277`). These are I/O. Their inputs are parameters instead.
- The selection-empty check of the strip command is left out. It is a host-side guard.
- `testAnalyzer` is left out. It only logs to the console.
- `src/logging.ts`, `src/extension.ts` and the test suites are not part of this model. They are logging, command registration and test glue.
- The host's `isEmptyOrWhitespace` on document lines is modelled as `Text.IsBlank`, the same whitespace test as `trim`.
- Target.TargetColumns: states the depth in exact columns. The fractional level `columns / unit` and IEEE-754 rounding, together with the truncation of `' '.repeat` of a non-integer count, are not modelled.
- Paste.HandlePaste: fixes only the first line's depth, and only when that line is non-blank. `Paste.Reindent` states every other line through the looked-up levels.
- Strip.StripReachesMinimum: needs one non-blank line of at most `Number.MAX_SAFE_INTEGER` columns. With wider lines the minimum search can stop at its start value. Exact integers replace JavaScript numbers throughout.
- The regular-expression and Unicode details of `\s` and `trim` beyond the character class itself are left out: no surrogate pairs and no normalisation.
- Re-analysing a re-indented block (reindent to depth 0, then analyze again) is not related to the first analysis. The second analysis may infer a different unit width from the rewritten text.

## Findings

| source | as written | input that shows it | evidently intended | confidence | as-written member | corrected member |
|---|---|---|---|---|---|---|
| src/python_indentation.ts:168 | the level of pasted line `index` is read as `levels[index]`, but `levels` has one entry per non-blank line, so every blank line shifts the lookup of the lines after it | clipboard `"\nx\n    y"` pasted at depth 0 gives `"\n    x\ny"` | `"\nx\n    y"`: each line keeps its own level, so `y` stays nested under `x` | high; not executed | Paste.Reindent (Examples.AsWrittenInvertsNesting) | Paste.ReindentAligned (Paste.AlignedKeepsNesting, Paste.AlignedFirstAtTarget, Examples.AlignedKeepsFindingBlock) |

The two lookups agree on every line that no blank line precedes
(`Paste.ReindentAgreesBeforeBlank`), so the defect needs a blank line inside
the pasted block or before its first line. `Paste.HandlePaste` keeps the
lookup as written, because it models what the command does.
