/**
 * Where pasted code goes: the indentation depth at the cursor.
 *
 * The source computes a level `wsLen / indentSize` (plus one after a block
 * opener) as a floating-point number and multiplies it back by `indentSize`
 * when it builds the new indentation. The model keeps that quantity in exact
 * columns: `TargetColumns` is the level times the unit width, so the level
 * itself is `TargetColumns / indentSize` read as an exact fraction.
 */
module Target {
  import opened Optional
  import opened Text

  /** The backward scan of the document for the nearest non-blank line above
      line `line`. */
  function NearestNonBlankAbove(doc: seq<string>, line: nat): (r: Option<nat>)
    requires line <= |doc|
    ensures r.Some? ==> r.value < line && !IsBlank(doc[r.value])
    ensures r.Some? ==> forall j :: r.value < j < line ==> IsBlank(doc[j])
    ensures r.None? ==> forall j :: 0 <= j < line ==> IsBlank(doc[j])
    decreases line
  {
    if line == 0 then None
    else if !IsBlank(doc[line - 1]) then Some(line - 1)
    else NearestNonBlankAbove(doc, line - 1)
  }

  /** Line `a` is the line a blank cursor line takes its depth from: the last
      non-blank line above the cursor. */
  predicate IsAnchor(doc: seq<string>, line: nat, a: nat)
    requires line < |doc|
  {
    && a < line
    && !IsBlank(doc[a])
    && forall j :: a < j < line ==> IsBlank(doc[j])
  }

  /** Columns of one more block level when `opens` holds, none otherwise. */
  function Opening(opens: bool, size: nat): nat
  {
    if opens then size else 0
  }

  /**
   * The target depth, in columns, for a paste at line `line`, column `col`
   * of `doc`, with the pasted block's unit width `size`. A trailing colon is
   * the only block-opening signal.
   */
  function TargetColumns(doc: seq<string>, line: nat, col: nat, size: nat): (cols: nat)
    requires line < |doc|
    ensures IsBlank(doc[line]) && (forall j :: 0 <= j < line ==> IsBlank(doc[j])) ==> cols == 0
    ensures forall a: nat :: IsBlank(doc[line]) && IsAnchor(doc, line, a) ==>
      cols == WsLen(doc[a]) + Opening(EndsWithColon(doc[a]), size)
    ensures !IsBlank(doc[line]) ==>
      cols == WsLen(doc[line]) + Opening(EndsWithColon(doc[line]) && col >= |doc[line]|, size)
  {
    if IsBlank(doc[line]) then
      match NearestNonBlankAbove(doc, line)
      case Some(a) =>
        AnchorUnique(doc, line, a);
        WsLen(doc[a]) + Opening(EndsWithColon(doc[a]), size)
      case None => 0
    else
      var opens := EndsWithColon(doc[line]) && col >= |doc[line]|;
      WsLen(doc[line]) + Opening(opens, size)
  }

  /** There is at most one anchor. */
  lemma AnchorUnique(doc: seq<string>, line: nat, a: nat)
    requires line < |doc| && IsAnchor(doc, line, a)
    ensures forall b: nat :: IsAnchor(doc, line, b) ==> b == a
  {
  }
}
