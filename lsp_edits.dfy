/**
 * The language server's formatting handler: the diff between a document and its formatted
 * text becomes the list of text edits the editor applies to the document. Offsets count
 * UTF-16 code units, as JavaScript string lengths do.
 */
module LspEdits {

  /** A UTF-16 code unit. */
  newtype CodeUnit = x: int | 0 <= x < 0x10000

  type Text = seq<CodeUnit>

  /** The three kinds of diff entries: DIFF_DELETE, DIFF_INSERT and DIFF_EQUAL. */
  datatype Operation = Delete | Insert | Equal

  /** One entry of a diff: the kind and the text it concerns. */
  datatype Diff = Diff(operation: Operation, text: Text)

  /** The range [start, end) of the original document replaced by newText. */
  datatype TextEdit = TextEdit(start: nat, end: nat, newText: Text)

  /** What one entry contributes to the original text: equal and deleted text. */
  function OldPart(d: Diff): Text {
    if d.operation == Insert then [] else d.text
  }

  /** What one entry contributes to the new text: equal and inserted text. */
  function NewPart(d: Diff): Text {
    if d.operation == Delete then [] else d.text
  }

  /** The original text a diff describes. */
  function Original(diffs: seq<Diff>): Text
    decreases |diffs|
  {
    if diffs == [] then [] else Original(diffs[..|diffs| - 1]) + OldPart(diffs[|diffs| - 1])
  }

  /** The new text a diff describes. */
  function Revised(diffs: seq<Diff>): Text
    decreases |diffs|
  {
    if diffs == [] then [] else Revised(diffs[..|diffs| - 1]) + NewPart(diffs[|diffs| - 1])
  }

  /** How far the loop moves the position over one entry: inserted text is not in the original. */
  function Advance(d: Diff): nat {
    match d.operation
    case Delete => |d.text|
    case Insert => 0
    case Equal => |d.text|
  }

  /** The position counter after the given entries, starting at 0. */
  function Position(diffs: seq<Diff>): nat
    decreases |diffs|
  {
    if diffs == [] then 0 else Position(diffs[..|diffs| - 1]) + Advance(diffs[|diffs| - 1])
  }

  /** The edit one entry pushes at the given position: none for equal text. */
  function EditFor(d: Diff, position: nat): seq<TextEdit> {
    match d.operation
    case Delete => [TextEdit(position, position + |d.text|, [])]
    case Insert => [TextEdit(position, position, d.text)]
    case Equal => []
  }

  /** The edits for the given entries, each at the position the entries before it reach. */
  function Edits(diffs: seq<Diff>): seq<TextEdit>
    decreases |diffs|
  {
    if diffs == [] then []
    else
      var init := diffs[..|diffs| - 1];
      Edits(init) + EditFor(diffs[|diffs| - 1], Position(init))
  }

  /**
   * processResults: one pass over the diff with a position counter in the original
   * document; deleted text becomes an edit that removes its range, inserted text an edit
   * that inserts at the position, and equal text only moves the position.
   */
  method ProcessResults(diffs: seq<Diff>) returns (edits: seq<TextEdit>)
    ensures edits == Edits(diffs)
  {
    edits := [];
    var position: nat := 0;
    for i := 0 to |diffs|
      invariant edits == Edits(diffs[..i])
      invariant position == Position(diffs[..i])
    {
      var d := diffs[i];
      assert diffs[..i + 1][..i] == diffs[..i];
      match d.operation {
        case Delete =>
          edits := edits + [TextEdit(position, position + |d.text|, [])];
          position := position + |d.text|;
        case Insert =>
          edits := edits + [TextEdit(position, position, d.text)];
        case Equal =>
          position := position + |d.text|;
      }
    }
    assert diffs[..|diffs|] == diffs;
  }

  /** The final position is the length of the original text: equal plus deleted text. */
  lemma {:induction false} PositionIsOriginalLength(diffs: seq<Diff>)
    ensures Position(diffs) == |Original(diffs)|
    decreases |diffs|
  {
    if diffs != [] {
      PositionIsOriginalLength(diffs[..|diffs| - 1]);
    }
  }

  /** The number of entries that are not equal text. */
  function Changes(diffs: seq<Diff>): nat
    decreases |diffs|
  {
    if diffs == [] then 0
    else Changes(diffs[..|diffs| - 1]) + (if diffs[|diffs| - 1].operation == Equal then 0 else 1)
  }

  /** One edit per inserted or deleted entry, none for equal text. */
  lemma {:induction false} EditCount(diffs: seq<Diff>)
    ensures |Edits(diffs)| == Changes(diffs)
    decreases |diffs|
  {
    if diffs != [] {
      EditCount(diffs[..|diffs| - 1]);
    }
  }

  /**
   * Edits in document order without overlaps, each inside a document of length n: every
   * range is well formed and ends where or before the next one starts.
   */
  predicate Ordered(edits: seq<TextEdit>, n: nat) {
    (forall k | 0 <= k < |edits| :: edits[k].start <= edits[k].end <= n)
    && (forall i, j | 0 <= i < j < |edits| :: edits[i].end <= edits[j].start)
  }

  /**
   * The edits are ordered, so their start positions never decrease, and they lie inside the
   * original text.
   */
  lemma {:induction false} EditsOrdered(diffs: seq<Diff>)
    ensures Ordered(Edits(diffs), Position(diffs))
    ensures forall i, j | 0 <= i < j < |Edits(diffs)| :: Edits(diffs)[i].start <= Edits(diffs)[j].start
    decreases |diffs|
  {
    if diffs != [] {
      var init := diffs[..|diffs| - 1];
      EditsOrdered(init);
      var es := Edits(init);
      var p := Position(init);
      var all := Edits(diffs);
      assert all == es + EditFor(diffs[|diffs| - 1], p);
      forall i, j | 0 <= i < j < |all|
        ensures all[i].end <= all[j].start
      {
        if j >= |es| {
          assert all[j].start == p;
        }
      }
    }
  }

  /** An edit applied to a text: its range replaced by its new text. */
  function ApplyEdit(t: Text, e: TextEdit): (r: Text)
    requires e.start <= e.end <= |t|
    ensures |r| == |t| - (e.end - e.start) + |e.newText|
  {
    t[..e.start] + e.newText + t[e.end..]
  }

  /**
   * Edits applied to the document they were computed on: the last one first, so the offsets
   * of the earlier ones still hold. An edit whose range lies outside the text is skipped;
   * ordered edits inside the document never are.
   */
  function ApplyEdits(t: Text, edits: seq<TextEdit>): Text
    decreases |edits|
  {
    if edits == [] then t
    else
      var last := edits[|edits| - 1];
      var init := edits[..|edits| - 1];
      if last.start <= last.end <= |t| then ApplyEdits(ApplyEdit(t, last), init)
      else ApplyEdits(t, init)
  }

  /** Edits inside x do not touch text appended after x. */
  lemma {:induction false} ApplyEditsAppend(x: Text, y: Text, edits: seq<TextEdit>)
    requires Ordered(edits, |x|)
    ensures Ordered(edits, |x + y|)
    ensures ApplyEdits(x + y, edits) == ApplyEdits(x, edits) + y
    decreases |edits|
  {
    if edits != [] {
      var last := edits[|edits| - 1];
      var init := edits[..|edits| - 1];
      var x' := ApplyEdit(x, last);
      assert ApplyEdit(x + y, last) == x' + y by {
        assert (x + y)[..last.start] == x[..last.start];
        assert (x + y)[last.end..] == x[last.end..] + y;
      }
      assert Ordered(init, |x'|) by {
        forall k | 0 <= k < |init|
          ensures init[k].end <= last.start
        {
          assert init[k] == edits[k];
        }
      }
      ApplyEditsAppend(x', y, init);
    }
  }

  /** Equal text appended to the original is appended, untouched, to the result. */
  lemma EqualStep(o: Text, es: seq<TextEdit>, t: Text, rev: Text)
    requires Ordered(es, |o|) && ApplyEdits(o, es) == rev
    ensures Ordered(es, |o + t|) && ApplyEdits(o + t, es) == rev + t
  {
    ApplyEditsAppend(o, t, es);
  }

  /** An edit at the end of x comes after all the ordered edits inside x. */
  lemma OrderedSnoc(es: seq<TextEdit>, e: TextEdit, x: nat, n: nat)
    requires Ordered(es, x) && x <= e.start <= e.end <= n && x <= n
    ensures Ordered(es + [e], n)
  {
    var all := es + [e];
    forall k | 0 <= k < |all|
      ensures all[k].start <= all[k].end <= n
    {
      if k < |es| {
        assert all[k] == es[k];
      }
    }
    forall i, j | 0 <= i < j < |all|
      ensures all[i].end <= all[j].start
    {
      assert all[i] == es[i];
      if j < |es| {
        assert all[j] == es[j];
      }
    }
  }

  /** Deleted text appended to the original is removed again by the edit pushed for it. */
  lemma DeleteStep(o: Text, es: seq<TextEdit>, t: Text, rev: Text, o': Text, es': seq<TextEdit>)
    requires Ordered(es, |o|) && ApplyEdits(o, es) == rev
    requires o' == o + t && es' == es + [TextEdit(|o|, |o| + |t|, [])]
    ensures Ordered(es', |o'|) && ApplyEdits(o', es') == rev
  {
    var e := TextEdit(|o|, |o| + |t|, []);
    OrderedSnoc(es, e, |o|, |o'|);
    assert es'[..|es|] == es;
    assert ApplyEdit(o', e) == o by {
      assert o'[..|o|] == o;
    }
  }

  /** Inserted text is added at the end of the original by the edit pushed for it. */
  lemma InsertStep(o: Text, es: seq<TextEdit>, t: Text, rev: Text)
    requires Ordered(es, |o|) && ApplyEdits(o, es) == rev
    ensures Ordered(es + [TextEdit(|o|, |o|, t)], |o|)
    ensures ApplyEdits(o, es + [TextEdit(|o|, |o|, t)]) == rev + t
  {
    var e := TextEdit(|o|, |o|, t);
    var all := es + [e];
    assert all[..|es|] == es;
    assert ApplyEdit(o, e) == o + t by {
      assert o[..|o|] == o;
    }
    ApplyEditsAppend(o, t, es);
  }

  /** What the edits do to the original text: the new text, without leaving the document. */
  predicate EditsRevise(diffs: seq<Diff>) {
    Ordered(Edits(diffs), |Original(diffs)|)
    && ApplyEdits(Original(diffs), Edits(diffs)) == Revised(diffs)
  }

  /** The three descriptions of a non-empty diff, one entry shorter plus that entry. */
  lemma LastEntry(diffs: seq<Diff>)
    requires diffs != []
    ensures var init := diffs[..|diffs| - 1];
            var d := diffs[|diffs| - 1];
            && Edits(diffs) == Edits(init) + EditFor(d, |Original(init)|)
            && Original(diffs) == Original(init) + OldPart(d)
            && Revised(diffs) == Revised(init) + NewPart(d)
  {
    PositionIsOriginalLength(diffs[..|diffs| - 1]);
  }

  /**
   * One more entry: equal text pushes no edit and moves the position by its length; deleted
   * text pushes an edit spanning it with no new text, starting where the original read so far
   * ends; inserted text pushes an empty range there carrying the text and leaves the position.
   */
  lemma EntryEdit(diffs: seq<Diff>, d: Diff)
    ensures var o := |Original(diffs)|;
            && (d.operation == Equal ==>
                  Edits(diffs + [d]) == Edits(diffs) && Position(diffs + [d]) == o + |d.text|)
            && (d.operation == Delete ==>
                  Edits(diffs + [d]) == Edits(diffs) + [TextEdit(o, o + |d.text|, [])]
                  && Position(diffs + [d]) == o + |d.text|)
            && (d.operation == Insert ==>
                  Edits(diffs + [d]) == Edits(diffs) + [TextEdit(o, o, d.text)]
                  && Position(diffs + [d]) == o)
  {
    assert (diffs + [d])[..|diffs|] == diffs;
    PositionIsOriginalLength(diffs);
    assert Edits(diffs) + [] == Edits(diffs);
  }

  /** The induction step for a final equal entry. */
  lemma EqualEntry(diffs: seq<Diff>)
    requires diffs != [] && diffs[|diffs| - 1].operation == Equal
    requires EditsRevise(diffs[..|diffs| - 1])
    ensures EditsRevise(diffs)
  {
    var init := diffs[..|diffs| - 1];
    var t := diffs[|diffs| - 1].text;
    LastEntry(diffs);
    assert Edits(init) + [] == Edits(init);
    EqualStep(Original(init), Edits(init), t, Revised(init));
  }

  /** A final deleted entry adds its text to the original and one edit removing it. */
  lemma DeleteEntryShape(diffs: seq<Diff>)
    requires diffs != [] && diffs[|diffs| - 1].operation == Delete
    ensures var init := diffs[..|diffs| - 1];
            var o := Original(init);
            var t := diffs[|diffs| - 1].text;
            && Edits(diffs) == Edits(init) + [TextEdit(|o|, |o| + |t|, [])]
            && Original(diffs) == o + t
            && Revised(diffs) == Revised(init)
  {
    var init := diffs[..|diffs| - 1];
    LastEntry(diffs);
    assert Revised(init) + [] == Revised(init);
  }

  /** The induction step for a final deleted entry. */
  lemma DeleteEntry(diffs: seq<Diff>)
    requires diffs != [] && diffs[|diffs| - 1].operation == Delete
    requires EditsRevise(diffs[..|diffs| - 1])
    ensures EditsRevise(diffs)
  {
    var init := diffs[..|diffs| - 1];
    DeleteEntryShape(diffs);
    DeleteStep(Original(init), Edits(init), diffs[|diffs| - 1].text, Revised(init), Original(diffs), Edits(diffs));
  }

  /** The induction step for a final inserted entry. */
  lemma InsertEntry(diffs: seq<Diff>)
    requires diffs != [] && diffs[|diffs| - 1].operation == Insert
    requires EditsRevise(diffs[..|diffs| - 1])
    ensures EditsRevise(diffs)
  {
    var init := diffs[..|diffs| - 1];
    var t := diffs[|diffs| - 1].text;
    LastEntry(diffs);
    assert Original(init) + [] == Original(init);
    InsertStep(Original(init), Edits(init), t, Revised(init));
  }

  /**
   * Applying the edits to the original text the diff describes gives the new text it
   * describes: the formatted document.
   */
  lemma {:induction false} EditsProduceRevised(diffs: seq<Diff>)
    ensures Ordered(Edits(diffs), |Original(diffs)|)
    ensures ApplyEdits(Original(diffs), Edits(diffs)) == Revised(diffs)
    decreases |diffs|
  {
    if diffs != [] {
      EditsProduceRevised(diffs[..|diffs| - 1]);
      match diffs[|diffs| - 1].operation {
        case Equal => EqualEntry(diffs);
        case Delete => DeleteEntry(diffs);
        case Insert => InsertEntry(diffs);
      }
    }
  }

  /**
   * For a diff of the document against the formatted text (equal and deleted parts spell
   * the document, equal and inserted parts the formatted text), the edits processResults
   * returns turn the document into the formatted text.
   */
  lemma FormattingEditsFormat(document: Text, formatted: Text, diffs: seq<Diff>)
    requires Original(diffs) == document && Revised(diffs) == formatted
    ensures Ordered(Edits(diffs), |document|)
    ensures ApplyEdits(document, Edits(diffs)) == formatted
  {
    EditsProduceRevised(diffs);
  }
}
