/** SetProcessId on its own output. */
module ProcessTrip {
  import opened Texts
  import opened Attrs
  import opened Trees
  import opened ProcessIds
  import opened ProcessTrees
  import opened Reading
  import opened TokenTrip
  import opened P = Printing
  import opened Lexing
  import opened TextTrip
  import opened Returns
  import opened Retouching
  import opened Reader
  import opened Deployment
  import opened TopicTrip

  // ---------------------------------------------------------------- numbering changes values only

  lemma NumberedIdClean(id: string, i: nat)
    requires Clean(id)
    ensures Clean(NumberedId(id, i))
  {
    var n := NormalizedId(id);
    assert Clean(n);
    assert Clean("_");
    assert Clean(Itoa(i));
  }

  lemma IdSetRetouched(attrs: seq<Attr>, v: string)
    requires Clean(v)
    ensures RetouchedAttrs(attrs, IdSet(attrs, v)) && RetouchedAttrs(attrs, attrs)
  {
    hide Clean;
  }

  lemma {:induction false} RehungRetouched(ts: seq<Tree>, n: nat, id: string, kids: seq<Tree>)
    requires Clean(id) && RetouchedAll(KidsOfTrees(ts), kids) && |kids| == |KidsOfTrees(ts)|
    ensures RetouchedAll(ts, Rehung(ts, n, id, kids))
  {
    hide Clean, NumberedId, IdSet, RetouchedAttrs;
    if ts != [] {
      var t, k, m := ts[0], |ts[0].kids|, if IsProcess(ts[0]) then n + 1 else n;
      RetouchedParts(t.kids, KidsOfTrees(ts[1..]), kids);
      RehungRetouched(ts[1..], m, id, kids[k..]);
      NumberedIdClean(id, n);
      IdSetRetouched(t.attr, NumberedId(id, n));
      assert Rehung(ts, n, id, kids)[1..] == Rehung(ts[1..], m, id, kids[k..]);
    }
  }

  lemma {:induction false} NumberedRetouched(ts: seq<Tree>, n: nat, id: string)
    requires Clean(id)
    ensures RetouchedAll(ts, NumberedTrees(ts, n, id))
    decreases Size(ts)
  {
    hide Clean, Rehung, Retouched;
    if ts != [] {
      SizeOfKids(ts);
      NumberedRetouched(KidsOfTrees(ts), n + ProcessCount(ts), id);
      RehungRetouched(ts, n, id, NumberedTrees(KidsOfTrees(ts), n + ProcessCount(ts), id));
    }
  }

  // ---------------------------------------------------------------- twice

  /** SetProcessId on the text that it has written gives the same text again, if that can be read back. */
  method NumberTwice(raws: seq<Raw>, id: string) returns (once: Result, twice: Result)
    requires !DocumentOf(raws).overrun && Clean(id)
    requires PrintableAll(DocumentOf(raws).doc.kids) && CleanTrees(DocumentOf(raws).doc.kids)
    ensures once == Done(PrintAll(DEFAULT, NumberedTrees(DocumentOf(raws).doc.kids, 0, id)))
    ensures twice == once
  {
    hide PrintAll, DocumentOf, Tokens, NumberedTrees, PrintableAll, CleanTrees, SoundAll, NormalAll, RetouchedAll;
    hide Clean;
    ghost var ts := DocumentOf(raws).doc.kids;
    ghost var numbered := NumberedTrees(ts, 0, id);
    once := SetProcessId(raws, EndOfFile, id);
    DocumentRead(raws);
    NumberedRetouched(ts, 0, id);
    RetouchedAllKept(ts, numbered);
    ChangedRead(numbered);
    NumberedTreesTwice(ts, 0, id);
    twice := SetProcessId(Tokens(once.text).value, EndOfFile, id);
  }
}
