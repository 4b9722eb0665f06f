/** Replacing topics in a text, and replacing them back in the text that comes out. */
module TopicTrip {
  import opened Attrs
  import opened Trees
  import opened Renaming
  import opened TopicTrees
  import opened Reading
  import opened TokenTrip
  import opened P = Printing
  import opened Lexing
  import opened TextTrip
  import opened Returns
  import opened Retouching
  import opened TopicPath
  import opened PathSpelling
  import opened Reader
  import opened Deployment

  /** The text that ReplaceTaskTopics writes when nothing goes wrong, for a map without chains. */
  function Replacement(raws: seq<Raw>, m: map<string, string>): string {
    PrintAll(DEFAULT, TranslatedAll(DocumentOf(raws).doc.kids, m))
  }

  /** Whatever the iteration order, that is the text which module Deployment proves to be written. */
  lemma ReplacementIs(raws: seq<Raw>, m: map<string, string>, keys: seq<string>)
    requires Settled(m) && Orders(keys, m)
    ensures forall i :: 0 <= i < |keys| ==> keys[i] in m
    ensures PrintAll(DEFAULT, RetopicedTrees(DocumentOf(raws).doc.kids, m, keys)) == Replacement(raws, m)
  {
    hide DocumentOf, PrintAll;
    OrderKeys(m, keys);
    RetopicedAreTranslated(DocumentOf(raws).doc.kids, m, keys);
  }

  // ---------------------------------------------------------------- what has been read needs no normalising

  /** Every tree that is read is in normal form and sound. */
  ghost predicate ReadForm(ts: seq<Tree>) {
    NormalAll(ts) == ts && SoundAll(ts)
  }

  ghost predicate FramesRead(frames: seq<Frame>) {
    forall i :: 0 <= i < |frames| ==> ReadForm(frames[i].kids) && frames[i].kind.Element? && UniqueAttrs(frames[i].attr)
  }

  lemma {:induction false} ReadFormNext(ts: seq<Tree>, t: Tree)
    requires ReadForm(ts) && Normal(t) == t && Sound(t)
    ensures ReadForm(ts + [t])
  {
    hide Normal, Sound;
    if ts == [] {
      assert ts + [t] == [t];
    } else {
      assert ts == [ts[0]] + ts[1..];
      assert NormalAll(ts)[1..] == NormalAll(ts[1..]);
      ReadFormNext(ts[1..], t);
      assert (ts + [t])[1..] == ts[1..] + [t];
    }
  }

  lemma FrameClosed(f: Frame)
    requires ReadForm(f.kids) && f.kind.Element? && UniqueAttrs(f.attr)
    ensures Normal(Closed(f)) == Closed(f) && Sound(Closed(f))
  {
  }

  lemma LeafRead(raw: Raw)
    requires !raw.Start? && !raw.End?
    ensures var t := Tree(LeafKind(raw), [], []); Normal(t) == t && Sound(t)
  {
  }

  lemma FedRead(frames: seq<Frame>, raw: Raw)
    requires frames != [] && FramesRead(frames) && !ClosesAll(frames, raw)
    ensures FramesRead(Fed(frames, raw))
  {
    hide ReadForm, NormalAll, SoundAll;
    var n := |frames| - 1;
    match raw
    case Start(space, tag, attr) =>
      WithAttrsUnique([], attr);
      NothingRead();
    case End(_, _) =>
      FrameClosed(frames[n]);
      ReadFormNext(frames[n - 1].kids, Closed(frames[n]));
    case _ =>
      LeafRead(raw);
      ReadFormNext(frames[n].kids, Tree(LeafKind(raw), [], []));
  }

  lemma NothingRead()
    ensures ReadForm([])
  {
  }

  lemma {:induction false} ZippedRead(frames: seq<Frame>)
    requires frames != [] && FramesRead(frames)
    ensures ReadForm(Zipped(frames).kids) && Normal(Zipped(frames)) == Zipped(frames) && Sound(Zipped(frames))
  {
    hide ReadForm, NormalAll, SoundAll;
    var f := frames[0];
    if |frames| > 1 {
      ZippedRead(frames[1..]);
      ReadFormNext(f.kids, Zipped(frames[1..]));
      FrameClosed(Frame(f.kind, f.attr, f.kids + [Zipped(frames[1..])]));
    } else {
      assert f.kids + [] == f.kids;
      FrameClosed(f);
    }
  }

  lemma {:induction false} BuiltRead(frames: seq<Frame>, raws: seq<Raw>)
    requires frames != [] && FramesRead(frames)
    ensures ReadForm(Build(frames, raws).doc.kids)
    decreases |raws|
  {
    hide ReadForm, Fed, Zipped;
    if raws == [] {
      ZippedRead(frames);
    } else if !ClosesAll(frames, raws[0]) {
      FedRead(frames, raws[0]);
      BuiltRead(Fed(frames, raws[0]), raws[1..]);
    }
  }

  lemma DocumentRead(raws: seq<Raw>)
    ensures ReadForm(DocumentOf(raws).doc.kids)
  {
    hide ReadForm, Build;
    NothingRead();
    BuiltRead([Frame(DOCUMENT, [], [])], raws);
  }

  // ---------------------------------------------------------------- replacing topics changes values only

  lemma {:induction false} TranslatedRetouched(t: Tree, m: map<string, string>)
    requires forall k :: k in m ==> Clean(m[k])
    ensures Retouched(t, Translated(t, m))
    decreases t, 1
  {
    hide Clean;
    TranslatedAllRetouched(t.kids, m);
  }

  lemma {:induction false} TranslatedAllRetouched(ts: seq<Tree>, m: map<string, string>)
    requires forall k :: k in m ==> Clean(m[k])
    ensures RetouchedAll(ts, TranslatedAll(ts, m))
    decreases ts, 0
  {
    hide Clean, Translated, Retouched;
    if ts != [] {
      TranslatedRetouched(ts[0], m);
      TranslatedAllRetouched(ts[1..], m);
      assert TranslatedAll(ts, m)[1..] == TranslatedAll(ts[1..], m);
    }
  }

  // ---------------------------------------------------------------- there and back

  /** The documents to try a map and its inverse on: readable from their text, and free of values as topics. */
  ghost predicate Invertible(raws: seq<Raw>, m: map<string, string>, n: map<string, string>) {
    var ts := DocumentOf(raws).doc.kids;
    PrintableAll(ts) && CleanTrees(ts) && AvoidsAll(ts, m, n) && forall k :: k in m ==> Clean(m[k])
  }

  /**
   * Replace simultaneously, read the text that was written, and replace by the inverse: the text is that of the
   * original document, provided none of the values was a topic that the map leaves alone.
   */
  lemma ThereAndBack(raws: seq<Raw>, m: map<string, string>, n: map<string, string>)
    requires Inverse(m, n) && Invertible(raws, m, n)
    ensures Tokens(Replacement(raws, m)).Some? && !DocumentOf(Tokens(Replacement(raws, m)).value).overrun
    ensures Replacement(Tokens(Replacement(raws, m)).value, n) == PrintAll(DEFAULT, DocumentOf(raws).doc.kids)
  {
    hide Inverse, PrintableAll, CleanTrees, AvoidsAll, PrintAll, Tokens, TranslatedAll, SoundAll, NormalAll, DocumentOf;
    hide Clean, RetouchedAll;
    var ts := DocumentOf(raws).doc.kids;
    var changed := TranslatedAll(ts, m);
    DocumentRead(raws);
    TranslatedAllRetouched(ts, m);
    RetouchedAllKept(ts, changed);
    ChangedRead(changed);
    TreesBack(ts, m, n);
  }

  /**
   * ReplaceTaskTopics with a map that does not chain and then, on the text written, with its inverse: whatever the
   * two iteration orders, the second text is that of the original document.
   */
  method ReplaceThereAndBack(raws: seq<Raw>, m: map<string, string>, keys: seq<string>,
                             n: map<string, string>, back: seq<string>)
    returns (r: Result)
    requires Inverse(m, n) && Settled(m) && Orders(keys, m) && Orders(back, n) && LegalKeys(keys) && LegalKeys(back)
    requires !DocumentOf(raws).overrun && Invertible(raws, m, n)
    ensures r == Done(PrintAll(DEFAULT, DocumentOf(raws).doc.kids))
  {
    hide Inverse, Settled, Orders, Tokens, PrintAll, DocumentOf, TranslatedAll, Invertible, LegalKeys, Escapes;
    hide LegalValue;
    InverseSettled(m, n);
    ThereAndBack(raws, m, n);
    var there := ReplaceTaskTopics(raws, EndOfFile, m, keys);
    r := ReplaceTaskTopics(Tokens(there.text).value, EndOfFile, n, back);
  }

  lemma ChangedRead(ts: seq<Tree>)
    requires SoundAll(ts) && PrintableAll(ts) && CleanTrees(ts)
    ensures Tokens(PrintAll(DEFAULT, ts)).Some?
    ensures DocumentOf(Tokens(PrintAll(DEFAULT, ts)).value) == Built(Tree(DOCUMENT, [], NormalAll(ts)), false)
  {
    hide PrintableAll, CleanTrees, PrintAll, Tokens, SoundAll, NormalAll, Build;
    DocumentTrip(DEFAULT, Tree(DOCUMENT, [], ts));
  }
}
