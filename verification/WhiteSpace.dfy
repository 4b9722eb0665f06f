/** What the whitespace flag of character data says about its text, and what depends on the flag alone. */
module WhiteSpace {
  import opened Attrs
  import opened Forest
  import opened Trees
  import opened Reading
  import opened Indentation
  import opened Editing

  /** The text consists of spaces, tabs, line feeds and carriage returns. */
  predicate White(s: string) {
    forall c :: c in s ==> c == ' ' || c == '\t' || c == '\n' || c == '\r'
  }

  /** Every flag in the tree says whether the text is white. */
  predicate Truthful(t: Tree)
    decreases t, 1
  {
    (t.kind.CharData? ==> (t.kind.whitespace <==> White(t.kind.data))) && TruthfulAll(t.kids)
  }

  predicate TruthfulAll(ts: seq<Tree>)
    decreases ts, 0
  {
    ts == [] || (Truthful(ts[0]) && TruthfulAll(ts[1..]))
  }

  lemma {:induction false} TruthfulConcat(a: seq<Tree>, b: seq<Tree>)
    ensures TruthfulAll(a + b) <==> TruthfulAll(a) && TruthfulAll(b)
  {
    hide Truthful;
    if a == [] {
      assert a + b == b;
    } else {
      assert (a + b)[1..] == a[1..] + b;
      TruthfulConcat(a[1..], b);
    }
  }

  lemma TruthfulOne(t: Tree)
    ensures TruthfulAll([t]) <==> Truthful(t)
  {
    hide Truthful;
    assert [t][1..] == [];
  }

  // ---------------------------------------------------------------- reading

  ghost predicate FramesTruthful(frames: seq<Frame>) {
    forall i :: 0 <= i < |frames| ==> frames[i].kind.Element? && TruthfulAll(frames[i].kids)
  }

  lemma LeafTruthful(raw: Raw)
    requires !raw.Start? && !raw.End?
    ensures Truthful(Tree(LeafKind(raw), [], []))
  {
    if raw.Chars? {
      assert IsWhitespace(raw.data) ==> White(raw.data);
      assert forall i :: 0 <= i < |raw.data| ==> raw.data[i] in raw.data;
    }
  }

  lemma FedTruthful(frames: seq<Frame>, raw: Raw)
    requires frames != [] && FramesTruthful(frames) && !ClosesAll(frames, raw)
    ensures FramesTruthful(Fed(frames, raw))
  {
    hide Truthful, LeafKind;
    var n := |frames| - 1;
    match raw
    case Start(_, _, _) =>
    case End(_, _) =>
      ClosedTruthful(frames[n]);
      TruthfulOne(Closed(frames[n]));
      TruthfulConcat(frames[n - 1].kids, [Closed(frames[n])]);
    case _ =>
      LeafTruthful(raw);
      TruthfulOne(Tree(LeafKind(raw), [], []));
      TruthfulConcat(frames[n].kids, [Tree(LeafKind(raw), [], [])]);
  }

  lemma ClosedTruthful(f: Frame)
    requires f.kind.Element? && TruthfulAll(f.kids)
    ensures Truthful(Closed(f))
  {
  }

  lemma {:induction false} ZippedTruthful(frames: seq<Frame>)
    requires frames != [] && FramesTruthful(frames)
    ensures Truthful(Zipped(frames))
  {
    hide Truthful;
    var f := frames[0];
    var more := if |frames| > 1 then [Zipped(frames[1..])] else [];
    if |frames| > 1 {
      ZippedTruthful(frames[1..]);
      TruthfulOne(Zipped(frames[1..]));
    }
    TruthfulConcat(f.kids, more);
    ClosedTruthful(Frame(f.kind, f.attr, f.kids + more));
  }

  /** In what is read, exactly the white texts carry the flag. */
  lemma {:induction false} BuiltTruthful(frames: seq<Frame>, raws: seq<Raw>)
    requires frames != [] && FramesTruthful(frames)
    ensures Truthful(Build(frames, raws).doc)
    decreases |raws|
  {
    hide Truthful, FramesTruthful, Fed, Zipped;
    if raws == [] {
      ZippedTruthful(frames);
    } else if ClosesAll(frames, raws[0]) {
      OutermostTruthful(frames);
    } else {
      FedTruthful(frames, raws[0]);
      BuiltTruthful(Fed(frames, raws[0]), raws[1..]);
    }
  }

  lemma OutermostTruthful(frames: seq<Frame>)
    requires frames != [] && FramesTruthful(frames)
    ensures Truthful(Closed(frames[0]))
  {
  }

  // ---------------------------------------------------------------- stripping and indenting

  /** The tree without its white texts, whatever their flags say. */
  function Dense(t: Tree): Tree
    decreases t, 1
  {
    if t.kind.Element? then t.(kids := DenseKids(t.kids)) else t
  }

  function DenseKids(ts: seq<Tree>): seq<Tree>
    decreases ts, 0
  {
    if ts == [] then []
    else if ts[0].kind.CharData? && White(ts[0].kind.data) then DenseKids(ts[1..])
    else [Dense(ts[0])] + DenseKids(ts[1..])
  }

  lemma {:induction false} BareIsDense(t: Tree)
    requires Truthful(t)
    ensures Bare(t) == Dense(t)
    decreases t, 1
  {
    hide White;
    BareAreDense(t.kids);
  }

  lemma {:induction false} BareAreDense(ts: seq<Tree>)
    requires TruthfulAll(ts)
    ensures BareKids(ts) == DenseKids(ts)
    decreases ts, 0
  {
    hide White;
    if ts != [] {
      BareIsDense(ts[0]);
      BareAreDense(ts[1..]);
    }
  }

  /** From a document that has been read, stripping at every depth removes its white texts and nothing else. */
  lemma ReadBare(kind: Kind, attr: seq<Attr>, raws: seq<Raw>)
    requires kind.Element?
    ensures Bare(Build([Frame(kind, attr, [])], raws).doc) == Dense(Build([Frame(kind, attr, [])], raws).doc)
  {
    hide Truthful, Build, Bare, Dense;
    assert FramesTruthful([Frame(kind, attr, [])]);
    BuiltTruthful([Frame(kind, attr, [])], raws);
    BareIsDense(Build([Frame(kind, attr, [])], raws).doc);
  }

  /** All indentation that is inserted is white, and flagged so. */
  lemma {:induction false} IndentedTruthful(t: Tree, depth: nat, pad: Pad)
    requires Truthful(t) && t.kind.Element? && forall d: int :: White(pad(d))
    ensures Truthful(Indented(t, depth, pad))
    decreases t, 1
  {
    IndentedKidsTruthful(t.kids, depth, true, false, pad);
  }

  lemma {:induction false} IndentedKidsTruthful(ts: seq<Tree>, depth: nat, first: bool, open: bool, pad: Pad)
    requires TruthfulAll(ts) && forall d: int :: White(pad(d))
    ensures TruthfulAll(IndentedKids(ts, depth, first, open, pad))
    decreases ts, 0
  {
    hide White;
    BlankTruthful(pad(depth - 1));
    BlankTruthful(pad(depth));
    if ts == [] {
    } else if IsBlank(ts[0]) {
      IndentedKidsTruthful(ts[1..], depth, first, open, pad);
    } else if ts[0].kind.CharData? {
      IndentedKidsTruthful(ts[1..], depth, first, false, pad);
    } else {
      var front := if !first || depth > 0 then [Blank(pad(depth))] else [];
      var c := if ts[0].kind.Element? then Indented(ts[0], depth + 1, pad) else ts[0];
      if ts[0].kind.Element? {
        IndentedTruthful(ts[0], depth + 1, pad);
      }
      hide Truthful;
      TruthfulOne(c);
      IndentedKidsTruthful(ts[1..], depth, false, true, pad);
      var rest := IndentedKids(ts[1..], depth, false, true, pad);
      TruthfulConcat(front + [c], rest);
      TruthfulConcat(front, [c]);
    }
  }

  lemma BlankTruthful(text: string)
    requires White(text)
    ensures TruthfulAll([Blank(text)]) && TruthfulAll([])
  {
    TruthfulOne(Blank(text));
  }

  lemma PadsWhite(spaces: int, depth: int)
    ensures White(Spaces(spaces)(depth)) && White(TABS(depth))
  {
    PadsAre(spaces, depth);
  }

  // ---------------------------------------------------------------- SetText

  /**
   * SetText leaves the flag as it is, so that a text set over blank character data is blank to the indenter, which then
   * drops it; any other text that is set stays, in front of what would have stayed anyway.
   */
  lemma SetTextKept(t: Tree, text: string)
    requires t.kind.Element?
    ensures var over := t.kids != [] && t.kids[0].kind.CharData?;
            var now := BareKids(TextSet(t, text).kids);
            if over && t.kids[0].kind.whitespace then now == BareKids(t.kids)
            else now != [] && now[0].kind == CharData(text, false) &&
                 now[1..] == BareKids(if over then t.kids[1..] else t.kids)
  {
    assert TextSet(t, text).kids[1..] == if t.kids != [] && t.kids[0].kind.CharData? then t.kids[1..] else t.kids;
  }
}
