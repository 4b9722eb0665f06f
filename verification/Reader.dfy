/** readFrom of pkg/controller/etree/etree.go, over the raw tokens that a decoder delivers. */
module Reader {
  import opened Attrs
  import opened Forest
  import opened Trees
  import opened Reading
  import opened OpenElements
  import opened Stacks

  const INVALID := "etree: invalid XML format"

  /** How the decoder ends after its last token. */
  datatype Ending = EndOfFile | DecodeError(message: string)

  class Parser {
    const stack: Stack<Token>

    constructor ()
      ensures fresh(stack) && stack.Valid() && stack.data == []
    {
      stack := new Stack<Token>();
    }

    /** newCharData, newComment, newDirective or newProcInst below the innermost open element. */
    method AddLeaf(kind: Kind, ghost u: set<Token>, ghost frames: seq<Frame>) returns (ghost v: set<Token>)
      requires stack.Valid() && stack.data != []
      requires Tied(Taken(u), stack.data, frames) && UniquelyNamed(Taken(u))
      modifies (stack.Peek() as Token)`child
      ensures u <= v && fresh(v - u) && UniquelyNamed(Taken(v))
      ensures Tied(Taken(v), stack.data, WithKid(frames, Tree(kind, [], [])))
    {
      hide WellFormed, Tied, Chain;
      ghost var s, st := Taken(u), stack.data;
      TopIn(s, st, frames);
      var top := stack.Peek();
      var t := new Token(kind, top, u);
      v := u + {t};
      LeafAdded(s, st, frames, t, kind);
    }

    /** newElement below the innermost open element, its attributes one by one, and the push. */
    method OpenElement(space: string, tag: string, attrs: seq<Attr>, ghost u: set<Token>, ghost frames: seq<Frame>)
      returns (ghost v: set<Token>)
      requires stack.Valid() && stack.data != []
      requires Tied(Taken(u), stack.data, frames) && UniquelyNamed(Taken(u))
      modifies stack, (stack.Peek() as Token)`child
      ensures u <= v && fresh(v - u) && UniquelyNamed(Taken(v))
      ensures stack.Valid()
      ensures |stack.data| == |old(stack.data)| + 1 && stack.data[..|old(stack.data)|] == old(stack.data)
      ensures fresh(stack.data[|old(stack.data)|])
      ensures Tied(Taken(v), stack.data, frames + [Frame(Element(space, tag), WithAttrs([], attrs), [])])
    {
      hide WellFormed, Tied, Chain, WithAttrs, TreeOf, Born, Appended, UniquelyNamed;
      ghost var s, st := Taken(u), stack.data;
      TopIn(s, st, frames);
      var top := stack.Peek();
      var t := new Token(Element(space, tag), top, u);
      v := u + {t};
      Opened(s, st, frames, t, Element(space, tag));
      StillUniquelyNamed(s, t, Element(space, tag), top);
      Decorate(t, attrs, v, st + [t], frames + [Frame(Element(space, tag), [], [])]);
      LastFrame(frames, Frame(Element(space, tag), [], []), Frame(Element(space, tag), WithAttrs([], attrs), []));
      stack.Push(t);
    }
  }

  /**
   * readFrom: builds below `doc` what the tokens describe. Afterwards the document is the tree that the stack
   * machine of module Reading gives for them, no element has an attribute twice, and the error is ErrXML
   * exactly if a token came after the document's own end.
   */
  method ReadFrom(doc: Token, raws: seq<Raw>, ending: Ending, ghost u: set<Token>)
    returns (err: string, ghost v: set<Token>)
    requires doc in u && WellFormed(Taken(u)) && UniquelyNamed(Taken(u))
    requires doc.kind.Element? && doc.parent == null
    modifies doc`child
    ensures u <= v && fresh(v - u) && WellFormed(Taken(v)) && UniquelyNamed(Taken(v))
    ensures var b := Build([Frame(old(doc.kind), old(doc.attr), old(TreeOf(Taken(u), doc)).kids)], raws);
            && TreeOf(Taken(v), doc) == b.doc
            && err == if b.overrun then "etree: invalid XML format"
                      else if ending.EndOfFile? then "" else ending.message
  {
    hide WellFormed, Tied, Chain, TreeOf, Build, UniquelyNamed;
    ghost var frames := [Frame(doc.kind, doc.attr, TreeOf(Taken(u), doc).kids)];
    ghost var b := Build(frames, raws);
    TiedAtStart(Taken(u), doc);
    var parser := new Parser();
    parser.stack.Push(doc);
    v := u;
    assert raws[0..] == raws && parser.stack.data == [doc];
    for i := 0 to |raws|
      invariant fresh(parser) && fresh(parser.stack) && parser.stack.Valid() && u <= v && fresh(v - u) && doc in u
      invariant UniquelyNamed(Taken(v))
      invariant Standing(Taken(v), doc, parser.stack.data, frames, raws[i..], b)
      invariant forall t :: t in parser.stack.data ==> t == doc || fresh(t)
    {
      if parser.stack.Empty() {
        return INVALID, v;
      }
      assert parser.stack.Peek() in parser.stack.data;
      v, frames := Step(parser, raws[i], doc, v, frames, raws[i..], b);
      assert raws[i..][1..] == raws[i + 1..];
    }
    assert raws[|raws|..] == [];
    Finished(Taken(v), doc, parser.stack.data, frames, b);
    err := if ending.EndOfFile? then "" else ending.message;
  }

  /** Where reading stands before the remaining tokens: inside open elements, or past the document's end. */
  ghost predicate Standing(s: Shot, doc: Token, st: seq<Token>, frames: seq<Frame>, rest: seq<Raw>, b: Built) {
    if st == [] then WellFormed(s) && doc in s && TreeOf(s, doc) == b.doc && (b.overrun <==> rest != [])
    else Tied(s, st, frames) && st[0] == doc && frames != [] && Build(frames, rest) == b
  }

  /** One turn of the loop in readFrom, with an element open. */
  method Step(parser: Parser, raw: Raw, ghost doc: Token, ghost u: set<Token>, ghost frames: seq<Frame>,
              ghost rest: seq<Raw>, ghost b: Built) returns (ghost v: set<Token>, ghost frames': seq<Frame>)
    requires parser.stack.Valid() && parser.stack.data != [] && rest != [] && rest[0] == raw
    requires Standing(Taken(u), doc, parser.stack.data, frames, rest, b) && UniquelyNamed(Taken(u))
    modifies parser.stack, (parser.stack.Peek() as Token)`child
    ensures u <= v && fresh(v - u) && UniquelyNamed(Taken(v))
    ensures Standing(Taken(v), doc, parser.stack.data, frames', rest[1..], b)
    ensures parser.stack.Valid()
    ensures forall t :: t in parser.stack.data ==> t in old(parser.stack.data) || fresh(t)
  {
    hide WellFormed, Tied, Chain, TreeOf, UniquelyNamed, WithKid;
    v, frames' := u, frames;
    ghost var s, st := Taken(u), parser.stack.data;
    TopIn(s, st, frames);
    match raw
    case Start(space, tag, attrs) =>
      v := parser.OpenElement(space, tag, attrs, u, frames);
      frames' := frames + [Frame(Element(space, tag), WithAttrs([], attrs), [])];
    case End(_, _) =>
      var _ := parser.stack.Pop();
      if |st| == 1 {
        InnermostTree(s, st, frames);
        assert Build(frames, rest) == Built(Closed(frames[0]), |rest| > 1);
      } else {
        Popped(s, st, frames);
        frames' := WithKid(frames[..|frames| - 1], Closed(frames[|frames| - 1]));
      }
    case Chars(data) =>
      v := parser.AddLeaf(CharData(data, IsWhitespace(data)), u, frames);
      frames' := WithKid(frames, Tree(LeafKind(raw), [], []));
    case Remark(text) =>
      v := parser.AddLeaf(Comment(text), u, frames);
      frames' := WithKid(frames, Tree(LeafKind(raw), [], []));
    case Declaration(text) =>
      v := parser.AddLeaf(Directive(text), u, frames);
      frames' := WithKid(frames, Tree(LeafKind(raw), [], []));
    case Instruction(target, inst) =>
      v := parser.AddLeaf(ProcInst(target, inst), u, frames);
      frames' := WithKid(frames, Tree(LeafKind(raw), [], []));
  }

  lemma Finished(s: Shot, doc: Token, st: seq<Token>, frames: seq<Frame>, b: Built)
    requires Standing(s, doc, st, frames, [], b)
    ensures WellFormed(s) && doc in s && TreeOf(s, doc) == b.doc && !b.overrun
  {
    hide WellFormed, TreeOf;
    if st != [] {
      OutermostTree(s, st, frames, 0);
      assert frames[0..] == frames;
    }
  }

  /** The createAttr calls for a new element. */
  method Decorate(t: Token, attrs: seq<Attr>, ghost u: set<Token>, ghost st: seq<Token>, ghost frames: seq<Frame>)
    requires st != [] && st[|st| - 1] == t && Tied(Taken(u), st, frames) && UniquelyNamed(Taken(u))
    requires frames[|frames| - 1].attr == []
    modifies t`attr
    ensures UniquelyNamed(Taken(u))
    ensures var n := |st| - 1;
            |frames| == |st| && Tied(Taken(u), st, frames[n := frames[n].(attr := WithAttrs([], attrs))])
  {
    hide WellFormed, Tied, Chain;
    TopIn(Taken(u), st, frames);
    ghost var n := |st| - 1;
    TopAttrs(Taken(u), st, frames);
    ghost var done: seq<Attr> := [];
    assert frames[n := frames[n].(attr := done)] == frames;
    for i := 0 to |attrs|
      invariant t in u && t.attr == done && UniquelyNamed(Taken(u))
      invariant Tied(Taken(u), st, frames[n := frames[n].(attr := done)])
      invariant WithAttrs(done, attrs[i..]) == WithAttrs([], attrs)
    {
      ghost var s := Taken(u);
      assert s[t].attr == done;
      t.CreateAttr(attrs[i]);
      WithAttrUnique(done, attrs[i]);
      done := WithAttr(done, attrs[i]);
      assert Taken(u) == s[t := s[t].(attr := done)];
      ghost var f := frames[n := frames[n].(attr := s[t].attr)];
      AttrsSet(s, st, f, done);
      assert f[n := f[n].(attr := done)] == frames[n := frames[n].(attr := done)];
      assert attrs[i..][1..] == attrs[i + 1..];
    }
  }

  lemma StillUniquelyNamed(s: Shot, t: Token, kind: Kind, top: Token)
    requires UniquelyNamed(s) && top in s && t !in s
    ensures UniquelyNamed(Appended(Born(s, t, kind), top, t))
  {
  }

  lemma LastFrame(frames: seq<Frame>, f: Frame, g: Frame)
    ensures (frames + [f])[|frames| := g] == frames + [g]
  {
  }

  lemma TopIn(s: Shot, st: seq<Token>, frames: seq<Frame>)
    requires Tied(s, st, frames)
    ensures WellFormed(s) && st != [] && |frames| == |st| && st[|st| - 1] in s && s[st[|st| - 1]].kind.Element?
  {
  }

  lemma TopAttrs(s: Shot, st: seq<Token>, frames: seq<Frame>)
    requires Tied(s, st, frames)
    ensures st != [] && |frames| == |st| && st[|st| - 1] in s && s[st[|st| - 1]].attr == frames[|st| - 1].attr
  {
    assert Level(s, st, frames, |st| - 1);
  }
}
