/** Writing a tree as raw tokens and reading them back. */
module TokenTrip {
  import opened Attrs
  import opened Forest
  import opened Trees
  import opened Reading

  /** The raw tokens that the text written for a tree stands for. */
  function Flattened(t: Tree): seq<Raw>
    decreases t, 1
  {
    match t.kind
    case Element(space, tag) => [Start(space, tag, t.attr)] + FlattenedAll(t.kids) + [End(space, tag)]
    case CharData(data, _) => [Chars(data)]
    case Comment(text) => [Remark(text)]
    case Directive(text) => [Declaration(text)]
    case ProcInst(target, inst) => [Instruction(target, inst)]
    case CData(data) => [Chars(data)]
  }

  function FlattenedAll(ts: seq<Tree>): seq<Raw>
    decreases ts, 0
  {
    if ts == [] then [] else Flattened(ts[0]) + FlattenedAll(ts[1..])
  }

  /** What a tree is after a trip through its text: CData as character data, whitespace flags computed afresh. */
  function Normal(t: Tree): Tree
    decreases t, 1
  {
    Tree(NormalKind(t.kind), t.attr, NormalAll(t.kids))
  }

  function NormalKind(k: Kind): Kind {
    match k
    case CharData(data, _) => CharData(data, IsWhitespace(data))
    case CData(data) => CharData(data, IsWhitespace(data))
    case _ => k
  }

  function NormalAll(ts: seq<Tree>): (r: seq<Tree>)
    ensures |r| == |ts|
    decreases ts, 0
  {
    if ts == [] then [] else [Normal(ts[0])] + NormalAll(ts[1..])
  }

  /** Only elements have attributes and children, and attribute names do not repeat. */
  predicate Sound(t: Tree)
    decreases t, 1
  {
    UniqueAttrs(t.attr) && (!t.kind.Element? ==> t.attr == [] && t.kids == []) && SoundAll(t.kids)
  }

  predicate SoundAll(ts: seq<Tree>)
    decreases ts, 0
  {
    ts == [] || (Sound(ts[0]) && SoundAll(ts[1..]))
  }

  function WithKids(frames: seq<Frame>, kids: seq<Tree>): seq<Frame>
    requires frames != []
  {
    var top := frames[|frames| - 1];
    frames[..|frames| - 1] + [top.(kids := top.kids + kids)]
  }

  lemma WithKidFirst(frames: seq<Frame>, kid: Tree, kids: seq<Tree>)
    requires frames != []
    ensures WithKids(WithKid(frames, kid), kids) == WithKids(frames, [kid] + kids)
  {
    var top := frames[|frames| - 1];
    assert (top.kids + [kid]) + kids == top.kids + ([kid] + kids);
    assert WithKid(frames, kid)[..|frames| - 1] == frames[..|frames| - 1];
  }

  /** Reading the tokens of a tree adds that tree to the innermost open element. */
  lemma {:induction false} BuildTree(frames: seq<Frame>, t: Tree, rest: seq<Raw>)
    requires frames != [] && Sound(t)
    ensures Build(frames, Flattened(t) + rest) == Build(WithKid(frames, Normal(t)), rest)
    decreases t, 1
  {
    if t.kind.Element? {
      BuildElement(frames, t, rest);
    } else {
      hide Zipped;
      assert (Flattened(t) + rest)[1..] == rest;
      assert NormalAll(t.kids) == [] && t.attr == [];
    }
  }

  lemma {:induction false} BuildElement(frames: seq<Frame>, t: Tree, rest: seq<Raw>)
    requires frames != [] && Sound(t) && t.kind.Element?
    ensures Build(frames, Flattened(t) + rest) == Build(WithKid(frames, Normal(t)), rest)
    decreases t, 0
  {
    hide Zipped;
    var open := Start(t.kind.space, t.kind.tag, t.attr);
    var close := End(t.kind.space, t.kind.tag);
    var inner := FlattenedAll(t.kids);
    var inside := frames + [Frame(t.kind, t.attr, [])];
    assert Flattened(t) + rest == [open] + (inner + ([close] + rest));
    assert [] + t.attr == t.attr;
    WithAttrsAll([], t.attr);
    assert Fed(frames, open) == inside;
    assert ([open] + (inner + ([close] + rest)))[1..] == inner + ([close] + rest);
    BuildTrees(inside, t.kids, [close] + rest);
    var full := WithKids(inside, NormalAll(t.kids));
    assert full[..|full| - 1] == frames;
    assert full[|full| - 1] == Frame(t.kind, t.attr, NormalAll(t.kids));
    assert ([close] + rest)[1..] == rest;
    assert Fed(full, close) == WithKid(frames, Normal(t));
  }

  lemma {:induction false} BuildTrees(frames: seq<Frame>, ts: seq<Tree>, rest: seq<Raw>)
    requires frames != [] && SoundAll(ts)
    ensures Build(frames, FlattenedAll(ts) + rest) == Build(WithKids(frames, NormalAll(ts)), rest)
    decreases ts, 0
  {
    hide Build, Flattened, Normal;
    if ts == [] {
      var top := frames[|frames| - 1];
      assert top.kids + [] == top.kids;
      assert WithKids(frames, []) == frames;
      assert FlattenedAll(ts) + rest == rest;
    } else {
      var more := FlattenedAll(ts[1..]) + rest;
      assert FlattenedAll(ts) + rest == Flattened(ts[0]) + more;
      BuildTree(frames, ts[0], more);
      BuildTrees(WithKid(frames, Normal(ts[0])), ts[1..], rest);
      WithKidFirst(frames, Normal(ts[0]), NormalAll(ts[1..]));
    }
  }

  /** Reading back the tokens of a document gives the same document, normalised. */
  lemma DocumentReadBack(doc: Tree)
    requires SoundAll(doc.kids)
    ensures Build([Frame(doc.kind, doc.attr, [])], FlattenedAll(doc.kids)) ==
            Built(Tree(doc.kind, doc.attr, NormalAll(doc.kids)), false)
  {
    hide NormalAll, FlattenedAll;
    var frames := [Frame(doc.kind, doc.attr, [])];
    assert FlattenedAll(doc.kids) + [] == FlattenedAll(doc.kids);
    BuildTrees(frames, doc.kids, []);
    assert [] + NormalAll(doc.kids) == NormalAll(doc.kids);
    assert NormalAll(doc.kids) + [] == NormalAll(doc.kids);
  }

  /** Nothing is left to normalise in what has been read back once. */
  lemma {:induction false} NormalTwice(t: Tree)
    ensures Normal(Normal(t)) == Normal(t)
    decreases t, 1
  {
    NormalAllTwice(t.kids);
  }

  lemma {:induction false} NormalAllTwice(ts: seq<Tree>)
    ensures NormalAll(NormalAll(ts)) == NormalAll(ts)
    decreases ts, 0
  {
    if ts != [] {
      NormalTwice(ts[0]);
      NormalAllTwice(ts[1..]);
      assert NormalAll(ts)[1..] == NormalAll(ts[1..]);
    }
  }
}
