/** What readFrom of pkg/controller/etree/etree.go builds from raw tokens: a stack machine on values. */
module Reading {
  import opened Attrs
  import opened Forest
  import opened Trees

  /** A raw token, as Go's XML decoder hands it out. */
  datatype Raw =
    | Start(space: string, tag: string, attr: seq<Attr>)
    | End(space: string, tag: string)
    | Chars(data: string)
    | Remark(text: string)
    | Declaration(text: string)
    | Instruction(target: string, inst: string)

  predicate IsSpace(c: char) {
    c == ' ' || c == '\t' || c == '\n' || c == '\r'
  }

  predicate IsWhitespace(s: string) {
    forall i :: 0 <= i < |s| ==> IsSpace(s[i])
  }

  /** The token made from a raw one that is neither start nor end of an element. */
  function LeafKind(raw: Raw): Kind
    requires !raw.Start? && !raw.End?
  {
    match raw
    case Chars(data) => CharData(data, IsWhitespace(data))
    case Remark(text) => Comment(text)
    case Declaration(text) => Directive(text)
    case Instruction(target, inst) => ProcInst(target, inst)
  }

  /** An element that is still open: what it holds so far. */
  datatype Frame = Frame(kind: Kind, attr: seq<Attr>, kids: seq<Tree>)

  function Closed(f: Frame): Tree {
    Tree(f.kind, f.attr, f.kids)
  }

  function WithKid(frames: seq<Frame>, kid: Tree): seq<Frame>
    requires frames != []
  {
    var top := frames[|frames| - 1];
    frames[..|frames| - 1] + [top.(kids := top.kids + [kid])]
  }

  /** Whether the token closes the outermost element, on which reading started. */
  predicate ClosesAll(frames: seq<Frame>, raw: Raw) {
    raw.End? && |frames| == 1
  }

  function Fed(frames: seq<Frame>, raw: Raw): (r: seq<Frame>)
    requires frames != [] && !ClosesAll(frames, raw)
    ensures |r| == |frames| + (if raw.Start? then 1 else if raw.End? then -1 else 0)
  {
    match raw
    case Start(space, tag, attr) => frames + [Frame(Element(space, tag), WithAttrs([], attr), [])]
    case End(_, _) =>
      var n := |frames| - 1;
      WithKid(frames[..n], Closed(frames[n]))
    case _ => WithKid(frames, Tree(LeafKind(raw), [], []))
  }

  /** The document as it stands while elements are still open. */
  function Zipped(frames: seq<Frame>): Tree
    requires frames != []
  {
    var f := frames[0];
    Tree(f.kind, f.attr, f.kids + if |frames| > 1 then [Zipped(frames[1..])] else [])
  }

  /** The document built, and whether tokens came after its own end (ErrXML). */
  datatype Built = Built(doc: Tree, overrun: bool)

  function Build(frames: seq<Frame>, raws: seq<Raw>): Built
    requires frames != []
    decreases |raws|
  {
    if raws == [] then Built(Zipped(frames), false)
    else if ClosesAll(frames, raws[0]) then Built(Closed(frames[0]), |raws| > 1)
    else Build(Fed(frames, raws[0]), raws[1..])
  }

  // ---------------------------------------------------------------- which token streams are accepted

  function Depth(raws: seq<Raw>): int {
    if raws == [] then 0
    else
      var last := raws[|raws| - 1];
      Depth(raws[..|raws| - 1]) + (if last.Start? then 1 else if last.End? then -1 else 0)
  }

  lemma {:induction false} DepthShift(raws: seq<Raw>, i: nat)
    requires 0 < i <= |raws|
    ensures Depth(raws[..i]) == Depth(raws[..1]) + Depth(raws[1..][..i - 1])
  {
    assert raws[..i][..i - 1] == raws[..i - 1];
    if i > 1 {
      assert raws[1..][..i - 1][..i - 2] == raws[1..][..i - 2];
      DepthShift(raws, i - 1);
    }
  }

  /** Reading fails exactly when a token follows a prefix that has one end more than it has starts. */
  lemma {:induction false} OverrunIff(frames: seq<Frame>, raws: seq<Raw>)
    requires frames != []
    ensures Build(frames, raws).overrun <==> exists i :: 0 <= i < |raws| && Depth(raws[..i]) == -|frames|
    decreases |raws|
  {
    hide Fed, WithKid, Closed, Zipped;
    if raws != [] {
      assert raws[..1][..0] == [];
      assert Depth(raws[..1]) == if raws[0].Start? then 1 else if raws[0].End? then -1 else 0;
      if ClosesAll(frames, raws[0]) {
        assert |raws| > 1 ==> Depth(raws[..1]) == -1;
        assert raws[..0] == [];
      } else {
        var next := Fed(frames, raws[0]);
        OverrunIff(next, raws[1..]);
        FedDepth(frames, raws);
      }
    }
  }

  lemma FedDepth(frames: seq<Frame>, raws: seq<Raw>)
    requires frames != [] && raws != [] && !ClosesAll(frames, raws[0])
    ensures (exists i :: 0 <= i < |raws| && Depth(raws[..i]) == -|frames|) <==>
            (exists i :: 0 <= i < |raws[1..]| && Depth(raws[1..][..i]) == -|Fed(frames, raws[0])|)
  {
    hide Fed;
    assert raws[..1][..0] == [];
    assert raws[..0] == [];
    var rest, next := raws[1..], Fed(frames, raws[0]);
    forall i | 0 <= i < |raws| && Depth(raws[..i]) == -|frames|
      ensures exists j :: 0 <= j < |rest| && Depth(rest[..j]) == -|next|
    {
      DepthShift(raws, i);
      assert Depth(rest[..i - 1]) == -|next|;
    }
    forall j | 0 <= j < |rest| && Depth(rest[..j]) == -|next|
      ensures exists i :: 0 <= i < |raws| && Depth(raws[..i]) == -|frames|
    {
      DepthShift(raws, j + 1);
      assert Depth(raws[..j + 1]) == -|frames|;
    }
  }
}
