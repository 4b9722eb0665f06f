/** A token and everything below it, as a value: what serialising and copying depend on. */
module Trees {
  import opened Attrs
  import opened Forest

  datatype Tree = Tree(kind: Kind, attr: seq<Attr>, kids: seq<Tree>)

  lemma ChildBelow(s: Shot, t: Token, i: nat)
    requires WellFormed(s) && t in s && i < |s[t].child|
    ensures s[t].child[i] in s && s[s[t].child[i]].parent == t
    ensures Subtree(s, s[t].child[i]) < Subtree(s, t)
  {
    assert TokenOk(s, t);
    ChildSubtree(s, t, s[t].child[i]);
  }

  ghost function TreeOf(s: Shot, t: Token): Tree
    requires WellFormed(s) && t in s
    decreases Subtree(s, t), |s[t].child| + 1
  {
    Tree(s[t].kind, s[t].attr, TreesFrom(s, t, 0))
  }

  /** The trees of the children of t from the i-th on. */
  ghost function TreesFrom(s: Shot, t: Token, i: nat): seq<Tree>
    requires WellFormed(s) && t in s && i <= |s[t].child|
    decreases Subtree(s, t), |s[t].child| - i
  {
    if i == |s[t].child| then []
    else
      ChildBelow(s, t, i);
      [TreeOf(s, s[t].child[i])] + TreesFrom(s, t, i + 1)
  }

  lemma {:induction false} TreesFromAt(s: Shot, t: Token, i: nat)
    requires WellFormed(s) && t in s && i <= |s[t].child|
    ensures |TreesFrom(s, t, i)| == |s[t].child| - i
    ensures forall j :: i <= j < |s[t].child| ==>
              s[t].child[j] in s && TreesFrom(s, t, i)[j - i] == TreeOf(s, s[t].child[j])
    decreases |s[t].child| - i
  {
    hide WellFormed, TreeOf;
    if i < |s[t].child| {
      ChildBelow(s, t, i);
      TreesFromAt(s, t, i + 1);
      forall j | i <= j < |s[t].child|
        ensures s[t].child[j] in s && TreesFrom(s, t, i)[j - i] == TreeOf(s, s[t].child[j])
      {
        assert j > i ==> TreesFrom(s, t, i)[j - i] == TreesFrom(s, t, i + 1)[j - (i + 1)];
      }
    }
  }

  /** The kids of a token's tree are the trees of its children, in order. */
  lemma KidsAre(s: Shot, t: Token)
    requires WellFormed(s) && t in s
    ensures |TreeOf(s, t).kids| == |s[t].child|
    ensures forall j :: 0 <= j < |s[t].child| ==>
              s[t].child[j] in s && TreeOf(s, t).kids[j] == TreeOf(s, s[t].child[j])
  {
    hide WellFormed, TreesFrom;
    TreesFromAt(s, t, 0);
  }

  ghost predicate AllIn(s: Shot, ts: seq<Token>) {
    forall i :: 0 <= i < |ts| ==> ts[i] in s
  }

  ghost function TreesIn(s: Shot, ts: seq<Token>): (r: seq<Tree>)
    requires WellFormed(s) && AllIn(s, ts)
    ensures |r| == |ts| && forall i :: 0 <= i < |ts| ==> r[i] == TreeOf(s, ts[i])
  {
    seq(|ts|, i requires 0 <= i < |ts| => TreeOf(s, ts[i]))
  }

  lemma KidsIn(s: Shot, t: Token)
    requires WellFormed(s) && t in s
    ensures AllIn(s, s[t].child) && TreesIn(s, s[t].child) == TreeOf(s, t).kids
  {
    assert TokenOk(s, t);
    hide WellFormed, TreeOf;
    KidsAre(s, t);
  }

  lemma TreesInConcat(s: Shot, a: seq<Token>, b: seq<Token>)
    requires WellFormed(s) && AllIn(s, a + b)
    ensures AllIn(s, a) && AllIn(s, b) && TreesIn(s, a + b) == TreesIn(s, a) + TreesIn(s, b)
  {
    hide WellFormed, TreeOf;
    assert forall i :: 0 <= i < |a| ==> (a + b)[i] == a[i];
    assert forall i :: 0 <= i < |b| ==> (a + b)[|a| + i] == b[i];
  }

  lemma TreesInHead(s: Shot, ts: seq<Token>)
    requires WellFormed(s) && AllIn(s, ts) && ts != []
    ensures AllIn(s, ts[1..]) && TreesIn(s, ts) == [TreeOf(s, ts[0])] + TreesIn(s, ts[1..])
  {
    hide WellFormed, TreeOf;
    assert forall i :: 0 <= i < |ts[1..]| ==> ts[1..][i] == ts[i + 1];
  }

  /** a and b agree on everything but the parent. */
  predicate SameContent(a: Record, b: Record) {
    a.kind == b.kind && a.attr == b.attr && a.child == b.child
  }

  /** A tree only depends on the tokens in it. */
  lemma {:induction false} TreeFramed(s: Shot, r: Shot, t: Token)
    requires WellFormed(s) && WellFormed(r) && t in s
    requires forall x :: x in Subtree(s, t) ==> x in r && SameContent(s[x], r[x])
    ensures t in r && TreeOf(r, t) == TreeOf(s, t)
    decreases Subtree(s, t)
  {
    hide WellFormed, TreeOf;
    AboveSelf(s, t);
    assert t in Subtree(s, t);
    KidsAre(s, t);
    KidsAre(r, t);
    forall j | 0 <= j < |s[t].child| ensures TreeOf(r, s[t].child[j]) == TreeOf(s, s[t].child[j]) {
      ChildBelow(s, t, j);
      TreeFramed(s, r, s[t].child[j]);
    }
    TreeParts(s, t);
    TreeParts(r, t);
    assert TreeOf(r, t).kids == TreeOf(s, t).kids;
  }

  lemma TreeParts(s: Shot, t: Token)
    requires WellFormed(s) && t in s
    ensures TreeOf(s, t).kind == s[t].kind && TreeOf(s, t).attr == s[t].attr
  {
  }

  /** No token has two attributes with the same namespace and key. */
  ghost predicate UniquelyNamed(s: Shot) {
    forall t :: t in s ==> UniqueAttrs(s[t].attr)
  }
}
