/**
 * Changes that stay below one element, whatever happens there. A shot is regrown below an element if nothing
 * else differs; such changes compose, a change below a child is one below its parent, and trees beside the
 * element are not affected. This is what an in-place algorithm on one subtree needs to say about the rest.
 */
module Regrowth {
  import opened Forest
  import opened Trees
  import opened Grafts

  /** r differs from g only in what hangs below e. */
  ghost predicate Regrown(g: Shot, r: Shot, e: Token) {
    && e in g && e in r && r[e].kind == g[e].kind && r[e].attr == g[e].attr && r[e].parent == g[e].parent
    && (forall x :: x in g && !Above(g, e, x) ==> x in r && r[x] == g[x])
    && (forall x :: x in r && !Above(r, e, x) ==> x in g && !Above(g, e, x))
  }

  lemma NothingRegrown(g: Shot, e: Token)
    requires e in g
    ensures Regrown(g, g, e)
  {
  }

  lemma {:induction false} UpElsewhere(g: Shot, r: Shot, e: Token, x: Token?, n: nat)
    requires WellFormed(g) && Regrown(g, r, e) && (x == null || (x in g && !Above(g, e, x)))
    ensures Up(r, x, n) == Up(g, x, n)
  {
    hide Above;
    if n > 0 && x != null {
      assert TokenOk(g, x);
      var p := ParentOf(g, x);
      if p != null && Above(g, e, p) {
        AboveChild(g, p, x);
        AboveTransitive(g, e, p, x);
      }
      UpElsewhere(g, r, e, p, n - 1);
    } else if n > 0 {
      UpNull(g, n);
      UpNull(r, n);
    }
  }

  /** What was not below e is not below e afterwards, and has the same ancestors. */
  lemma StillApart(g: Shot, r: Shot, e: Token, x: Token, a: Token)
    requires WellFormed(g) && Regrown(g, r, e) && x in g && !Above(g, e, x)
    ensures Above(r, a, x) <==> Above(g, a, x)
  {
    if Above(g, a, x) {
      UpElsewhere(g, r, e, x, Steps(g, a, x));
      assert Up(r, x, Steps(g, a, x)) == a;
    }
    if Above(r, a, x) {
      UpElsewhere(g, r, e, x, Steps(r, a, x));
      assert Up(g, x, Steps(r, a, x)) == a;
    }
  }

  lemma RegrownTwice(g: Shot, h: Shot, r: Shot, e: Token)
    requires WellFormed(g) && Regrown(g, h, e) && Regrown(h, r, e)
    ensures Regrown(g, r, e)
  {
    hide Above, WellFormed;
    forall x | x in g && !Above(g, e, x) ensures x in r && r[x] == g[x] {
      StillApart(g, h, e, x, e);
    }
  }

  lemma ChildIsBelow(g: Shot, e: Token, c: Token, x: Token)
    requires c in g && g[c].parent == e && Above(g, c, x)
    ensures Above(g, e, x)
  {
    AboveChild(g, e, c);
    AboveTransitive(g, e, c, x);
  }

  /** What changes below a child of e changes below e. */
  lemma RegrownAbove(g: Shot, r: Shot, e: Token, c: Token)
    requires WellFormed(g) && WellFormed(r) && Regrown(g, r, c) && g[c].parent == e && e in g
    ensures Regrown(g, r, e) && r[e] == g[e] && r[c].parent == e
  {
    assert TokenOk(g, e);
    hide Above, WellFormed;
    NotBelowChild(g, e, c);
    forall x | x in g && !Above(g, e, x) ensures x in r && r[x] == g[x] {
      if Above(g, c, x) {
        ChildIsBelow(g, e, c, x);
      }
    }
    forall x | x in r && !Above(r, e, x) ensures x in g && !Above(g, e, x) {
      if Above(r, c, x) {
        ChildIsBelow(r, e, c, x);
      }
      StillApart(g, r, c, x, e);
    }
  }

  /** Only the tree of the child changes. */
  lemma RegrownTree(g: Shot, r: Shot, e: Token, j: nat)
    requires WellFormed(g) && WellFormed(r) && e in g && j < |g[e].child| && Regrown(g, r, g[e].child[j])
    ensures e in r && j < |TreeOf(g, e).kids|
    ensures TreeOf(r, e) == TreeOf(g, e).(kids := TreeOf(g, e).kids[j := TreeOf(r, g[e].child[j])])
  {
    assert TokenOk(g, e);
    hide WellFormed, TreeOf, Above, Regrown;
    var c := g[e].child[j];
    RegrownAbove(g, r, e, c);
    KidsAre(g, e);
    KidsAre(r, e);
    TreeParts(g, e);
    TreeParts(r, e);
    forall i | 0 <= i < |g[e].child| && i != j ensures TreeOf(r, g[e].child[i]) == TreeOf(g, g[e].child[i]) {
      BesideFramed(g, r, e, i, j);
    }
    assert TreeOf(r, e).kids == TreeOf(g, e).kids[j := TreeOf(r, c)];
  }

  lemma BesideFramed(g: Shot, r: Shot, e: Token, i: nat, j: nat)
    requires WellFormed(g) && WellFormed(r) && e in g && i < |g[e].child| && j < |g[e].child| && i != j
    requires Regrown(g, r, g[e].child[j])
    ensures g[e].child[i] in g && g[e].child[i] in r && TreeOf(r, g[e].child[i]) == TreeOf(g, g[e].child[i])
  {
    assert TokenOk(g, e);
    hide WellFormed, TreeOf, Above;
    var a, c := g[e].child[i], g[e].child[j];
    forall x | x in g && Above(g, a, x) ensures !Above(g, c, x) {
      if Above(g, c, x) {
        Linear(g, a, c, x);
        if Above(g, a, c) {
          AboveParent(g, a, c);
          NotBelowChild(g, e, a);
        } else {
          AboveParent(g, c, a);
          NotBelowChild(g, e, c);
        }
        assert false;
      }
    }
    TreeFramed(g, r, a);
  }

  /** A new token below e. */
  lemma RegrownByBirth(g: Shot, e: Token, i: nat, t: Token, kind: Kind)
    requires WellFormed(g) && e in g && t !in g && g[e].kind.Element? && i <= |g[e].child|
    ensures var r := Inserted(Born(g, t, kind), e, i, t); WellFormed(r) && Regrown(g, r, e)
  {
    hide WellFormed, Above;
    var b := Born(g, t, kind);
    var r := Inserted(b, e, i, t);
    BornWellFormed(g, t, kind);
    InsertedWellFormed(b, e, i, t);
    AboveSelf(r, e);
    AboveSelf(g, e);
    AboveChild(r, e, t);
    forall x | x in r && !Above(r, e, x) ensures x in g && !Above(g, e, x) {
      if Above(g, e, x) {
        var n := Steps(g, e, x);
        BornUp(g, t, kind, x, n);
        InsertedUp(b, e, i, t, x, n);
        ReachedIsAbove(r, e, x, n);
      }
    }
  }

  /** Some children of e are forgotten. */
  lemma RegrownByLoss(g: Shot, e: Token, k: set<Token>)
    requires WellFormed(g) && e in k && Rooted(g, k) && forall x :: x in g && x !in k ==> g[x].parent == e
    ensures WellFormed(Only(g, k)) && Regrown(g, Only(g, k), e)
    ensures forall x :: x in k && x != e ==> Only(g, k)[x] == g[x]
  {
    OnlyWellFormed(g, k);
    forall x | x in k && x != e ensures Only(g, k)[x] == g[x] {
      assert TokenOk(g, x);
      assert forall c :: c in g[x].child ==> c in k;
    }
    hide WellFormed, Above, Only;
    AboveSelf(g, e);
    forall x | x in g && !Above(g, e, x) ensures x in k {
      if x !in k {
        AboveChild(g, e, x);
      }
    }
    forall x | x in k ensures Above(Only(g, k), e, x) <==> Above(g, e, x) {
      OnlyAbove(g, k, e, x);
    }
    OnlyFields(g, k, e);
  }

  lemma OnlyFields(g: Shot, k: set<Token>, e: Token)
    requires k <= g.Keys && e in k
    ensures Only(g, k).Keys == k && Only(g, k)[e] == g[e].(child := Those(g[e].child, k))
  {
  }
}
