/** InsertChild and WriteCData of etree.go and cdata.go, which drop children without unbinding them. */
module Dropping {
  import opened Seqs
  import opened Forest
  import opened Trees
  import opened Grafts

  // ---------------------------------------------------------------- InsertChild

  /** The unbound token t shifts the children of e from the i-th on, and the last one falls off the end. */
  ghost function Shoved(d: Shot, e: Token, i: nat, t: Token): Shot
    requires e in d && t in d && e != t && i < |d[e].child|
  {
    var ts := d[e].child;
    d[e := d[e].(child := ts[..i] + [t] + ts[i..|ts| - 1])][t := d[t].(parent := e)]
  }

  /** The conditions under which InsertChild works on an unbound token. */
  ghost predicate CanTake(d: Shot, e: Token, t: Token) {
    WellFormed(d) && e in d && t in d && d[e].kind.Element? && d[t].parent == null && !Above(d, t, e)
  }

  /** Inserting in front of a child always breaks the invariant: the last child is lost but still names e. */
  lemma ShovedIsBroken(d: Shot, e: Token, i: nat, t: Token)
    requires CanTake(d, e, t) && i < |d[e].child|
    ensures e != t && !WellFormed(Shoved(d, e, i, t))
  {
    assert TokenOk(d, e);
    AboveSelf(d, t);
    hide Above;
    var ts, r := d[e].child, Shoved(d, e, i, t);
    var last := ts[|ts| - 1];
    assert d[last].parent == e && last != t;
    assert last !in r[e].child;
    NotBelowChild(d, e, last);
    BrokenLink(r, last);
  }

  /** What the invariant still holds of: everything but the lost child and what hangs below it. */
  ghost function Remaining(d: Shot, lost: Token): set<Token> {
    d.Keys - Subtree(d, lost)
  }

  lemma RemainingRooted(d: Shot, lost: Token)
    requires WellFormed(d) && lost in d
    ensures forall x :: x in Remaining(d, lost) && d[x].parent != null ==> d[x].parent in Remaining(d, lost)
  {
    forall x | x in Remaining(d, lost) && d[x].parent != null ensures d[x].parent in Remaining(d, lost) {
      assert TokenOk(d, x);
      if Above(d, lost, d[x].parent) {
        AboveChild(d, d[x].parent, x);
        AboveTransitive(d, lost, d[x].parent, x);
      }
    }
  }

  lemma TakenInstead(d: Shot, e: Token, i: nat, t: Token)
    requires CanTake(d, e, t) && i < |d[e].child|
    ensures var lost := d[e].child[|d[e].child| - 1];
            && e != t && lost in d && lost != e && CanTake(Detached(d, lost), e, t)
            && Detached(d, lost)[e].child == d[e].child[..|d[e].child| - 1]
            && e in Remaining(d, lost)
  {
    assert TokenOk(d, e);
    hide WellFormed, Above;
    AboveSelf(d, t);
    var n := |d[e].child| - 1;
    var lost := d[e].child[n];
    NotBelowChild(d, e, lost);
    DetachedTree(d, e, n);
    if Above(Detached(d, lost), t, e) {
      DetachedAbove(d, lost, t, e);
    }
    DetachedRecord(d, lost, t);
  }

  /** What is below a token does not depend on its own parent. */
  lemma {:induction false} BelowSame(s: Shot, r: Shot, a: Token, x: Token, n: nat)
    requires forall y :: y != a ==> ParentOf(s, y) == ParentOf(r, y)
    requires Up(s, x, n) == a
    ensures Above(r, a, x)
  {
    if x == a {
      AboveSelf(r, a);
    } else {
      var p := ParentOf(s, x);
      if p == null {
        UpNull(s, n - 1);
      } else {
        BelowSame(s, r, a, p, n - 1);
        AboveChild(r, p, x);
        AboveTransitive(r, a, p, x);
      }
    }
  }

  lemma SameBelow(s: Shot, r: Shot, a: Token)
    requires s.Keys == r.Keys && forall y: Token? :: y != a ==> ParentOf(s, y) == ParentOf(r, y)
    ensures Subtree(s, a) == Subtree(r, a)
  {
    forall x | x in s && Above(s, a, x) ensures Above(r, a, x) {
      BelowSame(s, r, a, x, Steps(s, a, x));
    }
    forall x | x in s && Above(r, a, x) ensures Above(s, a, x) {
      BelowSame(r, s, a, x, Steps(r, a, x));
    }
  }

  /** Had the last child been unbound first, this would be the result. */
  ghost function Proper(d: Shot, e: Token, i: nat, t: Token): Shot
    requires CanTake(d, e, t) && i < |d[e].child|
  {
    TakenInstead(d, e, i, t);
    Inserted(Detached(d, d[e].child[|d[e].child| - 1]), e, i, t)
  }

  lemma ShovedAndProper(d: Shot, e: Token, i: nat, t: Token)
    requires CanTake(d, e, t) && i < |d[e].child|
    ensures e != t && Shoved(d, e, i, t).Keys == Proper(d, e, i, t).Keys == d.Keys
    ensures var lost, r, p := d[e].child[|d[e].child| - 1], Shoved(d, e, i, t), Proper(d, e, i, t);
            lost in d && r == p[lost := p[lost].(parent := e)]
  {
    assert TokenOk(d, e);
    hide WellFormed, Above;
    TakenInstead(d, e, i, t);
    var n := |d[e].child| - 1;
    var ts, lost := d[e].child, d[e].child[n];
    assert ts[..n][..i] + [t] + ts[..n][i..] == ts[..i] + [t] + ts[i..n];
    var r, p := Shoved(d, e, i, t), Proper(d, e, i, t);
    forall x | x in d ensures r[x] == p[lost := p[lost].(parent := e)][x] {
      DetachedRecord(d, lost, x);
    }
  }

  /** Nothing below e can be below another token without parent, unless e is. */
  lemma ApartFrom(p: Shot, e: Token, lost: Token)
    requires lost in p && p[lost].parent == null && lost != e && !Above(p, lost, e)
    ensures Subtree(p, e) <= Remaining(p, lost)
  {
    hide Above;
    forall x | x in p && Above(p, e, x) && Above(p, lost, x) ensures false {
      Linear(p, e, lost, x);
      AboveParent(p, e, lost);
    }
  }

  lemma LostIsApart(d: Shot, e: Token, i: nat, t: Token)
    requires CanTake(d, e, t) && i < |d[e].child|
    ensures var lost, p := d[e].child[|d[e].child| - 1], Proper(d, e, i, t);
            lost in p && p[lost].parent == null && lost != e && !Above(p, lost, e)
  {
    assert TokenOk(d, e);
    hide WellFormed, Above;
    TakenInstead(d, e, i, t);
    var lost, p := d[e].child[|d[e].child| - 1], Proper(d, e, i, t);
    var m := Detached(d, lost);
    AboveSelf(d, t);
    NotBelowChild(d, e, lost);
    DetachedRecord(d, lost, lost);
    if Above(p, lost, e) {
      var n := Steps(p, lost, e);
      InsertedUp(m, e, i, t, e, n);
      ReachedIsAbove(m, lost, e, n);
      DetachedAbove(d, lost, lost, e);
    }
  }

  lemma ProperTree(d: Shot, e: Token, i: nat, t: Token)
    requires CanTake(d, e, t) && i < |d[e].child|
    ensures e in Proper(d, e, i, t) && WellFormed(Proper(d, e, i, t)) && i < |TreeOf(d, e).kids|
    ensures TreeOf(Proper(d, e, i, t), e) ==
            var was := TreeOf(d, e); was.(kids := was.kids[..i] + [TreeOf(d, t)] + was.kids[i..|was.kids| - 1])
  {
    hide WellFormed, Above, TreeOf;
    TakenInstead(d, e, i, t);
    var n := |d[e].child| - 1;
    KidsAre(d, e);
    DetachedTree(d, e, n);
    InsertedTree(Detached(d, d[e].child[n]), e, i, t);
    DetachedElsewhere(d, d[e].child[n], t);
    var was := TreeOf(d, e).kids;
    assert was[..n] + was[n + 1..] == was[..n];
    assert was[..n][..i] + [TreeOf(d, t)] + was[..n][i..] == was[..i] + [TreeOf(d, t)] + was[i..n];
  }

  /** Without the lost child and what hangs below it, the invariant holds, and e has t among its other children. */
  lemma ShovedRemaining(d: Shot, e: Token, i: nat, t: Token)
    requires CanTake(d, e, t) && i < |d[e].child|
    ensures e != t && Shoved(d, e, i, t).Keys == d.Keys
    ensures var lost, r := d[e].child[|d[e].child| - 1], Shoved(d, e, i, t);
            var rest := Remaining(r, lost);
            && e in rest && WellFormed(Only(r, rest)) && i < |TreeOf(d, e).kids|
            && TreeOf(Only(r, rest), e) ==
               var was := TreeOf(d, e); was.(kids := was.kids[..i] + [TreeOf(d, t)] + was.kids[i..|was.kids| - 1])
  {
    AboveSelf(d, t);
    hide WellFormed, Above, TreeOf, Those, Proper, Shoved, Subtree;
    var lost, r, p := d[e].child[|d[e].child| - 1], Shoved(d, e, i, t), Proper(d, e, i, t);
    ShovedAndProper(d, e, i, t);
    LostIsApart(d, e, i, t);
    ProperTree(d, e, i, t);
    ApartFrom(p, e, lost);
    SameBelow(p, r, lost);
    RemainingRooted(p, lost);
    var rest := Remaining(p, lost);
    LostBelowItself(p, lost);
    assert Only(r, rest) == Only(p, rest);
    OnlyInSubtree(p, e);
    OnlyTree(p, rest, e);
  }

  lemma LostBelowItself(p: Shot, lost: Token)
    requires lost in p
    ensures lost !in Remaining(p, lost)
  {
    AboveSelf(p, lost);
  }

  lemma OnlyInSubtree(p: Shot, e: Token)
    requires e in p
    ensures e in Subtree(p, e)
  {
    AboveSelf(p, e);
  }

  /** What InsertChild leaves behind, from the unbound token on. */
  ghost function Placed(d: Shot, e: Token, ex: Token?, t: Token): Shot
    requires CanTake(d, e, t)
  {
    AboveSelf(d, t);
    if ex != null && ex in d[e].child then Shoved(d, e, PositionOf(d[e].child, ex), t) else Appended(d, e, t)
  }

  /** InsertChild keeps the invariant exactly when it does not find the token it is to insert before. */
  lemma PlacedKeepsIff(d: Shot, e: Token, ex: Token?, t: Token)
    requires CanTake(d, e, t)
    ensures WellFormed(Placed(d, e, ex, t)) <==> ex == null || ex !in d[e].child
  {
    hide WellFormed, Above, Shoved;
    if ex != null && ex in d[e].child {
      ShovedIsBroken(d, e, PositionOf(d[e].child, ex), t);
    } else {
      AppendedWellFormed(d, e, t);
    }
  }

  method InsertChild(e: Token, ex: Token?, t: Token, ghost u: set<Token>)
    requires e in u && t in u && WellFormed(Taken(u)) && e.kind.Element? && !Above(Taken(u), t, e)
    modifies e`child, t`parent, t.parent
    ensures CanTake(Detached(old(Taken(u)), t), e, t)
    ensures Taken(u) == Placed(Detached(old(Taken(u)), t), e, ex, t)
  {
    ghost var s := Taken(u);
    AboveSelf(s, t);
    DetachedRecord(s, t, e);
    hide WellFormed, Above, Placed, Detached;
    Token.Unbind(t, u);
    ghost var d := Taken(u);
    if Above(d, t, e) {
      DetachedAbove(s, t, t, e);
    }
    assert d[e].kind == e.kind && d[t].parent == t.parent;
    Place(e, ex, t, u);
  }

  /** InsertChild once the token is unbound. */
  method Place(e: Token, ex: Token?, t: Token, ghost u: set<Token>)
    requires CanTake(Taken(u), e, t)
    modifies e`child, t`parent
    ensures Taken(u) == Placed(old(Taken(u)), e, ex, t)
  {
    ghost var d := Taken(u);
    AboveSelf(d, t);
    hide WellFormed, Above, PositionOf, Shoved;
    t.parent := e;
    for i := 0 to |e.child|
      invariant e.child == d[e].child && Taken(u) == d[t := d[t].(parent := e)]
      invariant ex !in e.child[..i]
    {
      if e.child[i] == ex {
        PlacedAt(d, e, ex, t, i);
        e.child := e.child[..i] + [t] + e.child[i..|e.child| - 1];
        ShovedHeap(e, t, u, d, i);
        return;
      }
    }
    assert e.child[..|e.child|] == e.child;
    e.AddLast(t);
  }

  lemma ShovedHeap(e: Token, t: Token, u: set<Token>, d: Shot, i: nat)
    requires e in u && t in u && e != t && d.Keys == u && i < |d[e].child| && t.parent == e
    requires e.child == d[e].child[..i] + [t] + d[e].child[i..|d[e].child| - 1]
    requires forall x :: x in u && x != e && x != t ==> d[x] == Taken(u)[x]
    requires Taken(u)[e] == d[e].(child := e.child) && Taken(u)[t] == d[t].(parent := e)
    ensures Taken(u) == Shoved(d, e, i, t)
  {
  }

  lemma PlacedAt(d: Shot, e: Token, ex: Token?, t: Token, i: nat)
    requires CanTake(d, e, t) && i < |d[e].child| && ex == d[e].child[i] && ex !in d[e].child[..i]
    ensures e != t && Placed(d, e, ex, t) == Shoved(d, e, i, t)
  {
    hide WellFormed, Above, Shoved, PositionOf;
    AboveSelf(d, t);
    PositionAt(d[e].child, d[e].child[i], i);
  }

  // ---------------------------------------------------------------- WriteCData

  /** The new token t becomes the only child of e; the children that were there are dropped. */
  ghost function Overwritten(s: Shot, e: Token, t: Token, text: string): Shot
    requires e in s && t !in s
  {
    s[e := s[e].(child := [t])][t := Record(CData(text), [], [], e)]
  }

  method WriteCData(e: Token, text: string, ghost u: set<Token>) returns (t: Token)
    requires e in u
    modifies e`child
    ensures fresh(t) && t !in u && Taken(u + {t}) == Overwritten(old(Taken(u)), e, t, text)
  {
    t := Unlisted(CData(text), e);
    e.child := [t];
  }

  /** Everything that is not below e. */
  ghost function Outside(s: Shot, e: Token): set<Token> {
    set x | x in s && (x == e || !Above(s, e, x))
  }

  lemma OutsideRooted(s: Shot, e: Token)
    requires WellFormed(s) && e in s
    ensures Rooted(s, Outside(s, e))
  {
    forall x | x in Outside(s, e) && s[x].parent != null ensures s[x].parent in Outside(s, e) {
      var p := s[x].parent;
      assert TokenOk(s, x) && TokenOk(s, p);
      if Above(s, e, p) {
        AboveChild(s, p, x);
        AboveTransitive(s, e, p, x);
        assert x == e;
        NotBelowChild(s, p, x);
      }
    }
  }

  lemma OutsideNoChildren(s: Shot, e: Token)
    requires WellFormed(s) && e in s
    ensures e in Outside(s, e) && Those(s[e].child, Outside(s, e)) == []
  {
    assert TokenOk(s, e);
    hide Above, WellFormed;
    AboveSelf(s, e);
    var r := Those(s[e].child, Outside(s, e));
    if r != [] {
      assert r[0] in r;
      AboveChild(s, e, r[0]);
      NotBelowChild(s, e, r[0]);
      assert false;
    }
  }

  lemma OverwrittenIsFine(s: Shot, e: Token, t: Token, text: string)
    requires WellFormed(s) && e in s && t !in s && s[e].kind.Element?
    ensures WellFormed(Overwritten(s, e, t, text)) <==> s[e].child == []
  {
    assert TokenOk(s, e);
    hide WellFormed, Above;
    var r := Overwritten(s, e, t, text);
    if s[e].child == [] {
      BornWellFormed(s, t, CData(text));
      AppendedWellFormed(Born(s, t, CData(text)), e, t);
      assert s[e].child + [t] == [t];
      assert r == Appended(Born(s, t, CData(text)), e, t);
    } else {
      NotBelowChild(s, e, s[e].child[0]);
      BrokenLink(r, s[e].child[0]);
    }
  }

  lemma NotListed(s: Shot, x: Token, t: Token)
    requires WellFormed(s) && x in s && t !in s
    ensures t !in s[x].child
  {
    assert TokenOk(s, x);
  }

  lemma {:induction false} ThoseSame(ts: seq<Token>, k: set<Token>, m: set<Token>)
    requires forall t :: t in ts ==> (t in k <==> t in m)
    ensures Those(ts, k) == Those(ts, m)
  {
    if ts != [] {
      ThoseSame(ts[1..], k, m);
    }
  }

  /** Of what is not below e, the text leaves what appending it to a childless e would give. */
  lemma OverwrittenRest(s: Shot, e: Token, t: Token, text: string)
    requires WellFormed(s) && e in s && t !in s && Rooted(s, Outside(s, e)) && e in Outside(s, e)
    ensures Outside(s, e) + {t} <= Overwritten(s, e, t, text).Keys
    ensures Only(Overwritten(s, e, t, text), Outside(s, e) + {t}) ==
            Appended(Born(Only(s, Outside(s, e)), t, CData(text)), e, t)
  {
    hide WellFormed, Above, Outside, Those;
    var r, k := Overwritten(s, e, t, text), Outside(s, e);
    var a := Appended(Born(Only(s, k), t, CData(text)), e, t);
    OutsideNoChildren(s, e);
    assert [] + [t] == [t] && Those([t], k + {t}) == [t] && Those([], k + {t}) == [];
    assert a[e] == Only(r, k + {t})[e] && a[t] == Only(r, k + {t})[t];
    forall x | x in k && x != e ensures Those(s[x].child, k + {t}) == Those(s[x].child, k) {
      NotListed(s, x, t);
      ThoseSame(s[x].child, k, k + {t});
    }
    assert a.Keys == k + {t};
  }

  /**
   * WriteCData keeps the invariant exactly when the element had no children. In any case it holds of everything
   * but the tokens that used to hang below the element, whose tree is now the character data alone.
   */
  lemma OverwrittenKeepsIff(s: Shot, e: Token, t: Token, text: string)
    requires WellFormed(s) && e in s && t !in s && s[e].kind.Element?
    ensures WellFormed(Overwritten(s, e, t, text)) <==> s[e].child == []
    ensures var r := Overwritten(s, e, t, text);
            var rest := Outside(s, e) + {t};
            && rest <= r.Keys && e in rest && WellFormed(Only(r, rest))
            && TreeOf(Only(r, rest), e) == Tree(s[e].kind, s[e].attr, [Tree(CData(text), [], [])])
  {
    hide WellFormed, Above, TreeOf, Outside, Overwritten, Those;
    var k := Outside(s, e);
    OutsideRooted(s, e);
    OutsideNoChildren(s, e);
    OnlyWellFormed(s, k);
    OverwrittenRest(s, e, t, text);
    OverwrittenIsFine(s, e, t, text);
    var o := Only(s, k);
    BornTree(o, t, CData(text));
    AppendedTree(Born(o, t, CData(text)), e, t);
    KidsAre(o, e);
    TreeParts(o, e);
  }
}
