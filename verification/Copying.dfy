/**
 * Element.Copy of pkg/controller/etree/etree.go: a deep copy that shares no token with the original. It is put together
 * from forests of new tokens, each of them well-formed by itself, that are joined one child at a time.
 */
module Copying {
  import opened Attrs
  import opened Forest
  import opened Trees
  import opened Grafts

  // ---------------------------------------------------------------- two forests side by side

  lemma {:induction false} JoinedUp(a: Shot, b: Shot, x: Token?, n: nat)
    requires WellFormed(a) && a.Keys !! b.Keys && (x == null || x in a)
    ensures Up(a + b, x, n) == Up(a, x, n) && (Up(a, x, n) == null || Up(a, x, n) in a)
  {
    if n > 0 {
      if x != null {
        assert TokenOk(a, x);
      }
      JoinedUp(a, b, ParentOf(a, x), n - 1);
    }
  }

  lemma JoinedOk(a: Shot, b: Shot, x: Token)
    requires WellFormed(a) && a.Keys !! b.Keys && x in a
    ensures TokenOk(a + b, x)
    ensures forall y :: Above(a + b, y, x) ==> y in a && Above(a, y, x)
  {
    assert TokenOk(a, x);
    var n: nat :| Up(a, x, n) == null;
    JoinedUp(a, b, x, n);
    forall y | Above(a + b, y, x) ensures y in a && Above(a, y, x) {
      JoinedUp(a, b, x, Steps(a + b, y, x));
    }
  }

  /** Two well-formed forests without common tokens are one well-formed forest, with the same trees. */
  lemma Joined(a: Shot, b: Shot)
    requires WellFormed(a) && WellFormed(b) && a.Keys !! b.Keys
    ensures WellFormed(a + b)
    ensures forall x :: x in a ==> Subtree(a + b, x) <= a.Keys && TreeOf(a + b, x) == TreeOf(a, x)
    ensures forall x :: x in b ==> Subtree(a + b, x) <= b.Keys && TreeOf(a + b, x) == TreeOf(b, x)
  {
    hide TreeOf, Above, TokenOk;
    assert a + b == b + a;
    forall x | x in a + b ensures TokenOk(a + b, x) {
      if x in a { JoinedOk(a, b, x); } else { JoinedOk(b, a, x); }
    }
    JoinedTrees(a, b);
    JoinedTrees(b, a);
  }

  lemma JoinedTrees(a: Shot, b: Shot)
    requires WellFormed(a) && WellFormed(b) && a.Keys !! b.Keys && WellFormed(a + b)
    ensures forall x :: x in a ==> Subtree(a + b, x) <= a.Keys && TreeOf(a + b, x) == TreeOf(a, x)
  {
    hide TreeOf, Above, TokenOk, WellFormed;
    assert a + b == b + a;
    forall x | x in a ensures Subtree(a + b, x) <= a.Keys && TreeOf(a + b, x) == TreeOf(a, x) {
      forall y | y in Subtree(a + b, x) ensures y in a {
        if y in b {
          JoinedOk(b, a, y);
        }
      }
      TreeFramed(a, a + b, x);
    }
  }

  // ---------------------------------------------------------------- the copy

  /** The shot in which c has no parent yet. */
  ghost function Unbound(s: Shot, c: Token): Shot
    requires c in s
  {
    s[c := s[c].(parent := null)]
  }

  /** c, at the top of n, gets the copy at the top of m as its next child. */
  lemma Grown(n: Shot, c: Token, m: Shot, kid: Token)
    requires WellFormed(n) && WellFormed(m) && n.Keys !! m.Keys && c in n && kid in m
    requires n[c].kind.Element? && m[kid].parent == null
    ensures WellFormed(Appended(n + m, c, kid))
    ensures TreeOf(Appended(n + m, c, kid), c) == TreeOf(n, c).(kids := TreeOf(n, c).kids + [TreeOf(m, kid)])
  {
    hide WellFormed, TreeOf, Above;
    Joined(n, m);
    JoinedOk(n, m, c);
    AppendedTree(n + m, c, kid);
  }

  method Dup(e: Token, parent: Token?, ghost u: set<Token>) returns (c: Token, ghost v: set<Token>)
    requires e in u && WellFormed(Taken(u))
    ensures fresh(v) && c in v && c.parent == parent
    ensures WellFormed(Unbound(Taken(v), c)) && TreeOf(Unbound(Taken(v), c), c) == TreeOf(Taken(u), e)
    decreases TreeOf(Taken(u), e), 0
  {
    hide WellFormed, TreeOf;
    ghost var s := Taken(u);
    LeavesAreBare(u, e);
    KidsAre(s, e);
    TreeParts(s, e);
    c, v := Shell(e.kind, parent);
    for i := 0 to |e.child|
      invariant fresh(v) && c in v && c.parent == parent && c.kind == e.kind && c.attr == []
      invariant Taken(u) == s
      invariant WellFormed(Unbound(Taken(v), c))
      invariant TreeOf(Unbound(Taken(v), c), c) == Tree(e.kind, [], TreeOf(s, e).kids[..i])
    {
      v := DupChild(e, i, c, u, v);
      assert TreeOf(s, e).kids[..i + 1] == TreeOf(s, e).kids[..i] + [TreeOf(s, e).kids[i]];
    }
    assert TreeOf(s, e).kids[..|e.child|] == TreeOf(s, e).kids;
    CopyAttrs(e, c, v);
  }

  lemma LeavesAreBare(u: set<Token>, e: Token)
    requires e in u && WellFormed(Taken(u))
    ensures e in Taken(u) && Taken(u)[e] == Record(e.kind, e.attr, e.child, e.parent)
    ensures forall c :: c in e.child ==> c in u
    ensures e.child != [] || e.attr != [] ==> e.kind.Element?
  {
    assert TokenOk(Taken(u), e);
  }

  /** A new token of the same kind, without attributes and children so far. */
  method Shell(kind: Kind, parent: Token?) returns (c: Token, ghost v: set<Token>)
    ensures fresh(c) && v == {c} && c.kind == kind && c.attr == [] && c.parent == parent
    ensures WellFormed(Unbound(Taken(v), c)) && TreeOf(Unbound(Taken(v), c), c) == Tree(kind, [], [])
  {
    hide TreeOf;
    c := Unlisted(kind, parent);
    v := {c};
    BornTree(map[], c, kind) by {
      assert WellFormed(map[]);
    }
    assert Unbound(Taken(v), c) == Born(map[], c, kind);
  }

  /** One turn of the loop in dup. */
  method DupChild(e: Token, i: nat, c: Token, ghost u: set<Token>, ghost v: set<Token>) returns (ghost w: set<Token>)
    requires e in u && WellFormed(Taken(u)) && u !! v && c in v && WellFormed(Unbound(Taken(v), c))
    requires i < |e.child| && e.child[i] in u && c.kind.Element?
    modifies c`child
    ensures fresh(w - v) && v <= w && c.kind == old(c.kind)
    ensures WellFormed(Unbound(Taken(w), c))
    ensures var was := old(TreeOf(Unbound(Taken(v), c), c));
            TreeOf(Unbound(Taken(w), c), c) == was.(kids := was.kids + [old(TreeOf(Taken(u), e.child[i]))])
    decreases TreeOf(Taken(u), e.child[i]), 1
  {
    hide WellFormed, TreeOf;
    ghost var n := Unbound(Taken(v), c);
    var kid, m := Dup(e.child[i], c, u);
    Grown(n, c, Unbound(Taken(m), kid), kid);
    c.child := c.child + [kid];
    w := v + m;
    assert Unbound(Taken(w), c) == Appended(n + Unbound(Taken(m), kid), c, kid);
  }

  method CopyAttrs(e: Token, c: Token, ghost v: set<Token>)
    requires c in v && e != c && WellFormed(Unbound(Taken(v), c)) && c.attr == []
    requires c.kind.Element? || e.attr == []
    modifies c`attr
    ensures WellFormed(Unbound(Taken(v), c))
    ensures TreeOf(Unbound(Taken(v), c), c) == old(TreeOf(Unbound(Taken(v), c), c)).(attr := e.attr)
  {
    hide WellFormed, TreeOf;
    ghost var n := Unbound(Taken(v), c);
    for i := 0 to |e.attr|
      invariant c.attr == e.attr[..i] && Taken(v) == old(Taken(v))[c := old(Taken(v))[c].(attr := c.attr)]
    {
      c.attr := c.attr + [e.attr[i]];
    }
    assert e.attr[..|e.attr|] == e.attr;
    AttrTree(n, c, e.attr);
    assert Unbound(Taken(v), c) == n[c := n[c].(attr := e.attr)];
  }

  lemma AttrTree(n: Shot, c: Token, attr: seq<Attr>)
    requires WellFormed(n) && c in n && (n[c].kind.Element? || attr == [])
    ensures var r := n[c := n[c].(attr := attr)];
            WellFormed(r) && TreeOf(r, c) == TreeOf(n, c).(attr := attr)
  {
    var r := n[c := n[c].(attr := attr)];
    assert forall t :: t in n && !n[t].kind.Element? ==> TokenOk(n, t);
    assert TokenOk(n, c);
    hide WellFormed, TreeOf, Above;
    SameWellFormed(n, r);
    KidsAre(n, c);
    KidsAre(r, c);
    TreeParts(n, c);
    TreeParts(r, c);
    forall j | 0 <= j < |n[c].child| ensures TreeOf(r, n[c].child[j]) == TreeOf(n, n[c].child[j]) {
      NotBelowChild(n, c, n[c].child[j]);
      TreeFramed(n, r, n[c].child[j]);
    }
    assert TreeOf(r, c).kids == TreeOf(n, c).kids;
  }

  /** Copy: a fresh tree equal to the original, below which there is nothing old. */
  method Copy(e: Token, ghost u: set<Token>) returns (c: Token, ghost v: set<Token>)
    requires e in u && WellFormed(Taken(u))
    ensures fresh(v) && c in v && c.parent == null
    ensures WellFormed(Taken(u + v)) && TreeOf(Taken(u + v), c) == TreeOf(Taken(u), e)
    ensures Subtree(Taken(u + v), c) <= v
    ensures forall x :: x in u ==> Subtree(Taken(u + v), x) <= u && TreeOf(Taken(u + v), x) == TreeOf(Taken(u), x)
  {
    hide WellFormed, TreeOf, Above;
    c, v := Dup(e, null, u);
    assert Unbound(Taken(v), c) == Taken(v);
    Joined(Taken(u), Taken(v));
    assert Taken(u) + Taken(v) == Taken(u + v);
  }
}
