/** What becomes of the tokens themselves when blanks are taken out below an element. */
module Blanks {
  import opened Forest
  import opened Trees
  import opened Regrowth
  import opened Indentation

  ghost predicate BlankIn(g: Shot, t: Token)
    requires t in g
  {
    g[t].kind.CharData? && g[t].kind.whitespace
  }

  /** The elements from e downwards, whose lists of children may change. */
  ghost function Lists(g: Shot, e: Token): set<Token> {
    set x | x in g && Above(g, e, x) && g[x].kind.Element?
  }

  /**
   * From g to h nothing is lost but blanks below e, what is not lost differs in its list of children at most, and
   * below the tokens cs there is no blank left that was there in g.
   */
  ghost predicate Sparing(g: Shot, h: Shot, e: Token, cs: seq<Token>) {
    && (forall x :: x in g && x !in h ==> Above(g, e, x) && BlankIn(g, x))
    && (forall x :: x in g && x in h ==> h[x] == g[x].(child := h[x].child))
    && (forall c, x :: c in cs && x in g && x in h && Above(h, c, x) ==> !BlankIn(h, x))
  }

  lemma SparingNothing(g: Shot, e: Token)
    ensures Sparing(g, g, e, [])
  {
  }

  /** A new token below e. */
  lemma SparingBirth(g: Shot, h: Shot, e: Token, cs: seq<Token>, n: nat, t: Token, kind: Kind)
    requires WellFormed(h) && Sparing(g, h, e, cs) && t !in g && t !in h && (forall c :: c in cs ==> c in h)
    requires e in h && h[e].kind.Element? && n <= |h[e].child|
    ensures Sparing(g, Inserted(Born(h, t, kind), e, n, t), e, cs + [t])
  {
    var b := Born(h, t, kind);
    var r := Inserted(b, e, n, t);
    BornWellFormed(h, t, kind);
    InsertedWellFormed(b, e, n, t);
    hide WellFormed, Above;
    forall c, x | c in cs + [t] && x in g && x in r && Above(r, c, x) ensures !BlankIn(r, x) {
      var k := Steps(r, c, x);
      InsertedUp(b, e, n, t, x, k);
      BornUp(h, t, kind, x, k);
      ReachedIsAbove(h, c, x, k);
      assert c in cs;
    }
  }

  /** A token without children that is not blank itself. */
  lemma SparingLeaf(g: Shot, h: Shot, e: Token, cs: seq<Token>, c: Token)
    requires WellFormed(h) && Sparing(g, h, e, cs) && c in h && h[c].child == [] && !BlankIn(h, c)
    ensures Sparing(g, h, e, cs + [c])
  {
    hide WellFormed, Above;
    forall d, x | d in cs + [c] && x in g && x in h && Above(h, d, x) ensures !BlankIn(h, x) {
      if d !in cs && x != c {
        var k := LastStep(h, c, x);
        assert false;
      }
    }
  }

  /** A child of e below which blanks have been taken out. */
  lemma SparingChild(g: Shot, h: Shot, r: Shot, e: Token, cs: seq<Token>, c: Token)
    requires WellFormed(g) && WellFormed(h) && WellFormed(r) && Regrown(g, h, e) && Sparing(g, h, e, cs)
    requires e in h && c in h && h[c].parent == e && c !in cs && forall d :: d in cs ==> d in h && h[d].parent == e
    requires Regrown(h, r, c) && Sparing(h, r, c, [c]) && forall x :: x in g && x in r ==> x in h
    ensures Sparing(g, r, e, cs + [c])
  {
    hide WellFormed, Above, Regrown;
    forall x | x in g && x !in r ensures Above(g, e, x) && BlankIn(g, x) {
      if x in h {
        ChildIsBelow(h, e, c, x);
        BelowBefore(g, h, e, x);
      }
    }
    forall d, x | d in cs + [c] && x in g && x in r && Above(r, d, x) ensures !BlankIn(r, x) {
      if d != c {
        BesideKept(h, r, e, c, d, x);
      }
    }
  }

  lemma BelowBefore(g: Shot, h: Shot, e: Token, x: Token)
    requires WellFormed(g) && Regrown(g, h, e) && x in g && x in h && Above(h, e, x)
    ensures Above(g, e, x)
  {
    hide WellFormed, Above;
    if !Above(g, e, x) {
      StillApart(g, h, e, x, e);
    }
  }

  /** What is below a sibling d of c has been there before, unchanged. */
  lemma BesideKept(h: Shot, r: Shot, e: Token, c: Token, d: Token, x: Token)
    requires WellFormed(h) && WellFormed(r) && Regrown(h, r, c) && e in h && c in h && d in h && c != d
    requires h[c].parent == e && h[d].parent == e && x in r && Above(r, d, x)
    ensures x in h && Above(h, d, x) && r[x] == h[x]
  {
    assert TokenOk(h, e);
    hide WellFormed, Above;
    SiblingNotBelow(h, e, c, d);
    assert r[d] == h[d];
    RegrownAbove(h, r, e, c);
    if Above(r, c, x) {
      Linear(r, c, d, x);
      GroundedIn(r, e);
      SiblingNotBelow(r, e, c, d);
      SiblingNotBelow(r, e, d, c);
    }
    StillApart(h, r, c, x, d);
  }

  lemma SiblingNotBelow(s: Shot, e: Token, a: Token, b: Token)
    requires Grounded(s, e) && a in s && b in s && s[a].parent == e && s[b].parent == e && a != b
    ensures !Above(s, a, b)
  {
    hide Above;
    if Above(s, a, b) {
      AboveParent(s, a, b);
      NotBelowChild(s, e, a);
    }
  }

  /** When blanks are gone below all children of e, they are gone below e. */
  lemma SparingDone(g: Shot, r: Shot, e: Token)
    requires WellFormed(r) && e in r && r[e].kind.Element? && Sparing(g, r, e, r[e].child)
    ensures Sparing(g, r, e, [e])
  {
    hide WellFormed, Above;
    forall x | x in g && x in r && Above(r, e, x) ensures !BlankIn(r, x) {
      if x != e {
        var c := LastStep(r, e, x);
      }
    }
  }

  /** First the blank children of e, then the blanks below its other children. */
  lemma SparingTwice(g: Shot, h: Shot, r: Shot, e: Token)
    requires WellFormed(g) && Regrown(g, h, e) && Sparing(g, h, e, []) && Sparing(h, r, e, [e])
    requires forall x :: x in g && x in r ==> x in h
    ensures Sparing(g, r, e, [e])
  {
    hide WellFormed, Above, Regrown;
    forall x | x in g && x !in r ensures Above(g, e, x) && BlankIn(g, x) {
      if x in h {
        BelowBefore(g, h, e, x);
      }
    }
  }

  /** Which tokens are left: all but the blanks below e. */
  lemma SparedAre(g: Shot, r: Shot, e: Token)
    requires Regrown(g, r, e) && Sparing(g, r, e, [e])
    ensures forall x :: x in g ==> (x in r <==> !(Above(g, e, x) && BlankIn(g, x)))
  {
    hide Above;
    forall x | x in g && x in r && Above(g, e, x) ensures !BlankIn(g, x) {
      assert Above(r, e, x);
    }
  }

  // ---------------------------------------------------------------- the invariant over all tokens

  lemma {:induction false} BareSame(ts: seq<Tree>)
    ensures |BareKids(ts)| <= |ts|
    ensures BareKids(ts) == ts <==> forall i :: 0 <= i < |ts| ==> !IsBlank(ts[i]) && Bare(ts[i]) == ts[i]
    decreases |ts|
  {
    hide Bare;
    if ts != [] {
      BareSame(ts[1..]);
      assert ts == [ts[0]] + ts[1..];
      assert forall i :: 0 < i < |ts| ==> ts[i] == ts[1..][i - 1];
    }
  }

  /** A tree is bare exactly if no token below its top is blank. */
  lemma {:induction false} BareIff(s: Shot, t: Token)
    requires WellFormed(s) && t in s
    ensures Bare(TreeOf(s, t)) == TreeOf(s, t) <==> forall x :: x in s && Above(s, t, x) && x != t ==> !BlankIn(s, x)
    decreases Subtree(s, t)
  {
    assert TokenOk(s, t);
    hide WellFormed, TreeOf, Above;
    KidsAre(s, t);
    TreeParts(s, t);
    BareSame(TreeOf(s, t).kids);
    forall i | 0 <= i < |s[t].child| ensures ChildBare(s, t, i) {
      ChildBelow(s, t, i);
      TreeParts(s, s[t].child[i]);
      BareIff(s, s[t].child[i]);
    }
    if x :| x in s && Above(s, t, x) && x != t && BlankIn(s, x) {
      var c := LastStep(s, t, x);
      var i :| 0 <= i < |s[t].child| && s[t].child[i] == c;
      assert ChildBare(s, t, i);
    } else {
      var kids := TreeOf(s, t).kids;
      forall i | 0 <= i < |s[t].child| ensures !IsBlank(kids[i]) && Bare(kids[i]) == kids[i] {
        BlankBelow(s, t, i);
        assert ChildBare(s, t, i);
      }
    }
  }

  /** The induction hypothesis for the i-th child. */
  ghost predicate ChildBare(s: Shot, t: Token, i: nat)
    requires WellFormed(s) && t in s && i < |s[t].child|
  {
    var c := s[t].child[i];
    && c in s && i < |TreeOf(s, t).kids| && TreeOf(s, t).kids[i] == TreeOf(s, c)
    && (IsBlank(TreeOf(s, c)) <==> BlankIn(s, c))
    && (Bare(TreeOf(s, c)) == TreeOf(s, c) <==> forall x :: x in s && Above(s, c, x) && x != c ==> !BlankIn(s, x))
  }

  /** Blanks from the i-th child downwards are blanks below t. */
  ghost predicate BlanksPass(s: Shot, t: Token, i: nat)
    requires t in s && i < |s[t].child|
  {
    forall x :: x in s && Above(s, s[t].child[i], x) ==> Above(s, t, x) && x != t
  }

  lemma BlankBelow(s: Shot, t: Token, i: nat)
    requires WellFormed(s) && t in s && i < |s[t].child|
    ensures BlanksPass(s, t, i) && s[t].child[i] in s && Above(s, s[t].child[i], s[t].child[i])
  {
    assert TokenOk(s, t);
    hide WellFormed, Above;
    var c := s[t].child[i];
    AboveSelf(s, c);
    NotBelowChild(s, t, c);
    forall x | x in s && Above(s, c, x) ensures Above(s, t, x) && x != t {
      ChildIsBelow(s, t, c, x);
    }
  }

  /**
   * Over all tokens, those that were taken out included, the invariant is kept exactly if none was: a blank that is
   * taken out keeps naming the parent that no longer lists it.
   */
  lemma KeptIff(g: Shot, r: Shot, e: Token)
    requires WellFormed(g) && WellFormed(r) && e in g && g[e].kind.Element? && Regrown(g, r, e) && Sparing(g, r, e, [e])
    ensures WellFormed(g + r) <==> Bare(TreeOf(g, e)) == TreeOf(g, e)
  {
    hide WellFormed, TreeOf, Above, Sparing, Regrown, Bare;
    SparedAre(g, r, e);
    BareIff(g, e);
    if Bare(TreeOf(g, e)) == TreeOf(g, e) {
      assert g + r == r;
    } else {
      var x :| x in g && Above(g, e, x) && x != e && BlankIn(g, x);
      LostLink(g, r, e, x);
    }
  }

  lemma LostLink(g: Shot, r: Shot, e: Token, x: Token)
    requires WellFormed(g) && WellFormed(r) && e in g && x in g && Above(g, e, x) && x != e && x !in r
    requires forall y :: y in g && y !in r ==> BlankIn(g, y)
    ensures !WellFormed(g + r)
  {
    AboveParent(g, e, x);
    var p := g[x].parent;
    assert TokenOk(g, x) && TokenOk(g, p);
    if p in r {
      assert TokenOk(r, p);
    }
    assert x !in (g + r)[p].child;
    BrokenLink(g + r, x);
  }
}
