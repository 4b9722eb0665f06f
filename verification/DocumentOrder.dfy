/** The order in which selectDescendants lists elements of the same depth. */
module DocumentOrder {
  import opened Forest
  import opened PathSpec
  import opened PathRelation

  /** a and b lie below two children of one token, a below the earlier one: in the text, a comes first. */
  ghost predicate Before(s: Shot, a: Token, b: Token) {
    exists p, i, j :: p in s && 0 <= i < j < |s[p].child| && Above(s, s[p].child[i], a) && Above(s, s[p].child[j], b)
  }

  /** Every element of es comes before all that follow it. */
  ghost predicate InOrder(s: Shot, es: seq<Token>) {
    forall i, j :: 0 <= i < j < |es| ==> Before(s, es[i], es[j])
  }

  // ---------------------------------------------------------------- the order is a strict one

  lemma OneChildAbove(s: Shot, p: Token, i: nat, j: nat, x: Token)
    requires WellFormed(s) && p in s && i < |s[p].child| && j < |s[p].child|
    requires Above(s, s[p].child[i], x) && Above(s, s[p].child[j], x)
    ensures i == j
  {
    assert TokenOk(s, p);
    hide WellFormed, Above;
    var a, b := s[p].child[i], s[p].child[j];
    Linear(s, a, b, x);
    if a != b && Above(s, a, b) {
      AboveParent(s, a, b);
      NotBelowChild(s, p, a);
    } else if a != b {
      AboveParent(s, b, a);
      NotBelowChild(s, p, b);
    }
  }

  /** q hangs below the child of p that a and b would have to differ in. */
  lemma Divided(s: Shot, p: Token, i: nat, j: nat, q: Token, a: Token, b: Token)
    requires WellFormed(s) && p in s && i < j < |s[p].child| && q in s
    requires Above(s, s[p].child[i], a) && Above(s, s[p].child[j], b)
    ensures !(Above(s, p, q) && p != q && Above(s, q, a) && Above(s, q, b))
  {
    hide Above;
    if Above(s, p, q) && p != q && Above(s, q, a) && Above(s, q, b) {
      var c := LastStep(s, p, q);
      var k :| 0 <= k < |s[p].child| && s[p].child[k] == c;
      AboveTransitive(s, c, q, a);
      AboveTransitive(s, c, q, b);
      OneChildAbove(s, p, i, k, a);
      OneChildAbove(s, p, j, k, b);
    }
  }

  lemma BelowOwner(s: Shot, p: Token, i: nat, x: Token)
    requires WellFormed(s) && p in s && i < |s[p].child| && Above(s, s[p].child[i], x)
    ensures Above(s, p, x)
  {
    assert TokenOk(s, p);
    hide WellFormed, Above;
    AboveChild(s, p, s[p].child[i]);
    AboveTransitive(s, p, s[p].child[i], x);
  }

  /** No two tokens come before each other, and none before itself. */
  lemma BeforeIsStrict(s: Shot, a: Token, b: Token)
    requires WellFormed(s) && Before(s, a, b)
    ensures a != b && !Before(s, b, a)
  {
    hide WellFormed, Above;
    var p, i, j :| p in s && 0 <= i < j < |s[p].child| && Above(s, s[p].child[i], a) && Above(s, s[p].child[j], b);
    if a == b {
      OneChildAbove(s, p, i, j, a);
    }
    if Before(s, b, a) {
      var q, k, l :| q in s && 0 <= k < l < |s[q].child| && Above(s, s[q].child[k], b) && Above(s, s[q].child[l], a);
      BelowOwner(s, p, i, a);
      BelowOwner(s, p, j, b);
      BelowOwner(s, q, k, b);
      BelowOwner(s, q, l, a);
      Linear(s, p, q, a);
      Divided(s, p, i, j, q, a, b);
      Divided(s, q, k, l, p, b, a);
      assert p == q;
      OneChildAbove(s, p, i, l, a);
      OneChildAbove(s, p, j, k, b);
    }
  }

  // ---------------------------------------------------------------- one level and the next

  lemma {:induction false} KeptInOrder(s: Shot, ts: seq<Token>, i: nat, j: nat) returns (k: nat, l: nat)
    requires i < j < |ElementsOf(s, ts)|
    ensures k < l < |ts| && ts[k] == ElementsOf(s, ts)[i] && ts[l] == ElementsOf(s, ts)[j]
  {
    if !IsElement(s, ts[0]) {
      k, l := KeptInOrder(s, ts[1..], i, j);
      k, l := k + 1, l + 1;
    } else if i > 0 {
      k, l := KeptInOrder(s, ts[1..], i - 1, j - 1);
      k, l := k + 1, l + 1;
    } else {
      var rest := ElementsOf(s, ts[1..]);
      assert rest[j - 1] in rest && rest[j - 1] in ts[1..];
      var m :| 0 <= m < |ts[1..]| && ts[1..][m] == rest[j - 1];
      k, l := 0, m + 1;
    }
  }

  lemma {:induction false} NamedInOrder(s: Shot, space: string, tag: string, es: seq<Token>)
    requires AllElements(s, es) && InOrder(s, es)
    ensures InOrder(s, Named(s, space, tag, es))
  {
    hide Before, NameMatches;
    if es != [] {
      var rest := Named(s, space, tag, es[1..]);
      NamedInOrder(s, space, tag, es[1..]);
      forall x | x in rest ensures Before(s, es[0], x) {
        var j :| 0 <= j < |es[1..]| && es[1..][j] == x;
        assert es[j + 1] == x;
      }
      assert forall j :: 0 <= j < |rest| ==> rest[j] in rest;
    }
  }

  lemma KidsInOrder(s: Shot, e: Token)
    requires IsElement(s, e)
    ensures InOrder(s, Kids(s, e))
  {
    hide Above;
    var ks := Kids(s, e);
    forall i, j | 0 <= i < j < |ks| ensures Before(s, ks[i], ks[j]) {
      var k, l := KeptInOrder(s, s[e].child, i, j);
      AboveSelf(s, ks[i]);
      AboveSelf(s, ks[j]);
    }
  }

  lemma BeforeBelow(s: Shot, a: Token, b: Token, x: Token, y: Token)
    requires Before(s, a, b) && Above(s, a, x) && Above(s, b, y)
    ensures Before(s, x, y)
  {
    hide Above;
    var p, i, j :| p in s && 0 <= i < j < |s[p].child| && Above(s, s[p].child[i], a) && Above(s, s[p].child[j], b);
    AboveTransitive(s, s[p].child[i], a, x);
    AboveTransitive(s, s[p].child[j], b, y);
  }

  lemma InOrderConcat(s: Shot, a: seq<Token>, b: seq<Token>)
    requires InOrder(s, a) && InOrder(s, b) && forall x, y :: x in a && y in b ==> Before(s, x, y)
    ensures InOrder(s, a + b)
  {
    hide Before;
    var c := a + b;
    forall i, j | 0 <= i < j < |c| ensures Before(s, c[i], c[j]) {
      if i < |a| <= j {
        assert c[i] in a && c[j] == b[j - |a|];
      }
    }
  }

  lemma {:induction false} NextInOrder(s: Shot, es: seq<Token>)
    requires WellFormed(s) && AllElements(s, es) && InOrder(s, es)
    ensures InOrder(s, KidsOfAll(s, es))
  {
    hide WellFormed, Before, Above;
    if es != [] {
      var e, rest := es[0], es[1..];
      NextInOrder(s, rest);
      KidsInOrder(s, e);
      KidsOfAllMembers(s, rest);
      KidsAreChildren(s, e);
      forall x, y | x in Kids(s, e) && y in KidsOfAll(s, rest) ensures Before(s, x, y) {
        var j :| 0 <= j < |rest| && rest[j] == s[y].parent;
        assert Before(s, e, es[j + 1]);
        AboveChild(s, e, x);
        AboveChild(s, rest[j], y);
        BeforeBelow(s, e, rest[j], x, y);
      }
      InOrderConcat(s, Kids(s, e), KidsOfAll(s, rest));
    }
  }

  // ---------------------------------------------------------------- all levels

  lemma KidsOneDeeper(s: Shot, a: Token, es: seq<Token>, n: nat)
    requires WellFormed(s) && AllElements(s, es) && AtDepth(s, a, es, n)
    ensures AtDepth(s, a, KidsOfAll(s, es), n + 1)
  {
    hide WellFormed, KidsOfAll;
    KidsOfAllMembers(s, es);
    forall k | k in KidsOfAll(s, es) ensures Up(s, k, n + 1) == a {
      assert Up(s, k, n + 1) == Up(s, s[k].parent, n);
    }
  }

  lemma {:induction false} LevelsInOrder(s: Shot, a: Token, es: seq<Token>, n: nat, i: nat, j: nat)
    requires WellFormed(s) && AllElements(s, es) && Antichain(s, es) && a in s && AtDepth(s, a, es, n) && InOrder(s, es)
    requires i < j < |BreadthFirst(s, es)|
    requires var r := BreadthFirst(s, es);
             Above(s, a, r[i]) && Above(s, a, r[j]) && Steps(s, a, r[i]) == Steps(s, a, r[j])
    ensures Before(s, BreadthFirst(s, es)[i], BreadthFirst(s, es)[j])
    decreases Cover(s, es)
  {
    hide WellFormed, Antichain, AllElements, KidsOfAll, BreadthFirst, Cover, Before, Above, Up;
    BreadthFirstUnfold(s, es);
    var ks := KidsOfAll(s, es);
    KidsOneDeeper(s, a, es, n);
    var deeper := BreadthFirst(s, ks);
    assert j >= |es| ==> deeper[j - |es|] in deeper;
    if i >= |es| {
      NextInOrder(s, es);
      LevelsInOrder(s, a, ks, n + 1, i - |es|, j - |es|);
    } else if j >= |es| {
      GroundedIn(s, a);
      StepsUnique(s, a, es[i], n);
      BreadthFirstByDepth(s, a, ks, n + 1);
      assert false;
    } else {
      assert InOrder(s, es);
    }
  }

  /** selectDescendants lists elements of the same depth in document order. */
  lemma DescendantsInOrder(s: Shot, e: Token, i: nat, j: nat)
    requires WellFormed(s) && IsElement(s, e)
    requires i < j < |Selected(s, Descendants, e)|
    ensures var r := Selected(s, Descendants, e);
            && Above(s, e, r[i]) && Above(s, e, r[j])
            && (Steps(s, e, r[i]) == Steps(s, e, r[j]) ==> Before(s, r[i], r[j]))
  {
    hide WellFormed, BreadthFirst, Before, Above;
    DescendantsOnceByDepth(s, e);
    var r := Selected(s, Descendants, e);
    assert r[i] in r && r[j] in r;
    assert Up(s, e, 0) == e;
    if Steps(s, e, r[i]) == Steps(s, e, r[j]) {
      LevelsInOrder(s, e, [e], 0, i, j);
    }
  }
}
