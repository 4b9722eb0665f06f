/**
 * What happens to trees when tokens are put in, taken out or forgotten. Each lemma is about one change of a
 * well-formed shot, as defined in module Forest, and says which trees it leaves alone and what becomes of the
 * tree of the token whose list of children changes.
 */
module Grafts {
  import opened Seqs
  import opened Forest
  import opened Trees

  // ---------------------------------------------------------------- putting in

  lemma InsertedElsewhere(s: Shot, e: Token, i: nat, t: Token, x: Token)
    requires WellFormed(s) && e in s && t in s && s[e].kind.Element? && i <= |s[e].child|
    requires s[t].parent == null && !Above(s, t, e) && x in s && !Above(s, x, e)
    ensures e != t && WellFormed(Inserted(s, e, i, t)) && TreeOf(Inserted(s, e, i, t), x) == TreeOf(s, x)
  {
    hide WellFormed, TreeOf, Above;
    InsertedWellFormed(s, e, i, t);
    TreeFramed(s, Inserted(s, e, i, t), x);
  }

  /** A token put in as i-th child brings its tree along. */
  lemma InsertedTree(s: Shot, e: Token, i: nat, t: Token)
    requires WellFormed(s) && e in s && t in s && s[e].kind.Element? && i <= |s[e].child|
    requires s[t].parent == null && !Above(s, t, e)
    ensures e != t && WellFormed(Inserted(s, e, i, t)) && i <= |TreeOf(s, e).kids|
    ensures TreeOf(Inserted(s, e, i, t), e) ==
            var was := TreeOf(s, e); was.(kids := was.kids[..i] + [TreeOf(s, t)] + was.kids[i..])
  {
    assert TokenOk(s, e);
    hide WellFormed, TreeOf, Above;
    InsertedWellFormed(s, e, i, t);
    var a := Inserted(s, e, i, t);
    KidsAre(s, e);
    KidsAre(a, e);
    TreeParts(s, e);
    TreeParts(a, e);
    InsertedElsewhere(s, e, i, t, t);
    forall j | 0 <= j < |s[e].child| ensures TreeOf(a, s[e].child[j]) == TreeOf(s, e).kids[j] {
      NotBelowChild(s, e, s[e].child[j]);
      InsertedElsewhere(s, e, i, t, s[e].child[j]);
    }
    assert TreeOf(a, e).kids == TreeOf(s, e).kids[..i] + [TreeOf(s, t)] + TreeOf(s, e).kids[i..];
  }

  lemma AppendedTree(s: Shot, e: Token, t: Token)
    requires WellFormed(s) && e in s && t in s && s[e].kind.Element?
    requires s[t].parent == null && !Above(s, t, e)
    ensures e != t && WellFormed(Appended(s, e, t))
    ensures TreeOf(Appended(s, e, t), e) == TreeOf(s, e).(kids := TreeOf(s, e).kids + [TreeOf(s, t)])
  {
    hide WellFormed, TreeOf, Above;
    var n := |s[e].child|;
    InsertedTree(s, e, n, t);
    KidsAre(s, e);
    assert s[e].child[..n] + [t] + s[e].child[n..] == s[e].child + [t];
    assert Appended(s, e, t) == Inserted(s, e, n, t);
    var kids := TreeOf(s, e).kids;
    assert kids[..n] + [TreeOf(s, t)] + kids[n..] == kids + [TreeOf(s, t)];
  }

  // ---------------------------------------------------------------- a new token

  lemma BornTree(s: Shot, t: Token, kind: Kind)
    requires WellFormed(s) && t !in s
    ensures WellFormed(Born(s, t, kind)) && TreeOf(Born(s, t, kind), t) == Tree(kind, [], [])
    ensures forall x :: x in s ==> TreeOf(Born(s, t, kind), x) == TreeOf(s, x) && !Above(Born(s, t, kind), t, x)
  {
    hide WellFormed, TreeOf, Above;
    BornWellFormed(s, t, kind);
    var b := Born(s, t, kind);
    KidsAre(b, t);
    TreeParts(b, t);
    forall x | x in s ensures TreeOf(b, x) == TreeOf(s, x) {
      TreeFramed(s, b, x);
    }
  }

  // ---------------------------------------------------------------- taking out

  lemma DetachedElsewhere(s: Shot, t: Token, x: Token)
    requires WellFormed(s) && t in s && x in s && (s[t].parent == null || !Above(s, x, s[t].parent))
    ensures WellFormed(Detached(s, t)) && TreeOf(Detached(s, t), x) == TreeOf(s, x)
  {
    hide WellFormed, TreeOf, Above, Without;
    DetachedWellFormed(s, t);
    TreeFramed(s, Detached(s, t), x);
  }

  /** The k-th child taken out of its parent's list. */
  lemma DetachedTree(s: Shot, p: Token, k: nat)
    requires WellFormed(s) && p in s && k < |s[p].child|
    ensures var t := s[p].child[k];
            && t in s && t != p && WellFormed(Detached(s, t)) && k < |TreeOf(s, p).kids|
            && Detached(s, t)[p].child == s[p].child[..k] + s[p].child[k + 1..]
            && TreeOf(Detached(s, t), p) == TreeOf(s, p).(kids := TreeOf(s, p).kids[..k] + TreeOf(s, p).kids[k + 1..])
            && TreeOf(Detached(s, t), t) == TreeOf(s, t)
  {
    assert TokenOk(s, p);
    hide WellFormed, TreeOf, Above;
    var t := s[p].child[k];
    DetachedWellFormed(s, t);
    var d := Detached(s, t);
    NotBelowChild(s, p, t);
    WithoutAt(s[p].child, t, k);
    KidsAre(s, p);
    KidsAre(d, p);
    TreeParts(s, p);
    TreeParts(d, p);
    DetachedElsewhere(s, t, t);
    forall j | 0 <= j < |s[p].child| ensures TreeOf(d, s[p].child[j]) == TreeOf(s, p).kids[j] {
      NotBelowChild(s, p, s[p].child[j]);
      DetachedElsewhere(s, t, s[p].child[j]);
    }
    assert TreeOf(d, p).kids == TreeOf(s, p).kids[..k] + TreeOf(s, p).kids[k + 1..];
  }

  // ---------------------------------------------------------------- forgetting

  function Those(ts: seq<Token>, k: set<Token>): (r: seq<Token>)
    ensures forall t :: t in r ==> t in ts && t in k
    ensures forall t :: t in ts && t in k ==> t in r
    ensures (forall t :: t in ts ==> t in k) ==> r == ts
  {
    if ts == [] then []
    else
      var rest := Those(ts[1..], k);
      HeadOrTail(ts);
      if ts[0] in k then [ts[0]] + rest else rest
  }

  lemma {:induction false} ThoseDistinct(ts: seq<Token>, k: set<Token>)
    requires Distinct(ts)
    ensures Distinct(Those(ts, k))
  {
    if ts != [] {
      ThoseDistinct(ts[1..], k);
      assert ts[0] !in ts[1..];
    }
  }

  lemma {:induction false} ThoseConcat(a: seq<Token>, b: seq<Token>, k: set<Token>)
    ensures Those(a + b, k) == Those(a, k) + Those(b, k)
  {
    if a == [] {
      assert a + b == b;
    } else {
      assert (a + b)[1..] == a[1..] + b;
      ThoseConcat(a[1..], b, k);
    }
  }

  /** What is left when only the tokens of k are looked at. */
  ghost function Only(s: Shot, k: set<Token>): Shot
    requires k <= s.Keys
  {
    map x | x in k :: if x in k then s[x].(child := Those(s[x].child, k)) else NOTHING
  }

  /** No token of k has its parent outside. */
  ghost predicate Rooted(s: Shot, k: set<Token>) {
    k <= s.Keys && forall x :: x in k && s[x].parent != null ==> s[x].parent in k
  }

  lemma {:induction false} OnlyUp(s: Shot, k: set<Token>, x: Token?, n: nat)
    requires Rooted(s, k) && (x == null || x in k)
    ensures Up(Only(s, k), x, n) == Up(s, x, n)
  {
    if n > 0 {
      OnlyUp(s, k, ParentOf(s, x), n - 1);
    }
  }

  lemma OnlyAbove(s: Shot, k: set<Token>, a: Token, x: Token)
    requires Rooted(s, k) && x in k
    ensures Above(Only(s, k), a, x) <==> Above(s, a, x)
  {
    if Above(s, a, x) {
      OnlyUp(s, k, x, Steps(s, a, x));
    }
    if Above(Only(s, k), a, x) {
      OnlyUp(s, k, x, Steps(Only(s, k), a, x));
    }
  }

  lemma OnlyWellFormed(s: Shot, k: set<Token>)
    requires WellFormed(s) && Rooted(s, k)
    ensures WellFormed(Only(s, k))
  {
    hide Those;
    var r := Only(s, k);
    forall x | x in r ensures TokenOk(r, x) {
      assert TokenOk(s, x);
      ThoseDistinct(s[x].child, k);
      forall i | 0 <= i < |r[x].child| ensures r[x].child[i] in r && r[r[x].child[i]].parent == x {
        assert r[x].child[i] in r[x].child;
      }
      var n: nat :| Up(s, x, n) == null;
      OnlyUp(s, k, x, n);
    }
  }

  /** A subtree that is kept whole stays the same. */
  lemma OnlyTree(s: Shot, k: set<Token>, x: Token)
    requires WellFormed(s) && Rooted(s, k) && x in k && Subtree(s, x) <= k
    ensures WellFormed(Only(s, k)) && TreeOf(Only(s, k), x) == TreeOf(s, x)
  {
    OnlyWellFormed(s, k);
    forall y | y in Subtree(s, x) ensures s[y].child == Only(s, k)[y].child {
      forall c | c in s[y].child ensures c in k {
        assert TokenOk(s, y);
        AboveChild(s, y, c);
        AboveTransitive(s, x, y, c);
      }
    }
    hide WellFormed, TreeOf, Subtree;
    TreeFramed(s, Only(s, k), x);
  }
}
