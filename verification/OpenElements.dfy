/**
 * How the elements on readFrom's stack hang together, and why what is already closed stays as it is: level by
 * level, an open element holds the kids that are closed, and is the last child of the element below it.
 */
module OpenElements {
  import opened Seqs
  import opened Attrs
  import opened Forest
  import opened Trees
  import opened Reading

  /** st is the chain of open elements, from the outermost to the innermost. */
  ghost predicate Chain(s: Shot, st: seq<Token>) {
    && st != [] && Distinct(st)
    && (forall i :: 0 <= i < |st| ==> st[i] in s && s[st[i]].kind.Element?)
    && s[st[0]].parent == null
    && (forall i :: 0 < i < |st| ==> s[st[i]].parent == st[i - 1])
  }

  /** The i-th open element holds what its frame says, and the next open element as its last child. */
  ghost predicate Level(s: Shot, st: seq<Token>, frames: seq<Frame>, i: nat)
    requires WellFormed(s) && |st| == |frames| && i < |st| && st[i] in s
  {
    var e, f := st[i], frames[i];
    && s[e].kind == f.kind && s[e].attr == f.attr
    && |s[e].child| == |f.kids| + (if i + 1 < |st| then 1 else 0)
    && (i + 1 < |st| ==> s[e].child[|f.kids|] == st[i + 1])
    && (forall j :: 0 <= j < |f.kids| ==> s[e].child[j] in s && TreeOf(s, s[e].child[j]) == f.kids[j])
  }

  ghost predicate Tied(s: Shot, st: seq<Token>, frames: seq<Frame>) {
    && WellFormed(s) && Chain(s, st) && |st| == |frames|
    && forall i :: 0 <= i < |st| ==> Level(s, st, frames, i)
  }

  lemma {:induction false} AncestorsOpen(s: Shot, st: seq<Token>, x: Token, i: nat)
    requires Chain(s, st) && i < |st| && Above(s, x, st[i])
    ensures x in st
  {
    if x != st[i] {
      AboveParent(s, x, st[i]);
      assert i > 0;
      AncestorsOpen(s, st, x, i - 1);
    }
  }

  lemma {:induction false} StackAt(s: Shot, st: seq<Token>, k: nat)
    requires Chain(s, st) && k <= |st|
    ensures Up(s, st[|st| - 1], k) == if k < |st| then st[|st| - 1 - k] else null
    decreases k
  {
    if k > 0 {
      StackAt(s, st, k - 1);
      UpSum(s, st[|st| - 1], k - 1, 1);
      var x := st[|st| - k];
      assert Up(s, x, 1) == Up(s, ParentOf(s, x), 0);
    }
  }

  /**
   * The stack is the path of the open elements: going up from the innermost one meets them one by one down to the
   * bottom of the stack and then ends, so they are exactly that element and its ancestors.
   */
  lemma StackIsPath(s: Shot, st: seq<Token>)
    requires Chain(s, st)
    ensures forall i :: 0 <= i < |st| ==> Up(s, st[|st| - 1], |st| - 1 - i) == st[i]
    ensures Up(s, st[|st| - 1], |st|) == null
    ensures forall x :: Above(s, x, st[|st| - 1]) <==> x in st
  {
    hide Above;
    var top := st[|st| - 1];
    StackAt(s, st, |st|);
    forall i | 0 <= i < |st| ensures Up(s, top, |st| - 1 - i) == st[i] {
      StackAt(s, st, |st| - 1 - i);
    }
    forall x | x in st ensures Above(s, x, top) {
      var i :| 0 <= i < |st| && st[i] == x;
      ReachedIsAbove(s, x, top, |st| - 1 - i);
    }
    forall x | Above(s, x, top) ensures x in st {
      AncestorsOpen(s, st, x, |st| - 1);
    }
  }

  /** The children that a frame lists are closed. */
  lemma ClosedChild(s: Shot, st: seq<Token>, frames: seq<Frame>, i: nat, j: nat)
    requires Tied(s, st, frames) && i < |st| && j < |frames[i].kids| && j < |s[st[i]].child|
    ensures s[st[i]].child[j] in s && s[st[i]].child[j] !in st
  {
    hide WellFormed, TreeOf;
    assert Level(s, st, frames, i);
    var c := s[st[i]].child[j];
    ChildBelow(s, st[i], j);
    if m :| 0 <= m < |st| && st[m] == c {
      assert m > 0;
      assert s[st[m]].parent == st[m - 1];
      assert m - 1 == i;
      NoRepeat(s, st[i], j, |frames[i].kids|);
    }
  }

  lemma NoRepeat(s: Shot, t: Token, j: nat, k: nat)
    requires WellFormed(s) && t in s && j < k < |s[t].child|
    ensures s[t].child[j] != s[t].child[k]
  {
    assert TokenOk(s, t);
  }

  /** Adding a token to the innermost open element leaves every closed tree as it was. */
  lemma ClosedKept(s: Shot, st: seq<Token>, t: Token, kind: Kind, x: Token)
    requires WellFormed(s) && Chain(s, st) && t !in s && x in s && x !in st
    ensures var r := Appended(Born(s, t, kind), st[|st| - 1], t);
            WellFormed(r) ==> x in r && TreeOf(r, x) == TreeOf(s, x)
  {
    hide WellFormed, TreeOf;
    var top := st[|st| - 1];
    var r := Appended(Born(s, t, kind), top, t);
    forall y | y in Subtree(s, x) ensures y in r && SameContent(s[y], r[y]) {
      if y == top {
        AncestorsOpen(s, st, x, |st| - 1);
      }
    }
    if WellFormed(r) {
      TreeFramed(s, r, x);
    }
  }

  lemma GrownWellFormed(s: Shot, st: seq<Token>, t: Token, kind: Kind)
    requires WellFormed(s) && Chain(s, st) && t !in s
    ensures WellFormed(Appended(Born(s, t, kind), st[|st| - 1], t))
  {
    hide WellFormed;
    BornWellFormed(s, t, kind);
    AppendedWellFormed(Born(s, t, kind), st[|st| - 1], t);
  }

  /** A new element that is then opened. */
  lemma Opened(s: Shot, st: seq<Token>, frames: seq<Frame>, t: Token, kind: Kind)
    requires Tied(s, st, frames) && t !in s && kind.Element?
    ensures Tied(Appended(Born(s, t, kind), st[|st| - 1], t), st + [t], frames + [Frame(kind, [], [])])
  {
    hide WellFormed, TreeOf;
    var top, n := st[|st| - 1], |st| - 1;
    var r := Appended(Born(s, t, kind), top, t);
    var st', frames' := st + [t], frames + [Frame(kind, [], [])];
    GrownWellFormed(s, st, t, kind);
    OpenedChain(s, st, t, kind);
    forall i | 0 <= i < |st'| ensures Level(r, st', frames', i) {
      if i < |st| {
        assert Level(s, st, frames, i);
        forall j | 0 <= j < |frames[i].kids|
          ensures r[st[i]].child[j] in r && TreeOf(r, r[st[i]].child[j]) == frames[i].kids[j]
        {
          ClosedChild(s, st, frames, i, j);
          ClosedKept(s, st, t, kind, s[st[i]].child[j]);
        }
      }
    }
  }

  lemma OpenedChain(s: Shot, st: seq<Token>, t: Token, kind: Kind)
    requires Chain(s, st) && t !in s && kind.Element?
    ensures Chain(Appended(Born(s, t, kind), st[|st| - 1], t), st + [t])
  {
    var top := st[|st| - 1];
    var r := Appended(Born(s, t, kind), top, t);
    assert forall i :: 0 <= i < |st| ==> st[i] != t && r[st[i]].parent == s[st[i]].parent;
    assert r[t].parent == top;
  }

  lemma NewTree(s: Shot, st: seq<Token>, t: Token, kind: Kind)
    requires WellFormed(s) && Chain(s, st) && t !in s
    ensures var r := Appended(Born(s, t, kind), st[|st| - 1], t);
            WellFormed(r) ==> TreeOf(r, t) == Tree(kind, [], [])
  {
    hide WellFormed;
    var r := Appended(Born(s, t, kind), st[|st| - 1], t);
    if WellFormed(r) {
      KidsAre(r, t);
    }
  }

  /** A new token without children that is closed at once. */
  lemma LeafAdded(s: Shot, st: seq<Token>, frames: seq<Frame>, t: Token, kind: Kind)
    requires Tied(s, st, frames) && t !in s
    ensures Tied(Appended(Born(s, t, kind), st[|st| - 1], t), st, WithKid(frames, Tree(kind, [], [])))
  {
    hide WellFormed, TreeOf;
    var top, n := st[|st| - 1], |st| - 1;
    var r := Appended(Born(s, t, kind), top, t);
    var frames' := WithKid(frames, Tree(kind, [], []));
    GrownWellFormed(s, st, t, kind);
    NewTree(s, st, t, kind);
    assert forall i :: 0 <= i < |st| ==> st[i] != t && r[st[i]].parent == s[st[i]].parent;
    assert Chain(r, st);
    forall i | 0 <= i < |st| ensures Level(r, st, frames', i) {
      assert Level(s, st, frames, i);
      assert i < n ==> frames'[i] == frames[i];
      forall j | 0 <= j < |frames[i].kids|
        ensures r[st[i]].child[j] in r && TreeOf(r, r[st[i]].child[j]) == frames[i].kids[j]
      {
        ClosedChild(s, st, frames, i, j);
        ClosedKept(s, st, t, kind, s[st[i]].child[j]);
      }
    }
  }

  /** Attributes set on the innermost open element. */
  lemma AttrsSet(s: Shot, st: seq<Token>, frames: seq<Frame>, attrs: seq<Attr>)
    requires Tied(s, st, frames)
    ensures var n := |st| - 1;
            Tied(s[st[n] := s[st[n]].(attr := attrs)], st, frames[n := frames[n].(attr := attrs)])
  {
    hide WellFormed, TreeOf;
    var n := |st| - 1;
    var r := s[st[n] := s[st[n]].(attr := attrs)];
    var frames' := frames[n := frames[n].(attr := attrs)];
    OnlyElementsHold(s);
    SameWellFormed(s, r);
    assert Chain(r, st);
    forall i | 0 <= i < |st| ensures Level(r, st, frames', i) {
      assert Level(s, st, frames, i);
      forall j | 0 <= j < |frames[i].kids|
        ensures r[st[i]].child[j] in r && TreeOf(r, r[st[i]].child[j]) == frames[i].kids[j]
      {
        ClosedChild(s, st, frames, i, j);
        ClosedUnmarked(s, r, st, s[st[i]].child[j]);
      }
    }
  }

  lemma ClosedUnmarked(s: Shot, r: Shot, st: seq<Token>, x: Token)
    requires WellFormed(s) && WellFormed(r) && Chain(s, st) && x in s && x !in st && r.Keys == s.Keys
    requires forall y :: y in s && y != st[|st| - 1] ==> r[y] == s[y]
    ensures TreeOf(r, x) == TreeOf(s, x)
  {
    hide WellFormed, TreeOf;
    forall y | y in Subtree(s, x) ensures y in r && SameContent(s[y], r[y]) {
      if y == st[|st| - 1] {
        AncestorsOpen(s, st, x, |st| - 1);
      }
    }
    TreeFramed(s, r, x);
  }

  /** The innermost open element is closed: it becomes a kid of the one around it. */
  lemma Popped(s: Shot, st: seq<Token>, frames: seq<Frame>)
    requires Tied(s, st, frames) && |st| > 1
    ensures var n := |st| - 1; Tied(s, st[..n], WithKid(frames[..n], Closed(frames[n])))
  {
    hide WellFormed, TreeOf;
    var n := |st| - 1;
    var st', frames' := st[..n], WithKid(frames[..n], Closed(frames[n]));
    InnermostTree(s, st, frames);
    assert Chain(s, st');
    forall i | 0 <= i < n ensures Level(s, st', frames', i) {
      assert Level(s, st, frames, i);
      if i < n - 1 {
        assert frames'[i] == frames[i];
      }
    }
  }

  lemma InnermostTree(s: Shot, st: seq<Token>, frames: seq<Frame>)
    requires Tied(s, st, frames)
    ensures TreeOf(s, st[|st| - 1]) == Closed(frames[|st| - 1])
  {
    hide WellFormed, TreeOf;
    var e := st[|st| - 1];
    assert Level(s, st, frames, |st| - 1);
    KidsAre(s, e);
    TreeParts(s, e);
    assert TreeOf(s, e).kids == frames[|st| - 1].kids;
  }

  /** The outermost element's tree is the zipped-up stack. */
  lemma {:induction false} OutermostTree(s: Shot, st: seq<Token>, frames: seq<Frame>, i: nat)
    requires Tied(s, st, frames) && i < |st|
    ensures TreeOf(s, st[i]) == Zipped(frames[i..])
    decreases |st| - i
  {
    hide WellFormed, TreeOf;
    assert frames[i..][0] == frames[i];
    assert Level(s, st, frames, i);
    KidsAre(s, st[i]);
    TreeParts(s, st[i]);
    if i + 1 < |st| {
      OutermostTree(s, st, frames, i + 1);
      assert frames[i..][1..] == frames[i + 1..];
      assert TreeOf(s, st[i]).kids == frames[i].kids + [Zipped(frames[i + 1..])];
    } else {
      assert TreeOf(s, st[i]).kids == frames[i].kids + [];
    }
  }

  /** Reading starts with the document as the only open element. */
  lemma TiedAtStart(s: Shot, doc: Token)
    requires WellFormed(s) && doc in s && s[doc].kind.Element? && s[doc].parent == null
    ensures Tied(s, [doc], [Frame(s[doc].kind, s[doc].attr, TreeOf(s, doc).kids)])
  {
    hide WellFormed, TreeOf;
    KidsAre(s, doc);
    var frames := [Frame(s[doc].kind, s[doc].attr, TreeOf(s, doc).kids)];
    assert Chain(s, [doc]);
    assert Level(s, [doc], frames, 0);
  }
}
