/**
 * indent and stripIndent of pkg/controller/etree/etree.go, in place. While an element's children are listed again
 * the forest is not well-formed, so the methods carry along a shot that is: it is what the heap holds below the
 * element, except that there the children still to come are already listed. Afterwards it is what the heap holds.
 */
module Indenter {
  import opened Seqs
  import opened Forest
  import opened Trees
  import opened Grafts
  import opened Regrowth
  import opened Indentation
  import opened Blanks

  ghost function Now(t: Token): Record
    reads t
  {
    Record(t.kind, t.attr, t.child, t.parent)
  }

  /** Below e, g is what the heap holds. */
  ghost predicate Live(g: Shot, e: Token)
    reads g.Keys
  {
    forall x :: x in g && Above(g, e, x) ==> g[x] == Now(x)
  }

  /** The same, e itself left aside. */
  ghost predicate LiveBelow(g: Shot, e: Token)
    reads g.Keys
  {
    forall x :: x in g && Above(g, e, x) && x != e ==> g[x] == Now(x)
  }

  lemma ChildrenLive(g: Shot, e: Token)
    requires WellFormed(g) && e in g && Live(g, e)
    ensures g[e] == Now(e) && LiveBelow(g, e)
    ensures forall c :: c in e.child ==> c in g && g[c] == Now(c)
  {
    assert TokenOk(g, e);
    hide WellFormed, Above;
    AboveSelf(g, e);
    forall c | c in e.child ensures c in g && g[c] == Now(c) {
      AboveChild(g, e, c);
    }
  }

  /** Where h is live below e except for the list of e: `rest` is still to come. */
  ghost predicate Midway(h: Shot, e: Token, rest: seq<Token>)
    reads h.Keys
  {
    && WellFormed(h) && e in h && h[e].kind.Element?
    && h[e] == Now(e).(child := e.child + rest)
    && LiveBelow(h, e)
  }

  // ---------------------------------------------------------------- stripIndent

  /** The tokens that stripIndent leaves in the tree. */
  ghost function Staying(g: Shot, e: Token): (k: set<Token>)
    ensures k <= g.Keys
  {
    set x | x in g && !(g[x].parent == e && g[x].kind.CharData? && g[x].kind.whitespace)
  }

  lemma KeptRooted(g: Shot, e: Token)
    requires WellFormed(g) && e in g && g[e].kind.Element?
    ensures e in Staying(g, e) && Rooted(g, Staying(g, e))
    ensures forall c :: c in g[e].child ==> c in g && (c in Staying(g, e) <==> !BlankIn(g, c))
  {
    assert TokenOk(g, e);
    forall x | x in Staying(g, e) && g[x].parent != null ensures g[x].parent in Staying(g, e) {
      var p := g[x].parent;
      assert TokenOk(g, x) && TokenOk(g, p);
    }
  }

  lemma {:induction false} StrippedThose(g: Shot, r: Shot, ts: seq<Token>, k: set<Token>)
    requires WellFormed(g) && WellFormed(r) && AllIn(g, ts)
    requires forall t :: t in ts && t in g ==> (t in k <==> !BlankIn(g, t))
    requires forall t :: t in ts && t in g && t in k ==> t in r && TreeOf(r, t) == TreeOf(g, t)
    ensures AllIn(r, Those(ts, k)) && TreesIn(r, Those(ts, k)) == Stripped(TreesIn(g, ts))
  {
    hide WellFormed, TreeOf;
    if ts != [] {
      assert ts[0] in ts;
      TreesInHead(g, ts);
      TreeParts(g, ts[0]);
      StrippedThose(g, r, ts[1..], k);
      if ts[0] in k {
        TreesInPrepended(r, ts[0], Those(ts[1..], k));
      }
    }
  }

  lemma TreesInPrepended(r: Shot, t: Token, ts: seq<Token>)
    requires WellFormed(r) && t in r && AllIn(r, ts)
    ensures AllIn(r, [t] + ts) && TreesIn(r, [t] + ts) == [TreeOf(r, t)] + TreesIn(r, ts)
  {
    hide WellFormed, TreeOf;
  }

  lemma KeptBelow(g: Shot, e: Token, c: Token)
    requires WellFormed(g) && e in g && c in g && g[c].parent == e && c in Staying(g, e)
    ensures Subtree(g, c) <= Staying(g, e)
  {
    assert TokenOk(g, e);
    hide Above;
    NotBelowChild(g, e, c);
    forall x | x in g && Above(g, c, x) ensures x in Staying(g, e) {
      if x != c {
        AboveParent(g, c, x);
      }
    }
  }

  /** At tree level stripIndent leaves out the blank children, and it changes nothing above e. */
  lemma StrippedTree(g: Shot, e: Token)
    requires WellFormed(g) && e in g && g[e].kind.Element?
    ensures var r := Only(g, Staying(g, e));
            && WellFormed(r) && Regrown(g, r, e) && (forall x :: x in r && x != e ==> r[x] == g[x])
            && TreeOf(r, e) == TreeOf(g, e).(kids := Stripped(TreeOf(g, e).kids))
  {
    hide WellFormed, TreeOf, Above, Staying, Regrown, Those, Rooted;
    var k := Staying(g, e);
    var r := Only(g, k);
    KeptRooted(g, e);
    LostAreChildren(g, e);
    RegrownByLoss(g, e, k);
    KidsAre(g, e);
    KidsAre(r, e);
    TreeParts(g, e);
    TreeParts(r, e);
    forall c | c in g[e].child && c in k ensures TreeOf(r, c) == TreeOf(g, c) {
      KeptBelow(g, e, c) by { ChildrenAmong(g, e); }
      OnlyTree(g, k, c);
    }
    KidsIn(g, e);
    KidsIn(r, e);
    StrippedThose(g, r, g[e].child, k);
  }

  /** Only blank children of e are lost. */
  lemma StrippedSparing(g: Shot, e: Token)
    requires WellFormed(g) && e in g && g[e].kind.Element?
    ensures Sparing(g, Only(g, Staying(g, e)), e, [])
  {
    hide WellFormed, Above, Those;
    var r := Only(g, Staying(g, e));
    forall x | x in g && x !in r ensures Above(g, e, x) && BlankIn(g, x) {
      AboveChild(g, e, x);
    }
  }

  lemma LostAreChildren(g: Shot, e: Token)
    ensures forall x :: x in g && x !in Staying(g, e) ==> g[x].parent == e
  {
  }

  lemma ThoseNext(ts: seq<Token>, i: nat, k: set<Token>)
    requires i < |ts|
    ensures Those(ts[..i + 1], k) == Those(ts[..i], k) + (if ts[i] in k then [ts[i]] else [])
    ensures |Those(ts[..i], k)| <= i
  {
    assert ts[..i + 1] == ts[..i] + [ts[i]];
    ThoseConcat(ts[..i], [ts[i]], k);
    ThoseShort(ts[..i], k);
  }

  lemma {:induction false} ThoseShort(ts: seq<Token>, k: set<Token>)
    ensures |Those(ts, k)| <= |ts| && (|Those(ts, k)| == |ts| ==> Those(ts, k) == ts)
  {
    if ts != [] {
      ThoseShort(ts[1..], k);
    }
  }

  lemma StillLive(g: Shot, k: set<Token>, e: Token)
    requires Rooted(g, k) && e in k && LiveBelow(g, e)
    requires Only(g, k)[e] == Now(e) && forall x :: x in k && x != e ==> Only(g, k)[x] == g[x]
    ensures Live(Only(g, k), e)
  {
    hide Above;
    forall x | x in k && Above(Only(g, k), e, x) ensures Only(g, k)[x] == Now(x) {
      OnlyAbove(g, k, e, x);
    }
  }

  /** The first half of stripIndent: the number of children that stay. */
  method CountKept(e: Token, ghost g: Shot) returns (n: nat)
    requires WellFormed(g) && e in g && g[e].kind.Element? && Live(g, e)
    ensures n == |Those(e.child, Staying(g, e))|
  {
    hide WellFormed, TreeOf, Above, Staying, Those, Rooted;
    ghost var k := Staying(g, e);
    KeptRooted(g, e);
    ChildrenLive(g, e);
    n := |e.child|;
    for i := 0 to |e.child|
      invariant n == |e.child| - i + |Those(e.child[..i], k)|
    {
      ThoseNext(e.child, i, k);
      assert e.child[i] in e.child;
      if e.child[i].kind.CharData? && e.child[i].kind.whitespace {
        n := n - 1;
      }
    }
    assert e.child[..|e.child|] == e.child;
  }

  /** The second half: the children that stay. */
  method KeptChildren(e: Token, ghost g: Shot) returns (newChild: seq<Token>)
    requires WellFormed(g) && e in g && g[e].kind.Element? && Live(g, e)
    ensures newChild == Those(e.child, Staying(g, e))
  {
    hide WellFormed, TreeOf, Above, Staying, Those, Rooted;
    ghost var k := Staying(g, e);
    KeptRooted(g, e);
    ChildrenLive(g, e);
    newChild := [];
    for i := 0 to |e.child|
      invariant newChild == Those(e.child[..i], k)
    {
      ThoseNext(e.child, i, k);
      assert e.child[i] in e.child;
      if e.child[i].kind.CharData? && e.child[i].kind.whitespace {
        continue;
      }
      newChild := newChild + [e.child[i]];
    }
    assert e.child[..|e.child|] == e.child;
  }

  method StripIndent(e: Token, ghost g: Shot) returns (ghost r: Shot)
    requires WellFormed(g) && e in g && g[e].kind.Element? && Live(g, e)
    modifies e`child
    ensures r == Only(g, Staying(g, e)) && Live(r, e)
  {
    hide WellFormed, TreeOf, Above, Staying, Those, Rooted;
    ghost var k := Staying(g, e);
    r := Only(g, k);
    KeptRooted(g, e);
    StrippedTree(g, e);
    ChildrenLive(g, e);
    var n := CountKept(e, g);
    if n == |e.child| {
      ThoseShort(e.child, k);
    } else {
      e.child := KeptChildren(e, g);
    }
    StillLive(g, k, e);
  }

  // ---------------------------------------------------------------- indent

  /** The i-th child of e and its tree. */
  lemma NextChild(h: Shot, e: Token, i: nat)
    requires WellFormed(h) && e in h && i < |h[e].child|
    ensures var c := h[e].child[i];
            && c in h && h[c].parent == e && c != e && !Above(h, c, e)
            && i < |TreeOf(h, e).kids| && TreeOf(h, e).kids[i] == TreeOf(h, c)
            && TreeOf(h, c).kind == h[c].kind
  {
    assert TokenOk(h, e);
    hide WellFormed, TreeOf, Above;
    KidsAre(h, e);
    NotBelowChild(h, e, h[e].child[i]);
    TreeParts(h, h[e].child[i]);
  }

  lemma BirthLive(h: Shot, e: Token, cd: Token, kind: Kind, n: nat, rest: seq<Token>)
    requires WellFormed(h) && e in h && cd !in h && h[e].kind.Element? && n <= |h[e].child|
    requires n + 1 == |e.child| && e.child[n] == cd && h[e].child == e.child[..n] + rest
    requires h[e].(child := e.child) == Now(e) && LiveBelow(h, e) && Now(cd) == Record(kind, [], [], e)
    ensures var r := Inserted(Born(h, cd, kind), e, n, cd);
            && Midway(r, e, rest) && Regrown(h, r, e) && n <= |TreeOf(h, e).kids|
            && TreeOf(r, e) ==
               TreeOf(h, e).(kids := TreeOf(h, e).kids[..n] + [Tree(kind, [], [])] + TreeOf(h, e).kids[n..])
  {
    hide WellFormed, TreeOf, Above, Regrown;
    var b := Born(h, cd, kind);
    var r := Inserted(b, e, n, cd);
    BornTree(h, cd, kind);
    InsertedTree(b, e, n, cd);
    RegrownByBirth(h, e, n, cd, kind);
    assert r[e].child == e.child + rest;
    forall x | x in r && Above(r, e, x) && x != e ensures r[x] == Now(x) {
      if x != cd && !Above(h, e, x) {
        StillApart(h, r, e, x, e) by { RegrownByBirth(h, e, n, cd, kind); }
      }
    }
  }

  /** newCharData(text, true, e) in the middle of rebuilding e's children. */
  method AddBlank(e: Token, text: string, ghost g: Shot, ghost h: Shot, ghost rest: seq<Token>) returns (ghost r: Shot)
    requires WellFormed(g) && Regrown(g, h, e) && Sparing(g, h, e, e.child) && Midway(h, e, rest)
    modifies e`child
    ensures Midway(r, e, rest) && Regrown(g, r, e) && Sparing(g, r, e, e.child)
    ensures forall x :: x in r ==> x in h || fresh(x)
    ensures |e.child| == |old(e.child)| + 1
    ensures var n := |old(e.child)|;
            && n <= |TreeOf(h, e).kids|
            && TreeOf(r, e) == TreeOf(h, e).(kids := TreeOf(h, e).kids[..n] + [Blank(text)] + TreeOf(h, e).kids[n..])
  {
    hide WellFormed, TreeOf, Above, Regrown, Sparing;
    ghost var n := |e.child|;
    ListedOnce(h, e, rest);
    var cd := Unlisted(CharData(text, true), e);
    e.AddLast(cd);
    assert e.child[..n] == old(e.child);
    BirthLive(h, e, cd, CharData(text, true), n, rest);
    SparingBirth(g, h, e, old(e.child), n, cd, CharData(text, true));
    r := Inserted(Born(h, cd, CharData(text, true)), e, n, cd);
    RegrownTwice(g, h, r, e);
  }

  /** The children listed so far are children of e, each once. */
  lemma ListedOnce(h: Shot, e: Token, rest: seq<Token>)
    requires Midway(h, e, rest)
    ensures Distinct(e.child) && forall c :: c in e.child ==> c in h && h[c].parent == e
  {
    assert TokenOk(h, e);
    hide WellFormed, LiveBelow;
    assert forall i :: 0 <= i < |e.child| ==> h[e].child[i] == e.child[i];
  }

  /** After the child c of e has been indented, whose subtree was live. */
  lemma ChildIndented(h: Shot, r: Shot, e: Token, c: Token, rest: seq<Token>)
    requires WellFormed(h) && WellFormed(r) && e in h && c in h && h[c].parent == e && h[e].kind.Element?
    requires Regrown(h, r, c) && Live(r, c) && h[e] == Now(e).(child := e.child + rest)
    requires forall x :: x in h && Above(h, e, x) && !Above(h, c, x) && x != e ==> h[x] == Now(x)
    ensures Midway(r, e, rest) && Regrown(h, r, e)
  {
    hide WellFormed, Above;
    RegrownAbove(h, r, e, c);
    forall x | x in r && Above(r, e, x) && x != e ensures r[x] == Now(x) {
      if !Above(r, c, x) {
        StillApart(h, r, c, x, e);
      }
    }
  }

  /** What hangs below a child that is already listed is live. */
  lemma ChildLive(h: Shot, e: Token, rest: seq<Token>, c: Token)
    requires Midway(h, e, rest) && c in e.child
    ensures c in h && h[c].parent == e && c != e && !Above(h, c, e) && Live(h, c) && h[c] == Now(c)
  {
    var j :| 0 <= j < |e.child| && e.child[j] == c;
    assert h[e].child[j] == c;
    hide WellFormed, TreeOf, Above;
    NextChild(h, e, j);
    AboveChild(h, e, c);
    forall x | x in h && Above(h, c, x) ensures h[x] == Now(x) {
      ChildIsBelow(h, e, c, x);
    }
  }

  method IndentChild(e: Token, j: nat, depth: nat, pad: Pad, ghost h: Shot, ghost rest: seq<Token>)
    returns (ghost r: Shot)
    requires Midway(h, e, rest) && j < |e.child| && e.child[j].kind.Element?
    modifies Lists(h, e.child[j])`child
    ensures Midway(r, e, rest) && Regrown(h, r, e) && forall x :: x in r ==> x in h || fresh(x)
    ensures Regrown(h, r, old(e.child[j])) && Sparing(h, r, old(e.child[j]), [old(e.child[j])])
    ensures j < |TreeOf(h, e).kids|
    ensures TreeOf(r, e) == TreeOf(h, e).(kids := TreeOf(h, e).kids[j := Indented(TreeOf(h, e).kids[j], depth, pad)])
    ensures e.child == old(e.child)
    decreases if Midway(h, e, rest) && j < |TreeOf(h, e).kids| then Bare(TreeOf(h, e).kids[j]) else Blank(""), 3
  {
    hide WellFormed, TreeOf, Above, Regrown, Indented, Bare, Live, Sparing;
    var c := e.child[j];
    ChildLive(h, e, rest, c);
    NextChild(h, e, j);
    r := Indent(c, depth, pad, h);
    ChildIndented(h, r, e, c, rest);
    RegrownTree(h, r, e, j);
  }

  /** The next child to be listed is live, and so is its kind. */
  lemma NextLive(h: Shot, e: Token, rest: seq<Token>, trees: seq<Tree>, ts: seq<Tree>)
    requires Midway(h, e, rest) && rest != [] && Built(h, e, trees, ts)
    ensures |ts| == |rest| && rest[0] in h && ts[0].kind == rest[0].kind
  {
    hide WellFormed, TreeOf, Above;
    var n := |e.child|;
    assert h[e].child[n] == rest[0];
    NextChild(h, e, n);
    KidsAre(h, e);
    AboveChild(h, e, rest[0]);
    assert (trees + ts)[n] == ts[0];
  }

  /** The trees of the children listed so far, and of those still to come. */
  ghost predicate Built(h: Shot, e: Token, trees: seq<Tree>, ts: seq<Tree>)
    reads e
    requires WellFormed(h) && e in h
  {
    TreeOf(h, e).kids == trees + ts && |trees| == |e.child|
  }

  /** What is below e is what was there or new. */
  lemma SubtreeGrown(g: Shot, r: Shot, e: Token)
    requires WellFormed(g) && Regrown(g, r, e)
    ensures forall x :: x in r && x in g && Above(r, e, x) ==> Above(g, e, x)
  {
    hide Above, WellFormed;
    forall x | x in r && x in g && Above(r, e, x) ensures Above(g, e, x) {
      if !Above(g, e, x) {
        StillApart(g, r, e, x, e);
      }
    }
  }

  /** The blank that indent puts in front of a child, if any. */
  function Front(depth: nat, first: bool, text: bool, pad: Pad): seq<Tree> {
    if !text && (!first || depth > 0) then [Blank(pad(depth))] else []
  }

  /** What a child becomes itself. */
  function Inner(t: Tree, depth: nat, pad: Pad): Tree {
    if t.kind.Element? then Indented(t, depth + 1, pad) else t
  }

  lemma IndentedNext(ts: seq<Tree>, depth: nat, first: bool, open: bool, pad: Pad)
    requires ts != [] && !IsBlank(ts[0])
    ensures var text := ts[0].kind.CharData?;
            IndentedKids(ts, depth, first, open, pad) ==
            Front(depth, first, text, pad) + [Inner(ts[0], depth, pad)] +
            IndentedKids(ts[1..], depth, first && text, !text, pad)
  {
  }

  lemma SplitAt(a: seq<Tree>, b: seq<Tree>, x: Tree)
    ensures (a + b)[..|a|] + [x] + (a + b)[|a|..] == (a + [x]) + b
    ensures b != [] ==> (a + b)[|a| := x] == (a + [x]) + b[1..]
  {
  }

  /** The first step for a child: a blank in front of it, if it needs one. */
  method PutFront(e: Token, depth: nat, first: bool, isCharData: bool, pad: Pad,
                  ghost g: Shot, ghost h: Shot, ghost rest: seq<Token>, ghost trees: seq<Tree>, ghost ts: seq<Tree>)
    returns (ghost r: Shot)
    requires WellFormed(g) && Regrown(g, h, e) && Sparing(g, h, e, e.child)
    requires Midway(h, e, rest) && Built(h, e, trees, ts)
    modifies e`child
    ensures Midway(r, e, rest) && Regrown(g, r, e) && Sparing(g, r, e, e.child)
    ensures forall x :: x in r ==> x in h || fresh(x)
    ensures Built(r, e, trees + Front(depth, first, isCharData, pad), ts)
  {
    hide WellFormed, TreeOf, Above, Regrown, LiveBelow, Sparing;
    r := h;
    assert trees + [] == trees;
    if !isCharData {
      if !first || depth > 0 {
        r := AddBlank(e, pad(depth), g, h, rest);
        SplitAt(trees, ts, Blank(pad(depth)));
      }
    }
  }

  /** The i-th child is listed again, behind a blank if it needs one, and indented itself if it is an element. */
  method IndentNext(e: Token, c: Token, depth: nat, first: bool, pad: Pad,
                    ghost g: Shot, ghost h: Shot, ghost rest: seq<Token>, ghost trees: seq<Tree>, ghost ts: seq<Tree>)
    returns (isCharData: bool, ghost r: Shot, ghost grown: seq<Tree>)
    requires WellFormed(g) && Regrown(g, h, e) && Sparing(g, h, e, e.child)
    requires Midway(h, e, rest) && rest != [] && rest[0] == c
    requires Built(h, e, trees, ts) && ts != [] && !IsBlank(ts[0])
    modifies (Lists(g, e) + (h.Keys - g.Keys))`child
    ensures isCharData == ts[0].kind.CharData?
    ensures Midway(r, e, rest[1..]) && Regrown(g, r, e) && Sparing(g, r, e, e.child)
    ensures forall x :: x in r ==> x in h || fresh(x)
    ensures grown == trees + Front(depth, first, isCharData, pad) + [Inner(ts[0], depth, pad)]
    ensures Built(r, e, grown, ts[1..])
    decreases Bare(ts[0]), 5
  {
    hide WellFormed, TreeOf, Above, Regrown, Inner, Front, Sparing;
    NextLive(h, e, rest, trees, ts);
    InLists(g, h, e);
    isCharData := c.kind.CharData?;
    r := PutFront(e, depth, first, isCharData, pad, g, h, rest, trees, ts);
    ghost var front := trees + Front(depth, first, isCharData, pad);
    ghost var cs := e.child;
    e.AddLast(c);
    assert e.child[..|front|] == cs;
    grown := front + [Inner(ts[0], depth, pad)];
    r := IndentListed(e, c, depth, pad, g, r, rest[1..], front, ts);
  }

  lemma InLists(g: Shot, h: Shot, e: Token)
    requires Regrown(g, h, e) && e in h && h[e].kind.Element?
    ensures e in Lists(g, e)
  {
    AboveSelf(g, e);
  }

  /** The last step: the child that has just been listed is indented, if it is an element. */
  method IndentListed(e: Token, c: Token, depth: nat, pad: Pad,
                      ghost g: Shot, ghost h: Shot, ghost rest: seq<Token>, ghost front: seq<Tree>, ghost ts: seq<Tree>)
    returns (ghost r: Shot)
    requires WellFormed(g) && Regrown(g, h, e) && Midway(h, e, rest) && ts != []
    requires TreeOf(h, e).kids == front + ts && |e.child| == |front| + 1 && e.child[|front|] == c
    requires c.kind == ts[0].kind && !IsBlank(ts[0]) && Sparing(g, h, e, e.child[..|front|])
    modifies (Lists(g, e) + (h.Keys - g.Keys))`child
    ensures Midway(r, e, rest) && Regrown(g, r, e) && Sparing(g, r, e, e.child)
    ensures forall x :: x in r ==> x in h || fresh(x)
    ensures Built(r, e, front + [Inner(ts[0], depth, pad)], ts[1..])
    decreases Bare(ts[0]), 4
  {
    hide WellFormed, TreeOf, Above, Regrown, LiveBelow, Indented, Bare, Sparing;
    r := h;
    SplitAt(front, ts, Inner(ts[0], depth, pad));
    ghost var cs := e.child[..|front|];
    assert e.child == cs + [c];
    ChildLive(h, e, rest, c);
    if c.kind.Element? {
      ListedOnce(h, e, rest);
      ListedLists(g, h, e, cs, c, rest);
      r := IndentChild(e, |e.child| - 1, depth + 1, pad, h, rest);
      RegrownTwice(g, h, r, e);
      SparingChild(g, h, r, e, cs, c);
    } else {
      assert (front + ts)[|front| := ts[0]] == front + ts;
      ChildlessLeaf(h, c);
      SparingLeaf(g, h, e, cs, c);
    }
  }

  lemma ChildlessLeaf(h: Shot, c: Token)
    requires WellFormed(h) && c in h && !h[c].kind.Element?
    ensures h[c].child == []
  {
    assert TokenOk(h, c);
  }

  lemma ListedLists(g: Shot, h: Shot, e: Token, cs: seq<Token>, c: Token, rest: seq<Token>)
    requires WellFormed(g) && Regrown(g, h, e) && Sparing(g, h, e, cs) && Midway(h, e, rest) && c in e.child
    ensures Lists(h, c) <= Lists(g, e) + (h.Keys - g.Keys)
  {
    hide WellFormed, Above;
    ChildLive(h, e, rest, c);
    SubtreeGrown(g, h, e);
    forall x | x in h && Above(h, c, x) ensures Above(h, e, x) {
      ChildIsBelow(h, e, c, x);
    }
  }

  /** Everything is in place before the first child is listed again. */
  lemma Emptied(g: Shot, e: Token)
    requires WellFormed(g) && e in g && g[e].kind.Element? && LiveBelow(g, e)
    requires e.child == [] && g[e] == Now(e).(child := g[e].child)
    ensures Midway(g, e, g[e].child) && Regrown(g, g, e) && Built(g, e, [], TreeOf(g, e).kids)
    ensures |TreeOf(g, e).kids| == |g[e].child|
  {
    hide WellFormed, TreeOf, Above;
    KidsAre(g, e);
    assert [] + g[e].child == g[e].child;
    assert [] + TreeOf(g, e).kids == TreeOf(g, e).kids;
  }

  /** The part of indent after stripIndent: the children are listed again, with blanks between them. */
  method Rebuild(e: Token, depth: nat, pad: Pad, ghost g: Shot) returns (ghost r: Shot)
    requires WellFormed(g) && e in g && g[e].kind.Element? && Live(g, e) && e.child != []
    requires forall t :: t in TreeOf(g, e).kids ==> !IsBlank(t)
    modifies Lists(g, e)`child
    ensures WellFormed(r) && Regrown(g, r, e) && Live(r, e) && forall x :: x in r ==> x in g || fresh(x)
    ensures Sparing(g, r, e, [e])
    ensures TreeOf(r, e) == Indented(TreeOf(g, e), depth, pad)
    decreases Bare(TreeOf(g, e)), 1
  {
    hide WellFormed, TreeOf, Above, Regrown, IndentedKids, Bare, Sparing;
    ChildrenLive(g, e);
    NothingRegrown(g, e);
    InLists(g, g, e);
    var oldChild := e.child;
    e.child := [];
    Emptied(g, e);
    r := Relist(e, oldChild, depth, pad, g, TreeOf(g, e).kids);
    RegrownParts(g, r, e);
  }

  lemma RegrownParts(g: Shot, r: Shot, e: Token)
    requires WellFormed(g) && WellFormed(r) && Regrown(g, r, e)
    ensures TreeOf(r, e) == TreeOf(g, e).(kids := TreeOf(r, e).kids)
  {
    hide WellFormed, TreeOf, Above;
    TreeParts(g, e);
    TreeParts(r, e);
  }

  /** The loop in indent, and the blank behind it. */
  method Relist(e: Token, oldChild: seq<Token>, depth: nat, pad: Pad, ghost g: Shot, ghost ts: seq<Tree>)
    returns (ghost r: Shot)
    requires Midway(g, e, oldChild) && Regrown(g, g, e) && Built(g, e, [], ts) && |ts| == |oldChild| > 0
    requires TreeOf(g, e).kids == ts
    requires forall t :: t in ts ==> !IsBlank(t)
    modifies Lists(g, e)`child
    ensures WellFormed(r) && Regrown(g, r, e) && Live(r, e) && forall x :: x in r ==> x in g || fresh(x)
    ensures Sparing(g, r, e, [e])
    ensures TreeOf(r, e).kids == IndentedKids(ts, depth, true, false, pad)
    decreases Bare(TreeOf(g, e)), 0
  {
    hide WellFormed, TreeOf, Above, Regrown, Live, LiveBelow, IndentedKids, Bare, Built, Inner, Front, Sparing;
    r := g;
    NoneListed(g, e, oldChild, ts);
    SparingNothing(g, e);
    InLists(g, g, e);
    var isCharData, firstNonCharData := false, true;
    ghost var trees: seq<Tree>, open := [], false;
    assert oldChild[0..] == oldChild && ts[0..] == ts;
    for i := 0 to |oldChild|
      invariant Midway(r, e, oldChild[i..]) && Regrown(g, r, e) && Sparing(g, r, e, e.child)
      invariant forall x :: x in r ==> x in g || fresh(x)
      invariant Built(r, e, trees, ts[i..]) && open == (i > 0 && !isCharData)
      invariant trees + IndentedKids(ts[i..], depth, firstNonCharData, open, pad) ==
                IndentedKids(ts, depth, true, false, pad)
    {
      LaterChild(g, e, ts, i);
      Advance(trees, ts, i, depth, firstNonCharData, open, pad);
      isCharData, r, trees :=
        IndentNext(e, oldChild[i], depth, firstNonCharData, pad, g, r, oldChild[i..], trees, ts[i..]);
      assert oldChild[i..][1..] == oldChild[i + 1..] && ts[i..][1..] == ts[i + 1..];
      if !isCharData {
        firstNonCharData := false;
      }
      open := !isCharData;
    }
    assert oldChild[|oldChild|..] == [] && ts[|ts|..] == [];
    r := PutEnd(e, depth, firstNonCharData, isCharData, pad, g, r, trees);
  }

  lemma NoneListed(g: Shot, e: Token, oldChild: seq<Token>, ts: seq<Tree>)
    requires Midway(g, e, oldChild) && Built(g, e, [], ts)
    ensures e.child == []
  {
  }

  /** Each child's tree is smaller than that of e. */
  lemma LaterChild(g: Shot, e: Token, ts: seq<Tree>, i: nat)
    requires WellFormed(g) && e in g && g[e].kind.Element? && TreeOf(g, e).kids == ts && i < |ts|
    requires forall t :: t in ts ==> !IsBlank(t)
    ensures Bare(ts[i]) in Bare(TreeOf(g, e)).kids && !IsBlank(ts[i..][0])
  {
    hide WellFormed, TreeOf;
    TreeParts(g, e);
    BareAt(ts, i);
    assert ts[i] in ts && BareKids(ts)[i] in BareKids(ts);
  }

  lemma Advance(trees: seq<Tree>, ts: seq<Tree>, i: nat, depth: nat, first: bool, open: bool, pad: Pad)
    requires i < |ts| && !IsBlank(ts[i])
    ensures var text := ts[i].kind.CharData?;
            trees + IndentedKids(ts[i..], depth, first, open, pad) ==
            (trees + Front(depth, first, text, pad) + [Inner(ts[i], depth, pad)]) +
            IndentedKids(ts[i + 1..], depth, first && text, !text, pad)
  {
    hide IndentedKids, Inner, Front;
    var text := ts[i].kind.CharData?;
    IndentedNext(ts[i..], depth, first, open, pad);
    assert ts[i..][1..] == ts[i + 1..];
    Assembled(trees, Front(depth, first, text, pad), [Inner(ts[i], depth, pad)],
              IndentedKids(ts[i + 1..], depth, first && text, !text, pad));
  }

  lemma Assembled(a: seq<Tree>, b: seq<Tree>, c: seq<Tree>, d: seq<Tree>)
    ensures (a + b + c) + d == a + (b + c + d)
  {
  }

  /** The blank in front of the closing tag, if it needs one. */
  method PutEnd(e: Token, depth: nat, first: bool, isCharData: bool, pad: Pad,
                ghost g: Shot, ghost h: Shot, ghost trees: seq<Tree>)
    returns (ghost r: Shot)
    requires WellFormed(g) && Regrown(g, h, e) && Sparing(g, h, e, e.child)
    requires Midway(h, e, []) && Built(h, e, trees, [])
    modifies e`child
    ensures WellFormed(r) && Regrown(g, r, e) && Live(r, e) && forall x :: x in r ==> x in h || fresh(x)
    ensures Sparing(g, r, e, [e])
    ensures e in r && TreeOf(r, e).kids == trees + IndentedKids([], depth, first, !isCharData, pad)
  {
    hide WellFormed, TreeOf, Above, Regrown, Sparing;
    r := h;
    assert trees + [] == trees;
    if !isCharData {
      if !first || depth > 0 {
        r := AddBlank(e, pad(depth - 1), g, h, []);
        SplitAt(trees, [], Blank(pad(depth - 1)));
      }
    }
    assert e.child + [] == e.child;
    SparingDone(g, r, e);
  }

  /**
   * indent: below e nothing is lost but the blanks, which keep naming the parents that no longer list them, so that
   * over all tokens the invariant is kept exactly if there was none; what is new are the blanks of the indentation.
   */
  method Indent(e: Token, depth: nat, pad: Pad, ghost g: Shot) returns (ghost r: Shot)
    requires WellFormed(g) && e in g && g[e].kind.Element? && Live(g, e)
    modifies Lists(g, e)`child
    ensures WellFormed(r) && Regrown(g, r, e) && Live(r, e) && forall x :: x in r ==> x in g || fresh(x)
    ensures TreeOf(r, e) == Indented(TreeOf(g, e), depth, pad)
    ensures Sparing(g, r, e, [e])
    ensures forall x :: x in g ==> (x in r <==> !(Above(g, e, x) && BlankIn(g, x)))
    ensures forall x :: x in g && x !in r ==> Now(x) == g[x]
    ensures WellFormed(g + r) <==> Bare(TreeOf(g, e)) == TreeOf(g, e)
    decreases Bare(TreeOf(g, e)), 2
  {
    LostLive(g, e);
    hide WellFormed, TreeOf, Above, Regrown, Live, Bare, IndentedKids, Only, Staying, Sparing;
    StrippedTree(g, e);
    Restripped(g, e, depth, pad);
    NothingRegrown(g, e);
    InLists(g, g, e);
    ghost var h := StripIndent(e, g);
    ChildrenLive(h, e);
    if |e.child| == 0 {
      ChildlessIndented(h, e, depth, pad);
      r := h;
      SparingDone(g, r, e);
    } else {
      r := Rebuild(e, depth, pad, h);
      RegrownTwice(g, h, r, e);
      SparingTwice(g, h, r, e);
    }
    SparedAre(g, r, e);
    KeptIff(g, r, e);
  }

  lemma LostLive(g: Shot, e: Token)
    requires Live(g, e)
    ensures forall x :: x in g && Above(g, e, x) && BlankIn(g, x) ==> Now(x) == g[x] && !x.kind.Element?
  {
  }

  lemma ChildlessIndented(h: Shot, e: Token, depth: nat, pad: Pad)
    requires WellFormed(h) && e in h && h[e].child == []
    ensures TreeOf(h, e) == Indented(TreeOf(h, e), depth, pad)
  {
    hide WellFormed, TreeOf;
    KidsAre(h, e);
  }

  /** What is still to do after stripIndent. */
  lemma Restripped(g: Shot, e: Token, depth: nat, pad: Pad)
    requires WellFormed(g) && e in g && g[e].kind.Element?
    ensures var h := Only(g, Staying(g, e));
            && WellFormed(h) && e in h && Regrown(g, h, e) && h[e].kind.Element? && h.Keys <= g.Keys
            && Lists(h, e) <= Lists(g, e) && Sparing(g, h, e, [])
            && (forall t :: t in TreeOf(h, e).kids ==> !IsBlank(t))
            && Bare(TreeOf(h, e)) == Bare(TreeOf(g, e))
            && Indented(TreeOf(h, e), depth, pad) == Indented(TreeOf(g, e), depth, pad)
  {
    hide WellFormed, TreeOf, Above, Staying, IndentedKids;
    TreeParts(g, e);
    StrippedTree(g, e);
    StrippedSparing(g, e);
    SubtreeGrown(g, Only(g, Staying(g, e)), e);
    BareStripped(TreeOf(g, e).kids);
    IndentedStripped(TreeOf(g, e).kids, depth, true, false, pad);
  }

  // ---------------------------------------------------------------- Indent and IndentTabs

  lemma AllLive(u: set<Token>, e: Token)
    ensures Live(Taken(u), e)
  {
  }

  /** Afterwards r is what all its tokens hold, not only those below the document. */
  lemma AllLiveAgain(g: Shot, r: Shot, doc: Token)
    requires Regrown(g, r, doc) && Live(r, doc)
    requires forall x :: x in g && !Above(g, doc, x) ==> g[x] == Now(x)
    ensures Taken(r.Keys) == r
  {
    hide Above;
    forall x | x in r ensures r[x] == Now(x) {
    }
  }

  method IndentDocument(doc: Token, pad: Pad, ghost u: set<Token>) returns (ghost v: set<Token>)
    requires doc in u && WellFormed(Taken(u)) && doc.kind.Element?
    modifies u`child
    ensures IndentedInPlace(old(Taken(u)), Taken(v), doc) && forall x :: x in v ==> x in u || fresh(x)
    ensures WellFormed(Taken(u + v)) <==> old(Bare(TreeOf(Taken(u), doc)) == TreeOf(Taken(u), doc))
    ensures TreeOf(Taken(v), doc) == Indented(old(TreeOf(Taken(u), doc)), 0, pad)
  {
    hide WellFormed, TreeOf, Above, Regrown, Live, Sparing, Bare, Indented;
    ghost var g := Taken(u);
    AllLive(u, doc);
    ghost var r := Indent(doc, 0, pad, g);
    AllLiveAgain(g, r, doc);
    v := r.Keys;
    NamesDocument(g, r, doc);
    Together(g, r, u, v);
  }

  /** What indenting a document says of the tokens: only the document changes, and of its tokens only blanks go. */
  ghost predicate IndentedInPlace(g: Shot, r: Shot, doc: Token) {
    && doc in r && WellFormed(r) && Regrown(g, r, doc)
    && (forall x :: x in g ==> (x in r <==> !(Above(g, doc, x) && BlankIn(g, x))))
    && (forall x :: x in g && x in r ==> r[x] == g[x].(child := r[x].child))
  }

  lemma Together(g: Shot, r: Shot, u: set<Token>, v: set<Token>)
    requires g.Keys == u && r.Keys == v && r == Taken(v) && forall x :: x in g && x !in r ==> Now(x) == g[x]
    ensures Taken(u + v) == g + r
  {
  }

  lemma NamesDocument(g: Shot, r: Shot, doc: Token)
    requires Regrown(g, r, doc)
    ensures doc in r
  {
  }

  method IndentSpaces(doc: Token, spaces: int, ghost u: set<Token>) returns (ghost v: set<Token>)
    requires doc in u && WellFormed(Taken(u)) && doc.kind.Element?
    modifies u`child
    ensures IndentedInPlace(old(Taken(u)), Taken(v), doc) && forall x :: x in v ==> x in u || fresh(x)
    ensures WellFormed(Taken(u + v)) <==> old(Bare(TreeOf(Taken(u), doc)) == TreeOf(Taken(u), doc))
    ensures TreeOf(Taken(v), doc) == Indented(old(TreeOf(Taken(u), doc)), 0, Spaces(spaces))
  {
    hide WellFormed, TreeOf, Bare, Above, Regrown, Spaces, Indented;
    v := IndentDocument(doc, Spaces(spaces), u);
  }

  method IndentTabs(doc: Token, ghost u: set<Token>) returns (ghost v: set<Token>)
    requires doc in u && WellFormed(Taken(u)) && doc.kind.Element?
    modifies u`child
    ensures IndentedInPlace(old(Taken(u)), Taken(v), doc) && forall x :: x in v ==> x in u || fresh(x)
    ensures WellFormed(Taken(u + v)) <==> old(Bare(TreeOf(Taken(u), doc)) == TreeOf(Taken(u), doc))
    ensures TreeOf(Taken(v), doc) == Indented(old(TreeOf(Taken(u), doc)), 0, TABS)
  {
    hide WellFormed, TreeOf, Bare, Above, Regrown, TABS, Indented;
    v := IndentDocument(doc, TABS, u);
  }
}
