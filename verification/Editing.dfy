/** The operations of etree.go that rearrange children and keep the invariant: AddChild, SetText, SetRoot. */
module Editing {
  import opened Seqs
  import opened Forest
  import opened Trees
  import opened Grafts
  import opened PathSpec

  // ---------------------------------------------------------------- AddChild

  /** After AddChild the token is the last child and has kept its tree. */
  lemma AddChildTree(s: Shot, e: Token, t: Token)
    requires WellFormed(s) && e in s && t in s && s[e].kind.Element? && !Above(s, t, e)
    ensures e != t && WellFormed(Detached(s, t)) && e in Detached(s, t) && t in Detached(s, t)
    ensures var d := Detached(s, t);
            && WellFormed(Appended(d, e, t))
            && TreeOf(Appended(d, e, t), e) == TreeOf(d, e).(kids := TreeOf(d, e).kids + [TreeOf(s, t)])
  {
    assert TokenOk(s, t);
    assert s[t].parent != null ==> TokenOk(s, s[t].parent);
    hide WellFormed, TreeOf, Above;
    AboveSelf(s, t);
    DetachedWellFormed(s, t);
    var d := Detached(s, t);
    DetachedRecord(s, t, t);
    DetachedRecord(s, t, e);
    if Above(d, t, e) {
      DetachedAbove(s, t, t, e);
    }
    if s[t].parent != null {
      AboveChild(s, s[t].parent, t);
      NotBelowChild(s, s[t].parent, t);
    }
    DetachedElsewhere(s, t, t);
    AppendedTree(d, e, t);
  }

  /** RemoveChild takes back what AddChild did with an unbound token. */
  lemma AddThenRemove(s: Shot, e: Token, t: Token)
    requires WellFormed(s) && e in s && t in s && s[t].parent == null && s[e].kind.Element? && !Above(s, t, e)
    ensures e != t && Detached(Appended(s, e, t), t) == s
  {
    assert TokenOk(s, e);
    hide WellFormed, Above;
    AboveSelf(s, t);
    var n := |s[e].child|;
    assert s[e].child + [t] == s[e].child[..n] + [t] + s[e].child[n..];
    assert t !in s[e].child;
    WithoutAt(s[e].child + [t], t, n);
    assert Without(s[e].child + [t], t) == s[e].child;
    var d := Detached(Appended(s, e, t), t);
    assert d[t] == s[t] && d[e] == s[e];
  }

  // ---------------------------------------------------------------- SetText

  /** A tree whose leading text is replaced or, if it has none, put in front. */
  function TextSet(t: Tree, text: string): Tree {
    if t.kids != [] && t.kids[0].kind.CharData?
    then t.(kids := [t.kids[0].(kind := CharData(text, t.kids[0].kind.whitespace))] + t.kids[1..])
    else t.(kids := [Tree(CharData(text, false), [], [])] + t.kids)
  }

  /** The first child gets a new kind. */
  ghost function Rewritten(s: Shot, c: Token, kind: Kind): Shot
    requires c in s
  {
    s[c := s[c].(kind := kind)]
  }

  lemma FirstRewritten(s: Shot, e: Token, text: string)
    requires WellFormed(s) && e in s && s[e].child != [] && s[e].child[0] in s && s[s[e].child[0]].kind.CharData?
    ensures var c := s[e].child[0];
            var r := Rewritten(s, c, CharData(text, s[c].kind.whitespace));
            WellFormed(r) && c != e && TextOf(r, e) == text && TreeOf(r, e) == TextSet(TreeOf(s, e), text)
  {
    assert TokenOk(s, e) && TokenOk(s, s[e].child[0]);
    hide WellFormed, TreeOf, Above;
    var c := s[e].child[0];
    var r := Rewritten(s, c, CharData(text, s[c].kind.whitespace));
    OnlyElementsHold(s);
    SameWellFormed(s, r);
    KidsAre(s, e);
    KidsAre(r, e);
    KidsAre(s, c);
    KidsAre(r, c);
    TreeParts(s, e);
    TreeParts(r, e);
    TreeParts(s, c);
    TreeParts(r, c);
    assert TreeOf(r, c).kids == TreeOf(s, c).kids == [];
    forall j | 0 < j < |s[e].child| ensures TreeOf(r, s[e].child[j]) == TreeOf(s, s[e].child[j]) {
      SiblingsDisjoint(s, e, j, 0);
      TreeFramed(s, r, s[e].child[j]);
    }
    assert TreeOf(r, e).kids == [TreeOf(r, c)] + TreeOf(s, e).kids[1..];
  }

  lemma SiblingsDisjoint(s: Shot, e: Token, i: nat, j: nat)
    requires WellFormed(s) && e in s && i < |s[e].child| && j < |s[e].child| && i != j
    ensures s[e].child[j] !in Subtree(s, s[e].child[i])
  {
    assert TokenOk(s, e);
    hide WellFormed, Above;
    var a, b := s[e].child[i], s[e].child[j];
    if Above(s, a, b) {
      AboveParent(s, a, b);
      NotBelowChild(s, e, a);
    }
  }

  method SetText(e: Token, text: string, ghost u: set<Token>) returns (ghost v: set<Token>)
    requires e in u && WellFormed(Taken(u)) && e.kind.Element?
    modifies e`child, (if e.child == [] then {} else {e.child[0]})`kind
    ensures u <= v && fresh(v - u) && WellFormed(Taken(v))
    ensures TreeOf(Taken(v), e) == TextSet(old(TreeOf(Taken(u), e)), text)
    ensures TextOf(Taken(v), e) == text
    ensures var was, now := old(e.child), e.child;
            if was != [] && old(was[0].kind.CharData?)
            then now == was && now[0].kind == CharData(text, old(was[0].kind.whitespace))
            else |now| == |was| + 1 && now[1..] == was && now[0] !in u && now[0].kind == CharData(text, false)
  {
    ghost var s := Taken(u);
    assert TokenOk(s, e);
    hide WellFormed, TreeOf, TextSet;
    if |e.child| > 0 {
      var c := e.child[0];
      assert s[c].kind == c.kind;
      if c.kind.CharData? {
        FirstRewritten(s, e, text);
        c.kind := CharData(text, c.kind.whitespace);
        v := u;
        assert Taken(v) == Rewritten(s, c, c.kind);
        return;
      }
    }
    v := PrependText(e, text, u);
  }

  lemma PrependedTree(s: Shot, e: Token, cd: Token, text: string)
    requires WellFormed(s) && e in s && cd !in s && s[e].kind.Element?
    requires s[e].child == [] || (s[e].child[0] in s && !s[s[e].child[0]].kind.CharData?)
    ensures var b := Born(s, cd, CharData(text, false));
            var r := Inserted(b, e, 0, cd);
            WellFormed(r) && TextOf(r, e) == text && TreeOf(r, e) == TextSet(TreeOf(s, e), text)
  {
    hide WellFormed, TreeOf, Above;
    var b := Born(s, cd, CharData(text, false));
    BornTree(s, cd, CharData(text, false));
    InsertedTree(b, e, 0, cd);
    KidsAre(s, e);
    TreeParts(s, e);
    if s[e].child != [] {
      TreeParts(s, s[e].child[0]);
    }
    var was := TreeOf(s, e).kids;
    assert was[..0] + [TreeOf(b, cd)] + was[0..] == [TreeOf(b, cd)] + was;
  }

  /** The second half of SetText: new character data is bound as last child, then moved to the front. */
  method PrependText(e: Token, text: string, ghost u: set<Token>) returns (ghost v: set<Token>)
    requires e in u && WellFormed(Taken(u)) && e.kind.Element?
    requires e.child == [] || (e.child[0] in u && !e.child[0].kind.CharData?)
    modifies e`child
    ensures u <= v && fresh(v - u) && WellFormed(Taken(v))
    ensures TreeOf(Taken(v), e) == TextSet(old(TreeOf(Taken(u), e)), text)
    ensures TextOf(Taken(v), e) == text
    ensures |e.child| == |old(e.child)| + 1 && e.child[1..] == old(e.child)
    ensures e.child[0] !in u && e.child[0].kind == CharData(text, false)
  {
    hide WellFormed, TreeOf, TextSet;
    ghost var s := Taken(u);
    assert e.child != [] ==> s[e.child[0]].kind == e.child[0].kind;
    var cd := new Token(CharData(text, false), e, u);
    v := u + {cd};
    PrependedTree(s, e, cd, text);
    ghost var bound := Taken(v);
    assert bound[e].child == s[e].child + [cd];
    e.child := [cd] + e.child[..|e.child| - 1];
    MovedToFront(Born(s, cd, CharData(text, false)), e, cd);
    assert Taken(v) == bound[e := bound[e].(child := e.child)];
  }

  lemma MovedToFront(b: Shot, e: Token, t: Token)
    requires e in b && t in b && e != t
    ensures var r := Appended(b, e, t);
            r[e := r[e].(child := [t] + r[e].child[..|r[e].child| - 1])] == Inserted(b, e, 0, t)
  {
    assert [t] + b[e].child == b[e].child[..0] + [t] + b[e].child[0..];
    assert (b[e].child + [t])[..|b[e].child|] == b[e].child;
  }

  // ---------------------------------------------------------------- Root and SetRoot

  /** The position of the first element, or the number of tokens. */
  function RootIndex(s: Shot, ts: seq<Token>): (i: nat)
    ensures i <= |ts| && (i < |ts| ==> IsElement(s, ts[i]))
    ensures forall j :: 0 <= j < i ==> !IsElement(s, ts[j])
  {
    if ts == [] then 0 else if IsElement(s, ts[0]) then 0 else 1 + RootIndex(s, ts[1..])
  }

  function RootOf(s: Shot, doc: Token): Token?
    requires doc in s
  {
    var i := RootIndex(s, s[doc].child);
    if i < |s[doc].child| then s[doc].child[i] else null
  }

  lemma RootIndexAt(s: Shot, ts: seq<Token>, i: nat)
    requires i < |ts| && IsElement(s, ts[i]) && forall j :: 0 <= j < i ==> !IsElement(s, ts[j])
    ensures RootIndex(s, ts) == i
  {
  }

  method Root(doc: Token, ghost u: set<Token>) returns (r: Token?)
    requires doc in u && WellFormed(Taken(u))
    ensures r == RootOf(Taken(u), doc)
  {
    ghost var s := Taken(u);
    assert TokenOk(s, doc);
    hide WellFormed;
    for i := 0 to |doc.child|
      invariant forall j :: 0 <= j < i ==> !IsElement(s, s[doc].child[j])
    {
      assert doc.child[i] in u && s[doc.child[i]].kind == doc.child[i].kind;
      if doc.child[i].kind.Element? {
        RootIndexAt(s, s[doc].child, i);
        return doc.child[i];
      }
    }
    return null;
  }

  /** e, unbound in d, takes the place of the first element below doc, or the last place if there is none. */
  ghost function Enthroned(d: Shot, doc: Token, e: Token): Shot
    requires WellFormed(d) && doc in d && e in d && doc != e
  {
    var i := RootIndex(d, d[doc].child);
    if i == |d[doc].child| then Appended(d, doc, e)
    else
      DetachedTree(d, doc, i);
      Inserted(Detached(d, d[doc].child[i]), doc, i, e)
  }

  function RootSet(kids: seq<Tree>, i: nat, t: Tree): seq<Tree>
    requires i <= |kids|
  {
    if i < |kids| then kids[i := t] else kids + [t]
  }

  /** The conditions under which SetRoot works on an unbound element. */
  ghost predicate CanRule(d: Shot, doc: Token, e: Token) {
    && WellFormed(d) && doc in d && e in d && d[doc].kind.Element? && d[e].kind.Element?
    && d[e].parent == null && !Above(d, e, doc)
  }

  /** The old root is unbound, and nothing else changes in the document than the place of the root. */
  lemma EnthronedShot(d: Shot, doc: Token, e: Token)
    requires CanRule(d, doc, e) && RootOf(d, doc) != null
    ensures doc != e
    ensures var i, ts := RootIndex(d, d[doc].child), d[doc].child;
            Enthroned(d, doc, e) ==
            d[doc := d[doc].(child := ts[i := e])][e := d[e].(parent := doc)][ts[i] := d[ts[i]].(parent := null)]
  {
    assert TokenOk(d, doc);
    hide WellFormed, Above;
    AboveSelf(d, e);
    var i, ts := RootIndex(d, d[doc].child), d[doc].child;
    DetachedTree(d, doc, i);
    var m := Detached(d, ts[i]);
    assert m[doc].child[..i] + [e] + m[doc].child[i..] == ts[i := e];
    assert m == d[doc := d[doc].(child := m[doc].child)][ts[i] := d[ts[i]].(parent := null)];
  }

  lemma OldRootApart(d: Shot, doc: Token, e: Token)
    requires CanRule(d, doc, e) && RootOf(d, doc) != null
    ensures doc != e && RootOf(d, doc) != e && RootOf(d, doc) != doc
    ensures var m := Detached(d, RootOf(d, doc)); WellFormed(m) && CanRule(m, doc, e) && !Above(m, RootOf(d, doc), doc)
  {
    var x := RootOf(d, doc);
    assert TokenOk(d, doc);
    assert x in d[doc].child && d[x].parent == doc;
    hide WellFormed, Above;
    AboveSelf(d, e);
    NotBelowChild(d, doc, x);
    DetachedWellFormed(d, x);
    DetachedRecord(d, x, doc);
    DetachedRecord(d, x, e);
    if Above(Detached(d, x), e, doc) {
      DetachedAbove(d, x, e, doc);
    }
    if Above(Detached(d, x), x, doc) {
      DetachedAbove(d, x, x, doc);
    }
  }

  /** What the document lists afterwards: e where the first element was, or e as well if there was none. */
  lemma EnthronedList(d: Shot, doc: Token, e: Token)
    requires CanRule(d, doc, e)
    ensures doc != e && doc in Enthroned(d, doc, e)
    ensures var now, ts := Enthroned(d, doc, e)[doc].child, d[doc].child;
            && ((forall j :: 0 <= j < |ts| ==> !IsElement(d, ts[j])) ==> now == ts + [e])
            && forall i :: 0 <= i < |ts| && IsElement(d, ts[i]) && (forall j :: 0 <= j < i ==> !IsElement(d, ts[j])) ==>
                           now == ts[i := e]
  {
    hide WellFormed, Above, Enthroned, IsElement, RootIndex;
    AboveSelf(d, e);
    var ts := d[doc].child;
    if RootIndex(d, ts) < |ts| {
      EnthronedShot(d, doc, e);
      OldRootApart(d, doc, e);
    } else {
      EnthronedLast(d, doc, e);
    }
  }

  /** At tree level: e's tree stands where the root stood, or last, and the old root keeps its tree. */
  lemma EnthronedTree(d: Shot, doc: Token, e: Token)
    requires CanRule(d, doc, e)
    ensures doc != e && WellFormed(Enthroned(d, doc, e))
    ensures RootIndex(d, d[doc].child) <= |TreeOf(d, doc).kids|
    ensures var i, r := RootIndex(d, d[doc].child), Enthroned(d, doc, e);
            && TreeOf(r, doc) == TreeOf(d, doc).(kids := RootSet(TreeOf(d, doc).kids, i, TreeOf(d, e)))
            && (RootOf(d, doc) != null ==> TreeOf(r, RootOf(d, doc)) == TreeOf(d, RootOf(d, doc)))
  {
    hide WellFormed, TreeOf, Above, RootIndex;
    var i, ts := RootIndex(d, d[doc].child), d[doc].child;
    AboveSelf(d, e);
    KidsAre(d, doc);
    if i == |ts| {
      AppendedTree(d, doc, e);
    } else {
      OldRootApart(d, doc, e);
      DetachedTree(d, doc, i);
      var m := Detached(d, ts[i]);
      InsertedTree(m, doc, i, e);
      DetachedElsewhere(d, ts[i], e);
      InsertedElsewhere(m, doc, i, e, ts[i]);
      var was := TreeOf(d, doc).kids;
      assert (was[..i] + was[i + 1..])[..i] + [TreeOf(d, e)] + (was[..i] + was[i + 1..])[i..] == was[i := TreeOf(d, e)];
    }
  }

  /** Afterwards e is the root. */
  lemma EnthronedRoot(d: Shot, doc: Token, e: Token)
    requires CanRule(d, doc, e)
    ensures doc != e && doc in Enthroned(d, doc, e) && RootOf(Enthroned(d, doc, e), doc) == e
  {
    hide WellFormed, Above, Enthroned;
    var i, ts := RootIndex(d, d[doc].child), d[doc].child;
    AboveSelf(d, e);
    if i == |ts| {
      EnthronedLast(d, doc, e);
      RootIndexAt(Enthroned(d, doc, e), ts + [e], i);
    } else {
      EnthronedShot(d, doc, e);
      OldRootApart(d, doc, e);
      var r := Enthroned(d, doc, e);
      assert r[doc].child == ts[i := e] && r[e].kind == d[e].kind;
      assert forall j :: 0 <= j < i && ts[j] in r ==> r[ts[j]].kind == d[ts[j]].kind;
      RootIndexAt(r, ts[i := e], i);
    }
  }

  method SetRoot(doc: Token, e: Token, ghost u: set<Token>)
    requires doc in u && e in u && WellFormed(Taken(u)) && doc.kind.Element? && e.kind.Element?
    requires !Above(Taken(u), e, doc)
    modifies doc`child, e`parent, e.parent, (set t | t in doc.child)`parent
    ensures CanRule(Detached(old(Taken(u)), e), doc, e) && doc != e
    ensures Taken(u) == Enthroned(Detached(old(Taken(u)), e), doc, e)
    ensures WellFormed(Taken(u)) && RootOf(Taken(u), doc) == e
  {
    ghost var s := Taken(u);
    AboveSelf(s, e);
    DetachedRecord(s, e, doc);
    hide WellFormed, Enthroned, Detached;
    Token.Unbind(e, u);
    ghost var d := Taken(u);
    if Above(d, e, doc) {
      DetachedAbove(s, e, e, doc);
    }
    assert d[doc].kind == doc.kind && d[e].kind == e.kind && d[e].parent == e.parent;
    Enthrone(doc, e, u);
    EnthronedTree(d, doc, e);
    EnthronedRoot(d, doc, e);
  }

  /** The old root, the i-th child, gives up its place to e. */
  method Exchange(doc: Token, i: nat, e: Token, ghost u: set<Token>, ghost d: Shot)
    requires CanRule(d, doc, e) && Taken(u) == d[e := d[e].(parent := doc)]
    requires i < |doc.child| && doc.child == d[doc].child
    requires doc.child[i] == RootOf(d, doc) && i == RootIndex(d, doc.child)
    modifies doc`child, (set t | t in doc.child)`parent
    ensures doc != e && Taken(u) == Enthroned(d, doc, e)
  {
    hide WellFormed, Above, Enthroned, RootIndex;
    EnthronedShot(d, doc, e);
    OldRootApart(d, doc, e);
    var t := doc.child[i];
    t.parent := null;
    doc.child := doc.child[i := e];
    assert Taken(u) == d[doc := d[doc].(child := d[doc].child[i := e])][e := d[e].(parent := doc)]
                        [t := d[t].(parent := null)];
  }

  /** SetRoot once the element is unbound. */
  method Enthrone(doc: Token, e: Token, ghost u: set<Token>)
    requires CanRule(Taken(u), doc, e)
    modifies doc`child, e`parent, (set t | t in doc.child)`parent
    ensures doc != e && Taken(u) == Enthroned(old(Taken(u)), doc, e)
  {
    ghost var d := Taken(u);
    AboveSelf(d, e);
    ChildrenAmong(d, doc);
    hide WellFormed, Above, Enthroned;
    e.parent := doc;
    for i := 0 to |doc.child|
      invariant doc.child == d[doc].child && Taken(u) == d[e := d[e].(parent := doc)]
      invariant forall j :: 0 <= j < i ==> !IsElement(d, d[doc].child[j])
    {
      assert doc.child[i] in doc.child;
      assert doc.child[i] in u && Taken(u)[doc.child[i]].kind == doc.child[i].kind;
      if doc.child[i].kind.Element? {
        RootIndexAt(d, d[doc].child, i);
        Exchange(doc, i, e, u, d);
        return;
      }
    }
    EnthronedLast(d, doc, e);
    doc.child := doc.child + [e];
    assert Taken(u) == Appended(d, doc, e);
  }

  lemma EnthronedLast(d: Shot, doc: Token, e: Token)
    requires CanRule(d, doc, e) && forall j :: 0 <= j < |d[doc].child| ==> !IsElement(d, d[doc].child[j])
    ensures doc != e && Enthroned(d, doc, e) == Appended(d, doc, e)
  {
    AboveSelf(d, e);
  }
}
