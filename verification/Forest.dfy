/**
 * The element tree of pkg/controller/etree/etree.go: tokens with parent pointers, changed in place. A shot is a
 * map from tokens to what they hold, so that states before and after a change can be compared as values; the
 * invariant, the ancestors and the effects of the basic operations are defined on shots, and the methods of
 * class Token are proved against those functions.
 */
module Forest {
  import opened Seqs
  import opened Names
  import opened Attrs

  /** The six token structs; only an element has attributes and children. */
  datatype Kind =
    | Element(space: string, tag: string)
    | CharData(data: string, whitespace: bool)
    | Comment(text: string)
    | Directive(text: string)
    | ProcInst(target: string, inst: string)
    | CData(data: string)

  /** What one token holds at one moment. */
  datatype Record = Record(kind: Kind, attr: seq<Attr>, child: seq<Token>, parent: Token?)

  /** A stand-in where there is no token; it makes maps from tokens depend on their own tokens only. */
  const NOTHING := Record(CData(""), [], [], null)

  /** What a set of tokens holds at one moment. */
  type Shot = map<Token, Record>

  // ---------------------------------------------------------------- ancestors

  ghost function ParentOf(s: Shot, t: Token?): Token? {
    if t == null || t !in s then null else s[t].parent
  }

  /** The token reached from t by n parent steps, or null past the top. */
  ghost function Up(s: Shot, t: Token?, n: nat): Token? {
    if n == 0 then t else Up(s, ParentOf(s, t), n - 1)
  }

  /** The chain of parents above t ends. */
  ghost predicate Grounded(s: Shot, t: Token?) {
    exists n: nat :: Up(s, t, n) == null
  }

  /** a is t itself or one of its ancestors. */
  ghost predicate Above(s: Shot, a: Token, t: Token) {
    exists n: nat :: Up(s, t, n) == a
  }

  /** The tokens of the subtree hanging below a, with a. */
  ghost function Subtree(s: Shot, a: Token): set<Token> {
    set t | t in s && Above(s, a, t)
  }

  // ---------------------------------------------------------------- invariant

  /**
   * The invariant at one token: every listed child names it as its one owner, it is listed by the parent
   * it names, lists nothing twice, has children and attributes only if it is an element, and its chain of
   * parents ends.
   */
  ghost predicate TokenOk(s: Shot, t: Token)
    requires t in s
  {
    && (forall i :: 0 <= i < |s[t].child| ==> s[t].child[i] in s && s[s[t].child[i]].parent == t)
    && (s[t].parent != null ==> s[t].parent in s && t in s[s[t].parent].child)
    && Distinct(s[t].child)
    && (!s[t].kind.Element? ==> s[t].child == [] && s[t].attr == [])
    && Grounded(s, t)
  }

  ghost predicate WellFormed(s: Shot) {
    forall t {:trigger TokenOk(s, t)} :: t in s ==> TokenOk(s, t)
  }

  /** What the tokens of u hold now. */
  ghost function Taken(u: set<Token>): Shot
    reads u
  {
    map t | t in u :: if t in u then Record(t.kind, t.attr, t.child, t.parent) else NOTHING
  }

  class Token {
    var kind: Kind
    var attr: seq<Attr>
    var child: seq<Token>
    var parent: Token?

    /** The `new…` helpers: a token bound to a parent element if one is given. */
    constructor (kind: Kind, parent: Token?, ghost u: set<Token>)
      requires WellFormed(Taken(u)) && (parent != null ==> parent in u && parent.kind.Element?)
      modifies (if parent == null then {} else {parent})`child
      ensures this !in u
      ensures Taken(u + {this}) ==
              if parent == null then Born(old(Taken(u)), this, kind)
              else Appended(Born(old(Taken(u)), this, kind), parent, this)
      ensures WellFormed(Taken(u + {this}))
    {
      this.kind, attr, child, this.parent := kind, [], [], parent;
      new;
      ghost var s := Taken(u);
      BornWellFormed(s, this, kind);
      if parent != null {
        AppendedWellFormed(Born(s, this, kind), parent, this);
        parent.AddLast(this);
      }
      assert Taken(u + {this}) == if parent == null then Born(s, this, kind)
                                  else Appended(Born(s, this, kind), parent, this);
    }

    /** `addChild` only lists the token; its parent field is the caller's business. */
    method AddLast(t: Token)
      modifies this`child
      ensures child == old(child) + [t]
    {
      child := child + [t];
    }

    /** The common end of AddChild and InsertChild. */
    method Adopt(t: Token, ghost u: set<Token>)
      requires this in u && t in u && this != t
      modifies this`child, t`parent
      ensures Taken(u) == Appended(old(Taken(u)), this, t)
    {
      t.parent := this;
      AddLast(t);
    }

    /** createAttr: the key is matched exactly. */
    method CreateAttr(a: Attr)
      modifies this`attr
      ensures attr == WithAttr(old(attr), a)
    {
      for i := 0 to |attr|
        invariant attr == old(attr)
        invariant forall j :: 0 <= j < i ==> attr[j].space != a.space || attr[j].key != a.key
      {
        if a.space == attr[i].space && a.key == attr[i].key {
          WithAttrOld(attr, a, i);
          attr := attr[i := attr[i].(value := a.value)];
          return;
        }
      }
      WithAttrNew(attr, a);
      attr := attr + [a];
    }

    /** SelectAttr: the position of the first attribute that the key matches, or the number of attributes. */
    method SelectAttr(key: string) returns (i: nat)
      ensures i == Matching(attr, SpaceDecompose(key).0, SpaceDecompose(key).1)
      ensures var (space, skey) := SpaceDecompose(key);
              && (i < |attr| ==> attr[i].key == skey && (space == "" || attr[i].space == space))
              && forall j :: 0 <= j < i ==> attr[j].key != skey || (space != "" && attr[j].space != space)
    {
      var (space, skey) := SpaceDecompose(key);
      i := 0;
      while i < |attr|
        invariant i <= |attr|
        invariant Matching(attr, space, skey) == i + Matching(attr[i..], space, skey)
      {
        if AttrMatches(attr[i], space, skey) {
          return;
        }
        i := i + 1;
      }
    }

    method RemoveChild(t: Token, ghost u: set<Token>) returns (r: Token?)
      requires this in u && t in u && WellFormed(Taken(u))
      modifies this`child, t`parent
      ensures r == if old(t in child) then t else null
      ensures Taken(u) == if old(t in child) then Detached(old(Taken(u)), t) else old(Taken(u))
      ensures WellFormed(Taken(u))
      ensures t.parent == if old(t in child) then null else old(t.parent)
    {
      ghost var s := Taken(u);
      assert TokenOk(s, this);
      assert t in child ==> s[t].parent == this;
      for i := 0 to |child|
        invariant child == s[this].child && Taken(u) == s
        invariant t !in child[..i]
      {
        if child[i] == t {
          WithoutAt(child, t, i);
          DetachedWellFormed(s, t);
          NotBelowSelf(s, t);
          child := child[..i] + child[i + 1..];
          t.parent := null;
          return t;
        }
      }
      return null;
    }

    method AddChild(t: Token, ghost u: set<Token>)
      requires this in u && t in u && WellFormed(Taken(u)) && kind.Element?
      requires !Above(Taken(u), t, this)
      modifies this`child, t`parent, t.parent
      ensures Detached(old(Taken(u)), t).Keys == u && this != t
      ensures Taken(u) == Appended(Detached(old(Taken(u)), t), this, t)
      ensures WellFormed(Taken(u))
    {
      ghost var s := Taken(u);
      AboveSelf(s, t);
      Unbind(t, u);
      ghost var d := Taken(u);
      if Above(d, t, this) {
        DetachedAbove(s, t, t, this);
      }
      AppendedWellFormed(d, this, t);
      Adopt(t, u);
    }

    /** The common start of AddChild, InsertChild and SetRoot: take t away from its current parent. */
    static method Unbind(t: Token, ghost u: set<Token>)
      requires t in u && WellFormed(Taken(u))
      modifies t`parent, t.parent
      ensures Taken(u) == Detached(old(Taken(u)), t)
      ensures WellFormed(Taken(u)) && t.parent == null
    {
      ghost var s := Taken(u);
      assert TokenOk(s, t) && s[t].parent == t.parent;
      DetachedWellFormed(s, t);
      if t.parent != null {
        var _ := t.parent.RemoveChild(t, u);
      } else {
        assert s == Detached(s, t);
      }
    }
  }

  /** A token that names a parent without being listed by it yet. */
  method Unlisted(kind: Kind, parent: Token?) returns (t: Token)
    ensures fresh(t) && t.kind == kind && t.attr == [] && t.child == [] && t.parent == parent
  {
    ghost var none: set<Token> := {};
    assert WellFormed(Taken(none));
    hide WellFormed;
    t := new Token(kind, null, none);
    assert Taken(none + {t})[t] == Record(kind, [], [], null);
    t.parent := parent;
  }

  // ---------------------------------------------------------------- facts about chains of parents

  lemma {:induction false} UpSum(s: Shot, t: Token?, m: nat, n: nat)
    ensures Up(s, t, m + n) == Up(s, Up(s, t, m), n)
  {
    if m > 0 {
      UpSum(s, ParentOf(s, t), m - 1, n);
    }
  }

  lemma {:induction false} UpNull(s: Shot, n: nat)
    ensures Up(s, null, n) == null
  {
    if n > 0 {
      UpNull(s, n - 1);
    }
  }

  /** A token that is its own proper ancestor has an endless chain of parents. */
  lemma {:induction false} LoopNeverEnds(s: Shot, t: Token, n: nat, k: nat)
    requires n > 0 && Up(s, t, n) == t
    ensures Up(s, t, k) != null
    decreases k
  {
    if k < n {
      UpSum(s, t, k, n - k);
      UpNull(s, n - k);
    } else {
      LoopNeverEnds(s, t, n, k - n);
      UpSum(s, t, n, k - n);
    }
  }

  /** In a grounded chain nothing recurs: the number of steps to an ancestor is determined. */
  lemma NoLoop(s: Shot, t: Token, n: nat)
    requires Grounded(s, t) && Up(s, t, n) == t
    ensures n == 0
  {
    if n > 0 {
      var k: nat :| Up(s, t, k) == null;
      LoopNeverEnds(s, t, n, k);
    }
  }

  /** The number of parent steps from t up to a. */
  ghost function Steps(s: Shot, a: Token, t: Token): (n: nat)
    requires Above(s, a, t)
    ensures Up(s, t, n) == a
  {
    var n: nat :| Up(s, t, n) == a;
    n
  }

  lemma StepsUnique(s: Shot, a: Token, t: Token, n: nat)
    requires Grounded(s, a) && Up(s, t, n) == a
    ensures Above(s, a, t) && Steps(s, a, t) == n
  {
    var m := Steps(s, a, t);
    if m < n {
      UpSum(s, t, m, n - m);
      NoLoop(s, a, n - m);
    } else if n < m {
      UpSum(s, t, n, m - n);
      NoLoop(s, a, m - n);
    }
  }

  lemma ReachedIsAbove(s: Shot, a: Token, x: Token, n: nat)
    requires Up(s, x, n) == a
    ensures Above(s, a, x)
  {
  }

  lemma AboveSelf(s: Shot, a: Token)
    ensures Above(s, a, a)
  {
    assert Up(s, a, 0) == a;
  }

  lemma AboveTransitive(s: Shot, a: Token, b: Token, c: Token)
    requires Above(s, a, b) && Above(s, b, c)
    ensures Above(s, a, c)
  {
    UpSum(s, c, Steps(s, b, c), Steps(s, a, b));
  }

  lemma AboveChild(s: Shot, p: Token, c: Token)
    requires c in s && s[c].parent == p
    ensures Above(s, p, c)
  {
    assert Up(s, c, 1) == Up(s, p, 0) == p;
  }

  lemma AboveParent(s: Shot, a: Token, b: Token)
    requires b in s && Above(s, a, b) && a != b
    ensures s[b].parent != null && Above(s, a, s[b].parent)
  {
    var n := Steps(s, a, b);
    assert Up(s, b, n) == Up(s, ParentOf(s, b), n - 1);
    UpNull(s, n - 1);
  }

  /** Two ancestors of one token lie on one chain. */
  lemma Linear(s: Shot, a: Token, b: Token, t: Token)
    requires Above(s, a, t) && Above(s, b, t)
    ensures Above(s, a, b) || Above(s, b, a)
  {
    var m, n := Steps(s, a, t), Steps(s, b, t);
    if m <= n {
      UpSum(s, t, m, n - m);
    } else {
      UpSum(s, t, n, m - n);
    }
  }

  lemma Antisymmetric(s: Shot, a: Token, b: Token)
    requires Grounded(s, a) && Above(s, a, b) && Above(s, b, a)
    ensures a == b
  {
    var m, n := Steps(s, a, b), Steps(s, b, a);
    UpSum(s, a, n, m);
    NoLoop(s, a, n + m);
  }

  /** Going from t towards a, the last token before a is one of a's children. */
  lemma {:induction false} LastStep(s: Shot, a: Token, t: Token) returns (c: Token)
    requires WellFormed(s) && a in s && t in s && Above(s, a, t) && t != a
    ensures c in s && s[c].parent == a && c in s[a].child && Above(s, c, t)
    decreases Steps(s, a, t)
  {
    assert TokenOk(s, t);
    AboveParent(s, a, t);
    var p := s[t].parent;
    if p == a {
      AboveSelf(s, t);
      c := t;
    } else {
      assert Up(s, t, Steps(s, a, t)) == Up(s, p, Steps(s, a, t) - 1);
      assert TokenOk(s, a);
      StepsUnique(s, a, p, Steps(s, a, t) - 1);
      c := LastStep(s, a, p);
      AboveChild(s, p, t);
      AboveTransitive(s, c, p, t);
    }
  }

  lemma NotBelowChild(s: Shot, p: Token, c: Token)
    requires Grounded(s, p) && c in s && s[c].parent == p
    ensures !Above(s, c, p) && c != p
  {
    AboveChild(s, p, c);
    if Above(s, c, p) {
      Antisymmetric(s, p, c);
    }
    if c == p {
      assert Up(s, p, 1) == Up(s, p, 0);
      NoLoop(s, p, 1);
    }
  }

  /** A child's subtree is a proper part of its parent's. */
  lemma ChildSubtree(s: Shot, p: Token, c: Token)
    requires p in s && Grounded(s, p) && c in s && s[c].parent == p
    ensures Subtree(s, c) < Subtree(s, p)
  {
    AboveChild(s, p, c);
    forall t | t in Subtree(s, c) ensures t in Subtree(s, p) {
      AboveTransitive(s, p, c, t);
    }
    AboveSelf(s, p);
    NotBelowChild(s, p, c);
    assert p in Subtree(s, p) && p !in Subtree(s, c);
  }

  lemma OnlyElementsHold(s: Shot)
    requires WellFormed(s)
    ensures forall t :: t in s && !s[t].kind.Element? ==> s[t].attr == [] && s[t].child == []
  {
    forall t | t in s && !s[t].kind.Element? ensures s[t].attr == [] && s[t].child == [] {
      assert TokenOk(s, t);
    }
  }

  lemma ChildrenAmong(s: Shot, e: Token)
    requires WellFormed(s) && e in s
    ensures forall c :: c in s[e].child ==> c in s && s[c].parent == e
  {
    assert TokenOk(s, e);
  }

  /** A token that the parent it names does not list. */
  lemma BrokenLink(s: Shot, x: Token)
    requires x in s && s[x].parent != null && s[x].parent in s && x !in s[s[x].parent].child
    ensures !WellFormed(s)
  {
    assert !TokenOk(s, x);
  }

  lemma GroundedIn(s: Shot, a: Token)
    requires WellFormed(s) && a in s
    ensures Grounded(s, a)
  {
    assert TokenOk(s, a);
  }

  // ---------------------------------------------------------------- changes, as functions on shots

  /** What RemoveChild(t) called on t's parent leaves behind. */
  ghost function Detached(s: Shot, t: Token): Shot
    requires t in s
  {
    var p := s[t].parent;
    var s1 := if p != null && p in s then s[p := s[p].(child := Without(s[p].child, t))] else s;
    s1[t := s1[t].(parent := null)]
  }

  /** t, so far without parent, becomes the i-th child of e. */
  ghost function Inserted(s: Shot, e: Token, i: nat, t: Token): Shot
    requires e in s && t in s && e != t && i <= |s[e].child|
  {
    s[e := s[e].(child := s[e].child[..i] + [t] + s[e].child[i..])][t := s[t].(parent := e)]
  }

  ghost function Appended(s: Shot, e: Token, t: Token): Shot
    requires e in s && t in s && e != t
  {
    s[e := s[e].(child := s[e].child + [t])][t := s[t].(parent := e)]
  }

  /** A token t that did not exist before, without parent, attributes or children. */
  ghost function Born(s: Shot, t: Token, kind: Kind): Shot {
    s[t := Record(kind, [], [], null)]
  }

  lemma NotBelowSelf(s: Shot, t: Token)
    requires t in s && TokenOk(s, t)
    ensures s[t].parent != t && t !in s[t].child
  {
    if s[t].parent == t || t in s[t].child {
      NotBelowChild(s, t, t);
    }
  }

  lemma DetachedRecord(s: Shot, t: Token, x: Token)
    requires WellFormed(s) && t in s && x in s
    ensures Detached(s, t).Keys == s.Keys
    ensures Detached(s, t)[x] == s[x].(child := Without(s[x].child, t), parent := if x == t then null else s[x].parent)
    ensures Distinct(Detached(s, t)[x].child) && t !in Detached(s, t)[x].child
  {
    assert TokenOk(s, t) && TokenOk(s, x);
    WithoutDistinct(s[x].child, t);
    NotBelowSelf(s, t);
    if t in s[x].child {
      assert s[t].parent == x;
    }
  }

  lemma DetachedParents(s: Shot, t: Token, x: Token?)
    requires WellFormed(s) && t in s
    ensures ParentOf(Detached(s, t), x) == if x == t then null else ParentOf(s, x)
  {
    if x != null && x in s {
      DetachedRecord(s, t, x);
    }
  }

  lemma {:induction false} DetachedUp(s: Shot, t: Token, x: Token?, n: nat)
    requires WellFormed(s) && t in s
    ensures Up(Detached(s, t), x, n) == null || Up(Detached(s, t), x, n) == Up(s, x, n)
  {
    if n > 0 {
      DetachedParents(s, t, x);
      if x == t {
        UpNull(Detached(s, t), n - 1);
      } else {
        DetachedUp(s, t, ParentOf(s, x), n - 1);
      }
    }
  }

  lemma DetachedAbove(s: Shot, t: Token, a: Token, x: Token)
    requires WellFormed(s) && t in s && Above(Detached(s, t), a, x)
    ensures Above(s, a, x)
  {
    DetachedUp(s, t, x, Steps(Detached(s, t), a, x));
  }

  lemma DetachedOk(s: Shot, t: Token, x: Token)
    requires WellFormed(s) && t in s && x in s
    ensures x in Detached(s, t) && TokenOk(Detached(s, t), x)
  {
    var d := Detached(s, t);
    DetachedRecord(s, t, x);
    assert TokenOk(s, x);
    forall i | 0 <= i < |d[x].child| ensures d[x].child[i] in d && d[d[x].child[i]].parent == x {
      var c := d[x].child[i];
      assert c in d[x].child && c in s[x].child && c != t;
      DetachedRecord(s, t, c);
    }
    if d[x].parent != null {
      DetachedRecord(s, t, s[x].parent);
    }
    var n: nat :| Up(s, x, n) == null;
    DetachedUp(s, t, x, n);
  }

  lemma DetachedWellFormed(s: Shot, t: Token)
    requires WellFormed(s) && t in s
    ensures WellFormed(Detached(s, t)) && Detached(s, t).Keys == s.Keys
  {
    DetachedRecord(s, t, t);
    forall x | x in s ensures TokenOk(Detached(s, t), x) {
      DetachedOk(s, t, x);
    }
  }

  lemma {:induction false} InsertedUp(s: Shot, e: Token, i: nat, t: Token, x: Token?, n: nat)
    requires e in s && t in s && e != t && i <= |s[e].child| && (x == null || !Above(s, t, x))
    ensures Up(Inserted(s, e, i, t), x, n) == Up(s, x, n)
  {
    var a := Inserted(s, e, i, t);
    if n > 0 && x != null {
      AboveSelf(s, x);
      var p := ParentOf(s, x);
      assert ParentOf(a, x) == p;
      if p != null && Above(s, t, p) {
        AboveChild(s, p, x);
        AboveTransitive(s, t, p, x);
      }
      InsertedUp(s, e, i, t, p, n - 1);
    } else if n > 0 {
      UpNull(s, n);
      UpNull(a, n);
    }
  }

  lemma {:induction false} InsertedGrounded(s: Shot, e: Token, i: nat, t: Token, x: Token?, n: nat)
    requires e in s && t in s && e != t && i <= |s[e].child| && s[t].parent == null && !Above(s, t, e)
    requires Grounded(s, e) && Up(s, x, n) == null
    ensures Grounded(Inserted(s, e, i, t), x)
  {
    var a := Inserted(s, e, i, t);
    if x == null {
      assert Up(a, x, 0) == null;
    } else if x == t {
      var k: nat :| Up(s, e, k) == null;
      InsertedUp(s, e, i, t, e, k);
      assert Up(a, t, k + 1) == Up(a, e, k);
    } else {
      InsertedGrounded(s, e, i, t, ParentOf(s, x), n - 1);
      var k: nat :| Up(a, ParentOf(s, x), k) == null;
      assert Up(a, x, k + 1) == Up(a, ParentOf(a, x), k);
    }
  }

  lemma InsertedOk(s: Shot, e: Token, i: nat, t: Token, x: Token)
    requires WellFormed(s) && e in s && t in s && e != t && i <= |s[e].child| && s[e].kind.Element?
    requires s[t].parent == null && !Above(s, t, e) && x in s
    ensures TokenOk(Inserted(s, e, i, t), x)
  {
    var a := Inserted(s, e, i, t);
    assert TokenOk(s, x) && TokenOk(s, e);
    assert t !in s[x].child && t !in s[e].child;
    SplicedMembers(s[e].child, i, t);
    forall k | 0 <= k < |a[x].child| ensures a[x].child[k] in a && a[a[x].child[k]].parent == x {
      assert a[x].child[k] in a[x].child;
      assert a[x].child[k] in s[x].child || (x == e && a[x].child[k] == t);
    }
    if a[x].parent != null && x != t {
      assert x in s[s[x].parent].child;
    }
    var n: nat :| Up(s, x, n) == null;
    InsertedGrounded(s, e, i, t, x, n);
  }

  lemma InsertedWellFormed(s: Shot, e: Token, i: nat, t: Token)
    requires WellFormed(s) && e in s && t in s && s[e].kind.Element? && i <= |s[e].child|
    requires s[t].parent == null && !Above(s, t, e)
    ensures e != t && WellFormed(Inserted(s, e, i, t))
  {
    AboveSelf(s, t);
    forall x | x in s ensures TokenOk(Inserted(s, e, i, t), x) {
      InsertedOk(s, e, i, t, x);
    }
  }

  lemma AppendedWellFormed(s: Shot, e: Token, t: Token)
    requires WellFormed(s) && e in s && t in s && s[e].kind.Element?
    requires s[t].parent == null && !Above(s, t, e)
    ensures e != t && WellFormed(Appended(s, e, t))
  {
    InsertedWellFormed(s, e, |s[e].child|, t);
    AboveSelf(s, t);
    var i := |s[e].child|;
    assert s[e].child[..i] + [t] + s[e].child[i..] == s[e].child + [t];
    assert Appended(s, e, t) == Inserted(s, e, i, t);
  }

  lemma {:induction false} BornUp(s: Shot, t: Token, kind: Kind, x: Token?, n: nat)
    requires WellFormed(s) && t !in s && (x == null || x in s)
    ensures Up(Born(s, t, kind), x, n) == Up(s, x, n) && Up(s, x, n) != t
  {
    if n > 0 {
      if x != null {
        assert TokenOk(s, x);
      }
      BornUp(s, t, kind, ParentOf(s, x), n - 1);
    }
  }

  lemma BornOk(s: Shot, t: Token, kind: Kind, x: Token)
    requires WellFormed(s) && t !in s && x in s
    ensures TokenOk(Born(s, t, kind), x) && !Above(Born(s, t, kind), t, x)
  {
    var b := Born(s, t, kind);
    assert TokenOk(s, x);
    var n: nat :| Up(s, x, n) == null;
    BornUp(s, t, kind, x, n);
    if Above(b, t, x) {
      BornUp(s, t, kind, x, Steps(b, t, x));
    }
  }

  lemma BornWellFormed(s: Shot, t: Token, kind: Kind)
    requires WellFormed(s) && t !in s
    ensures WellFormed(Born(s, t, kind))
    ensures forall x :: x in s ==> !Above(Born(s, t, kind), t, x)
  {
    var b := Born(s, t, kind);
    assert Up(b, t, 1) == Up(b, null, 0);
    forall x | x in b ensures TokenOk(b, x) && (x in s ==> !Above(b, t, x)) {
      if x != t {
        BornOk(s, t, kind, x);
      }
    }
  }

  // ---------------------------------------------------------------- changing the content of tokens only

  /** r and s hang together in the same way. */
  ghost predicate SameShape(s: Shot, r: Shot) {
    r.Keys == s.Keys && forall t :: t in s ==> r[t].child == s[t].child && r[t].parent == s[t].parent
  }

  /** r and s hang together in the same way, and each token is still the same thing. */
  ghost predicate SameLinks(s: Shot, r: Shot) {
    && r.Keys == s.Keys
    && forall t :: t in s ==> r[t].child == s[t].child && r[t].parent == s[t].parent && r[t].kind == s[t].kind
  }

  lemma {:induction false} SameUp(s: Shot, r: Shot, t: Token?, n: nat)
    requires SameShape(s, r)
    ensures Up(r, t, n) == Up(s, t, n)
  {
    if n > 0 {
      SameUp(s, r, ParentOf(s, t), n - 1);
    }
  }

  lemma SameAbove(s: Shot, r: Shot, a: Token, t: Token)
    requires SameShape(s, r)
    ensures Above(r, a, t) <==> Above(s, a, t)
  {
    if Above(s, a, t) {
      SameUp(s, r, t, Steps(s, a, t));
    }
    if Above(r, a, t) {
      SameUp(s, r, t, Steps(r, a, t));
    }
  }

  lemma SameWellFormed(s: Shot, r: Shot)
    requires WellFormed(s) && SameShape(s, r)
    requires forall t :: t in r && !r[t].kind.Element? ==> r[t].attr == [] && !s[t].kind.Element?
    ensures WellFormed(r)
  {
    forall t | t in r ensures TokenOk(r, t) {
      assert TokenOk(s, t);
      var n: nat :| Up(s, t, n) == null;
      SameUp(s, r, t, n);
    }
  }
}
