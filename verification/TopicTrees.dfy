/** Topic replacement on documents as values, over any number of keys. */
module TopicTrees {
  import opened Attrs
  import opened Forest
  import opened Trees
  import opened Renaming
  import opened Topics

  // ---------------------------------------------------------------- one key after another

  lemma ReplacedLinks(s: Shot, e: Token, m: map<string, string>, keys: seq<string>)
    requires WellFormed(s) && forall i :: 0 <= i < |keys| ==> keys[i] in m
    ensures SameLinks(s, Replaced(s, e, m, keys)) && WellFormed(Replaced(s, e, m, keys))
    ensures UniquelyNamed(s) ==> UniquelyNamed(Replaced(s, e, m, keys))
  {
    hide Above, Retopiced;
    var r := Replaced(s, e, m, keys);
    OnlyElementsHold(s);
    hide WellFormed;
    SameWellFormed(s, r);
  }

  lemma RetopicedNext(attrs: seq<Attr>, m: map<string, string>, keys: seq<string>, k: string)
    requires k in m && forall i :: 0 <= i < |keys| ==> keys[i] in m
    ensures Retopiced(Retopiced(attrs, m, keys), m, [k]) == Retopiced(attrs, m, keys + [k])
  {
    hide RenamedInTurn;
    forall i | 0 <= i < |attrs|
      ensures Retopiced(Retopiced(attrs, m, keys), m, [k])[i] == Retopiced(attrs, m, keys + [k])[i]
    {
      InTurnConcat(m, keys, [k], attrs[i].value);
    }
  }

  lemma ReplacedNext(s: Shot, e: Token, m: map<string, string>, keys: seq<string>, k: string)
    requires WellFormed(s) && k in m && forall i :: 0 <= i < |keys| ==> keys[i] in m
    ensures Replaced(Replaced(s, e, m, keys), e, m, [k]) == Replaced(s, e, m, keys + [k])
  {
    ReplacedLinks(s, e, m, keys);
    hide WellFormed, Above, Retopiced;
    var r := Replaced(s, e, m, keys);
    forall x | x in s ensures Replaced(r, e, m, [k])[x] == Replaced(s, e, m, keys + [k])[x] {
      SameAbove(s, r, e, x);
      RetopicedNext(s[x].attr, m, keys, k);
    }
  }

  lemma ReplacedNone(s: Shot, e: Token, m: map<string, string>)
    ensures Replaced(s, e, m, []) == s
  {
    hide Above;
    forall x | x in s ensures Replaced(s, e, m, [])[x] == s[x] {
      assert Retopiced(s[x].attr, m, []) == s[x].attr;
    }
  }

  // ---------------------------------------------------------------- trees

  predicate IsServiceTask(k: Kind) {
    k.Element? && k.space == "bpmn" && k.tag == "serviceTask"
  }

  function RetopicedTree(t: Tree, m: map<string, string>, keys: seq<string>): Tree
    requires forall i :: 0 <= i < |keys| ==> keys[i] in m
    decreases t, 1
  {
    Tree(t.kind, if IsServiceTask(t.kind) then Retopiced(t.attr, m, keys) else t.attr, RetopicedTrees(t.kids, m, keys))
  }

  function RetopicedTrees(ts: seq<Tree>, m: map<string, string>, keys: seq<string>): (r: seq<Tree>)
    requires forall i :: 0 <= i < |keys| ==> keys[i] in m
    ensures |r| == |ts|
    decreases ts, 0
  {
    if ts == [] then [] else [RetopicedTree(ts[0], m, keys)] + RetopicedTrees(ts[1..], m, keys)
  }

  lemma {:induction false} RetopicedTreesAt(ts: seq<Tree>, m: map<string, string>, keys: seq<string>, i: nat)
    requires (forall i :: 0 <= i < |keys| ==> keys[i] in m) && i < |ts|
    ensures RetopicedTrees(ts, m, keys)[i] == RetopicedTree(ts[i], m, keys)
  {
    hide RetopicedTree;
    if i > 0 {
      RetopicedTreesAt(ts[1..], m, keys, i - 1);
    }
  }

  /** Below e, replacing in place is replacing in the tree. */
  lemma {:induction false} ReplacedTree(s: Shot, e: Token, m: map<string, string>, keys: seq<string>, x: Token)
    requires WellFormed(s) && (forall i :: 0 <= i < |keys| ==> keys[i] in m)
    requires e in s && x in s && Above(s, e, x) && x != e
    ensures WellFormed(Replaced(s, e, m, keys))
    ensures TreeOf(Replaced(s, e, m, keys), x) == RetopicedTree(TreeOf(s, x), m, keys)
    decreases Subtree(s, x)
  {
    hide WellFormed, TreeOf, Above, Retopiced;
    var r := Replaced(s, e, m, keys);
    ReplacedLinks(s, e, m, keys);
    KidsAre(s, x);
    KidsAre(r, x);
    TreeParts(s, x);
    TreeParts(r, x);
    forall j | 0 <= j < |s[x].child| ensures TreeOf(r, s[x].child[j]) == RetopicedTrees(TreeOf(s, x).kids, m, keys)[j] {
      ChildBelow(s, x, j);
      Deeper(s, e, x, s[x].child[j]);
      ReplacedTree(s, e, m, keys, s[x].child[j]);
      RetopicedTreesAt(TreeOf(s, x).kids, m, keys, j);
    }
    assert TreeOf(r, x).kids == RetopicedTrees(TreeOf(s, x).kids, m, keys);
  }

  lemma Deeper(s: Shot, e: Token, x: Token, c: Token)
    requires WellFormed(s) && e in s && x in s && c in s && s[c].parent == x && Above(s, e, x)
    ensures Above(s, e, c) && c != e
  {
    AboveChild(s, x, c);
    AboveTransitive(s, e, x, c);
    assert TokenOk(s, x);
    NotBelowChild(s, x, c);
  }

  lemma ReplacedDocument(s: Shot, e: Token, m: map<string, string>, keys: seq<string>)
    requires WellFormed(s) && e in s && forall i :: 0 <= i < |keys| ==> keys[i] in m
    ensures WellFormed(Replaced(s, e, m, keys))
    ensures TreeOf(Replaced(s, e, m, keys), e).kids == RetopicedTrees(TreeOf(s, e).kids, m, keys)
  {
    hide WellFormed, TreeOf, Above, Retopiced, RetopicedTrees;
    var r := Replaced(s, e, m, keys);
    ReplacedLinks(s, e, m, keys);
    KidsAre(s, e);
    KidsAre(r, e);
    AboveSelf(s, e);
    forall j | 0 <= j < |s[e].child| ensures TreeOf(r, s[e].child[j]) == RetopicedTrees(TreeOf(s, e).kids, m, keys)[j] {
      ChildBelow(s, e, j);
      Deeper(s, e, e, s[e].child[j]);
      ReplacedTree(s, e, m, keys, s[e].child[j]);
      RetopicedTreesAt(TreeOf(s, e).kids, m, keys, j);
    }
  }

  // ---------------------------------------------------------------- all keys at once

  /** A topic replaced by what the map says about it. */
  function TranslatedAttr(a: Attr, m: map<string, string>): Attr {
    if IsTopic(a) then a.(value := Renamed(m, a.value)) else a
  }

  function TranslatedAttrs(attrs: seq<Attr>, m: map<string, string>): (r: seq<Attr>)
    ensures |r| == |attrs| && forall i :: 0 <= i < |attrs| ==> r[i] == TranslatedAttr(attrs[i], m)
  {
    seq(|attrs|, i requires 0 <= i < |attrs| => TranslatedAttr(attrs[i], m))
  }

  /** The tree with the topics of all its service tasks replaced simultaneously. */
  function Translated(t: Tree, m: map<string, string>): Tree
    decreases t, 1
  {
    Tree(t.kind, if IsServiceTask(t.kind) then TranslatedAttrs(t.attr, m) else t.attr, TranslatedAll(t.kids, m))
  }

  function TranslatedAll(ts: seq<Tree>, m: map<string, string>): seq<Tree>
    decreases ts, 0
  {
    if ts == [] then [] else [Translated(ts[0], m)] + TranslatedAll(ts[1..], m)
  }

  lemma {:induction false} RetopicedIsTranslated(t: Tree, m: map<string, string>, keys: seq<string>)
    requires Settled(m) && Orders(keys, m)
    ensures RetopicedTree(t, m, keys) == Translated(t, m)
    decreases t, 1
  {
    hide Settled, Orders, RenamedInTurn, Renamed, RetopicedTrees, TranslatedAll;
    OrderKeys(m, keys);
    forall i | 0 <= i < |t.attr| ensures Retopiced(t.attr, m, keys)[i] == TranslatedAttrs(t.attr, m)[i] {
      InTurnSettled(m, keys, t.attr[i].value);
    }
    assert Retopiced(t.attr, m, keys) == TranslatedAttrs(t.attr, m);
    RetopicedAreTranslated(t.kids, m, keys);
  }

  lemma OrderKeys(m: map<string, string>, keys: seq<string>)
    requires Orders(keys, m)
    ensures forall i :: 0 <= i < |keys| ==> keys[i] in m
  {
  }

  lemma InTurnSettled(m: map<string, string>, keys: seq<string>, x: string)
    requires Settled(m) && Orders(keys, m)
    ensures RenamedInTurn(m, keys, x) == Renamed(m, x)
  {
    SettledInTurn(m, keys, x);
  }

  lemma {:induction false} RetopicedAreTranslated(ts: seq<Tree>, m: map<string, string>, keys: seq<string>)
    requires Settled(m) && Orders(keys, m)
    ensures RetopicedTrees(ts, m, keys) == TranslatedAll(ts, m)
    decreases ts, 0
  {
    hide Settled, Orders, RetopicedTree, Translated;
    OrderKeys(m, keys);
    if ts != [] {
      RetopicedIsTranslated(ts[0], m, keys);
      RetopicedAreTranslated(ts[1..], m, keys);
    }
  }

  /** A document of one service task with the topic x. */
  function OneTask(x: string): Tree {
    Tree(Element("bpmn", "serviceTask"), [Attr("camunda", "topic", x)], [])
  }

  lemma OneTaskRetopiced(m: map<string, string>, keys: seq<string>, k: string)
    requires forall i :: 0 <= i < |keys| ==> keys[i] in m
    ensures var ts := RetopicedTrees([OneTask(k)], m, keys);
            |ts| == 1 && |ts[0].attr| == 1 && ts[0].attr[0].value == RenamedInTurn(m, keys, k)
  {
    hide RenamedInTurn;
    var t := OneTask(k);
    assert IsTopic(t.attr[0]) && IsServiceTask(t.kind);
    assert RetopicedTrees([t], m, keys) == [RetopicedTree(t, m, keys)] + RetopicedTrees([], m, keys);
  }

  /**
   * Every document comes out the same for any two iteration orders of the map exactly when no value is a key that
   * stands for something else, and then as the simultaneous replacement.
   */
  lemma SameForEveryOrder(m: map<string, string>)
    ensures forall keys :: Orders(keys, m) ==> forall i :: 0 <= i < |keys| ==> keys[i] in m
    ensures Settled(m) <==>
            forall ts, a, b :: Orders(a, m) && Orders(b, m) ==> RetopicedTrees(ts, m, a) == RetopicedTrees(ts, m, b)
    ensures Settled(m) ==>
            forall ts, keys :: Orders(keys, m) ==> RetopicedTrees(ts, m, keys) == TranslatedAll(ts, m)
  {
    if Settled(m) {
      forall ts, keys | Orders(keys, m) ensures RetopicedTrees(ts, m, keys) == TranslatedAll(ts, m) {
        RetopicedAreTranslated(ts, m, keys);
      }
    } else {
      hide RenamedInTurn, Settled;
      var a, b, k := TwoOrders(m);
      OneTaskRetopiced(m, a, k);
      OneTaskRetopiced(m, b, k);
      assert RetopicedTrees([OneTask(k)], m, a) != RetopicedTrees([OneTask(k)], m, b);
    }
  }

  // ---------------------------------------------------------------- there and back

  /** No service task has a topic that is one of the values. */
  predicate AvoidsAttrs(attrs: seq<Attr>, m: map<string, string>, n: map<string, string>) {
    forall i :: 0 <= i < |attrs| && IsTopic(attrs[i]) ==> attrs[i].value in m || attrs[i].value !in n
  }

  predicate Avoids(t: Tree, m: map<string, string>, n: map<string, string>)
    decreases t, 1
  {
    (IsServiceTask(t.kind) ==> AvoidsAttrs(t.attr, m, n)) && AvoidsAll(t.kids, m, n)
  }

  predicate AvoidsAll(ts: seq<Tree>, m: map<string, string>, n: map<string, string>)
    decreases ts, 0
  {
    ts == [] || (Avoids(ts[0], m, n) && AvoidsAll(ts[1..], m, n))
  }

  lemma AttrsBack(attrs: seq<Attr>, m: map<string, string>, n: map<string, string>)
    requires Inverse(m, n)
    ensures TranslatedAttrs(TranslatedAttrs(attrs, m), n) == attrs <==> AvoidsAttrs(attrs, m, n)
  {
    hide Renamed, Inverse;
    var r := TranslatedAttrs(TranslatedAttrs(attrs, m), n);
    forall i | 0 <= i < |attrs|
      ensures r[i] == attrs[i] <==> (IsTopic(attrs[i]) ==> attrs[i].value in m || attrs[i].value !in n)
    {
      RenamedBack(m, n, attrs[i].value);
      assert r[i] == TranslatedAttr(TranslatedAttr(attrs[i], m), n);
    }
    assert r == attrs <==> forall i :: 0 <= i < |attrs| ==> r[i] == attrs[i];
  }

  /** Replacing and replacing back restores a tree exactly when no value was a topic that the first map leaves alone. */
  lemma {:induction false} TreeBack(t: Tree, m: map<string, string>, n: map<string, string>)
    requires Inverse(m, n)
    ensures Translated(Translated(t, m), n) == t <==> Avoids(t, m, n)
    decreases t, 1
  {
    hide Inverse, TranslatedAttrs, AvoidsAttrs, AvoidsAll, TranslatedAll;
    AttrsBack(t.attr, m, n);
    TreesBack(t.kids, m, n);
  }

  lemma {:induction false} TreesBack(ts: seq<Tree>, m: map<string, string>, n: map<string, string>)
    requires Inverse(m, n)
    ensures TranslatedAll(TranslatedAll(ts, m), n) == ts <==> AvoidsAll(ts, m, n)
    decreases ts, 0
  {
    hide Inverse, Translated, Avoids;
    if ts != [] {
      TreeBack(ts[0], m, n);
      TreesBack(ts[1..], m, n);
      var once := TranslatedAll(ts, m);
      assert once[1..] == TranslatedAll(ts[1..], m);
      assert ts == [ts[0]] + ts[1..];
    }
  }
}
