/**
 * Numbering the processes of a document as a function on trees, level by level: the kids of all trees of a level make
 * up the next one, which is numbered after it and then hung below it again.
 */
module ProcessTrees {
  import opened Seqs
  import opened Forest
  import opened Trees
  import opened PathSpec
  import opened PathFacts
  import opened ProcessIds

  predicate IsProcess(t: Tree) {
    t.kind == Element("bpmn", "process")
  }

  /** The number of processes among some trees, their tops alone. */
  function ProcessCount(ts: seq<Tree>): nat {
    if ts == [] then 0 else (if IsProcess(ts[0]) then 1 else 0) + ProcessCount(ts[1..])
  }

  /** The trees one level down. */
  function KidsOfTrees(ts: seq<Tree>): seq<Tree> {
    if ts == [] then [] else ts[0].kids + KidsOfTrees(ts[1..])
  }

  function Size(ts: seq<Tree>): nat {
    if ts == [] then 0 else 1 + Size(ts[0].kids) + Size(ts[1..])
  }

  lemma {:induction false} SizeConcat(a: seq<Tree>, b: seq<Tree>)
    ensures Size(a + b) == Size(a) + Size(b)
  {
    if a == [] {
      assert a + b == b;
    } else {
      assert (a + b)[1..] == a[1..] + b;
      SizeConcat(a[1..], b);
    }
  }

  lemma {:induction false} SizeOfKids(ts: seq<Tree>)
    ensures Size(ts) == |ts| + Size(KidsOfTrees(ts))
  {
    if ts != [] {
      SizeOfKids(ts[1..]);
      SizeConcat(ts[0].kids, KidsOfTrees(ts[1..]));
    }
  }

  /** The trees of one level, the first process among them being the n-th, with new trees below them. */
  function Rehung(ts: seq<Tree>, n: nat, id: string, kids: seq<Tree>): (r: seq<Tree>)
    requires |kids| == |KidsOfTrees(ts)|
    ensures |r| == |ts|
  {
    if ts == [] then []
    else
      var t, k := ts[0], |ts[0].kids|;
      [Tree(t.kind, if IsProcess(t) then IdSet(t.attr, NumberedId(id, n)) else t.attr, kids[..k])] +
      Rehung(ts[1..], if IsProcess(t) then n + 1 else n, id, kids[k..])
  }

  /** One level after another: those of this level are counted before those below it. */
  function NumberedTrees(ts: seq<Tree>, n: nat, id: string): (r: seq<Tree>)
    ensures |r| == |ts|
    decreases Size(ts)
  {
    if ts == [] then []
    else
      SizeOfKids(ts);
      Rehung(ts, n, id, NumberedTrees(KidsOfTrees(ts), n + ProcessCount(ts), id))
  }

  // ---------------------------------------------------------------- levels of tokens

  function ChildrenOfAll(s: Shot, ts: seq<Token>): seq<Token>
    requires forall i :: 0 <= i < |ts| ==> ts[i] in s
  {
    if ts == [] then [] else s[ts[0]].child + ChildrenOfAll(s, ts[1..])
  }

  lemma {:induction false} ChildrenAsTrees(s: Shot, ts: seq<Token>)
    requires WellFormed(s) && AllIn(s, ts)
    ensures AllIn(s, ChildrenOfAll(s, ts)) && TreesIn(s, ChildrenOfAll(s, ts)) == KidsOfTrees(TreesIn(s, ts))
  {
    hide WellFormed, TreeOf;
    if ts != [] {
      KidsIn(s, ts[0]);
      ChildrenAsTrees(s, ts[1..]);
      assert TreesIn(s, ts)[1..] == TreesIn(s, ts[1..]);
    }
  }

  lemma {:induction false} ElementsOneDown(s: Shot, ts: seq<Token>)
    requires WellFormed(s) && AllIn(s, ts)
    ensures ElementsOf(s, ChildrenOfAll(s, ts)) == KidsOfAll(s, ElementsOf(s, ts))
  {
    if ts != [] {
      assert TokenOk(s, ts[0]);
      hide WellFormed;
      ElementsOneDown(s, ts[1..]);
      ElementsOfConcat(s, s[ts[0]].child, ChildrenOfAll(s, ts[1..]));
    }
  }

  /** The processes among the elements of a level. */
  ghost function Here(s: Shot, ts: seq<Token>): seq<Token> {
    Named(s, "bpmn", "process", ElementsOf(s, ts))
  }

  lemma {:induction false} HereCounted(s: Shot, ts: seq<Token>)
    requires WellFormed(s) && AllIn(s, ts)
    ensures |Here(s, ts)| == ProcessCount(TreesIn(s, ts))
  {
    hide WellFormed, TreeOf;
    if ts != [] {
      HereCounted(s, ts[1..]);
      assert TreesIn(s, ts)[1..] == TreesIn(s, ts[1..]);
      TreeParts(s, ts[0]);
    }
  }

  // ---------------------------------------------------------------- numbering in place

  /** ps lists processes, each once, and from the n-th on it begins with `some`. */
  ghost predicate ListsFrom(s: Shot, ps: seq<Token>, n: nat, some: seq<Token>) {
    && Distinct(ps) && (forall x :: x in ps ==> x in s && s[x].kind == Element("bpmn", "process"))
    && n + |some| <= |ps| && ps[n..n + |some|] == some
  }

  lemma HereFirst(s: Shot, ts: seq<Token>)
    requires WellFormed(s) && AllIn(s, ts) && ts != []
    ensures Here(s, ts) == (if s[ts[0]].kind == Element("bpmn", "process") then [ts[0]] else []) + Here(s, ts[1..])
  {
  }

  /** The head of a level: its own record after numbering. */
  lemma HeadNumbered(s: Shot, ts: seq<Token>, ps: seq<Token>, n: nat, id: string)
    requires WellFormed(s) && AllIn(s, ts) && ts != [] && ListsFrom(s, ps, n, Here(s, ts))
    ensures var x := ts[0];
            var p := s[x].kind == Element("bpmn", "process");
            && Numbered(s, ps, id)[x].attr == (if p then IdSet(s[x].attr, NumberedId(id, n)) else s[x].attr)
            && ListsFrom(s, ps, if p then n + 1 else n, Here(s, ts[1..]))
  {
    hide WellFormed, Here, IdSet, NumberedId;
    HereFirst(s, ts);
    if s[ts[0]].kind == Element("bpmn", "process") {
      assert ps[n..n + |Here(s, ts)|][0] == ts[0];
      assert ps[n] == ts[0];
      assert ps[n] !in ps[..n];
      PositionAt(ps, ps[n], n);
      assert ps[n + 1..n + 1 + |Here(s, ts[1..])|] == ps[n..n + |Here(s, ts)|][1..];
    }
  }

  lemma {:induction false} LevelRehung(s: Shot, r: Shot, ts: seq<Token>, ps: seq<Token>, n: nat, id: string)
    requires WellFormed(s) && WellFormed(r) && r == Numbered(s, ps, id) && AllIn(s, ts) && AllIn(r, ts)
    requires ListsFrom(s, ps, n, Here(s, ts)) && AllIn(r, ChildrenOfAll(s, ts))
    ensures |TreesIn(r, ChildrenOfAll(s, ts))| == |KidsOfTrees(TreesIn(s, ts))|
    ensures TreesIn(r, ts) == Rehung(TreesIn(s, ts), n, id, TreesIn(r, ChildrenOfAll(s, ts)))
  {
    hide WellFormed, TreeOf, Here, ListsFrom, IdSet, NumberedId, Numbered;
    ChildrenAsTrees(s, ts);
    if ts != [] {
      var x, rest := ts[0], ts[1..];
      HeadNumbered(s, ts, ps, n, id);
      var m := if s[x].kind == Element("bpmn", "process") then n + 1 else n;
      RestIn(s, r, ts);
      LevelRehung(s, r, rest, ps, m, id);
      HeadTree(s, r, x, ps, id);
      KidsIn(s, x);
      assert TreesIn(s, ts)[0] == TreeOf(s, x) && TreesIn(s, ts)[1..] == TreesIn(s, rest);
      TreeParts(s, x);
      assert TreesIn(r, ts) == [TreeOf(r, x)] + TreesIn(r, rest);
    }
  }

  lemma RestIn(s: Shot, r: Shot, ts: seq<Token>)
    requires WellFormed(r) && ts != [] && AllIn(s, ts) && AllIn(r, ts) && AllIn(r, ChildrenOfAll(s, ts))
    ensures AllIn(s, ts[1..]) && AllIn(r, ts[1..]) && AllIn(r, ChildrenOfAll(s, ts[1..])) && AllIn(r, s[ts[0]].child)
    ensures var k := |s[ts[0]].child|; var all := TreesIn(r, ChildrenOfAll(s, ts));
            k <= |all| && all[..k] == TreesIn(r, s[ts[0]].child) && all[k..] == TreesIn(r, ChildrenOfAll(s, ts[1..]))
  {
    hide WellFormed, TreeOf;
    assert forall i :: 0 <= i < |ts[1..]| ==> ts[1..][i] == ts[i + 1];
    TreesInConcat(r, s[ts[0]].child, ChildrenOfAll(s, ts[1..]));
  }

  lemma HeadTree(s: Shot, r: Shot, x: Token, ps: seq<Token>, id: string)
    requires WellFormed(s) && WellFormed(r) && r == Numbered(s, ps, id) && x in s && AllIn(r, s[x].child)
    ensures x in r && TreeOf(r, x) == Tree(s[x].kind, r[x].attr, TreesIn(r, s[x].child))
  {
    hide WellFormed, TreeOf, IdSet, NumberedId;
    KidsIn(r, x);
    TreeParts(r, x);
  }

  /** What is still to number from a level on: its processes, then those below. */
  lemma LevelSplit(s: Shot, ts: seq<Token>, es: seq<Token>)
    requires WellFormed(s) && AllIn(s, ts) && es == ElementsOf(s, ts) && AllElements(s, es) && Antichain(s, es)
    ensures AllIn(s, ChildrenOfAll(s, ts))
    ensures var ks := ElementsOf(s, ChildrenOfAll(s, ts));
            && AllElements(s, ks) && Antichain(s, ks)
            && AllElements(s, BreadthFirst(s, es)) && AllElements(s, BreadthFirst(s, ks))
            && Named(s, "bpmn", "process", BreadthFirst(s, es)) ==
               Here(s, ts) + Named(s, "bpmn", "process", BreadthFirst(s, ks))
  {
    hide WellFormed, Antichain, KidsOfAll, BreadthFirst, ElementsOf, Named;
    ChildrenAsTrees(s, ts);
    ElementsOneDown(s, ts);
    BreadthFirstUnfold(s, es);
    var ks := KidsOfAll(s, es);
    BreadthFirstElements(s, es);
    BreadthFirstElements(s, ks);
    NamedConcat(s, "bpmn", "process", es, BreadthFirst(s, ks));
  }

  lemma ListsSplit(s: Shot, ps: seq<Token>, n: nat, a: seq<Token>, b: seq<Token>)
    requires ListsFrom(s, ps, n, a + b)
    ensures ListsFrom(s, ps, n, a) && ListsFrom(s, ps, n + |a|, b)
  {
    assert ps[n..n + |a|] == ps[n..n + |a + b|][..|a|];
    assert ps[n + |a|..n + |a| + |b|] == ps[n..n + |a + b|][|a|..];
  }

  lemma {:induction false} LevelNumbered(s: Shot, r: Shot, ts: seq<Token>, es: seq<Token>, ps: seq<Token>, n: nat,
                                         id: string)
    requires WellFormed(s) && WellFormed(r) && r == Numbered(s, ps, id) && AllIn(s, ts) && AllIn(r, ts)
    requires es == ElementsOf(s, ts) && AllElements(s, es) && Antichain(s, es)
    requires AllElements(s, BreadthFirst(s, es))
    requires ListsFrom(s, ps, n, Named(s, "bpmn", "process", BreadthFirst(s, es)))
    ensures TreesIn(r, ts) == NumberedTrees(TreesIn(s, ts), n, id)
    decreases Size(TreesIn(s, ts))
  {
    hide WellFormed, TreeOf, Antichain, BreadthFirst, ElementsOf, Named, Here, ListsFrom, Numbered, Rehung, AllElements;
    if ts != [] {
      var below := ChildrenOfAll(s, ts);
      var ks := ElementsOf(s, below);
      LevelSplit(s, ts, es);
      ListsSplit(s, ps, n, Here(s, ts), Named(s, "bpmn", "process", BreadthFirst(s, ks)));
      HereCounted(s, ts);
      ChildrenAsTrees(s, ts);
      SizeOfKids(TreesIn(s, ts));
      SameIn(s, r, below, ps, id);
      LevelNumbered(s, r, below, ks, ps, n + |Here(s, ts)|, id);
      LevelRehung(s, r, ts, ps, n, id);
    }
  }

  lemma SameIn(s: Shot, r: Shot, ts: seq<Token>, ps: seq<Token>, id: string)
    requires r == Numbered(s, ps, id) && AllIn(s, ts)
    ensures AllIn(r, ts)
  {
  }

  /** At tree level, numbering in place numbers the document's trees level by level. */
  lemma DocumentNumbered(s: Shot, doc: Token, id: string)
    requires WellFormed(s) && IsElement(s, doc)
    ensures var r := Numbered(s, Processes(s, doc), id);
            WellFormed(r) && doc in r && TreeOf(r, doc).kids == NumberedTrees(TreeOf(s, doc).kids, 0, id)
  {
    hide WellFormed, TreeOf, Antichain, BreadthFirst, ElementsOf, Named, Numbered, NumberedTrees;
    var ps := Processes(s, doc);
    var r := Numbered(s, ps, id);
    NumberedLinks(s, ps, id);
    KidsIn(s, doc);
    OneAntichain(s, doc);
    KidsOfOne(s, doc);
    KidsAntichain(s, [doc]);
    BreadthFirstElements(s, KidsOfAll(s, [doc]));
    ProcessesListed(s, doc);
    SameIn(s, r, s[doc].child, ps, id);
    LevelNumbered(s, r, s[doc].child, KidsOfAll(s, [doc]), ps, 0, id);
    SameChildren(s, r, doc, ps, id);
    KidsIn(r, doc);
  }

  lemma SameChildren(s: Shot, r: Shot, x: Token, ps: seq<Token>, id: string)
    requires r == Numbered(s, ps, id) && x in s
    ensures x in r && r[x].child == s[x].child
  {
  }

  lemma ProcessesListed(s: Shot, doc: Token)
    requires WellFormed(s) && IsElement(s, doc)
    ensures ListsFrom(s, Processes(s, doc), 0, Processes(s, doc))
  {
    hide WellFormed, Processes, Above;
    var ps := Processes(s, doc);
    ProcessesDistinct(s, doc);
    ProcessesAre(s, doc);
    assert ps[0..0 + |ps|] == ps;
  }

  // ---------------------------------------------------------------- numbering trees twice

  lemma {:induction false} RehungParts(ts: seq<Tree>, n: nat, id: string, kids: seq<Tree>)
    requires |kids| == |KidsOfTrees(ts)|
    ensures KidsOfTrees(Rehung(ts, n, id, kids)) == kids
    ensures ProcessCount(Rehung(ts, n, id, kids)) == ProcessCount(ts)
  {
    hide IdSet, NumberedId;
    if ts != [] {
      var k := |ts[0].kids|;
      RehungParts(ts[1..], if IsProcess(ts[0]) then n + 1 else n, id, kids[k..]);
      assert kids == kids[..k] + kids[k..];
    }
  }

  lemma {:induction false} RehungTwice(ts: seq<Tree>, n: nat, id: string, kids: seq<Tree>)
    requires |kids| == |KidsOfTrees(ts)|
    ensures |kids| == |KidsOfTrees(Rehung(ts, n, id, kids))|
    ensures Rehung(Rehung(ts, n, id, kids), n, id, kids) == Rehung(ts, n, id, kids)
  {
    hide IdSet, NumberedId;
    RehungParts(ts, n, id, kids);
    if ts != [] {
      var t, k := ts[0], |ts[0].kids|;
      RehungTwice(ts[1..], if IsProcess(t) then n + 1 else n, id, kids[k..]);
      IdSetIs(t.attr, NumberedId(id, n));
      assert Rehung(ts, n, id, kids)[1..] == Rehung(ts[1..], if IsProcess(t) then n + 1 else n, id, kids[k..]);
    }
  }

  /** Numbering trees that are numbered already changes nothing. */
  lemma {:induction false} NumberedTreesTwice(ts: seq<Tree>, n: nat, id: string)
    ensures NumberedTrees(NumberedTrees(ts, n, id), n, id) == NumberedTrees(ts, n, id)
    decreases Size(ts)
  {
    hide Rehung;
    if ts != [] {
      SizeOfKids(ts);
      var m := n + ProcessCount(ts);
      var kids := NumberedTrees(KidsOfTrees(ts), m, id);
      NumberedTreesTwice(KidsOfTrees(ts), m, id);
      RehungParts(ts, n, id, kids);
      RehungTwice(ts, n, id, kids);
    }
  }
}
