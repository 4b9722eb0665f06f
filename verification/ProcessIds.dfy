/** Numbering the processes of a document: SetProcessId of pkg/controller/deployment.go. */
module ProcessIds {
  import opened Seqs
  import opened Names
  import opened Texts
  import opened Attrs
  import opened Forest
  import opened PathSpec
  import opened PathFacts
  import opened PathRelation
  import opened PathOrder
  import opened PathGrammar
  import opened PathCompiler
  import opened TopicPath
  import opened Pather

  // ---------------------------------------------------------------- the ids

  function Normalized(c: char): char {
    if c == '-' || c == ':' || c == '#' then '_' else c
  }

  function NormalizedId(id: string): (r: string)
    ensures '-' !in r && ':' !in r && '#' !in r
  {
    "deplid_" + seq(|id|, i requires 0 <= i < |id| => Normalized(id[i]))
  }

  /** The id of the i-th process. */
  function NumberedId(id: string, i: nat): string {
    if i > 0 then NormalizedId(id) + "_" + Itoa(i) else NormalizedId(id)
  }

  /** How an id reads: a fixed front, the deployment's id with three characters replaced, and the number if not 0. */
  predicate Reads(v: string, id: string, i: nat) {
    var tail := if i == 0 then "" else "_" + Itoa(i);
    && |v| == 7 + |id| + |tail| && v[..7] == "deplid_" && v[7 + |id|..] == tail
    && forall k :: 0 <= k < |id| ==> v[7 + k] == if id[k] == '-' || id[k] == ':' || id[k] == '#' then '_' else id[k]
  }

  lemma ThreeParts(a: string, b: string, c: string)
    ensures var v := a + b + c;
            && |v| == |a| + |b| + |c| && v[..|a|] == a && v[|a| + |b|..] == c
            && forall k :: 0 <= k < |b| ==> v[|a| + k] == b[k]
  {
  }

  lemma Tailed(a: string, b: string, c: string)
    ensures a + b + c == a + (b + c) && a + "" == a
  {
  }

  lemma NumberedIdReads(id: string, i: nat)
    ensures Reads(NumberedId(id, i), id, i)
  {
    hide Itoa;
    var middle := seq(|id|, k requires 0 <= k < |id| => Normalized(id[k]));
    Tailed(NormalizedId(id), "_", Itoa(i));
    ThreeParts("deplid_", middle, if i == 0 then "" else "_" + Itoa(i));
  }

  lemma NumberedIdFree(id: string, i: nat)
    ensures '-' !in NumberedId(id, i) && ':' !in NumberedId(id, i) && '#' !in NumberedId(id, i)
  {
    hide Decimal, NormalizedId;
    assert forall j :: 0 <= j < |Itoa(i)| ==> IsDigit(Itoa(i)[j]);
  }

  lemma NumberedIdInjective(id: string, i: nat, j: nat)
    ensures NumberedId(id, i) == NumberedId(id, j) ==> i == j
  {
    hide NormalizedId, Itoa;
    var n := NormalizedId(id);
    if i > 0 && j > 0 && NumberedId(id, i) == NumberedId(id, j) {
      assert (n + "_" + Itoa(i))[|n| + 1..] == Itoa(i) && (n + "_" + Itoa(j))[|n| + 1..] == Itoa(j);
      ItoaInjective(i, j);
    }
  }

  // ---------------------------------------------------------------- which elements the path finds

  /** The processes below e, in breadth-first order. */
  ghost function Processes(s: Shot, e: Token): (r: seq<Token>)
    requires WellFormed(s) && IsElement(s, e)
    ensures AllElements(s, r)
  {
    KidsAntichain(s, [e]);
    BreadthFirstElements(s, KidsOfAll(s, [e]));
    Named(s, "bpmn", "process", BreadthFirst(s, KidsOfAll(s, [e])))
  }

  /** The children of a breadth-first order are the breadth-first order one level down. */
  lemma {:induction false} KidsOfBreadthFirst(s: Shot, es: seq<Token>)
    requires WellFormed(s) && AllElements(s, es) && Antichain(s, es)
    ensures AllElements(s, KidsOfAll(s, es)) && Antichain(s, KidsOfAll(s, es)) && AllElements(s, BreadthFirst(s, es))
    ensures KidsOfAll(s, BreadthFirst(s, es)) == BreadthFirst(s, KidsOfAll(s, es))
    decreases Cover(s, es)
  {
    BreadthFirstElements(s, es);
    BreadthFirstUnfold(s, es);
    if es == [] {
      NoKidsOfNone(s);
    } else {
      hide WellFormed, Antichain, KidsOfAll, BreadthFirst, Cover;
      var ks := KidsOfAll(s, es);
      KidsOfBreadthFirst(s, ks);
      KidsOfAllConcat(s, es, BreadthFirst(s, ks));
      BreadthFirstUnfold(s, ks);
    }
  }

  lemma NoKidsOfNone(s: Shot)
    requires WellFormed(s)
    ensures KidsOfAll(s, []) == [] && Antichain(s, []) && BreadthFirst(s, []) == []
  {
  }

  lemma {:induction false} NamedKidsOfAll(s: Shot, g: Group, es: seq<Token>)
    requires WellFormed(s) && AllElements(s, es) && g == [Segment(ChildrenByTag("bpmn", "process"), [])]
    ensures AllElements(s, KidsOfAll(s, es))
    ensures MatchesOfAll(s, g, es) == Named(s, "bpmn", "process", KidsOfAll(s, es))
  {
    hide WellFormed, ElementsOf, Named, Step;
    NoneNamed(s);
    KidsOfAllMembers(s, es);
    if es != [] {
      ProcessStep(s, es[0]);
      NamedKidsOfAll(s, g, es[1..]);
      NamedConcat(s, "bpmn", "process", Kids(s, es[0]), KidsOfAll(s, es[1..]));
      MatchesOne(s, g, es[0]);
      assert g[..1] == g;
    }
  }

  lemma NoneNamed(s: Shot)
    ensures Named(s, "bpmn", "process", []) == []
  {
  }

  lemma OneAntichain(s: Shot, e: Token)
    requires IsElement(s, e)
    ensures AllElements(s, [e]) && Antichain(s, [e])
  {
  }

  lemma ProcessStep(s: Shot, e: Token)
    requires WellFormed(s) && IsElement(s, e)
    ensures Step(s, Segment(ChildrenByTag("bpmn", "process"), []), e) == Named(s, "bpmn", "process", Kids(s, e))
    ensures Step(s, Segment(Self, []), e) == [e]
    ensures Step(s, Segment(Descendants, []), e) == BreadthFirst(s, [e])
  {
    hide WellFormed, ElementsOf, BreadthFirst;
  }

  lemma {:induction false} DedupedDistinct<T>(seen: seq<T>, xs: seq<T>)
    requires Distinct(seen + xs)
    ensures Deduped(seen, xs) == seen + xs
    decreases |xs|
  {
    if xs != [] {
      assert xs[0] !in seen by {
        assert (seen + xs)[|seen|] == xs[0];
        assert forall i :: 0 <= i < |seen| ==> (seen + xs)[i] == seen[i];
      }
      assert seen + xs == (seen + [xs[0]]) + xs[1..];
      DedupedDistinct(seen + [xs[0]], xs[1..]);
    }
  }

  lemma ProcessMatches(s: Shot, e: Token)
    requires WellFormed(s) && IsElement(s, e)
    ensures Matches(s, PROCESS_GROUP, e) == Processes(s, e)
  {
    hide WellFormed, BreadthFirst, KidsOfAll, Named, Step, Distinct;
    var g := PROCESS_GROUP;
    OneAntichain(s, e);
    KidsOfBreadthFirst(s, [e]);
    ProcessStep(s, e);
    var below := BreadthFirst(s, [e]);
    NamedKidsOfAll(s, [g[2]], below);
    assert g[1..][1..] == [g[2]];
    assert Matches(s, g[1..], e) == MatchesOfAll(s, [g[2]], below);
    assert MatchesOfAll(s, g[1..], [e]) == Matches(s, g[1..], e) + [];
    assert Matches(s, g, e) == MatchesOfAll(s, g[1..], [e]);
  }

  /** The path of SetProcessId finds the processes below e in breadth-first order, each once. */
  lemma ProcessesFound(s: Shot, e: Token)
    requires WellFormed(s) && IsElement(s, e)
    ensures Found(s, [PROCESS_GROUP], e) == Processes(s, e)
  {
    hide WellFormed, Matches, Processes, Deduped, Distinct;
    var path: Path := [PROCESS_GROUP];
    var none: seq<Token> := [];
    ProcessMatches(s, e);
    assert path[1..] == [];
    assert AllMatches(s, path, e) == Processes(s, e) + AllMatches(s, [], e);
    assert AllMatches(s, path, e) == Processes(s, e);
    ProcessesDistinct(s, e);
    assert none + Processes(s, e) == Processes(s, e);
    DedupedDistinct(none, Processes(s, e));
  }

  lemma ProcessesDistinct(s: Shot, e: Token)
    requires WellFormed(s) && IsElement(s, e)
    ensures Distinct(Processes(s, e))
  {
    hide WellFormed, BreadthFirst, KidsOfAll, Named;
    KidsAntichain(s, [e]);
    BreadthFirstDistinct(s, KidsOfAll(s, [e]));
    BreadthFirstElements(s, KidsOfAll(s, [e]));
    NamedDistinct(s, "bpmn", "process", BreadthFirst(s, KidsOfAll(s, [e])));
  }

  /** Which elements those are, and that shallower ones come first, as deep ones in document order. */
  lemma ProcessesAre(s: Shot, e: Token)
    requires WellFormed(s) && IsElement(s, e)
    ensures forall x :: x in Processes(s, e) <==>
              IsElement(s, x) && s[x].kind.space == "bpmn" && s[x].kind.tag == "process" && x != e && Above(s, e, x)
    ensures Sorted(s, e, Processes(s, e))
  {
    hide BreadthFirst, KidsOfAll, Above, Cover, Sorted;
    var ks := KidsOfAll(s, [e]);
    OneAntichain(s, e);
    KidsAntichain(s, [e]);
    BreadthFirstMembers(s, ks);
    BreadthFirstElements(s, ks);
    hide WellFormed;
    forall x | IsElement(s, x) ensures x in Cover(s, ks) <==> x != e && Above(s, e, x) {
      BelowKids(s, e, x);
    }
    SelectedSorted(s, Descendants, e);
    BreadthFirstUnfold(s, [e]);
    SortedRest(s, e, e, BreadthFirst(s, ks));
    NamedSorted(s, e, BreadthFirst(s, ks));
  }

  lemma SortedRest(s: Shot, e: Token, x: Token, es: seq<Token>)
    requires Sorted(s, e, [x] + es)
    ensures Sorted(s, e, es)
  {
    hide Comes;
    forall i, j | 0 <= i < j < |es| ensures es[i] != es[j] && Comes(s, e, es[i], es[j]) {
      assert ([x] + es)[i + 1] == es[i] && ([x] + es)[j + 1] == es[j];
    }
  }

  lemma BelowKids(s: Shot, e: Token, x: Token)
    requires WellFormed(s) && IsElement(s, e) && IsElement(s, x)
    ensures x in Cover(s, KidsOfAll(s, [e])) <==> x != e && Above(s, e, x)
  {
    KidsOfAllMembers(s, [e]);
    hide KidsOfAll;
    var ks := KidsOfAll(s, [e]);
    assert TokenOk(s, e);
    if x in Cover(s, ks) {
      var k :| k in ks && Above(s, k, x);
      assert s[k].parent == e;
      AboveChild(s, e, k);
      AboveTransitive(s, e, k, x);
      NotBelowChild(s, e, k);
    }
    if x != e && Above(s, e, x) {
      hide WellFormed;
      var c := LastStep(s, e, x);
      InnerElement(s, c, x);
      assert c in ks;
    }
  }

  lemma SortedFront(s: Shot, e: Token, x: Token, es: seq<Token>)
    requires Sorted(s, e, es) && forall y :: y in es ==> x != y && Comes(s, e, x, y)
    ensures Sorted(s, e, [x] + es)
  {
    hide Comes;
    assert forall k :: 0 <= k < |es| ==> es[k] in es;
  }

  lemma {:induction false} NamedSorted(s: Shot, e: Token, es: seq<Token>)
    requires AllElements(s, es) && Sorted(s, e, es)
    ensures Sorted(s, e, Named(s, "bpmn", "process", es))
  {
    hide Comes, NameMatches, Sorted;
    if es != [] {
      var rest := Named(s, "bpmn", "process", es[1..]);
      assert [es[0]] + es[1..] == es;
      SortedRest(s, e, es[0], es[1..]);
      NamedSorted(s, e, es[1..]);
      forall y | y in rest ensures es[0] != y && Comes(s, e, es[0], y) {
        SortedHead(s, e, es, y);
      }
      SortedFront(s, e, es[0], rest);
    }
  }

  lemma SortedHead(s: Shot, e: Token, es: seq<Token>, y: Token)
    requires es != [] && Sorted(s, e, es) && y in es[1..]
    ensures es[0] != y && Comes(s, e, es[0], y)
  {
    hide Comes;
    var k :| 0 <= k < |es[1..]| && es[1..][k] == y;
    assert es[k + 1] == y;
  }

  // ---------------------------------------------------------------- numbering

  /** The id that `SelectAttr("id")` finds: the first attribute with that key, in any namespace. */
  predicate HasId(attrs: seq<Attr>) {
    Matching(attrs, "", "id") < |attrs|
  }

  function IdOf(attrs: seq<Attr>): string
    requires HasId(attrs)
  {
    attrs[Matching(attrs, "", "id")].value
  }

  function IdSet(attrs: seq<Attr>, v: string): seq<Attr> {
    var i := Matching(attrs, "", "id");
    if i == |attrs| then attrs else attrs[i := attrs[i].(value := v)]
  }

  lemma {:induction false} MatchingSame(a: seq<Attr>, b: seq<Attr>, space: string, key: string)
    requires |a| == |b| && forall i :: 0 <= i < |a| ==> a[i].space == b[i].space && a[i].key == b[i].key
    ensures Matching(a, space, key) == Matching(b, space, key)
  {
    if a != [] {
      MatchingSame(a[1..], b[1..], space, key);
    }
  }

  lemma IdSetIs(attrs: seq<Attr>, v: string)
    ensures HasId(IdSet(attrs, v)) <==> HasId(attrs)
    ensures HasId(attrs) ==> IdOf(IdSet(attrs, v)) == v
    ensures IdSet(IdSet(attrs, v), v) == IdSet(attrs, v)
  {
    MatchingSame(attrs, IdSet(attrs, v), "", "id");
    hide Matching;
  }

  /** The document after the elements ps got their ids, and nothing else changed. */
  ghost function Numbered(s: Shot, ps: seq<Token>, id: string): Shot {
    map x | x in s :: if x in ps then s[x].(attr := IdSet(s[x].attr, NumberedId(id, PositionOf(ps, x)))) else s[x]
  }

  lemma NumberedNext(s: Shot, ps: seq<Token>, i: nat, id: string)
    requires Distinct(ps) && i < |ps| && ps[i] in s
    ensures var r := Numbered(s, ps[..i], id); var x := ps[i];
            Numbered(s, ps[..i + 1], id) == r[x := r[x].(attr := IdSet(r[x].attr, NumberedId(id, i)))]
  {
    hide IdSet, NumberedId;
    assert ps[i] !in ps[..i];
    forall x | x in s ensures x in ps[..i + 1] <==> x in ps[..i] || x == ps[i] {
      assert ps[..i + 1] == ps[..i] + [ps[i]];
    }
    forall x | x in ps[..i] ensures PositionOf(ps[..i], x) == PositionOf(ps[..i + 1], x) {
      var j, k := PositionOf(ps[..i], x), PositionOf(ps[..i + 1], x);
      assert ps[j] == x && ps[k] == x;
    }
    assert ps[PositionOf(ps[..i + 1], ps[i])] == ps[i];
  }

  lemma NumberedLinks(s: Shot, ps: seq<Token>, id: string)
    requires WellFormed(s) && AllElements(s, ps)
    ensures SameLinks(s, Numbered(s, ps, id)) && WellFormed(Numbered(s, ps, id))
  {
    var r := Numbered(s, ps, id);
    forall t | t in s && !s[t].kind.Element? ensures r[t].attr == [] {
      assert TokenOk(s, t);
    }
    hide WellFormed, IdSet, NumberedId;
    SameWellFormed(s, r);
  }

  /** The place of the first attribute whose key is "id", in whatever namespace. */
  predicate IdAt(attrs: seq<Attr>, j: nat) {
    j < |attrs| && attrs[j].key == "id" && forall k :: 0 <= k < j ==> attrs[k].key != "id"
  }

  lemma IdSetAt(attrs: seq<Attr>, v: string, j: nat)
    ensures IdAt(attrs, j) ==> IdSet(attrs, v) == attrs[j := attrs[j].(value := v)]
    ensures (forall k :: 0 <= k < |attrs| ==> attrs[k].key != "id") ==> IdSet(attrs, v) == attrs
  {
    if IdAt(attrs, j) {
      assert AttrMatches(attrs[j], "", "id");
    }
  }

  /**
   * Numbering gives the i-th process, if it has an id, the deployment's id with its number as the value of the first
   * attribute with that key; all other attributes and tokens stay as they are.
   */
  lemma NumberedAre(s: Shot, e: Token, id: string, i: nat, j: nat)
    requires WellFormed(s) && IsElement(s, e) && i < |Processes(s, e)| && Processes(s, e)[i] in s
    ensures var x := Processes(s, e)[i];
            var r := Numbered(s, Processes(s, e), id);
            && (forall y :: y in s && y !in Processes(s, e) ==> r[y] == s[y])
            && ((forall k :: 0 <= k < |s[x].attr| ==> s[x].attr[k].key != "id") ==> r[x] == s[x])
            && (IdAt(s[x].attr, j) ==>
                  && |r[x].attr| == |s[x].attr| && Reads(r[x].attr[j].value, id, i)
                  && r[x] == s[x].(attr := s[x].attr[j := s[x].attr[j].(value := r[x].attr[j].value)]))
  {
    hide WellFormed, Processes, IdSet, NumberedId, Reads, Distinct;
    var ps := Processes(s, e);
    ProcessesDistinct(s, e);
    PositionOfAt(ps, i);
    NumberedIdReads(id, i);
    IdSetAt(s[ps[i]].attr, NumberedId(id, i), j);
  }

  lemma PositionOfAt(ps: seq<Token>, i: nat)
    requires Distinct(ps) && i < |ps|
    ensures PositionOf(ps, ps[i]) == i
  {
    PositionAt(ps, ps[i], i);
  }

  /** Processes that have an id get ids that differ and hold none of the replaced characters. */
  lemma IdsDistinct(s: Shot, e: Token, id: string, x: Token, y: Token)
    requires WellFormed(s) && IsElement(s, e) && x in Processes(s, e) && y in Processes(s, e)
    requires x in s && y in s && HasId(s[x].attr) && HasId(s[y].attr)
    ensures var r := Numbered(s, Processes(s, e), id);
            && HasId(r[x].attr) && HasId(r[y].attr)
            && (IdOf(r[x].attr) == IdOf(r[y].attr) <==> x == y)
            && '-' !in IdOf(r[x].attr) && ':' !in IdOf(r[x].attr) && '#' !in IdOf(r[x].attr)
  {
    hide WellFormed, Processes, IdSet, NumberedId, HasId, IdOf;
    var ps := Processes(s, e);
    var i, j := PositionOf(ps, x), PositionOf(ps, y);
    IdSetIs(s[x].attr, NumberedId(id, i));
    IdSetIs(s[y].attr, NumberedId(id, j));
    NumberedIdInjective(id, i, j);
    NumberedIdFree(id, i);
  }

  // ---------------------------------------------------------------- numbering twice

  lemma {:induction false} ElementsOfSame(s: Shot, r: Shot, ts: seq<Token>)
    requires SameLinks(s, r)
    ensures ElementsOf(r, ts) == ElementsOf(s, ts)
  {
    if ts != [] {
      ElementsOfSame(s, r, ts[1..]);
    }
  }

  lemma {:induction false} KidsOfAllSame(s: Shot, r: Shot, es: seq<Token>)
    requires SameLinks(s, r) && AllElements(s, es)
    ensures AllElements(r, es) && KidsOfAll(r, es) == KidsOfAll(s, es)
  {
    hide ElementsOf;
    if es != [] {
      ElementsOfSame(s, r, s[es[0]].child);
      KidsOfAllSame(s, r, es[1..]);
    }
  }

  lemma {:induction false} NamedSame(s: Shot, r: Shot, es: seq<Token>)
    requires SameLinks(s, r) && AllElements(s, es) && AllElements(r, es)
    ensures Named(r, "bpmn", "process", es) == Named(s, "bpmn", "process", es)
  {
    if es != [] {
      NamedSame(s, r, es[1..]);
    }
  }

  lemma AntichainSame(s: Shot, r: Shot, es: seq<Token>)
    requires SameLinks(s, r) && Antichain(s, es)
    ensures Antichain(r, es)
  {
    hide Above;
    forall a, b | a in es && b in es && Above(r, a, b) ensures a == b {
      SameAbove(s, r, a, b);
    }
  }

  lemma {:induction false} BreadthFirstSame(s: Shot, r: Shot, es: seq<Token>)
    requires SameLinks(s, r) && WellFormed(s) && WellFormed(r) && AllElements(s, es) && Antichain(s, es)
    ensures AllElements(r, es) && Antichain(r, es) && BreadthFirst(r, es) == BreadthFirst(s, es)
    decreases Cover(s, es)
  {
    hide WellFormed, Antichain, KidsOfAll, BreadthFirst, Cover, SameLinks;
    AntichainSame(s, r, es);
    KidsOfAllSame(s, r, es);
    BreadthFirstUnfold(s, es);
    BreadthFirstUnfold(r, es);
    if es != [] {
      BreadthFirstSame(s, r, KidsOfAll(s, es));
    }
  }

  lemma ProcessesSame(s: Shot, r: Shot, e: Token)
    requires SameLinks(s, r) && WellFormed(s) && WellFormed(r) && IsElement(s, e)
    ensures IsElement(r, e) && Processes(r, e) == Processes(s, e)
  {
    hide WellFormed, Antichain, KidsOfAll, BreadthFirst, Cover, Named;
    assert IsElement(r, e);
    hide SameLinks, IsElement;
    OneAntichain(s, e);
    KidsAntichain(s, [e]);
    KidsOfAllSame(s, r, [e]);
    BreadthFirstSame(s, r, KidsOfAll(s, [e]));
    BreadthFirstElements(s, KidsOfAll(s, [e]));
    BreadthFirstElements(r, KidsOfAll(s, [e]));
    NamedSame(s, r, BreadthFirst(s, KidsOfAll(s, [e])));
  }

  /** Numbering a second time changes nothing. */
  lemma NumberedTwice(s: Shot, e: Token, id: string)
    requires WellFormed(s) && IsElement(s, e)
    ensures var r := Numbered(s, Processes(s, e), id);
            WellFormed(r) && IsElement(r, e) && Numbered(r, Processes(r, e), id) == r
  {
    hide WellFormed, Processes, IdSet, NumberedId;
    var ps := Processes(s, e);
    var r := Numbered(s, ps, id);
    NumberedLinks(s, ps, id);
    ProcessesSame(s, r, e);
    forall x | x in s ensures Numbered(r, ps, id)[x] == r[x] {
      if x in ps {
        IdSetIs(s[x].attr, NumberedId(id, PositionOf(ps, x)));
      }
    }
  }

  // ---------------------------------------------------------------- the loop

  /** The part of SetProcessId between reading and writing. */
  method NumberProcesses(doc: Token, id: string, ghost u: set<Token>)
    requires doc in u && WellFormed(Taken(u)) && doc.kind.Element?
    modifies u`attr
    ensures WellFormed(Taken(u)) && Taken(u) == Numbered(old(Taken(u)), Processes(old(Taken(u)), doc), id)
  {
    hide WellFormed, Processes, IdSet, Found, Compile, Panics;
    ghost var s := Taken(u);
    var c := CompilePath("//bpmn:process");
    assert ProcessText() == "//bpmn:process";
    ProcessCompiles();
    ProcessPathCompiled();
    var normalizedId := NormalizedId(id);
    var ok, found := FindElements(doc, c.path, u);
    ProcessesFound(s, doc);
    ProcessPathNeverPanics(s, doc);
    NumberedLinks(s, found, id);
    assert Taken(u) == Numbered(s, found[..0], id);
    for i := 0 to |found|
      invariant Taken(u) == Numbered(s, found[..i], id)
    {
      MarkId(found[i], if i > 0 then normalizedId + "_" + Itoa(i) else normalizedId, u);
      NumberedNext(s, found, i, id);
    }
    assert found[..|found|] == found;
  }

  lemma ProcessPathCompiled()
    ensures Compiled([PROCESS_GROUP])
  {
  }

  lemma ProcessPathNeverPanics(s: Shot, e: Token)
    requires WellFormed(s) && IsElement(s, e)
    ensures !Panics(s, [PROCESS_GROUP], e)
  {
    hide WellFormed, PanicsFrom;
    NoOverflowNoPanic(s, PROCESS_GROUP, [e]);
  }

  method MarkId(x: Token, v: string, ghost u: set<Token>)
    requires x in u
    modifies x`attr
    ensures Taken(u) == old(Taken(u))[x := old(Taken(u))[x].(attr := IdSet(old(x.attr), v))]
  {
    hide Matching;
    IdDecomposed();
    var i := x.SelectAttr("id");
    if i < |x.attr| {
      x.attr := x.attr[i := x.attr[i].(value := v)];
    }
  }

  lemma IdDecomposed()
    ensures SpaceDecompose("id") == ("", "id")
  {
    DecomposeQualified("", "id");
  }
}
