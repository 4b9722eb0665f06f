/** Paths as relations: what an element must be to be found, without lists, queues or order. */
module PathRelation {
  import opened Seqs
  import opened Attrs
  import opened Forest
  import opened PathSpec
  import opened PathFacts

  // ---------------------------------------------------------------- the breadth-first order

  /** An element on the way from a down to an element is itself an element. */
  lemma InnerElement(s: Shot, c: Token, x: Token)
    requires WellFormed(s) && c in s && IsElement(s, x) && Above(s, c, x)
    ensures IsElement(s, c)
  {
    if c != x {
      var k := LastStep(s, c, x);
      assert TokenOk(s, c);
    }
  }

  lemma {:induction false} BreadthFirstMembers(s: Shot, es: seq<Token>)
    requires WellFormed(s) && AllElements(s, es) && Antichain(s, es)
    ensures forall x :: x in BreadthFirst(s, es) ==> IsElement(s, x) && x in Cover(s, es)
    ensures forall x :: IsElement(s, x) && x in Cover(s, es) ==> x in BreadthFirst(s, es)
    decreases Cover(s, es)
  {
    hide WellFormed, Antichain, KidsOfAll, BreadthFirst;
    BreadthFirstUnfold(s, es);
    var ks := KidsOfAll(s, es);
    if es != [] {
      BreadthFirstMembers(s, ks);
      forall x | x in BreadthFirst(s, es) ensures IsElement(s, x) && x in Cover(s, es) {
        if x in es {
          AboveSelf(s, x);
        }
      }
      forall x | IsElement(s, x) && x in Cover(s, es) ensures x in BreadthFirst(s, es) {
        if x !in es {
          CoveredBelow(s, es, x);
        }
      }
    }
  }

  lemma CoveredBelow(s: Shot, es: seq<Token>, x: Token)
    requires WellFormed(s) && AllElements(s, es) && IsElement(s, x) && x in Cover(s, es) && x !in es
    ensures x in Cover(s, KidsOfAll(s, es))
  {
    hide WellFormed;
    var e :| e in es && Above(s, e, x);
    var c := LastStep(s, e, x);
    InnerElement(s, c, x);
    KidsOfAllMembers(s, es);
    assert c in KidsOfAll(s, es) && Above(s, c, x);
  }

  lemma {:induction false} BreadthFirstDistinct(s: Shot, es: seq<Token>)
    requires WellFormed(s) && AllElements(s, es) && Antichain(s, es)
    ensures Distinct(BreadthFirst(s, es))
    decreases Cover(s, es)
  {
    hide WellFormed, KidsOfAll, BreadthFirst, Cover;
    BreadthFirstUnfold(s, es);
    var ks := KidsOfAll(s, es);
    if es != [] {
      BreadthFirstDistinct(s, ks);
      BreadthFirstMembers(s, ks);
      forall x | x in es ensures x !in BreadthFirst(s, ks) {
        NotCoveredByKids(s, es, x);
      }
      DistinctConcat(es, BreadthFirst(s, ks));
    }
  }

  lemma NotCoveredByKids(s: Shot, es: seq<Token>, x: Token)
    requires WellFormed(s) && AllElements(s, es) && Antichain(s, es) && x in es
    ensures x !in Cover(s, KidsOfAll(s, es))
  {
    hide KidsOfAll;
    KidsOfAllMembers(s, es);
    if x in Cover(s, KidsOfAll(s, es)) {
      var k :| k in KidsOfAll(s, es) && Above(s, k, x);
      var p := s[k].parent;
      AboveChild(s, p, k);
      AboveTransitive(s, p, k, x);
      assert p == x && TokenOk(s, x);
      NotBelowChild(s, x, k);
    }
  }

  /** All of es lie n parent steps below a. */
  ghost predicate AtDepth(s: Shot, a: Token, es: seq<Token>, n: nat) {
    forall e :: e in es ==> Up(s, e, n) == a
  }

  /** Depths never decrease along a breadth-first order. */
  lemma {:induction false} BreadthFirstByDepth(s: Shot, a: Token, es: seq<Token>, n: nat)
    requires WellFormed(s) && AllElements(s, es) && Antichain(s, es) && a in s && AtDepth(s, a, es, n)
    ensures forall x :: x in BreadthFirst(s, es) ==> Above(s, a, x) && Steps(s, a, x) >= n
    ensures forall i, j :: 0 <= i < j < |BreadthFirst(s, es)| ==>
              Steps(s, a, BreadthFirst(s, es)[i]) <= Steps(s, a, BreadthFirst(s, es)[j])
    decreases Cover(s, es)
  {
    hide Antichain, KidsOfAll, BreadthFirst, Cover;
    BreadthFirstUnfold(s, es);
    assert TokenOk(s, a);
    if es != [] {
      var ks := KidsOfAll(s, es);
      KidsOfAllMembers(s, es);
      forall k | k in ks ensures Up(s, k, n + 1) == a {
        assert Up(s, k, n + 1) == Up(s, s[k].parent, n);
      }
      BreadthFirstByDepth(s, a, ks, n + 1);
      forall e | e in es ensures Above(s, a, e) && Steps(s, a, e) == n {
        StepsUnique(s, a, e, n);
      }
      var deeper := BreadthFirst(s, ks);
      assert forall i :: 0 <= i < |deeper| ==> deeper[i] in deeper;
      assert forall i :: 0 <= i < |es| ==> es[i] in es;
    }
  }

  /** selectDescendants lists the element and everything below it once each, shallower elements first. */
  lemma DescendantsOnceByDepth(s: Shot, e: Token)
    requires WellFormed(s) && IsElement(s, e)
    ensures var r := Selected(s, Descendants, e);
            && Distinct(r)
            && (forall x :: x in r <==> IsElement(s, x) && Above(s, e, x))
            && (forall i, j :: 0 <= i < j < |r| ==> Steps(s, e, r[i]) <= Steps(s, e, r[j]))
  {
    hide WellFormed, BreadthFirst;
    BreadthFirstDistinct(s, [e]);
    BreadthFirstMembers(s, [e]);
    assert Up(s, e, 0) == e;
    BreadthFirstByDepth(s, e, [e], 0);
    assert forall x :: x in Cover(s, [e]) <==> x in s && Above(s, e, x);
  }

  // ---------------------------------------------------------------- steps as relations

  /** b is one of the elements the selector leads to from a. */
  ghost predicate Follows(s: Shot, sel: Selector, a: Token, b: Token)
    requires a in s && IsElement(s, b)
  {
    match sel
    case Self => b == a
    case Parent => s[a].parent == b
    case Children => s[b].parent == a
    case Descendants => Above(s, a, b)
    case ChildrenByTag(space, tag) => s[b].parent == a && Goes(s[b].kind, space, tag)
  }

  /** An element by that name, in any namespace if none is given. */
  predicate Goes(kind: Kind, space: string, tag: string)
    requires kind.Element?
  {
    kind.tag == tag && (space == "" || kind.space == space)
  }

  /** The character data right behind the opening tag is the text; none at all counts as "". */
  ghost predicate Begins(s: Shot, k: Token, text: string)
    requires k in s
  {
    var ts := s[k].child;
    if ts != [] && ts[0] in s && s[ts[0]].kind.CharData? then s[ts[0]].kind.data == text else text == ""
  }

  /** k is a child element of c with the name and, if asked for, the text. */
  ghost predicate KidOf(s: Shot, c: Token, k: Token, space: string, tag: string, text: string, anyText: bool) {
    && IsElement(s, k) && s[k].parent == c && Goes(s[k].kind, space, tag)
    && (anyText || Begins(s, k, text))
  }

  ghost predicate HasKid(s: Shot, c: Token, space: string, tag: string, text: string, anyText: bool) {
    exists k :: k in s && KidOf(s, c, k, space, tag, text, anyText)
  }

  /** The attribute has that key, in any namespace if none is given. */
  predicate IsCalled(a: Attr, space: string, key: string) {
    a.key == key && (space == "" || a.space == space)
  }

  /** c meets the condition in the brackets; positions are not conditions on one element. */
  ghost predicate Passes(s: Shot, f: Filter, c: Token)
    requires c in s
  {
    match f
    case HasAttr(space, key) => exists a :: a in s[c].attr && IsCalled(a, space, key)
    case AttrIs(space, key, value) => exists a :: a in s[c].attr && IsCalled(a, space, key) && a.value == value
    case HasChild(space, tag) => HasKid(s, c, space, tag, "", true)
    case ChildTextIs(space, tag, text) => HasKid(s, c, space, tag, text, false)
    case _ => false
  }

  ghost predicate StepsTo(s: Shot, seg: Segment, a: Token, b: Token)
    requires a in s
  {
    IsElement(s, b) && Follows(s, seg.sel, a, b) && forall f :: f in seg.filters ==> Passes(s, f, b)
  }

  /** Some chain of elements leads from a to b, one link for every segment. */
  ghost predicate Leads(s: Shot, g: Group, a: Token, b: Token)
    requires a in s
    decreases |g|
  {
    if g == [] then a == b
    else exists c :: c in s && StepsTo(s, g[0], a, c) && Leads(s, g[1..], c, b)
  }

  /** No filter counts positions. */
  predicate Unpositional(g: Group) {
    forall seg, f :: seg in g && f in seg.filters ==> !f.Position? && f != NoFilter
  }

  lemma KidsAreChildren(s: Shot, e: Token)
    requires WellFormed(s) && IsElement(s, e)
    ensures forall k :: k in Kids(s, e) <==> IsElement(s, k) && s[k].parent == e
  {
    hide WellFormed;
    KidsOfAllMembers(s, [e]);
    KidsOfOne(s, e);
  }

  lemma SelectedAre(s: Shot, sel: Selector, e: Token)
    requires WellFormed(s) && IsElement(s, e)
    ensures forall x :: x in Selected(s, sel, e) <==> IsElement(s, x) && Follows(s, sel, e, x)
  {
    hide WellFormed, BreadthFirst, ElementsOf, Named, Above;
    KidsAreChildren(s, e);
    match sel
    case Self =>
    case Parent =>
      if s[e].parent != null {
        ParentIsElement(s, e);
      }
    case Children =>
    case Descendants => DescendantsOnceByDepth(s, e);
    case ChildrenByTag(space, tag) =>
  }

  /** The child elements of c with the name and, if asked for, the text. */
  ghost function KidsCalled(s: Shot, c: Token, space: string, tag: string, text: string, anyText: bool): set<Token> {
    set k | k in s && KidOf(s, c, k, space, tag, text, anyText)
  }

  lemma NamedKids(s: Shot, c: Token, space: string, tag: string)
    requires WellFormed(s) && IsElement(s, c)
    ensures var r := Named(s, space, tag, Kids(s, c));
            Distinct(r) && forall k :: k in r <==> k in KidsCalled(s, c, space, tag, "", true)
  {
    assert TokenOk(s, c);
    hide WellFormed, ElementsOf, Named;
    KidsAreChildren(s, c);
    ElementsOfDistinct(s, s[c].child);
    NamedDistinct(s, space, tag, Kids(s, c));
  }

  lemma TextKids(s: Shot, c: Token, space: string, tag: string, text: string)
    requires WellFormed(s) && IsElement(s, c)
    ensures var r := WithText(s, text, Named(s, space, tag, Kids(s, c)));
            Distinct(r) && forall k :: k in r <==> k in KidsCalled(s, c, space, tag, text, false)
  {
    hide WellFormed, ElementsOf, Named, WithText;
    var named := Named(s, space, tag, Kids(s, c));
    NamedKids(s, c, space, tag);
    WithTextDistinct(s, text, named);
    assert forall k :: k in named ==> (Begins(s, k, text) <==> TextOf(s, k) == text);
  }

  lemma AttrsCalled(attrs: seq<Attr>, space: string, key: string, value: string)
    ensures CarriesAttr(attrs, space, key) <==> exists a :: a in attrs && IsCalled(a, space, key)
    ensures CarriesValue(attrs, space, key, value) <==>
            exists a :: a in attrs && IsCalled(a, space, key) && a.value == value
  {
    assert forall a :: IsCalled(a, space, key) <==> AttrMatches(a, space, key);
  }

  /**
   * How many copies of a candidate a filter leaves: one or none for attributes, and one for each child element
   * with the name and the text.
   */
  lemma CopiesAre(s: Shot, f: Filter, c: Token)
    requires WellFormed(s) && IsElement(s, c) && !f.Position? && f != NoFilter
    ensures f.HasChild? ==> Kept(s, f, [c]) == Repeat(c, |KidsCalled(s, c, f.space, f.tag, "", true)|)
    ensures f.ChildTextIs? ==> Kept(s, f, [c]) == Repeat(c, |KidsCalled(s, c, f.space, f.tag, f.text, false)|)
    ensures f.HasAttr? || f.AttrIs? ==> Kept(s, f, [c]) == if Passes(s, f, c) then [c] else []
  {
    hide WellFormed, ElementsOf, Named, WithText, KidsCalled;
    assert Kept(s, f, [c][1..]) == [];
    match f
    case HasChild(space, tag) =>
      NamedKids(s, c, space, tag);
      DistinctSize(Named(s, space, tag, Kids(s, c)), KidsCalled(s, c, space, tag, "", true));
    case ChildTextIs(space, tag, text) =>
      TextKids(s, c, space, tag, text);
      DistinctSize(WithText(s, text, Named(s, space, tag, Kids(s, c))), KidsCalled(s, c, space, tag, text, false));
    case HasAttr(space, key) => AttrsCalled(s[c].attr, space, key, "");
    case AttrIs(space, key, value) => AttrsCalled(s[c].attr, space, key, value);
  }

  lemma CopiesIfPassed(s: Shot, f: Filter, c: Token)
    requires WellFormed(s) && IsElement(s, c) && !f.Position? && f != NoFilter
    ensures Copies(s, f, c) > 0 <==> Passes(s, f, c)
  {
    hide WellFormed, ElementsOf, Named, WithText;
    match f
    case HasAttr(space, key) => AttrsCalled(s[c].attr, space, key, "");
    case AttrIs(space, key, value) => AttrsCalled(s[c].attr, space, key, value);
    case HasChild(space, tag) =>
      var r := Named(s, space, tag, Kids(s, c));
      NamedKids(s, c, space, tag);
      assert r != [] ==> r[0] in r;
    case ChildTextIs(space, tag, text) =>
      var r := WithText(s, text, Named(s, space, tag, Kids(s, c)));
      TextKids(s, c, space, tag, text);
      assert r != [] ==> r[0] in r;
  }

  lemma {:induction false} KeptAre(s: Shot, f: Filter, cs: seq<Token>)
    requires WellFormed(s) && AllElements(s, cs) && !f.Position? && f != NoFilter
    ensures forall x :: x in Kept(s, f, cs) <==> x in cs && Passes(s, f, x)
  {
    hide WellFormed, Copies, Passes;
    if cs != [] {
      KeptAre(s, f, cs[1..]);
      HeadOrTail(cs);
      var c := cs[0];
      CopiesIfPassed(s, f, c);
      var r := Repeat(c, Copies(s, f, c));
      assert forall x :: x in r ==> x == c;
      assert Copies(s, f, c) > 0 ==> r[0] in r;
      assert forall x :: x in Kept(s, f, cs) <==> x in r || x in Kept(s, f, cs[1..]);
    }
  }

  lemma {:induction false} FilteredAre(s: Shot, fs: seq<Filter>, cs: seq<Token>)
    requires WellFormed(s) && AllElements(s, cs)
    requires forall f :: f in fs ==> !f.Position? && f != NoFilter
    ensures forall x :: x in FilteredByAll(s, fs, cs) <==> x in cs && forall f :: f in fs ==> Passes(s, f, x)
  {
    hide WellFormed, Kept, Passes;
    if fs != [] {
      KeptAre(s, fs[0], cs);
      HeadOrTail(fs);
      FilteredAre(s, fs[1..], Filtered(s, fs[0], cs));
    }
  }

  lemma StepAre(s: Shot, seg: Segment, e: Token)
    requires WellFormed(s) && IsElement(s, e) && Unpositional([seg])
    ensures forall x :: x in Step(s, seg, e) <==> StepsTo(s, seg, e, x)
  {
    hide WellFormed, Selected, Follows, Passes, FilteredByAll;
    assert seg in [seg];
    SelectedAre(s, seg.sel, e);
    FilteredAre(s, seg.filters, Selected(s, seg.sel, e));
  }

  lemma {:induction false} MatchesAre(s: Shot, g: Group, e: Token)
    requires WellFormed(s) && IsElement(s, e) && Unpositional(g)
    ensures forall x :: x in Matches(s, g, e) <==> Leads(s, g, e, x)
    decreases |g|, 0
  {
    hide WellFormed, Step, StepsTo;
    if g != [] {
      assert Unpositional([g[0]]) by { assert g[0] in g; }
      StepAre(s, g[0], e);
      var out := Step(s, g[0], e);
      MatchesOfAllAre(s, g[1..], out);
      forall x | x in Matches(s, g, e) ensures Leads(s, g, e, x) {
        var c :| c in out && Leads(s, g[1..], c, x);
        assert c in s && StepsTo(s, g[0], e, c);
      }
    }
  }

  lemma {:induction false} MatchesOfAllAre(s: Shot, g: Group, es: seq<Token>)
    requires WellFormed(s) && AllElements(s, es) && Unpositional(g)
    ensures forall x :: x in MatchesOfAll(s, g, es) <==> exists e :: e in es && Leads(s, g, e, x)
    decreases |g|, 1 + |es|
  {
    hide WellFormed, Matches, Leads;
    if es != [] {
      MatchesAre(s, g, es[0]);
      MatchesOfAllAre(s, g, es[1..]);
      HeadOrTail(es);
      forall x ensures x in MatchesOfAll(s, g, es) <==> exists e :: e in es && Leads(s, g, e, x) {
        assert x in MatchesOfAll(s, g, es) <==> x in Matches(s, g, es[0]) || x in MatchesOfAll(s, g, es[1..]);
        assert x in Matches(s, g, es[0]) ==> es[0] in es && Leads(s, g, es[0], x);
      }
    }
  }

  lemma {:induction false} AllMatchesAre(s: Shot, path: Path, e: Token)
    requires WellFormed(s) && IsElement(s, e) && forall g :: g in path ==> Unpositional(g)
    ensures forall x :: x in AllMatches(s, path, e) <==> exists g :: g in path && Leads(s, g, e, x)
  {
    hide WellFormed, Matches, Leads, Unpositional;
    if path != [] {
      HeadOrTail(path);
      MatchesAre(s, path[0], e);
      AllMatchesAre(s, path[1..], e);
      assert forall x :: x in AllMatches(s, path, e) <==>
                         x in Matches(s, path[0], e) || x in AllMatches(s, path[1..], e);
    }
  }

  /**
   * For a path without positional filters, an element is found exactly once if some group leads to it, and
   * not at all otherwise; how often child filters repeat a candidate on the way does not matter.
   */
  lemma FoundAre(s: Shot, path: Path, e: Token)
    requires WellFormed(s) && IsElement(s, e) && forall g :: g in path ==> Unpositional(g)
    ensures Distinct(Found(s, path, e))
    ensures forall x :: x in Found(s, path, e) <==> exists g :: g in path && Leads(s, g, e, x)
  {
    hide WellFormed, AllMatches, Leads, Unpositional;
    AllMatchesAre(s, path, e);
  }
}
