/**
 * What a compiled path of pkg/controller/etree/path.go means: nested flat-maps over lists of elements. Selectors lead
 * from an element to a list, filters from a list to a list, a group follows its segments one after another, and a path
 * lists what its groups lead to, each element where it is met first.
 */
module PathSpec {
  import opened Seqs
  import opened Names
  import opened Texts
  import opened Attrs
  import opened Forest

  datatype Selector =
    | Self
    | Parent
    | Children
    | Descendants
    | ChildrenByTag(space: string, tag: string)

  /** `NoFilter` is the nil that a failed parse leaves in a filter list. */
  datatype Filter =
    | NoFilter
    | Position(index: int)
    | HasAttr(space: string, key: string)
    | AttrIs(space: string, key: string, value: string)
    | HasChild(space: string, tag: string)
    | ChildTextIs(space: string, tag: string, text: string)

  datatype Segment = Segment(sel: Selector, filters: seq<Filter>)
  type Group = seq<Segment>
  type Path = seq<Group>

  /** What CompilePath guarantees: something to evaluate in every group, and no nil filter. */
  predicate Compiled(path: Path) {
    forall g :: g in path ==> CompiledGroup(g)
  }

  predicate CompiledGroup(g: Group) {
    g != [] && forall seg :: seg in g ==> NoFilter !in seg.filters
  }

  // ---------------------------------------------------------------- elements

  predicate IsElement(s: Shot, t: Token) {
    t in s && s[t].kind.Element?
  }

  predicate AllElements(s: Shot, es: seq<Token>) {
    forall i :: 0 <= i < |es| ==> IsElement(s, es[i])
  }

  /** The elements among some tokens, in order. */
  function ElementsOf(s: Shot, ts: seq<Token>): (es: seq<Token>)
    ensures forall e :: e in ts && IsElement(s, e) ==> e in es
    ensures forall e :: e in es ==> e in ts
    ensures AllElements(s, es)
  {
    if ts == [] then []
    else
      var rest := ElementsOf(s, ts[1..]);
      HeadOrTail(ts);
      if IsElement(s, ts[0]) then [ts[0]] + rest else rest
  }

  function Kids(s: Shot, e: Token): seq<Token>
    requires e in s
  {
    ElementsOf(s, s[e].child)
  }

  predicate NameMatches(s: Shot, space: string, tag: string, e: Token)
    requires IsElement(s, e)
  {
    SpaceMatch(space, s[e].kind.space) && tag == s[e].kind.tag
  }

  /** The elements among es with the given name, in order. */
  function Named(s: Shot, space: string, tag: string, es: seq<Token>): (r: seq<Token>)
    requires AllElements(s, es)
    ensures AllElements(s, r)
    ensures forall e :: e in es && NameMatches(s, space, tag, e) ==> e in r
    ensures forall e :: e in r ==> e in es && NameMatches(s, space, tag, e)
  {
    if es == [] then []
    else
      var rest := Named(s, space, tag, es[1..]);
      HeadOrTail(es);
      if NameMatches(s, space, tag, es[0]) then [es[0]] + rest else rest
  }

  /** An element's text is its first child, if that is character data. */
  function TextOf(s: Shot, e: Token): string
    requires e in s
  {
    if s[e].child != [] && s[e].child[0] in s && s[s[e].child[0]].kind.CharData?
    then s[s[e].child[0]].kind.data else ""
  }

  // ---------------------------------------------------------------- breadth-first order

  /** The child elements of every element of es, in order. */
  function KidsOfAll(s: Shot, es: seq<Token>): seq<Token>
    requires AllElements(s, es)
  {
    if es == [] then [] else Kids(s, es[0]) + KidsOfAll(s, es[1..])
  }

  /** No element of es lies in the subtree of another. */
  ghost predicate Antichain(s: Shot, es: seq<Token>) {
    Distinct(es) && forall a, b :: a in es && b in es && Above(s, a, b) ==> a == b
  }

  /** The tokens in the subtrees of es. */
  ghost function Cover(s: Shot, es: seq<Token>): set<Token> {
    set t | t in s && exists e :: e in es && Above(s, e, t)
  }

  lemma {:induction false} KidsOfAllMembers(s: Shot, es: seq<Token>)
    requires WellFormed(s) && AllElements(s, es)
    ensures forall k :: k in KidsOfAll(s, es) ==> IsElement(s, k) && s[k].parent != null && s[k].parent in es
    ensures forall k :: IsElement(s, k) && s[k].parent != null && s[k].parent in es ==> k in KidsOfAll(s, es)
  {
    if es != [] {
      KidsOfAllMembers(s, es[1..]);
      HeadOrTail(es);
      var e := es[0];
      assert TokenOk(s, e);
      forall k | k in Kids(s, e) ensures IsElement(s, k) && s[k].parent == e {
        var i :| 0 <= i < |s[e].child| && s[e].child[i] == k;
      }
      forall k | IsElement(s, k) && s[k].parent == e ensures k in Kids(s, e) {
        assert TokenOk(s, k);
      }
      assert forall k :: k in KidsOfAll(s, es) <==> k in Kids(s, e) || k in KidsOfAll(s, es[1..]);
    }
  }

  lemma {:induction false} ElementsOfDistinct(s: Shot, ts: seq<Token>)
    requires Distinct(ts)
    ensures Distinct(ElementsOf(s, ts))
  {
    if ts != [] {
      ElementsOfDistinct(s, ts[1..]);
      assert ts[0] !in ts[1..];
    }
  }

  lemma {:induction false} KidsOfAllDistinct(s: Shot, es: seq<Token>)
    requires WellFormed(s) && AllElements(s, es) && Distinct(es)
    ensures Distinct(KidsOfAll(s, es))
  {
    if es != [] {
      var e, rest := es[0], es[1..];
      assert TokenOk(s, e);
      KidsOfAllDistinct(s, rest);
      KidsOfAllMembers(s, rest);
      KidsOfAllMembers(s, [e]);
      ElementsOfDistinct(s, s[e].child);
      assert KidsOfAll(s, [e]) == Kids(s, e);
      assert e !in rest;
      DistinctConcat(Kids(s, e), KidsOfAll(s, rest));
    }
  }

  lemma KidsAntichain(s: Shot, es: seq<Token>)
    requires WellFormed(s) && AllElements(s, es) && Antichain(s, es)
    ensures AllElements(s, KidsOfAll(s, es)) && Antichain(s, KidsOfAll(s, es))
  {
    var ks := KidsOfAll(s, es);
    KidsOfAllMembers(s, es);
    KidsOfAllDistinct(s, es);
    forall a, b | a in ks && b in ks && Above(s, a, b) ensures a == b {
      SiblingsApart(s, es, a, b);
    }
  }

  lemma SiblingsApart(s: Shot, es: seq<Token>, a: Token, b: Token)
    requires WellFormed(s) && Antichain(s, es) && Above(s, a, b)
    requires a in s && b in s && s[a].parent != null && s[b].parent != null && s[a].parent in es && s[b].parent in es
    ensures a == b
  {
    var p, q := s[a].parent, s[b].parent;
    assert TokenOk(s, a) && TokenOk(s, p);
    AboveChild(s, p, a);
    AboveTransitive(s, p, a, b);
    if a != b {
      AboveParent(s, a, b);
      AboveTransitive(s, p, a, q);
      assert p == q;
      NotBelowChild(s, p, a);
    }
  }

  lemma KidsCover(s: Shot, es: seq<Token>)
    requires WellFormed(s) && AllElements(s, es) && Antichain(s, es) && es != []
    ensures Cover(s, KidsOfAll(s, es)) < Cover(s, es)
  {
    var ks := KidsOfAll(s, es);
    KidsOfAllMembers(s, es);
    forall t | t in Cover(s, ks) ensures t in Cover(s, es) {
      var k :| k in ks && Above(s, k, t);
      AboveChild(s, s[k].parent, k);
      AboveTransitive(s, s[k].parent, k, t);
    }
    var e := es[0];
    assert TokenOk(s, e);
    AboveSelf(s, e);
    if e in Cover(s, ks) {
      var k :| k in ks && Above(s, k, e);
      AboveChild(s, s[k].parent, k);
      AboveTransitive(s, s[k].parent, k, e);
      NotBelowChild(s, e, k);
      assert false;
    }
    assert e in es && Above(s, e, e);
  }

  /** The elements of es, then their child elements, then the children of those, and so on. */
  ghost function BreadthFirst(s: Shot, es: seq<Token>): seq<Token>
    requires WellFormed(s) && AllElements(s, es) && Antichain(s, es)
    decreases Cover(s, es)
  {
    if es == [] then []
    else
      KidsAntichain(s, es);
      KidsCover(s, es);
      es + BreadthFirst(s, KidsOfAll(s, es))
  }

  /** One level of the breadth-first order. */
  lemma BreadthFirstUnfold(s: Shot, es: seq<Token>)
    requires WellFormed(s) && AllElements(s, es) && Antichain(s, es)
    ensures AllElements(s, KidsOfAll(s, es)) && Antichain(s, KidsOfAll(s, es))
    ensures BreadthFirst(s, es) == es + BreadthFirst(s, KidsOfAll(s, es))
    ensures es != [] ==> Cover(s, KidsOfAll(s, es)) < Cover(s, es)
    ensures es == [] ==> BreadthFirst(s, es) == []
  {
    KidsAntichain(s, es);
    if es != [] {
      KidsCover(s, es);
    }
  }

  lemma {:induction false} BreadthFirstElements(s: Shot, es: seq<Token>)
    requires WellFormed(s) && AllElements(s, es) && Antichain(s, es)
    ensures AllElements(s, BreadthFirst(s, es))
    decreases Cover(s, es)
  {
    if es != [] {
      KidsAntichain(s, es);
      KidsCover(s, es);
      BreadthFirstElements(s, KidsOfAll(s, es));
    }
  }

  // ---------------------------------------------------------------- selectors and filters

  lemma ParentIsElement(s: Shot, t: Token)
    requires WellFormed(s) && t in s && s[t].parent != null
    ensures IsElement(s, s[t].parent)
  {
    assert TokenOk(s, t) && TokenOk(s, s[t].parent);
  }

  ghost function Selected(s: Shot, sel: Selector, e: Token): (r: seq<Token>)
    requires WellFormed(s) && IsElement(s, e)
    ensures AllElements(s, r)
  {
    match sel
    case Self => [e]
    case Parent =>
      if s[e].parent == null then [] else
        ParentIsElement(s, e);
        [s[e].parent]
    case Children => Kids(s, e)
    case Descendants =>
      BreadthFirstElements(s, [e]);
      BreadthFirst(s, [e])
    case ChildrenByTag(space, tag) => Named(s, space, tag, Kids(s, e))
  }

  predicate CarriesAttr(attrs: seq<Attr>, space: string, key: string) {
    exists i :: 0 <= i < |attrs| && AttrMatches(attrs[i], space, key)
  }

  predicate CarriesValue(attrs: seq<Attr>, space: string, key: string, value: string) {
    exists i :: 0 <= i < |attrs| && AttrMatches(attrs[i], space, key) && attrs[i].value == value
  }

  /** The elements among es with the given text, in order. */
  function WithText(s: Shot, text: string, es: seq<Token>): (r: seq<Token>)
    requires AllElements(s, es)
    ensures forall e :: e in es && TextOf(s, e) == text ==> e in r
    ensures forall e :: e in r ==> e in es && TextOf(s, e) == text
  {
    if es == [] then []
    else
      HeadOrTail(es);
      if TextOf(s, es[0]) == text then [es[0]] + WithText(s, text, es[1..]) else WithText(s, text, es[1..])
  }

  /** How many copies of the candidate c a filter other than a positional one keeps. */
  function Copies(s: Shot, f: Filter, c: Token): nat
    requires IsElement(s, c)
  {
    match f
    case HasAttr(space, key) => if CarriesAttr(s[c].attr, space, key) then 1 else 0
    case AttrIs(space, key, value) => if CarriesValue(s[c].attr, space, key, value) then 1 else 0
    case HasChild(space, tag) => |Named(s, space, tag, Kids(s, c))|
    case ChildTextIs(space, tag, text) => |WithText(s, text, Named(s, space, tag, Kids(s, c)))|
    case _ => 0
  }

  function Kept(s: Shot, f: Filter, cs: seq<Token>): (r: seq<Token>)
    requires AllElements(s, cs)
    ensures AllElements(s, r)
  {
    if cs == [] then [] else Repeat(cs[0], Copies(s, f, cs[0])) + Kept(s, f, cs[1..])
  }

  /** The candidate at an index, counted from the end when negative. */
  function Pick<T>(index: int, cs: seq<T>): seq<T> {
    if 0 <= index < |cs| then [cs[index]]
    else if index < 0 && -index <= |cs| then [cs[|cs| + index]]
    else []
  }

  function Filtered(s: Shot, f: Filter, cs: seq<Token>): (r: seq<Token>)
    requires AllElements(s, cs)
    ensures AllElements(s, r)
  {
    if f.Position? then Pick(f.index, cs) else Kept(s, f, cs)
  }

  /** The composition of a chain of filters, first filter first. */
  function FilteredByAll(s: Shot, fs: seq<Filter>, cs: seq<Token>): (r: seq<Token>)
    requires AllElements(s, cs)
    ensures AllElements(s, r)
  {
    if fs == [] then cs else FilteredByAll(s, fs[1..], Filtered(s, fs[0], cs))
  }

  // ---------------------------------------------------------------- the meaning of a path

  ghost function Step(s: Shot, seg: Segment, e: Token): (r: seq<Token>)
    requires WellFormed(s) && IsElement(s, e)
    ensures AllElements(s, r)
  {
    FilteredByAll(s, seg.filters, Selected(s, seg.sel, e))
  }

  /** Follow every segment in turn from e. */
  ghost function Matches(s: Shot, g: Group, e: Token): (r: seq<Token>)
    requires WellFormed(s) && IsElement(s, e)
    ensures AllElements(s, r)
    decreases |g|, 0
  {
    if g == [] then [e] else MatchesOfAll(s, g[1..], Step(s, g[0], e))
  }

  ghost function MatchesOfAll(s: Shot, g: Group, es: seq<Token>): (r: seq<Token>)
    requires WellFormed(s) && AllElements(s, es)
    ensures AllElements(s, r)
    decreases |g|, 1 + |es|
  {
    if es == [] then [] else Matches(s, g, es[0]) + MatchesOfAll(s, g, es[1..])
  }

  /** Every match of a path, group after group, repeats included. */
  ghost function AllMatches(s: Shot, path: Path, e: Token): (r: seq<Token>)
    requires WellFormed(s) && IsElement(s, e)
    ensures AllElements(s, r)
  {
    if path == [] then [] else Matches(s, path[0], e) + AllMatches(s, path[1..], e)
  }

  /** seen, extended by the values of xs that are new, each at its first occurrence. */
  function Deduped<T(==)>(seen: seq<T>, xs: seq<T>): (r: seq<T>)
    ensures seen <= r && (Distinct(seen) ==> Distinct(r))
    ensures forall x :: x in seen ==> x in r
    ensures forall x :: x in xs ==> x in r
    ensures forall x :: x in r ==> x in seen || x in xs
    decreases |xs|
  {
    if xs == [] then seen
    else
      HeadOrTail(xs);
      if xs[0] in seen then Deduped(seen, xs[1..]) else Deduped(seen + [xs[0]], xs[1..])
  }

  lemma ElementsAmong(s: Shot, xs: seq<Token>, ys: seq<Token>)
    requires AllElements(s, ys) && forall x :: x in xs ==> x in ys
    ensures AllElements(s, xs)
  {
    forall i | 0 <= i < |xs| ensures IsElement(s, xs[i]) {
      assert xs[i] in xs;
    }
  }

  /** The result of evaluating a path from e. */
  ghost function Found(s: Shot, path: Path, e: Token): (r: seq<Token>)
    requires WellFormed(s) && IsElement(s, e)
    ensures Distinct(r) && AllElements(s, r)
  {
    hide AllElements, WellFormed, IsElement;
    var r := Deduped([], AllMatches(s, path, e));
    ElementsAmong(s, r, AllMatches(s, path, e));
    r
  }

  // ---------------------------------------------------------------- panics

  /** Negation of a 64-bit integer: the least one is its own negation. */
  function Negated(i: int): int {
    if i == MIN_INT then MIN_INT else -i
  }

  /** Applying the segment makes the machine panic: a filter has an index that cannot be negated. */
  predicate Overflows(seg: Segment) {
    Position(MIN_INT) in seg.filters
  }

  /** Following the group from es, level by level, comes to an element to which such a segment is applied. */
  ghost predicate PanicsFrom(s: Shot, g: Group, es: seq<Token>)
    requires WellFormed(s) && AllElements(s, es)
    decreases |g|
  {
    g != [] && es != [] && (Overflows(g[0]) || PanicsFrom(s, g[1..], MatchesOfAll(s, g[..1], es)))
  }

  /** Evaluating the path from e panics. */
  ghost predicate Panics(s: Shot, path: Path, e: Token)
    requires WellFormed(s) && IsElement(s, e)
  {
    exists g :: g in path && PanicsFrom(s, g, [e])
  }
}
