/** The order of what the steps of a path list, and with it the meaning of positions. */
module PathOrder {
  import opened Seqs
  import opened Forest
  import opened PathSpec
  import opened PathFacts
  import opened PathRelation
  import opened DocumentOrder

  // ---------------------------------------------------------------- the order in which a selector lists elements

  /** y comes before x below e: it is less deep, or as deep and earlier in the document. */
  ghost predicate Comes(s: Shot, e: Token, y: Token, x: Token) {
    && Above(s, e, x) && Above(s, e, y)
    && (Steps(s, e, y) < Steps(s, e, x) || (Steps(s, e, y) == Steps(s, e, x) && Before(s, y, x)))
  }

  lemma ComesOneWay(s: Shot, e: Token, y: Token, x: Token)
    requires WellFormed(s) && Comes(s, e, y, x)
    ensures y != x && !Comes(s, e, x, y)
  {
    hide WellFormed, Above, Before;
    if Before(s, y, x) {
      BeforeIsStrict(s, y, x);
    }
    if Before(s, x, y) {
      BeforeIsStrict(s, x, y);
    }
  }

  ghost predicate Sorted(s: Shot, e: Token, es: seq<Token>) {
    Distinct(es) && forall i, j :: 0 <= i < j < |es| ==> Comes(s, e, es[i], es[j])
  }

  /** A selector that goes down, or stays, lists each element once, by depth and within a depth in document order. */
  lemma SelectedSorted(s: Shot, sel: Selector, e: Token)
    requires WellFormed(s) && IsElement(s, e) && !sel.Parent?
    ensures Sorted(s, e, Selected(s, sel, e))
  {
    hide WellFormed, Above, Before, BreadthFirst, ElementsOf, Named;
    var r := Selected(s, sel, e);
    if sel.Descendants? {
      DescendantsOnceByDepth(s, e);
      forall i, j | 0 <= i < j < |r| ensures Comes(s, e, r[i], r[j]) {
        DescendantsInOrder(s, e, i, j);
      }
    } else if !sel.Self? {
      KidsInOrder(s, e);
      if sel.ChildrenByTag? {
        NamedInOrder(s, sel.space, sel.tag, Kids(s, e));
      }
      SelectedAre(s, sel, e);
      forall i, j | 0 <= i < j < |r| ensures r[i] != r[j] && Comes(s, e, r[i], r[j]) {
        assert r[i] in r && r[j] in r;
        BeforeIsStrict(s, r[i], r[j]);
        OneStepDown(s, e, r[i]);
        OneStepDown(s, e, r[j]);
      }
    }
  }

  lemma OneStepDown(s: Shot, e: Token, x: Token)
    requires WellFormed(s) && e in s && x in s && s[x].parent == e
    ensures Above(s, e, x) && Steps(s, e, x) == 1
  {
    GroundedIn(s, e);
    hide WellFormed, Above;
    assert Up(s, x, 1) == Up(s, s[x].parent, 0);
    StepsUnique(s, e, x, 1);
  }

  // ---------------------------------------------------------------- positions

  /** A position keeps the one candidate that it counts to, from the front or from the end, if there is one. */
  lemma PositionStep(s: Shot, sel: Selector, fs: seq<Filter>, i: int, e: Token)
    requires WellFormed(s) && IsElement(s, e)
    ensures var cs := Step(s, Segment(sel, fs), e);
            var r := Step(s, Segment(sel, fs + [Position(i)]), e);
            && (0 <= i < |cs| ==> r == [cs[i]])
            && (-|cs| <= i < 0 ==> r == [cs[|cs| + i]])
            && (i < -|cs| || |cs| <= i ==> r == [])
  {
    hide WellFormed, Selected;
    var es := Selected(s, sel, e);
    FilteredInTurn(s, fs, [Position(i)], es);
    assert [Position(i)][1..] == [];
  }

  /** The elements that the selector leads to and that come before x. */
  ghost function Earlier(s: Shot, sel: Selector, e: Token, x: Token): set<Token>
    requires e in s
  {
    set y | y in s && IsElement(s, y) && Follows(s, sel, e, y) && Comes(s, e, y, x)
  }

  ghost function Later(s: Shot, sel: Selector, e: Token, x: Token): set<Token>
    requires e in s
  {
    set y | y in s && IsElement(s, y) && Follows(s, sel, e, y) && Comes(s, e, x, y)
  }

  /** In a sorted list of what the selector leads to, a place is the number of elements that come before. */
  lemma PlaceIs(s: Shot, sel: Selector, e: Token, r: seq<Token>, k: nat)
    requires WellFormed(s) && IsElement(s, e) && Sorted(s, e, r) && k < |r|
    requires forall x :: x in r <==> IsElement(s, x) && Follows(s, sel, e, x)
    ensures |Earlier(s, sel, e, r[k])| == k && |Later(s, sel, e, r[k])| == |r| - k - 1
  {
    hide WellFormed, Comes, Follows;
    forall j | 0 <= j < |r| ensures Comes(s, e, r[j], r[k]) <==> j < k {
      if j < k {
        ComesOneWay(s, e, r[j], r[k]);
      } else if k < j {
        ComesOneWay(s, e, r[k], r[j]);
      } else if Comes(s, e, r[k], r[k]) {
        ComesOneWay(s, e, r[k], r[k]);
      }
    }
    forall j | 0 <= j < |r| ensures Comes(s, e, r[k], r[j]) <==> k < j {
      if k < j {
        ComesOneWay(s, e, r[k], r[j]);
      } else if j < k {
        ComesOneWay(s, e, r[j], r[k]);
      }
    }
    assert forall j :: 0 <= j < |r| ==> r[j] in r;
    assert forall j :: 0 <= j < k ==> r[j] == r[..k][j];
    assert forall j :: k < j < |r| ==> r[j] == r[k + 1..][j - k - 1];
    DistinctSize(r[..k], Earlier(s, sel, e, r[k]));
    DistinctSize(r[k + 1..], Later(s, sel, e, r[k]));
  }

  /**
   * A position right behind a selector finds the element that the selector leads to and before which, or after which
   * if the count is from the end, there are just as many others.
   */
  lemma PositionIs(s: Shot, sel: Selector, i: int, e: Token, x: Token)
    requires WellFormed(s) && IsElement(s, e) && IsElement(s, x) && !sel.Parent?
    ensures x in Step(s, Segment(sel, [Position(i)]), e) <==>
            && Follows(s, sel, e, x)
            && (if i >= 0 then |Earlier(s, sel, e, x)| == i else |Later(s, sel, e, x)| == -i - 1)
  {
    hide WellFormed, Selected, Follows, Comes, Earlier, Later;
    var r := Selected(s, sel, e);
    SelectedAre(s, sel, e);
    SelectedSorted(s, sel, e);
    PositionStep(s, sel, [], i, e);
    assert [] + [Position(i)] == [Position(i)];
    assert Step(s, Segment(sel, []), e) == r;
    if x in r {
      var k := PositionOf(r, x);
      PlaceIs(s, sel, e, r, k);
      assert 0 <= i < |r| ==> (r[i] == x <==> i == k);
      assert -|r| <= i < 0 ==> (r[|r| + i] == x <==> |r| + i == k);
    }
  }

  // ---------------------------------------------------------------- alternatives

  /** What the groups of a path find is found group after group, each element where it is found first. */
  lemma FoundInTurn(s: Shot, p: Path, q: Path, e: Token)
    requires WellFormed(s) && IsElement(s, e)
    ensures Found(s, p + q, e) == Deduped(Found(s, p, e), AllMatches(s, q, e))
    ensures Found(s, p, e) <= Found(s, p + q, e)
  {
    hide WellFormed, AllMatches, Deduped;
    AllMatchesConcat(s, p, q, e);
    DedupedTwice([], AllMatches(s, p, e), AllMatches(s, q, e));
  }
}
