/** How the list functions of PathSpec split over concatenation: the steps that the loops of Pather take. */
module PathFacts {
  import opened Seqs
  import opened Forest
  import opened PathSpec

  lemma {:induction false} ElementsOfConcat(s: Shot, a: seq<Token>, b: seq<Token>)
    ensures ElementsOf(s, a + b) == ElementsOf(s, a) + ElementsOf(s, b)
  {
    if a == [] {
      assert a + b == b;
    } else {
      assert (a + b)[1..] == a[1..] + b;
      ElementsOfConcat(s, a[1..], b);
    }
  }

  lemma {:induction false} NamedConcat(s: Shot, space: string, tag: string, a: seq<Token>, b: seq<Token>)
    requires AllElements(s, a) && AllElements(s, b)
    ensures AllElements(s, a + b)
    ensures Named(s, space, tag, a + b) == Named(s, space, tag, a) + Named(s, space, tag, b)
  {
    hide NameMatches, IsElement;
    if a == [] {
      assert a + b == b;
    } else {
      assert (a + b)[1..] == a[1..] + b;
      NamedConcat(s, space, tag, a[1..], b);
    }
  }

  lemma {:induction false} NamedDistinct(s: Shot, space: string, tag: string, es: seq<Token>)
    requires AllElements(s, es) && Distinct(es)
    ensures Distinct(Named(s, space, tag, es))
  {
    hide IsElement;
    if es != [] {
      NamedDistinct(s, space, tag, es[1..]);
      assert es[0] !in es[1..];
    }
  }

  lemma {:induction false} WithTextConcat(s: Shot, text: string, a: seq<Token>, b: seq<Token>)
    requires AllElements(s, a) && AllElements(s, b)
    ensures AllElements(s, a + b)
    ensures WithText(s, text, a + b) == WithText(s, text, a) + WithText(s, text, b)
  {
    hide TextOf, IsElement;
    if a == [] {
      assert a + b == b;
    } else {
      assert (a + b)[1..] == a[1..] + b;
      WithTextConcat(s, text, a[1..], b);
    }
  }

  lemma {:induction false} WithTextDistinct(s: Shot, text: string, es: seq<Token>)
    requires AllElements(s, es) && Distinct(es)
    ensures Distinct(WithText(s, text, es))
  {
    hide IsElement, TextOf;
    if es != [] {
      WithTextDistinct(s, text, es[1..]);
      assert es[0] !in es[1..];
    }
  }

  /** One more child scanned by selectChildren. */
  lemma ElementsOfNext(s: Shot, ts: seq<Token>, i: nat)
    requires i < |ts|
    ensures ElementsOf(s, ts[..i + 1]) == ElementsOf(s, ts[..i]) + (if IsElement(s, ts[i]) then [ts[i]] else [])
  {
    assert ts[..i + 1] == ts[..i] + [ts[i]];
    ElementsOfConcat(s, ts[..i], [ts[i]]);
  }

  /** One more child scanned by selectChildrenByTag or filterChild. */
  lemma NamedNext(s: Shot, space: string, tag: string, ts: seq<Token>, i: nat)
    requires i < |ts|
    ensures Named(s, space, tag, ElementsOf(s, ts[..i + 1])) ==
            Named(s, space, tag, ElementsOf(s, ts[..i])) +
            (if IsElement(s, ts[i]) && NameMatches(s, space, tag, ts[i]) then [ts[i]] else [])
  {
    ElementsOfNext(s, ts, i);
    var before := ElementsOf(s, ts[..i]);
    if IsElement(s, ts[i]) {
      NamedConcat(s, space, tag, before, [ts[i]]);
      assert Named(s, space, tag, [ts[i]]) == if NameMatches(s, space, tag, ts[i]) then [ts[i]] else [];
    } else {
      assert before + [] == before;
    }
  }

  /** One more child scanned by filterChildText. */
  lemma WithTextNext(s: Shot, space: string, tag: string, text: string, ts: seq<Token>, i: nat)
    requires i < |ts|
    ensures WithText(s, text, Named(s, space, tag, ElementsOf(s, ts[..i + 1]))) ==
            WithText(s, text, Named(s, space, tag, ElementsOf(s, ts[..i]))) +
            (if IsElement(s, ts[i]) && NameMatches(s, space, tag, ts[i]) && TextOf(s, ts[i]) == text
             then [ts[i]] else [])
  {
    NamedNext(s, space, tag, ts, i);
    var before := Named(s, space, tag, ElementsOf(s, ts[..i]));
    if IsElement(s, ts[i]) && NameMatches(s, space, tag, ts[i]) {
      WithTextConcat(s, text, before, [ts[i]]);
      assert WithText(s, text, [ts[i]]) == if TextOf(s, ts[i]) == text then [ts[i]] else [];
    } else {
      assert before + [] == before;
    }
  }

  lemma {:induction false} KidsOfAllConcat(s: Shot, a: seq<Token>, b: seq<Token>)
    requires AllElements(s, a) && AllElements(s, b)
    ensures AllElements(s, a + b)
    ensures KidsOfAll(s, a + b) == KidsOfAll(s, a) + KidsOfAll(s, b)
  {
    hide Kids, IsElement;
    if a == [] {
      assert a + b == b;
    } else {
      assert (a + b)[1..] == a[1..] + b;
      KidsOfAllConcat(s, a[1..], b);
    }
  }

  lemma {:induction false} KeptConcat(s: Shot, f: Filter, a: seq<Token>, b: seq<Token>)
    requires AllElements(s, a) && AllElements(s, b)
    ensures AllElements(s, a + b)
    ensures Kept(s, f, a + b) == Kept(s, f, a) + Kept(s, f, b)
  {
    hide Copies, Repeat;
    if a == [] {
      assert a + b == b;
    } else {
      assert (a + b)[1..] == a[1..] + b;
      KeptConcat(s, f, a[1..], b);
    }
  }

  /** A chain of filters is one part of it after the other. */
  lemma {:induction false} FilteredInTurn(s: Shot, fs: seq<Filter>, gs: seq<Filter>, cs: seq<Token>)
    requires AllElements(s, cs)
    ensures FilteredByAll(s, fs + gs, cs) == FilteredByAll(s, gs, FilteredByAll(s, fs, cs))
  {
    hide Filtered, IsElement;
    if fs == [] {
      assert fs + gs == gs;
    } else {
      assert (fs + gs)[1..] == fs[1..] + gs;
      FilteredInTurn(s, fs[1..], gs, Filtered(s, fs[0], cs));
    }
  }

  lemma KidsOfOne(s: Shot, e: Token)
    requires IsElement(s, e)
    ensures KidsOfAll(s, [e]) == Kids(s, e)
  {
    assert KidsOfAll(s, [e]) == Kids(s, e) + [];
  }

  /** One more candidate judged by a filter. */
  lemma KeptNext(s: Shot, f: Filter, cs: seq<Token>, i: nat)
    requires AllElements(s, cs) && i < |cs|
    ensures Kept(s, f, cs[..i + 1]) == Kept(s, f, cs[..i]) + Repeat(cs[i], Copies(s, f, cs[i]))
  {
    hide Copies;
    assert cs[..i + 1] == cs[..i] + [cs[i]];
    KeptConcat(s, f, cs[..i], [cs[i]]);
    assert Kept(s, f, [cs[i]]) == Repeat(cs[i], Copies(s, f, cs[i]));
  }

  lemma RepeatNext<T>(x: T, n: nat)
    ensures Repeat(x, n + 1) == Repeat(x, n) + [x]
  {
  }

  lemma NothingScanned(s: Shot, ts: seq<Token>, space: string, tag: string, text: string, x: Token)
    ensures ElementsOf(s, ts[..0]) == []
    ensures Named(s, space, tag, ElementsOf(s, ts[..0])) == []
    ensures WithText(s, text, Named(s, space, tag, ElementsOf(s, ts[..0]))) == []
    ensures Repeat(x, 0) == []
  {
  }

  lemma {:induction false} MatchesConcat(s: Shot, g: Group, a: seq<Token>, b: seq<Token>)
    requires WellFormed(s) && AllElements(s, a) && AllElements(s, b)
    ensures AllElements(s, a + b)
    ensures MatchesOfAll(s, g, a + b) == MatchesOfAll(s, g, a) + MatchesOfAll(s, g, b)
  {
    hide WellFormed, Matches, IsElement;
    if a == [] {
      assert a + b == b;
    } else {
      assert (a + b)[1..] == a[1..] + b;
      MatchesConcat(s, g, a[1..], b);
    }
  }

  /** With no segment left every element matches itself. */
  lemma {:induction false} MatchesNothingLeft(s: Shot, es: seq<Token>)
    requires WellFormed(s) && AllElements(s, es)
    ensures MatchesOfAll(s, [], es) == es
  {
    if es != [] {
      MatchesNothingLeft(s, es[1..]);
    }
  }

  lemma {:induction false} AllMatchesConcat(s: Shot, a: Path, b: Path, e: Token)
    requires WellFormed(s) && IsElement(s, e)
    ensures AllMatches(s, a + b, e) == AllMatches(s, a, e) + AllMatches(s, b, e)
  {
    if a == [] {
      assert a + b == b;
    } else {
      assert (a + b)[1..] == a[1..] + b;
      AllMatchesConcat(s, a[1..], b, e);
    }
  }

  lemma {:induction false} DedupedTwice<T>(seen: seq<T>, a: seq<T>, b: seq<T>)
    ensures Deduped(Deduped(seen, a), b) == Deduped(seen, a + b)
    decreases |a|
  {
    if a == [] {
      assert a + b == b;
    } else {
      assert (a + b)[1..] == a[1..] + b;
      DedupedTwice(if a[0] in seen then seen else seen + [a[0]], a[1..], b);
    }
  }

  lemma AllMatchesNone(s: Shot, path: Path, e: Token)
    requires WellFormed(s) && IsElement(s, e)
    ensures Deduped([], AllMatches(s, path[..0], e)) == []
  {
  }

  /** One more group traversed. */
  lemma AllMatchesNext(s: Shot, path: Path, i: nat, e: Token)
    requires WellFormed(s) && IsElement(s, e) && i < |path|
    ensures AllMatches(s, path[..i + 1], e) == AllMatches(s, path[..i], e) + Matches(s, path[i], e)
  {
    hide WellFormed, Matches;
    var one := [path[i]];
    assert path[..i + 1] == path[..i] + one;
    AllMatchesConcat(s, path[..i], one, e);
    assert one[1..] == [];
    assert AllMatches(s, one, e) == Matches(s, path[i], e) + [];
  }

  /** One segment, applied to every element in turn. */
  lemma {:induction false} MatchesByLevel(s: Shot, g: Group, es: seq<Token>)
    requires WellFormed(s) && AllElements(s, es) && g != []
    ensures AllElements(s, MatchesOfAll(s, g[..1], es))
    ensures MatchesOfAll(s, g, es) == MatchesOfAll(s, g[1..], MatchesOfAll(s, g[..1], es))
  {
    hide WellFormed, Step;
    if es != [] {
      MatchesByLevel(s, g, es[1..]);
      MatchesOne(s, g, es[0]);
      var out := Step(s, g[0], es[0]);
      var rest := MatchesOfAll(s, g[..1], es[1..]);
      MatchesConcat(s, g[1..], out, rest);
      assert Matches(s, g, es[0]) == MatchesOfAll(s, g[1..], out);
      assert MatchesOfAll(s, g[..1], es) == out + rest;
    }
  }

  lemma MatchesOne(s: Shot, g: Group, e: Token)
    requires WellFormed(s) && IsElement(s, e) && g != []
    ensures Matches(s, g[..1], e) == MatchesOfAll(s, g[..1], [e]) == Step(s, g[0], e)
  {
    hide WellFormed, Step;
    assert g[..1][1..] == [] && g[..1][0] == g[0];
    MatchesNothingLeft(s, Step(s, g[0], e));
    assert MatchesOfAll(s, g[..1], [e]) == Matches(s, g[..1], e) + [];
  }

  lemma DedupedNone<T>(seen: seq<T>)
    ensures Deduped(seen, []) == seen
  {
  }

  lemma DedupedNext<T>(seen: seq<T>, xs: seq<T>, x: T)
    ensures Deduped(seen, xs + [x]) ==
            if x in Deduped(seen, xs) then Deduped(seen, xs) else Deduped(seen, xs) + [x]
  {
    DedupedTwice(seen, xs, [x]);
  }

  /** A value that is new comes right after all the values that were met before it. */
  lemma DedupedAt<T>(before: seq<T>, x: T, after: seq<T>)
    requires x !in before
    ensures Deduped([], before) + [x] <= Deduped([], before + [x] + after)
    ensures forall y :: y in Deduped([], before) <==> y in before
  {
    hide Deduped;
    DedupedNext([], before, x);
    DedupedTwice([], before + [x], after);
  }

  // ---------------------------------------------------------------- panics

  /** A group panics exactly if some segment overflows and the segments before it lead anywhere. */
  lemma {:induction false} PanicsFromIff(s: Shot, g: Group, es: seq<Token>)
    requires WellFormed(s) && AllElements(s, es)
    ensures PanicsFrom(s, g, es) <==> exists k :: 0 <= k < |g| && Overflows(g[k]) && MatchesOfAll(s, g[..k], es) != []
    decreases |g|
  {
    hide WellFormed, MatchesOfAll, Overflows, AllElements;
    if g != [] {
      var next := MatchesOfAll(s, g[..1], es);
      MatchesNothingLeft(s, es);
      PanicsFromIff(s, g[1..], next);
      forall k | 0 < k < |g| ensures MatchesOfAll(s, g[..k], es) == MatchesOfAll(s, g[1..][..k - 1], next) {
        MatchesByLevel(s, g[..k], es);
        assert g[..k][..1] == g[..1] && g[..k][1..] == g[1..][..k - 1];
      }
      if PanicsFrom(s, g[1..], next) {
        var k :| 0 <= k < |g[1..]| && Overflows(g[1..][k]) && MatchesOfAll(s, g[1..][..k], next) != [];
        assert Overflows(g[k + 1]) && MatchesOfAll(s, g[..k + 1], es) != [];
        NothingFromNothing(s, g, es);
      }
      if k :| 0 <= k < |g| && Overflows(g[k]) && MatchesOfAll(s, g[..k], es) != [] {
        if k > 0 {
          assert Overflows(g[1..][k - 1]);
        }
        NothingFromNothing(s, g[..k], es);
      }
    }
  }

  lemma NothingFromNothing(s: Shot, g: Group, es: seq<Token>)
    requires WellFormed(s) && AllElements(s, es)
    ensures es == [] ==> MatchesOfAll(s, g, es) == []
    ensures es == [] && g != [] ==> MatchesOfAll(s, g[..1], es) == []
  {
  }

  /** Without such a segment nothing panics. */
  lemma {:induction false} NoOverflowNoPanic(s: Shot, g: Group, es: seq<Token>)
    requires WellFormed(s) && AllElements(s, es) && forall seg :: seg in g ==> !Overflows(seg)
    ensures !PanicsFrom(s, g, es)
    decreases |g|
  {
    hide WellFormed, MatchesOfAll, Overflows;
    if g != [] {
      NoOverflowNoPanic(s, g[1..], MatchesOfAll(s, g[..1], es));
    }
  }

  /**
   * Evaluating a path panics exactly if one of its groups has a segment with the index -2^63 and the segments
   * before that one lead to some element.
   */
  lemma TraversalPanicsIff(s: Shot, path: Path, e: Token)
    requires WellFormed(s) && IsElement(s, e)
    ensures Panics(s, path, e) <==>
            exists g, k :: g in path && 0 <= k < |g| && Overflows(g[k]) && Matches(s, g[..k], e) != []
  {
    hide WellFormed, Matches, Overflows, PanicsFrom;
    forall g ensures PanicsFrom(s, g, [e]) <==>
                     exists k :: 0 <= k < |g| && Overflows(g[k]) && Matches(s, g[..k], e) != [] {
      PanicsFromIff(s, g, [e]);
      forall k | 0 <= k < |g| ensures MatchesOfAll(s, g[..k], [e]) == Matches(s, g[..k], e) {
        assert MatchesOfAll(s, g[..k], [e]) == Matches(s, g[..k], e) + [];
      }
    }
  }
}
