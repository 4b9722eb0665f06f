/** Where indentation stands, said of the children as listed in the end, not of the walk that lists them. */
module IndentRules {
  import opened Trees
  import opened Indentation

  /** Something other than character data stands before the i-th child. */
  predicate Opened(r: seq<Tree>, i: nat)
    requires i <= |r|
  {
    exists j :: 0 <= j < i && !r[j].kind.CharData?
  }

  /** Nothing but text stands before the i-th child. */
  predicate OnlyText(r: seq<Tree>, i: nat)
    requires i <= |r|
  {
    forall j :: 0 <= j < i ==> r[j].kind.CharData? && !IsBlank(r[j])
  }

  /**
   * The rule for the i-th child. Indentation for the depth stands in front of all that is not character data, except
   * for the first of that kind at depth 0; indentation for the depth above stands at the end, if what comes before is
   * not character data; and there is none anywhere else. `first` says that no such child comes before the list, `open`
   * that the one right before it is one.
   */
  predicate Ruled(r: seq<Tree>, i: nat, depth: nat, first: bool, open: bool, pad: Pad)
    requires i < |r|
  {
    if !IsBlank(r[i]) then
      r[i].kind.CharData? || (i > 0 && r[i - 1] == Blank(pad(depth))) || (depth == 0 && first && OnlyText(r, i))
    else if i + 1 < |r| then
      r[i] == Blank(pad(depth)) && !r[i + 1].kind.CharData? && (depth > 0 || !first || Opened(r, i))
    else
      r[i] == Blank(pad(depth - 1)) && if i > 0 then !r[i - 1].kind.CharData? else open
  }

  /** The list ends with character data, if there is anything to end. */
  predicate Ended(r: seq<Tree>, open: bool) {
    if r == [] then !open else r[|r| - 1].kind.CharData?
  }

  predicate AllRuled(r: seq<Tree>, depth: nat, first: bool, open: bool, pad: Pad) {
    forall i :: 0 <= i < |r| ==> Ruled(r, i, depth, first, open, pad)
  }

  predicate Obeys(r: seq<Tree>, depth: nat, first: bool, open: bool, pad: Pad)
    decreases r, 1
  {
    Ended(r, open) && AllRuled(r, depth, first, open, pad) && AllNested(r, depth, pad)
  }

  /** The same one level down, for all elements in the list. */
  predicate AllNested(r: seq<Tree>, depth: nat, pad: Pad)
    decreases r, 0
  {
    forall i :: 0 <= i < |r| && r[i].kind.Element? ==> Obeys(r[i].kids, depth + 1, true, false, pad)
  }

  // ---------------------------------------------------------------- a list and the rest of it

  lemma RuledSplit(front: seq<Tree>, r: seq<Tree>, depth: nat, first: bool, open: bool, first': bool, open': bool,
                   pad: Pad)
    requires forall i :: |front| <= i < |front + r| ==>
               (Ruled(front + r, i, depth, first, open, pad) <==> Ruled(r, i - |front|, depth, first', open', pad))
    ensures AllRuled(front + r, depth, first, open, pad) <==>
            AllRuled(r, depth, first', open', pad) &&
            forall i :: 0 <= i < |front| ==> Ruled(front + r, i, depth, first, open, pad)
  {
    hide Ruled;
    if AllRuled(front + r, depth, first, open, pad) {
      forall i | 0 <= i < |r| ensures Ruled(r, i, depth, first', open', pad) {
        assert Ruled(front + r, |front| + i, depth, first, open, pad);
      }
    }
  }

  lemma NestedSplit(front: seq<Tree>, r: seq<Tree>, depth: nat, pad: Pad)
    ensures AllNested(front + r, depth, pad) <==> AllNested(front, depth, pad) && AllNested(r, depth, pad)
  {
    hide Obeys;
    var all := front + r;
    assert forall i :: 0 <= i < |front| ==> front[i] == all[i];
    assert forall i {:trigger r[i]} :: 0 <= i < |r| ==> r[i] == all[|front| + i];
  }

  /** Text in front. */
  lemma TextFirst(x: Tree, r: seq<Tree>, depth: nat, first: bool, open: bool, pad: Pad)
    requires x.kind.CharData? && !IsBlank(x)
    ensures Obeys([x] + r, depth, first, open, pad) <==> Obeys(r, depth, first, false, pad)
  {
    hide AllRuled;
    var all := [x] + r;
    forall i | 1 <= i < |all|
      ensures Ruled(all, i, depth, first, open, pad) <==> Ruled(r, i - 1, depth, first, false, pad)
    {
      TextBefore(x, r, i - 1);
    }
    RuledSplit([x], r, depth, first, open, first, false, pad);
    NestedSplit([x], r, depth, pad);
  }

  lemma TextBefore(x: Tree, r: seq<Tree>, i: nat)
    requires x.kind.CharData? && !IsBlank(x) && i <= |r|
    ensures Opened([x] + r, i + 1) <==> Opened(r, i)
    ensures OnlyText([x] + r, i + 1) <==> OnlyText(r, i)
  {
    var all := [x] + r;
    assert forall j :: 0 <= j < i ==> r[j] == all[j + 1];
    assert forall j :: 0 < j < i + 1 ==> all[j] == r[j - 1];
  }

  /** Anything else in front, with indentation before it or without. */
  lemma OtherFirst(front: seq<Tree>, x: Tree, r: seq<Tree>, depth: nat, first: bool, open: bool, pad: Pad)
    requires !x.kind.CharData? && (front == [] || (|front| == 1 && IsBlank(front[0])))
    ensures Obeys(front + [x] + r, depth, first, open, pad) <==>
            && front == (if !first || depth > 0 then [Blank(pad(depth))] else [])
            && (x.kind.Element? ==> Obeys(x.kids, depth + 1, true, false, pad))
            && Obeys(r, depth, false, true, pad)
  {
    hide AllRuled;
    var all, n := front + [x] + r, |front + [x]|;
    forall i | n <= i < |all|
      ensures Ruled(all, i, depth, first, open, pad) <==> Ruled(r, i - n, depth, false, true, pad)
    {
      assert all[n - 1] == x;
      assert Opened(all, i) && !OnlyText(all, i);
    }
    RuledSplit(front + [x], r, depth, first, open, false, true, pad);
    NestedSplit(front + [x], r, depth, pad);
    NestedSplit(front, [x], depth, pad);
    FrontNested(front, x, depth, pad);
    FrontRuled(front, x, r, depth, first, open, pad);
    assert r == [] ==> all[|all| - 1] == x;
    assert r != [] ==> all[|all| - 1] == r[|r| - 1];
  }

  lemma FrontNested(front: seq<Tree>, x: Tree, depth: nat, pad: Pad)
    requires front == [] || (|front| == 1 && IsBlank(front[0]))
    ensures AllNested(front, depth, pad)
    ensures AllNested([x], depth, pad) <==> (x.kind.Element? ==> Obeys(x.kids, depth + 1, true, false, pad))
  {
    hide Obeys;
    assert [x][0] == x;
  }

  lemma FrontRuled(front: seq<Tree>, x: Tree, r: seq<Tree>, depth: nat, first: bool, open: bool, pad: Pad)
    requires !x.kind.CharData? && (front == [] || (|front| == 1 && IsBlank(front[0])))
    ensures (forall i :: 0 <= i < |front + [x]| ==> Ruled(front + [x] + r, i, depth, first, open, pad)) <==>
            front == if !first || depth > 0 then [Blank(pad(depth))] else []
  {
    var all := front + [x] + r;
    assert all[|front|] == x;
    assert !Opened(all, 0) && OnlyText(all, 0);
    if front == [] {
      assert Ruled(all, 0, depth, first, open, pad) <==> depth == 0 && first;
    } else {
      assert all[0] == front[0] && !OnlyText(all, 1);
      assert Ruled(all, 0, depth, first, open, pad) <==> front[0] == Blank(pad(depth)) && (depth > 0 || !first);
      assert Ruled(all, 1, depth, first, open, pad) <==> front[0] == Blank(pad(depth));
      assert front == [front[0]];
    }
  }

  // ---------------------------------------------------------------- the rules and the walk

  /** What the walk lists obeys the rules. */
  lemma {:induction false} KidsObey(ts: seq<Tree>, depth: nat, first: bool, open: bool, pad: Pad)
    requires open ==> !first
    ensures Obeys(IndentedKids(ts, depth, first, open, pad), depth, first, open, pad)
    decreases ts, 0
  {
    hide Obeys;
    if ts == [] {
      LastObeys(depth, first, open, pad);
    } else if IsBlank(ts[0]) {
      KidsObey(ts[1..], depth, first, open, pad);
    } else if ts[0].kind.CharData? {
      KidsObey(ts[1..], depth, first, false, pad);
      TextFirst(ts[0], IndentedKids(ts[1..], depth, first, false, pad), depth, first, open, pad);
    } else {
      var front := if !first || depth > 0 then [Blank(pad(depth))] else [];
      var c := if ts[0].kind.Element? then Indented(ts[0], depth + 1, pad) else ts[0];
      if ts[0].kind.Element? {
        KidsObey(ts[0].kids, depth + 1, true, false, pad);
      }
      KidsObey(ts[1..], depth, false, true, pad);
      OtherFirst(front, c, IndentedKids(ts[1..], depth, false, true, pad), depth, first, open, pad);
    }
  }

  lemma LastObeys(depth: nat, first: bool, open: bool, pad: Pad)
    requires open ==> !first
    ensures Obeys(if open && (!first || depth > 0) then [Blank(pad(depth - 1))] else [], depth, first, open, pad)
  {
  }

  lemma LastRuled(b: Tree, depth: nat, first: bool, open: bool, pad: Pad)
    requires IsBlank(b) && Obeys([b], depth, first, open, pad)
    ensures open && b == Blank(pad(depth - 1))
  {
    assert Ruled([b], 0, depth, first, open, pad);
  }

  lemma BlankRuled(r: seq<Tree>, depth: nat, first: bool, open: bool, pad: Pad)
    requires |r| > 1 && IsBlank(r[0]) && Obeys(r, depth, first, open, pad)
    ensures !r[1].kind.CharData?
  {
    assert Ruled(r, 0, depth, first, open, pad);
  }

  /** What the walk makes of the first child that is not character data, and of a blank in front of it. */
  lemma WalkedOn(r: seq<Tree>, n: nat, depth: nat, first: bool, open: bool, pad: Pad)
    requires n < |r| && !r[n].kind.CharData? && (n == 0 || (n == 1 && IsBlank(r[0])))
    ensures IndentedKids(r, depth, first, open, pad) ==
            (if !first || depth > 0 then [Blank(pad(depth))] else []) +
            [if r[n].kind.Element? then Indented(r[n], depth + 1, pad) else r[n]] +
            IndentedKids(r[n + 1..], depth, false, true, pad)
  {
    assert r[n..][0] == r[n] && r[n..][1..] == r[n + 1..];
    assert r[0..] == r;
    assert IndentedKids(r, depth, first, open, pad) == IndentedKids(r[n..], depth, first, open, pad);
  }

  /** A list that obeys the rules is what the walk makes of it. */
  lemma {:induction false} ObeyingStays(r: seq<Tree>, depth: nat, first: bool, open: bool, pad: Pad)
    requires (open ==> !first) && Obeys(r, depth, first, open, pad)
    ensures IndentedKids(r, depth, first, open, pad) == r
    decreases r, 0
  {
    if r == [] {
    } else {
      hide Obeys;
      if r[0].kind.CharData? && !IsBlank(r[0]) {
        assert r == [r[0]] + r[1..];
        TextFirst(r[0], r[1..], depth, first, open, pad);
        ObeyingStays(r[1..], depth, first, false, pad);
      } else if IsBlank(r[0]) && |r| == 1 {
        assert r == [r[0]] && r[1..] == [];
        LastRuled(r[0], depth, first, open, pad);
      } else {
        var n := if IsBlank(r[0]) then 1 else 0;
        if n == 1 {
          BlankRuled(r, depth, first, open, pad);
          assert r[1..][0] == r[1] && r[1..][1..] == r[2..];
        }
        var x := r[n];
        assert r == r[..n] + [x] + r[n + 1..];
        OtherFirst(r[..n], x, r[n + 1..], depth, first, open, pad);
        if x.kind.Element? {
          ObeyingStays(x.kids, depth + 1, true, false, pad);
        }
        ObeyingStays(r[n + 1..], depth, false, true, pad);
        WalkedOn(r, n, depth, first, open, pad);
      }
    }
  }

  /** A tree is the indented form of another exactly if it has the same tokens, blanks aside, and obeys the rules. */
  lemma IndentedIff(t: Tree, r: Tree, depth: nat, pad: Pad)
    requires t.kind.Element?
    ensures r == Indented(t, depth, pad) <==> Bare(r) == Bare(t) && Obeys(r.kids, depth, true, false, pad)
  {
    hide Obeys;
    KidsObey(t.kids, depth, true, false, pad);
    IndentedIsBare(t, depth, pad);
    if Bare(r) == Bare(t) && Obeys(r.kids, depth, true, false, pad) {
      BareTops(r, t);
      IndentedFromBare(t, depth, pad);
      IndentedFromBare(r, depth, pad);
      ObeyingStays(r.kids, depth, true, false, pad);
    }
  }

  lemma BareTops(r: Tree, t: Tree)
    requires Bare(r) == Bare(t)
    ensures r.kind == t.kind
  {
  }
}
