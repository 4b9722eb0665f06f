/** The queue machine of pkg/controller/etree/path.go that evaluates compiled paths. */
module Pather {
  import opened Seqs
  import opened Names
  import opened Texts
  import opened Attrs
  import opened Forest
  import opened PathSpec
  import opened PathFacts
  import opened Sweeps
  import opened Slices
  import opened Fifo

  /** The children of e are among the tokens under consideration. */
  ghost predicate ChildrenIn(e: Token, u: set<Token>)
    reads e
  {
    forall c :: c in e.child ==> c in u
  }

  class Machine {
    const queue: Queue<Node>
    var results: seq<Token>
    var inResults: set<Token>
    var candidates: Slice<Token>
    var scratch: Slice<Token>

    /** The two buffers never share storage. */
    ghost predicate Buffers()
      reads this
    {
      Fits(candidates) && Fits(scratch) && candidates.buf != scratch.buf
    }

    ghost predicate Valid()
      reads this, queue, queue.data
    {
      && queue.Valid() && Buffers()
      && Distinct(results)
      && (forall x :: x in results ==> x in inResults) && (forall x :: x in inResults ==> x in results)
    }

    constructor ()
      ensures Valid() && fresh(queue) && fresh(queue.data) && fresh(candidates.buf) && fresh(scratch.buf)
      ensures queue.contents == [] && results == [] && View(candidates) == [] && View(scratch) == []
    {
      queue := new Queue<Node>();
      results, inResults := [], {};
      var c := Empty<Token>();
      var s := Empty<Token>();
      candidates, scratch := c, s;
    }

    // -------------------------------------------------------------- candidates

    method AddCandidate(t: Token)
      requires Buffers()
      modifies this`candidates, candidates.buf
      ensures Buffers() && (candidates.buf == old(candidates.buf) || fresh(candidates.buf))
      ensures View(candidates) == old(View(candidates)) + [t] && View(scratch) == old(View(scratch))
    {
      candidates := Append(candidates, t);
    }

    method AddScratch(t: Token)
      requires Buffers()
      modifies this`scratch, scratch.buf
      ensures Buffers() && (scratch.buf == old(scratch.buf) || fresh(scratch.buf))
      ensures View(scratch) == old(View(scratch)) + [t] && View(candidates) == old(View(candidates))
    {
      scratch := Append(scratch, t);
    }

    /** Every filter ends by making its output the candidates and their storage the empty scratch. */
    method Swap()
      requires Buffers()
      modifies this`candidates, this`scratch
      ensures Buffers() && View(candidates) == old(View(scratch)) && View(scratch) == []
      ensures candidates.buf == old(scratch.buf) && scratch.buf == old(candidates.buf)
    {
      candidates, scratch := scratch, Reset(candidates);
    }

    // -------------------------------------------------------------- selectors

    method SelectChildren(e: Token, ghost u: set<Token>)
      requires Buffers() && e in u && ChildrenIn(e, u)
      modifies this`candidates, candidates.buf
      ensures Buffers() && (candidates.buf == old(candidates.buf) || fresh(candidates.buf))
      ensures View(scratch) == old(View(scratch))
      ensures View(candidates) == old(View(candidates)) + Kids(Taken(u), e)
    {
      hide ElementsOf, View;
      NothingNamed(Taken(u), "", "");
      ghost var s, was := Taken(u), View(candidates);
      var ts := e.child;
      for i := 0 to |ts|
        invariant Buffers() && (candidates.buf == old(candidates.buf) || fresh(candidates.buf))
        invariant Taken(u) == s
        invariant View(scratch) == old(View(scratch))
        invariant View(candidates) == was + ElementsOf(s, ts[..i])
      {
        ElementsOfNext(s, ts, i);
        assert ts[i] in u;
        assert s[ts[i]].kind == ts[i].kind;
        if ts[i].kind.Element? {
          AddCandidate(ts[i]);
        }
      }
      assert ts[..|ts|] == ts;
    }

    method SelectChildrenByTag(space: string, tag: string, e: Token, ghost u: set<Token>)
      requires Buffers() && e in u && ChildrenIn(e, u)
      modifies this`candidates, candidates.buf
      ensures Buffers() && (candidates.buf == old(candidates.buf) || fresh(candidates.buf))
      ensures View(scratch) == old(View(scratch))
      ensures View(candidates) == old(View(candidates)) + Named(Taken(u), space, tag, Kids(Taken(u), e))
    {
      hide Named, ElementsOf, View, Taken;
      NothingNamed(Taken(u), space, tag);
      ChildKinds(u, e);
      ghost var s, was := Taken(u), View(candidates);
      var ts := e.child;
      for i := 0 to |ts|
        invariant Buffers() && (candidates.buf == old(candidates.buf) || fresh(candidates.buf))
        invariant View(scratch) == old(View(scratch))
        invariant View(candidates) == was + Named(s, space, tag, ElementsOf(s, ts[..i]))
      {
        AddIfNamed(space, tag, ts, i, s, was);
      }
      assert ts[..|ts|] == ts;
    }

    /** One turn of the loop in selectChildrenByTag. */
    method AddIfNamed(space: string, tag: string, ts: seq<Token>, i: nat, ghost s: Shot, ghost was: seq<Token>)
      requires Buffers() && i < |ts| && ts[i] in s && s[ts[i]].kind == ts[i].kind
      requires View(candidates) == was + Named(s, space, tag, ElementsOf(s, ts[..i]))
      modifies this`candidates, candidates.buf
      ensures Buffers() && (candidates.buf == old(candidates.buf) || fresh(candidates.buf))
      ensures View(scratch) == old(View(scratch))
      ensures View(candidates) == was + Named(s, space, tag, ElementsOf(s, ts[..i + 1]))
    {
      hide Named, ElementsOf, View;
      NamedNext(s, space, tag, ts, i);
      if ts[i].kind.Element? && SpaceMatch(space, ts[i].kind.space) && tag == ts[i].kind.tag {
        AddCandidate(ts[i]);
      }
    }

    method SelectParent(e: Token)
      requires Buffers()
      modifies this`candidates, candidates.buf
      ensures Buffers() && (candidates.buf == old(candidates.buf) || fresh(candidates.buf))
      ensures View(scratch) == old(View(scratch))
      ensures View(candidates) == old(View(candidates)) + if e.parent == null then [] else [e.parent]
    {
      if e.parent != null {
        AddCandidate(e.parent);
      }
    }

    method SelectDescendants(e: Token, ghost u: set<Token>)
      requires Buffers() && e in u && WellFormed(Taken(u)) && e.kind.Element?
      modifies this`candidates, candidates.buf
      ensures Buffers() && (candidates.buf == old(candidates.buf) || fresh(candidates.buf))
      ensures View(scratch) == old(View(scratch))
      ensures View(candidates) == old(View(candidates)) + BreadthFirst(Taken(u), [e])
    {
      hide WellFormed, BreadthFirst, Cover, Walking, Queue.Valid, View, Fits, ElementsOf;
      ghost var s, was, listed := Taken(u), View(candidates), [];
      var queue := new Queue<Token>();
      queue.Add(e);
      ghost var w := WalkStart(s, e);
      assert queue.contents == [e];
      var n := queue.Len();
      while n > 0
        invariant Buffers() && (candidates.buf == old(candidates.buf) || fresh(candidates.buf))
        invariant queue.Valid() && fresh(queue) && fresh(queue.data) && n == |queue.contents|
        invariant Taken(u) == s && View(scratch) == old(View(scratch)) && View(candidates) == was + listed
        invariant Walking(s, e, w, queue.contents, listed) && w.k <= |w.level|
        decreases Cover(s, w.level), |w.level| - w.k
      {
        w, listed := VisitNext(queue, u, s, e, w, listed);
        n := queue.Len();
      }
      WalkEnd(s, e, w, listed);
    }

    /** One turn of the loop in selectDescendants. */
    method VisitNext(queue: Queue<Token>, ghost u: set<Token>, ghost s: Shot, ghost e: Token, ghost w: Walk,
                     ghost listed: seq<Token>)
      returns (ghost v: Walk, ghost more: seq<Token>)
      requires Buffers() && queue.Valid() && queue.contents != []
      requires s == Taken(u) && Walking(s, e, w, queue.contents, listed)
      modifies this`candidates, candidates.buf, queue, queue.data
      ensures Buffers() && (candidates.buf == old(candidates.buf) || fresh(candidates.buf))
      ensures queue.Valid() && (queue.data == old(queue.data) || fresh(queue.data))
      ensures |more| == |listed| + 1 && more[..|listed|] == listed
      ensures View(scratch) == old(View(scratch)) && View(candidates) == old(View(candidates)) + [more[|listed|]]
      ensures Taken(u) == s && Walking(s, e, v, queue.contents, more)
      ensures v.k <= |v.level|
      ensures Cover(s, v.level) < Cover(s, w.level) || (v.level == w.level && |v.level| - v.k < |w.level| - w.k)
    {
      hide WellFormed, BreadthFirst, Cover, Walking, Queue.Valid;
      v := WalkStep(s, e, w, queue.contents, listed);
      var x := queue.Remove();
      AddCandidate(x);
      QueueKids(queue, x, u);
      more := listed + [x];
    }

    static method QueueKids(walk: Queue<Token>, e: Token, ghost u: set<Token>)
      requires walk.Valid() && e in u && ChildrenIn(e, u)
      modifies walk, walk.data
      ensures walk.Valid() && (walk.data == old(walk.data) || fresh(walk.data))
      ensures walk.contents == old(walk.contents) + Kids(Taken(u), e)
    {
      ghost var s, was := Taken(u), walk.contents;
      var ts := e.child;
      for i := 0 to |ts|
        invariant walk.Valid() && (walk.data == old(walk.data) || fresh(walk.data))
        invariant Taken(u) == s && walk.contents == was + ElementsOf(s, ts[..i])
      {
        ElementsOfNext(s, ts, i);
        assert ts[i] in u;
        assert s[ts[i]].kind == ts[i].kind;
        if ts[i].kind.Element? {
          walk.Add(ts[i]);
        }
      }
      assert ts[..|ts|] == ts;
    }

    // -------------------------------------------------------------- filters

    /** filterAttr and filterAttrVal on one candidate: kept once if some attribute matches. */
    method KeepByAttr(c: Token, space: string, key: string, wanted: Wanted)
      requires Buffers()
      modifies this`scratch, scratch.buf
      ensures Buffers() && (scratch.buf == old(scratch.buf) || fresh(scratch.buf))
      ensures View(candidates) == old(View(candidates))
      ensures View(scratch) == old(View(scratch)) + if HasWanted(c.attr, space, key, wanted) then [c] else []
    {
      var attrs := c.attr;
      for i := 0 to |attrs|
        invariant Buffers() && scratch == old(scratch) && View(scratch) == old(View(scratch))
        invariant View(candidates) == old(View(candidates))
        invariant forall j :: 0 <= j < i ==> !WantedAt(attrs[j], space, key, wanted)
      {
        if SpaceMatch(space, attrs[i].space) && key == attrs[i].key && (wanted.Any? || wanted.value == attrs[i].value) {
          assert WantedAt(attrs[i], space, key, wanted);
          AddScratch(c);
          return;
        }
      }
    }

    /** filterChild on one candidate: one copy for every matching child. */
    method KeepByChild(c: Token, space: string, tag: string, ghost u: set<Token>)
      requires Buffers() && c in u && ChildrenIn(c, u)
      modifies this`scratch, scratch.buf
      ensures Buffers() && (scratch.buf == old(scratch.buf) || fresh(scratch.buf))
      ensures View(candidates) == old(View(candidates)) && Taken(u) == old(Taken(u))
      ensures View(scratch) == old(View(scratch)) + Repeat(c, |Named(Taken(u), space, tag, Kids(Taken(u), c))|)
    {
      hide Repeat, Named, ElementsOf;
      ghost var s, was := Taken(u), View(scratch);
      var ts := c.child;
      NothingScanned(s, ts, space, tag, "", c);
      for i := 0 to |ts|
        invariant Buffers() && (scratch.buf == old(scratch.buf) || fresh(scratch.buf))
        invariant View(candidates) == old(View(candidates)) && Taken(u) == s
        invariant View(scratch) == was + Repeat(c, |Named(s, space, tag, ElementsOf(s, ts[..i]))|)
      {
        NamedNext(s, space, tag, ts, i);
        RepeatNext(c, |Named(s, space, tag, ElementsOf(s, ts[..i]))|);
        assert ts[i] in u;
        assert s[ts[i]].kind == ts[i].kind;
        if ts[i].kind.Element? && SpaceMatch(space, ts[i].kind.space) && tag == ts[i].kind.tag {
          AddScratch(c);
        }
      }
      assert ts[..|ts|] == ts;
    }

    /** filterChildText on one candidate: one copy for every matching child with the text. */
    method KeepByChildText(c: Token, space: string, tag: string, text: string, ghost u: set<Token>)
      requires Buffers() && c in u && ChildrenIn(c, u) && forall k :: k in c.child ==> ChildrenIn(k, u)
      modifies this`scratch, scratch.buf
      ensures Buffers() && (scratch.buf == old(scratch.buf) || fresh(scratch.buf))
      ensures View(candidates) == old(View(candidates)) && Taken(u) == old(Taken(u))
      ensures View(scratch) == old(View(scratch)) +
              Repeat(c, |WithText(Taken(u), text, Named(Taken(u), space, tag, Kids(Taken(u), c)))|)
    {
      hide Repeat, Named, ElementsOf, WithText, TextOf;
      ghost var s, was := Taken(u), View(scratch);
      var ts := c.child;
      NothingScanned(s, ts, space, tag, text, c);
      for i := 0 to |ts|
        invariant Buffers() && (scratch.buf == old(scratch.buf) || fresh(scratch.buf))
        invariant View(candidates) == old(View(candidates)) && Taken(u) == s
        invariant View(scratch) == was + Repeat(c, |WithText(s, text, Named(s, space, tag, ElementsOf(s, ts[..i])))|)
      {
        WithTextNext(s, space, tag, text, ts, i);
        RepeatNext(c, |WithText(s, text, Named(s, space, tag, ElementsOf(s, ts[..i])))|);
        assert ts[i] in u;
        assert s[ts[i]].kind == ts[i].kind && ChildrenIn(ts[i], u);
        var found := Text(ts[i], u);
        if ts[i].kind.Element? && SpaceMatch(space, ts[i].kind.space) && tag == ts[i].kind.tag && text == found {
          AddScratch(c);
        }
      }
      assert ts[..|ts|] == ts;
    }

    /** The body of the loop of every filter other than filterPos. */
    method Judge(f: Filter, c: Token, ghost u: set<Token>)
      requires Buffers() && !f.Position? && f != NoFilter && c in u && WellFormed(Taken(u)) && c.kind.Element?
      modifies this`scratch, scratch.buf
      ensures Buffers() && (scratch.buf == old(scratch.buf) || fresh(scratch.buf))
      ensures View(candidates) == old(View(candidates)) && Taken(u) == old(Taken(u))
      ensures View(scratch) == old(View(scratch)) + Repeat(c, Copies(Taken(u), f, c))
    {
      hide WellFormed, Named, WithText, ElementsOf, View;
      OwnChildren(u, c);
      match f
      case HasAttr(space, key) =>
        KeepByAttr(c, space, key, Any);
        AnyWanted(c.attr, space, key);
      case AttrIs(space, key, value) =>
        KeepByAttr(c, space, key, Value(value));
        ValueWanted(c.attr, space, key, value);
      case HasChild(space, tag) => KeepByChild(c, space, tag, u);
      case ChildTextIs(space, tag, text) => KeepByChildText(c, space, tag, text, u);
    }

    method FilterEach(f: Filter, ghost u: set<Token>)
      requires Buffers() && !f.Position? && f != NoFilter && WellFormed(Taken(u))
      requires View(scratch) == [] && AllElements(Taken(u), View(candidates))
      modifies this`candidates, this`scratch, scratch.buf
      ensures Buffers() && View(scratch) == [] && scratch.buf == old(candidates.buf)
      ensures candidates.buf == old(scratch.buf) || fresh(candidates.buf)
      ensures Taken(u) == old(Taken(u)) && View(candidates) == Kept(Taken(u), f, old(View(candidates)))
    {
      hide WellFormed, Copies, Repeat;
      ghost var s, cs := Taken(u), View(candidates);
      var given := candidates;
      assert Kept(s, f, cs[..0]) == [];
      hide Kept;
      for i := 0 to given.len
        invariant Buffers() && (scratch.buf == old(scratch.buf) || fresh(scratch.buf))
        invariant candidates == given && View(candidates) == cs && Taken(u) == s
        invariant View(scratch) == Kept(s, f, cs[..i])
      {
        var c := given.buf[i];
        assert c == cs[i] && IsElement(s, cs[i]);
        KeptNext(s, f, cs, i);
        Judge(f, c, u);
      }
      assert cs[..given.len] == cs;
      Swap();
    }

    /** The filter by position; it panics, and then gives false, at the index whose negation overflows. */
    method FilterPosition(index: int) returns (ok: bool)
      requires Buffers() && View(scratch) == []
      modifies this`candidates, this`scratch, scratch.buf
      ensures ok <==> index != MIN_INT
      ensures Buffers() && (ok ==> View(scratch) == [] && scratch.buf == old(candidates.buf))
      ensures candidates.buf == old(scratch.buf) || fresh(candidates.buf) || !ok
      ensures ok ==> View(candidates) == Pick(index, old(View(candidates)))
      ensures ok && 0 <= index < old(candidates.len) ==> View(candidates) == [old(View(candidates))[index]]
      ensures ok && index < 0 <= old(candidates.len) + index ==>
                View(candidates) == [old(View(candidates))[old(candidates.len) + index]]
      ensures ok && (old(candidates.len) + index < 0 || old(candidates.len) <= index) ==> View(candidates) == []
    {
      if index >= 0 {
        if index < candidates.len {
          AddScratch(candidates.buf[index]);
        }
      } else {
        if Negated(index) <= candidates.len {
          if Negated(index) < 0 {
            // the index below is negative, as no list has 2^63 entries
            return false;
          }
          AddScratch(candidates.buf[candidates.len + index]);
        }
      }
      Swap();
      return true;
    }

    // -------------------------------------------------------------- segments

    method Select(sel: Selector, e: Token, ghost u: set<Token>)
      requires Buffers() && e in u && WellFormed(Taken(u)) && e.kind.Element?
      modifies this`candidates, candidates.buf
      ensures Buffers() && (candidates.buf == old(candidates.buf) || fresh(candidates.buf))
      ensures View(scratch) == old(View(scratch)) && Taken(u) == old(Taken(u))
      ensures View(candidates) == old(View(candidates)) + Selected(Taken(u), sel, e)
    {
      hide WellFormed, Named, ElementsOf, View, BreadthFirst;
      OwnChildren(u, e);
      match sel
      case Self => AddCandidate(e);
      case Parent => SelectParent(e);
      case Children => SelectChildren(e, u);
      case Descendants => SelectDescendants(e, u);
      case ChildrenByTag(space, tag) => SelectChildrenByTag(space, tag, e, u);
    }

    method Filter(f: Filter, ghost u: set<Token>) returns (ok: bool)
      requires Buffers() && f != NoFilter && WellFormed(Taken(u))
      requires View(scratch) == [] && AllElements(Taken(u), View(candidates))
      modifies this`candidates, this`scratch, scratch.buf
      ensures ok <==> f != Position(MIN_INT)
      ensures Buffers() && Taken(u) == old(Taken(u))
      ensures ok ==> View(scratch) == [] && scratch.buf == old(candidates.buf)
      ensures ok ==> candidates.buf == old(scratch.buf) || fresh(candidates.buf)
      ensures ok ==> View(candidates) == Filtered(Taken(u), f, old(View(candidates)))
    {
      hide WellFormed, Kept, View;
      if f.Position? {
        ok := FilterPosition(f.index);
      } else {
        FilterEach(f, u);
        ok := true;
      }
    }

    /** The selector and then the filters in turn; the segment panics if one of the filters does. */
    method ApplySegment(seg: Segment, e: Token, ghost u: set<Token>) returns (ok: bool)
      requires Buffers() && NoFilter !in seg.filters && e in u && WellFormed(Taken(u)) && e.kind.Element?
      requires View(candidates) == [] && View(scratch) == []
      modifies this`candidates, this`scratch, candidates.buf, scratch.buf
      ensures ok <==> !Overflows(seg)
      ensures Buffers() && Taken(u) == old(Taken(u))
      ensures ok ==> View(scratch) == []
      ensures ok ==> fresh({candidates.buf, scratch.buf} - old({candidates.buf, scratch.buf}))
      ensures ok ==> View(candidates) == Step(Taken(u), seg, e)
    {
      hide WellFormed, Filtered, View, Selected;
      ghost var s := Taken(u);
      Select(seg.sel, e, u);
      ghost var selected := View(candidates);
      assert selected == Selected(s, seg.sel, e);
      for i := 0 to |seg.filters|
        invariant Buffers() && View(scratch) == [] && Taken(u) == s
        invariant fresh({candidates.buf, scratch.buf} - old({candidates.buf, scratch.buf}))
        invariant AllElements(s, View(candidates))
        invariant FilteredByAll(s, seg.filters[i..], View(candidates)) == FilteredByAll(s, seg.filters, selected)
        invariant Position(MIN_INT) !in seg.filters[..i]
      {
        assert seg.filters[i] in seg.filters;
        ok := Filter(seg.filters[i], u);
        if !ok {
          return;
        }
      }
      assert seg.filters[..|seg.filters|] == seg.filters;
      ok := true;
    }

    // -------------------------------------------------------------- the queue machine

    /** Collect the candidates that are new. */
    method Collect(ghost before: seq<Token>, ghost gathered: seq<Token>)
      requires Valid() && results == Deduped(before, gathered)
      modifies this`results, this`inResults
      ensures Valid() && results == Deduped(before, gathered + View(candidates))
    {
      hide Deduped, Queue.Valid;
      ghost var cs := View(candidates);
      assert gathered + cs[..0] == gathered;
      for i := 0 to candidates.len
        invariant Valid() && View(candidates) == cs
        invariant results == Deduped(before, gathered + cs[..i])
      {
        var c := candidates.buf[i];
        assert gathered + cs[..i + 1] == (gathered + cs[..i]) + [c];
        DedupedNext(before, gathered + cs[..i], c);
        if c !in inResults {
          inResults := inResults + {c};
          results := results + [c];
        }
      }
      assert cs[..candidates.len] == cs;
    }

    /** Queue the candidates with the segments that remain. */
    method Enqueue(remain: Group)
      requires queue.Valid() && Buffers()
      modifies queue, queue.data
      ensures queue.Valid() && (queue.data == old(queue.data) || fresh(queue.data))
      ensures queue.contents == old(queue.contents) + Nodes(View(candidates), remain)
      ensures View(candidates) == old(View(candidates)) && View(scratch) == old(View(scratch))
    {
      hide Queue.Valid;
      ghost var cs, was := View(candidates), queue.contents;
      for i := 0 to candidates.len
        invariant queue.Valid() && (queue.data == old(queue.data) || fresh(queue.data))
        invariant View(candidates) == cs && View(scratch) == old(View(scratch))
        invariant queue.contents == was + Nodes(cs[..i], remain)
      {
        queue.Add(Node(candidates.buf[i], remain));
        assert Nodes(cs[..i + 1], remain) == Nodes(cs[..i], remain) + [Node(cs[i], remain)];
      }
      assert cs[..candidates.len] == cs;
    }

    /** eval: apply the first remaining segment, then collect or queue what it leads to. */
    method Eval(n: Node, ghost u: set<Token>, ghost before: seq<Token>, ghost gathered: seq<Token>) returns (ok: bool)
      requires Valid() && View(scratch) == [] && results == Deduped(before, gathered)
      requires WellFormed(Taken(u)) && n.e in u && n.e.kind.Element? && CompiledGroup(n.segments)
      modifies this, candidates.buf, scratch.buf, queue, queue.data
      ensures ok <==> !Overflows(n.segments[0])
      ensures Taken(u) == old(Taken(u))
      ensures ok ==> Valid() && View(scratch) == []
      ensures ok ==> fresh({candidates.buf, scratch.buf} - old({candidates.buf, scratch.buf}))
      ensures ok ==> queue.data == old(queue.data) || fresh(queue.data)
      ensures ok ==>
              var out := Step(Taken(u), n.segments[0], n.e);
              if |n.segments| == 1
              then results == Deduped(before, gathered + out) && queue.contents == old(queue.contents)
              else results == old(results) && queue.contents == old(queue.contents) + Nodes(out, n.segments[1..])
    {
      hide WellFormed, Deduped, Queue.Valid, Step, Distinct;
      candidates := Reset(candidates);
      var seg, remain := n.segments[0], n.segments[1..];
      ok := ApplySegment(seg, n.e, u);
      if !ok {
        return;
      }
      if |remain| == 0 {
        Collect(before, gathered);
      } else {
        Enqueue(remain);
      }
    }

    /** One turn of the inner loop of traverse. */
    method EvalNext(ghost u: set<Token>, ghost goal: Goal, ghost w: Sweep,
                    ghost before: seq<Token>, ghost gathered: seq<Token>)
      returns (ok: bool, ghost v: Sweep, ghost more: seq<Token>)
      requires Valid() && View(scratch) == [] && queue.contents != []
      requires Sweeping(Taken(u), goal, w, queue.contents, gathered) && results == Deduped(before, gathered)
      modifies this, candidates.buf, scratch.buf, queue, queue.data
      ensures Taken(u) == old(Taken(u)) && (!ok ==> goal.panics)
      ensures ok ==> Valid() && View(scratch) == []
      ensures ok ==> fresh({candidates.buf, scratch.buf} - old({candidates.buf, scratch.buf}))
      ensures ok ==> queue.data == old(queue.data) || fresh(queue.data)
      ensures ok ==> Sweeping(Taken(u), goal, v, queue.contents, more) && results == Deduped(before, more)
      ensures ok ==> v.k <= |v.level|
      ensures ok ==> |v.g| < |w.g| || (|v.g| == |w.g| && |v.level| - v.k < |w.level| - w.k)
    {
      hide WellFormed, Queue.Valid, Step, Distinct, View, MatchesOfAll, Deduped, Overflows;
      v := SweepStep(Taken(u), goal, w, queue.contents, gathered);
      var x := queue.Remove();
      ok := Eval(x, u, before, gathered);
      more := if |x.segments| == 1 then gathered + Step(Taken(u), x.segments[0], x.e) else gathered;
    }

    /** The inner loop of traverse, until the queue is empty again. */
    method Drain(ghost u: set<Token>, ghost goal: Goal, ghost start: Sweep, ghost before: seq<Token>)
      returns (ok: bool, ghost w: Sweep, ghost gathered: seq<Token>)
      requires Valid() && View(scratch) == []
      requires Sweeping(Taken(u), goal, start, queue.contents, []) && start.k <= |start.level|
      requires results == Deduped(before, [])
      modifies this, candidates.buf, scratch.buf, queue, queue.data
      ensures Taken(u) == old(Taken(u)) && (!ok ==> goal.panics)
      ensures ok ==> Valid() && View(scratch) == [] && queue.contents == []
      ensures ok ==> fresh({candidates.buf, scratch.buf} - old({candidates.buf, scratch.buf}))
      ensures ok ==> queue.data == old(queue.data) || fresh(queue.data)
      ensures ok ==> Sweeping(Taken(u), goal, w, [], gathered) && results == Deduped(before, gathered)
    {
      hide WellFormed, Sweeping, Queue.Valid, Step, Distinct, View, Deduped, Matches, Fits, Taken;
      w, gathered := start, [];
      ghost var s := Taken(u);
      var n := queue.Len();
      while n > 0
        invariant Valid() && View(scratch) == [] && Taken(u) == s && n == |queue.contents|
        invariant fresh({candidates.buf, scratch.buf} - old({candidates.buf, scratch.buf}))
        invariant queue.data == old(queue.data) || fresh(queue.data)
        invariant Sweeping(s, goal, w, queue.contents, gathered) && results == Deduped(before, gathered)
        invariant w.k <= |w.level|
        decreases |w.g|, |w.level| - w.k
      {
        ok, w, gathered := EvalNext(u, goal, w, before, gathered);
        if !ok {
          return;
        }
        n := queue.Len();
      }
      ok := true;
    }

    /** traverse for one group, from the element e. */
    method Follow(e: Token, g: Group, ghost u: set<Token>) returns (ok: bool)
      requires Valid() && View(scratch) == [] && queue.contents == []
      requires WellFormed(Taken(u)) && e in u && e.kind.Element? && CompiledGroup(g)
      modifies this, candidates.buf, scratch.buf, queue, queue.data
      ensures Taken(u) == old(Taken(u)) && (ok <==> !PanicsFrom(Taken(u), g, [e]))
      ensures ok ==> Valid() && View(scratch) == [] && queue.contents == []
      ensures ok ==> fresh({candidates.buf, scratch.buf} - old({candidates.buf, scratch.buf}))
      ensures ok ==> queue.data == old(queue.data) || fresh(queue.data)
      ensures ok ==> results == Deduped(old(results), Matches(Taken(u), g, e))
    {
      hide WellFormed, Sweeping, Queue.Valid, Step, Distinct, View, Deduped, Matches, Fits, CompiledGroup, Nodes;
      hide PanicsFrom;
      DedupedNone(results);
      ghost var before, goal := results, GoalOf(Taken(u), g, e);
      queue.Add(Node(e, g));
      ghost var w := SweepStart(Taken(u), e, g);
      assert queue.contents == [Node(e, g)];
      ghost var gathered;
      ok, w, gathered := Drain(u, goal, w, before);
      if ok {
        SweepEnd(Taken(u), goal, w, gathered);
      }
    }

    /** traverse: a panic, or the matches of all groups, each once, in the order in which they are first found. */
    method Traverse(e: Token, path: Path, ghost u: set<Token>) returns (ok: bool, found: seq<Token>)
      requires Valid() && View(scratch) == [] && queue.contents == [] && results == []
      requires WellFormed(Taken(u)) && e in u && e.kind.Element? && Compiled(path)
      modifies this, candidates.buf, scratch.buf, queue, queue.data
      ensures Taken(u) == old(Taken(u)) && (ok <==> !Panics(Taken(u), path, e))
      ensures ok ==> found == Found(Taken(u), path, e)
    {
      hide WellFormed, Queue.Valid, Matches, Distinct, View, AllMatches, Deduped, PanicsFrom;
      AllMatchesNone(Taken(u), path, e);
      ghost var s := Taken(u);
      for i := 0 to |path|
        invariant Valid() && View(scratch) == [] && queue.contents == [] && Taken(u) == s
        invariant fresh({candidates.buf, scratch.buf} - old({candidates.buf, scratch.buf}))
        invariant queue.data == old(queue.data) || fresh(queue.data)
        invariant results == Deduped([], AllMatches(s, path[..i], e))
        invariant forall g :: g in path[..i] ==> !PanicsFrom(s, g, [e])
      {
        assert path[i] in path;
        AllMatchesNext(s, path, i, e);
        DedupedTwice([], AllMatches(s, path[..i], e), Matches(s, path[i], e));
        ok := Follow(e, path[i], u);
        if !ok {
          return false, [];
        }
      }
      assert path[..|path|] == path;
      return true, results;
    }
  }

  /** FindElementsPath: a panic, or every element that the path leads to from e. */
  method FindElements(e: Token, path: Path, ghost u: set<Token>) returns (ok: bool, found: seq<Token>)
    requires WellFormed(Taken(u)) && e in u && e.kind.Element? && Compiled(path)
    ensures Taken(u) == old(Taken(u)) && (ok <==> !Panics(Taken(u), path, e))
    ensures ok ==> found == Found(Taken(u), path, e)
  {
    hide WellFormed, Found, Queue.Valid, Panics;
    var p := new Machine();
    ok, found := p.Traverse(e, path, u);
  }

  /** Element.Text: the character data right after the opening tag. */
  method Text(e: Token, ghost u: set<Token>) returns (r: string)
    requires e in u && ChildrenIn(e, u)
    ensures r == TextOf(Taken(u), e)
  {
    if |e.child| == 0 {
      return "";
    }
    assert e.child[0] in u;
    if e.child[0].kind.CharData? {
      return e.child[0].kind.data;
    }
    return "";
  }

  /** The value an attribute filter asks for. */
  datatype Wanted = Any | Value(value: string)

  predicate WantedAt(a: Attr, space: string, key: string, wanted: Wanted) {
    AttrMatches(a, space, key) && (wanted.Any? || wanted.value == a.value)
  }

  predicate HasWanted(attrs: seq<Attr>, space: string, key: string, wanted: Wanted) {
    exists i :: 0 <= i < |attrs| && WantedAt(attrs[i], space, key, wanted)
  }

  lemma AnyWanted(attrs: seq<Attr>, space: string, key: string)
    ensures HasWanted(attrs, space, key, Any) <==> CarriesAttr(attrs, space, key)
  {
    if CarriesAttr(attrs, space, key) {
      var i :| 0 <= i < |attrs| && AttrMatches(attrs[i], space, key);
      assert WantedAt(attrs[i], space, key, Any);
    }
  }

  lemma ValueWanted(attrs: seq<Attr>, space: string, key: string, value: string)
    ensures HasWanted(attrs, space, key, Value(value)) <==> CarriesValue(attrs, space, key, value)
  {
    if CarriesValue(attrs, space, key, value) {
      var i :| 0 <= i < |attrs| && AttrMatches(attrs[i], space, key) && attrs[i].value == value;
      assert WantedAt(attrs[i], space, key, Value(value));
    }
  }

  lemma NothingNamed(s: Shot, space: string, tag: string)
    ensures ElementsOf(s, []) == [] && Named(s, space, tag, []) == []
  {
  }

  lemma ChildKinds(u: set<Token>, e: Token)
    requires e in u && ChildrenIn(e, u)
    ensures e in Taken(u) && Taken(u)[e].child == e.child
    ensures forall c :: c in e.child ==> c in Taken(u) && Taken(u)[c].kind == c.kind
  {
  }

  lemma OwnChildren(u: set<Token>, e: Token)
    requires WellFormed(Taken(u)) && e in u
    ensures ChildrenIn(e, u) && forall k :: k in e.child ==> ChildrenIn(k, u)
  {
    var s := Taken(u);
    assert TokenOk(s, e);
    assert forall c :: c in e.child ==> c in u;
    forall k | k in e.child ensures ChildrenIn(k, u) {
      assert TokenOk(s, k);
      assert s[k].child == k.child;
    }
  }
}
