/**
 * The two first-in-first-out sweeps of pkg/controller/etree/path.go, as facts about what their queues hold: the
 * breadth-first walk of selectDescendants, whose queue holds the rest of a level and the children of what has
 * been listed of it, and the sweep of traverse, whose queue holds the rest of the elements that a segment is
 * applied to and then what the segment has led to so far.
 */
module Sweeps {
  import opened Forest
  import opened PathSpec
  import opened PathFacts

  // ---------------------------------------------------------------- the breadth-first walk

  /** The walk has listed `above`, whole levels, and the first k elements of `level`. */
  datatype Walk = Walk(above: seq<Token>, level: seq<Token>, k: nat)

  ghost predicate Level(s: Shot, es: seq<Token>) {
    WellFormed(s) && AllElements(s, es) && Antichain(s, es)
  }

  /** What the queue holds once the first k elements of a level are listed. */
  ghost function Pending(s: Shot, level: seq<Token>, k: nat): seq<Token>
    requires AllElements(s, level) && k <= |level|
  {
    level[k..] + KidsOfAll(s, level[..k])
  }

  ghost predicate Walking(s: Shot, e: Token, w: Walk, queued: seq<Token>, listed: seq<Token>) {
    && IsElement(s, e) && Level(s, w.level) && w.k <= |w.level|
    && queued == Pending(s, w.level, w.k)
    && listed == w.above + w.level[..w.k]
    && w.above + BreadthFirst(s, w.level) == BreadthFirst(s, [e])
  }

  lemma WalkStart(s: Shot, e: Token) returns (w: Walk)
    requires WellFormed(s) && IsElement(s, e)
    ensures w == Walk([], [e], 0) && Walking(s, e, w, [e], [])
  {
    hide WellFormed, BreadthFirst, Cover, KidsOfAll, Pending;
    w := Walk([], [e], 0);
    PendingEnds(s, [e]);
    assert [] + BreadthFirst(s, [e]) == BreadthFirst(s, [e]);
  }

  /** A level enters the queue whole and leaves it as the next level. */
  lemma PendingEnds(s: Shot, level: seq<Token>)
    requires AllElements(s, level)
    ensures Pending(s, level, 0) == level
    ensures Pending(s, level, |level|) == KidsOfAll(s, level)
    ensures level == [] ==> KidsOfAll(s, level) == []
  {
    assert level[..|level|] == level && level[0..] == level;
  }

  lemma PendingNext(s: Shot, level: seq<Token>, k: nat)
    requires AllElements(s, level) && k < |level|
    ensures Pending(s, level, k) != [] && Pending(s, level, k)[0] == level[k]
    ensures Pending(s, level, k + 1) == Pending(s, level, k)[1..] + Kids(s, level[k])
  {
    hide ElementsOf, KidsOfAll, Kids;
    var x := level[k];
    assert level[..k + 1] == level[..k] + [x];
    KidsOfAllConcat(s, level[..k], [x]);
    KidsOfOne(s, x);
    assert level[k..][1..] == level[k + 1..];
  }

  /** When a level is finished the queue holds exactly the next one. */
  lemma NextLevel(s: Shot, e: Token, w: Walk, queued: seq<Token>, listed: seq<Token>) returns (v: Walk)
    requires Walking(s, e, w, queued, listed) && w.k == |w.level|
    ensures v == Walk(listed, queued, 0)
    ensures Walking(s, e, v, queued, listed)
    ensures w.level != [] ==> Cover(s, v.level) < Cover(s, w.level)
    ensures w.level == [] ==> queued == [] && listed == BreadthFirst(s, [e])
  {
    hide WellFormed, Antichain, AllElements, BreadthFirst, Cover, KidsOfAll, Pending;
    v := Walk(listed, queued, 0);
    BreadthFirstUnfold(s, w.level);
    PendingEnds(s, w.level);
    PendingEnds(s, queued);
    assert w.level[..w.k] == w.level;
    assert w.above + (w.level + BreadthFirst(s, queued)) == (w.above + w.level) + BreadthFirst(s, queued);
  }

  lemma WalkOn(s: Shot, e: Token, w: Walk, queued: seq<Token>, listed: seq<Token>) returns (v: Walk)
    requires Walking(s, e, w, queued, listed) && w.k < |w.level|
    ensures v == w.(k := w.k + 1)
    ensures queued != [] && queued[0] == w.level[w.k]
    ensures IsElement(s, queued[0])
    ensures Walking(s, e, v, queued[1..] + Kids(s, queued[0]), listed + [queued[0]])
  {
    hide WellFormed, Antichain, BreadthFirst, Cover, KidsOfAll, Pending;
    v := w.(k := w.k + 1);
    PendingNext(s, w.level, w.k);
    assert listed + [queued[0]] == w.above + w.level[..w.k + 1];
  }

  lemma WalkStep(s: Shot, e: Token, w: Walk, queued: seq<Token>, listed: seq<Token>) returns (v: Walk)
    requires Walking(s, e, w, queued, listed) && queued != []
    ensures queued[0] in s && forall c :: c in s[queued[0]].child ==> c in s
    ensures Walking(s, e, v, queued[1..] + Kids(s, queued[0]), listed + [queued[0]])
    ensures v.k <= |v.level|
    ensures Cover(s, v.level) < Cover(s, w.level) || (v.level == w.level && |v.level| - v.k < |w.level| - w.k)
  {
    if w.k == |w.level| {
      v := NextLevel(s, e, w, queued, listed);
      v := WalkOn(s, e, v, queued, listed);
    } else {
      v := WalkOn(s, e, w, queued, listed);
    }
    assert TokenOk(s, v.level[v.k - 1]);
  }

  lemma WalkEnd(s: Shot, e: Token, w: Walk, listed: seq<Token>)
    requires Walking(s, e, w, [], listed)
    ensures listed == BreadthFirst(s, [e])
  {
    var v := NextLevel(s, e, w, [], listed);
    assert v.above + BreadthFirst(s, []) == listed;
  }

  // ---------------------------------------------------------------- the sweep of a path

  /** An element and the path segments still to be applied to it. */
  datatype Node = Node(e: Token, segments: Group)

  function Nodes(es: seq<Token>, g: Group): seq<Node> {
    seq(|es|, i requires 0 <= i < |es| => Node(es[i], g))
  }

  /** What the group amounts to: its matches, and whether it panics. */
  datatype Goal = Goal(matches: seq<Token>, panics: bool)

  ghost function GoalOf(s: Shot, g: Group, e: Token): Goal
    requires WellFormed(s) && IsElement(s, e)
  {
    Goal(Matches(s, g, e), PanicsFrom(s, g, [e]))
  }

  /** The sweep has applied the first segment of g to the first k elements of `level`. */
  datatype Sweep = Sweep(g: Group, level: seq<Token>, k: nat)

  /** What the queue holds: the rest of the level, then what the part already done has led to. */
  ghost function Waiting(s: Shot, w: Sweep): seq<Node>
    requires WellFormed(s) && AllElements(s, w.level) && w.k <= |w.level| && w.g != []
  {
    Nodes(w.level[w.k..], w.g) +
    (if |w.g| == 1 then [] else Nodes(MatchesOfAll(s, w.g[..1], w.level[..w.k]), w.g[1..]))
  }

  /** What the group has contributed to the results so far: something only at its last segment. */
  ghost function Gathered(s: Shot, w: Sweep): seq<Token>
    requires WellFormed(s) && AllElements(s, w.level) && w.k <= |w.level| && w.g != []
  {
    if |w.g| == 1 then MatchesOfAll(s, w.g, w.level[..w.k]) else []
  }

  ghost predicate Sweeping(s: Shot, goal: Goal, w: Sweep, queued: seq<Node>, gathered: seq<Token>) {
    && WellFormed(s) && AllElements(s, w.level) && w.k <= |w.level| && CompiledGroup(w.g)
    && queued == Waiting(s, w)
    && gathered == Gathered(s, w)
    && Goal(MatchesOfAll(s, w.g, w.level), PanicsFrom(s, w.g, w.level)) == goal
    && (w.k > 0 ==> !Overflows(w.g[0]))
  }

  lemma SweepStart(s: Shot, e: Token, g: Group) returns (w: Sweep)
    requires WellFormed(s) && IsElement(s, e) && CompiledGroup(g)
    ensures w == Sweep(g, [e], 0) && Sweeping(s, GoalOf(s, g, e), w, [Node(e, g)], [])
  {
    hide WellFormed;
    w := Sweep(g, [e], 0);
    assert MatchesOfAll(s, g, [e]) == Matches(s, g, e) + [];
    assert [e][0..] == [e] && [e][..0] == [];
  }

  /** A finished level gives way to the next one, with one segment fewer to apply. */
  lemma SweepDown(s: Shot, goal: Goal, w: Sweep, queued: seq<Node>, gathered: seq<Token>) returns (v: Sweep)
    requires Sweeping(s, goal, w, queued, gathered) && w.k == |w.level| > 0 && |w.g| > 1
    ensures v.k == 0 && v.g == w.g[1..] && Sweeping(s, goal, v, queued, gathered)
    ensures queued == Nodes(v.level, v.g)
  {
    hide WellFormed, AllElements;
    var next := MatchesOfAll(s, w.g[..1], w.level);
    v := Sweep(w.g[1..], next, 0);
    assert w.level[..w.k] == w.level && w.level[w.k..] == [];
    assert next[0..] == next && next[..0] == [];
    assert Nodes([], w.g) == [] && Nodes([], v.g) == [];
    MatchesByLevel(s, w.g, w.level);
  }

  lemma NodesFrom(es: seq<Token>, k: nat, g: Group)
    requires k < |es|
    ensures Nodes(es[k..], g) == [Node(es[k], g)] + Nodes(es[k + 1..], g)
  {
  }

  lemma NodesConcat(a: seq<Token>, b: seq<Token>, g: Group)
    ensures Nodes(a + b, g) == Nodes(a, g) + Nodes(b, g)
  {
  }

  lemma SweepOn(s: Shot, goal: Goal, w: Sweep, queued: seq<Node>, gathered: seq<Token>) returns (v: Sweep)
    requires Sweeping(s, goal, w, queued, gathered) && w.k < |w.level| && !Overflows(w.g[0])
    ensures v == w.(k := w.k + 1) && queued != [] && queued[0] == Node(w.level[w.k], w.g)
    ensures IsElement(s, w.level[w.k])
    ensures var out := Step(s, w.g[0], w.level[w.k]);
            if |w.g| == 1 then Sweeping(s, goal, v, queued[1..], gathered + out)
            else Sweeping(s, goal, v, queued[1..] + Nodes(out, w.g[1..]), gathered)
  {
    hide WellFormed, Step, MatchesOfAll, Nodes;
    var x, g := w.level[w.k], w.g;
    v := w.(k := w.k + 1);
    assert w.level[..w.k + 1] == w.level[..w.k] + [x];
    MatchesConcat(s, g[..1], w.level[..w.k], [x]);
    MatchesOne(s, g, x);
    NodesFrom(w.level, w.k, g);
    NodesConcat(MatchesOfAll(s, g[..1], w.level[..w.k]), Step(s, g[0], x), g[1..]);
    assert |g| == 1 ==> g[..1] == g;
  }

  /** The node at the head of the queue belongs to the level under way, if need be the next one. */
  lemma SweepHead(s: Shot, goal: Goal, w: Sweep, queued: seq<Node>, gathered: seq<Token>) returns (d: Sweep)
    requires Sweeping(s, goal, w, queued, gathered) && queued != []
    ensures Sweeping(s, goal, d, queued, gathered) && d.k < |d.level|
    ensures d == w || (|d.g| < |w.g| && w.k == |w.level|)
  {
    hide WellFormed, Step, Overflows;
    if w.k == |w.level| {
      assert w.level[w.k..] == [] && Nodes([], w.g) == [];
      d := SweepDown(s, goal, w, queued, gathered);
    } else {
      d := w;
    }
  }

  /** Evaluating the node at the head of the queue: a panic, or one step of the sweep. */
  lemma SweepStep(s: Shot, goal: Goal, w: Sweep, queued: seq<Node>, gathered: seq<Token>) returns (v: Sweep)
    requires Sweeping(s, goal, w, queued, gathered) && queued != []
    ensures CompiledGroup(queued[0].segments) && IsElement(s, queued[0].e)
    ensures Overflows(queued[0].segments[0]) ==> goal.panics
    ensures !Overflows(queued[0].segments[0]) ==>
              var g, out := queued[0].segments, Step(s, queued[0].segments[0], queued[0].e);
              if |g| == 1 then Sweeping(s, goal, v, queued[1..], gathered + out)
              else Sweeping(s, goal, v, queued[1..] + Nodes(out, g[1..]), gathered)
    ensures v.k <= |v.level|
    ensures !Overflows(queued[0].segments[0]) ==>
              |v.g| < |w.g| || (|v.g| == |w.g| && |v.level| - v.k < |w.level| - w.k)
  {
    hide WellFormed, Step, MatchesOfAll, Overflows;
    var d := SweepHead(s, goal, w, queued, gathered);
    NodesFrom(d.level, d.k, d.g);
    if Overflows(d.g[0]) {
      v := d;
    } else {
      v := SweepOn(s, goal, d, queued, gathered);
    }
  }

  lemma SweepEnd(s: Shot, goal: Goal, w: Sweep, gathered: seq<Token>)
    requires Sweeping(s, goal, w, [], gathered)
    ensures gathered == goal.matches && !goal.panics
  {
    hide WellFormed, Overflows, MatchesOfAll;
    assert |Nodes(w.level[w.k..], w.g)| == 0;
    assert w.level[..w.k] == w.level;
    var next := MatchesOfAll(s, w.g[..1], w.level);
    if |w.g| > 1 {
      assert |Nodes(next, w.g[1..])| == 0;
      MatchesByLevel(s, w.g, w.level);
      NothingFromNothing(s, w.g[1..], next);
    }
    assert !PanicsFrom(s, w.g[1..], next);
  }
}
