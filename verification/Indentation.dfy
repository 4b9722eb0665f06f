/** What indenting in pkg/controller/etree/etree.go makes of a tree, as functions on values. */
module Indentation {
  import opened Seqs
  import opened Forest
  import opened Trees
  import opened Printing

  // ---------------------------------------------------------------- helpers.go

  const CR_SPACES := "\n" + Repeat(' ', 64)
  const CR_TABS := "\n" + Repeat('\t', 16)

  function CrIndent(n: int, source: string): string
    requires |source| >= 2
  {
    if n < 0 then source[..1]
    else if n < |source| then source[..n + 1]
    else source + Repeat(source[1], n - |source| + 1)
  }

  /** However long the prepared string is, crIndent gives a newline and n characters, or none if n is negative. */
  lemma CrIndentIs(n: int, pad: char, prepared: nat)
    requires prepared > 0
    ensures CrIndent(n, "\n" + Repeat(pad, prepared)) == "\n" + Repeat(pad, if n < 0 then 0 else n)
  {
  }

  // ---------------------------------------------------------------- the indent functions

  /** The text in front of a token, by the depth at which it stands. */
  type Pad = int -> string

  function Spaces(spaces: int): Pad {
    if spaces < 0 then (depth: int) => "" else (depth: int) => CrIndent(depth * spaces, CR_SPACES)
  }

  const TABS: Pad := (depth: int) => CrIndent(depth, CR_TABS)

  /** A line feed and so many spaces, or one tab, for each level; nothing at all if the number of spaces is negative. */
  lemma PadsAre(spaces: int, depth: int)
    ensures Spaces(spaces)(depth) ==
            if spaces < 0 then "" else "\n" + Repeat(' ', if depth * spaces < 0 then 0 else depth * spaces)
    ensures TABS(depth) == "\n" + Repeat('\t', if depth < 0 then 0 else depth)
  {
    hide CrIndent;
    CrIndentIs(depth * spaces, ' ', 64);
    CrIndentIs(depth, '\t', 16);
  }

  // ---------------------------------------------------------------- stripping and indenting

  /** Indentation, or what looks like it. */
  predicate IsBlank(t: Tree) {
    t.kind.CharData? && t.kind.whitespace
  }

  function Stripped(ts: seq<Tree>): seq<Tree> {
    if ts == [] then []
    else if IsBlank(ts[0]) then Stripped(ts[1..])
    else [ts[0]] + Stripped(ts[1..])
  }

  function Blank(text: string): Tree {
    Tree(CharData(text, true), [], [])
  }

  function Indented(t: Tree, depth: nat, pad: Pad): Tree
    decreases t, 1
  {
    t.(kids := IndentedKids(t.kids, depth, true, false, pad))
  }

  /**
   * The children from some point on: `first` says that nothing but character data came before, `open` that
   * the last child before was something else.
   */
  function IndentedKids(ts: seq<Tree>, depth: nat, first: bool, open: bool, pad: Pad): seq<Tree>
    decreases ts, 0
  {
    if ts == [] then (if open && (!first || depth > 0) then [Blank(pad(depth - 1))] else [])
    else if IsBlank(ts[0]) then IndentedKids(ts[1..], depth, first, open, pad)
    else if ts[0].kind.CharData? then [ts[0]] + IndentedKids(ts[1..], depth, first, false, pad)
    else
      (if !first || depth > 0 then [Blank(pad(depth))] else []) +
      [if ts[0].kind.Element? then Indented(ts[0], depth + 1, pad) else ts[0]] +
      IndentedKids(ts[1..], depth, false, true, pad)
  }

  /** The tree without indentation at any depth. */
  function Bare(t: Tree): Tree
    decreases t, 1
  {
    if t.kind.Element? then t.(kids := BareKids(t.kids)) else t
  }

  function BareKids(ts: seq<Tree>): seq<Tree>
    decreases ts, 0
  {
    if ts == [] then []
    else if IsBlank(ts[0]) then BareKids(ts[1..])
    else [Bare(ts[0])] + BareKids(ts[1..])
  }

  // ---------------------------------------------------------------- what indenting keeps

  lemma {:induction false} BareKidsConcat(a: seq<Tree>, b: seq<Tree>)
    ensures BareKids(a + b) == BareKids(a) + BareKids(b)
  {
    if a == [] {
      assert a + b == b;
    } else {
      assert (a + b)[1..] == a[1..] + b;
      BareKidsConcat(a[1..], b);
    }
  }

  lemma BareOne(t: Tree)
    ensures BareKids([t]) == if IsBlank(t) then [] else [Bare(t)]
  {
  }

  /** Indenting keeps every token that is not blank, where it is and in order. */
  lemma {:induction false} IndentedIsBare(t: Tree, depth: nat, pad: Pad)
    requires t.kind.Element?
    ensures Bare(Indented(t, depth, pad)) == Bare(t)
    decreases t, 1
  {
    IndentedKidsAreBare(t.kids, depth, true, false, pad);
  }

  lemma {:induction false} IndentedKidsAreBare(ts: seq<Tree>, depth: nat, first: bool, open: bool, pad: Pad)
    ensures BareKids(IndentedKids(ts, depth, first, open, pad)) == BareKids(ts)
    decreases ts, 0
  {
    if ts == [] {
      BareOne(Blank(pad(depth - 1)));
    } else if IsBlank(ts[0]) {
      IndentedKidsAreBare(ts[1..], depth, first, open, pad);
    } else if ts[0].kind.CharData? {
      IndentedKidsAreBare(ts[1..], depth, first, false, pad);
      BareKidsConcat([ts[0]], IndentedKids(ts[1..], depth, first, false, pad));
      BareOne(ts[0]);
    } else {
      var front := if !first || depth > 0 then [Blank(pad(depth))] else [];
      var c := if ts[0].kind.Element? then Indented(ts[0], depth + 1, pad) else ts[0];
      if ts[0].kind.Element? {
        IndentedIsBare(ts[0], depth + 1, pad);
      }
      IndentedKidsAreBare(ts[1..], depth, false, true, pad);
      BareKidsConcat(front + [c], IndentedKids(ts[1..], depth, false, true, pad));
      BareKidsConcat(front, [c]);
      BareOne(Blank(pad(depth)));
      BareOne(c);
    }
  }

  /** Indentation that is there already makes no difference to indenting. */
  lemma {:induction false} IndentedFromBare(t: Tree, depth: nat, pad: Pad)
    requires t.kind.Element?
    ensures Indented(Bare(t), depth, pad) == Indented(t, depth, pad)
    decreases t, 1
  {
    IndentedKidsFromBare(t.kids, depth, true, false, pad);
  }

  lemma {:induction false} IndentedKidsFromBare(ts: seq<Tree>, depth: nat, first: bool, open: bool, pad: Pad)
    ensures IndentedKids(BareKids(ts), depth, first, open, pad) == IndentedKids(ts, depth, first, open, pad)
    decreases ts, 0
  {
    if ts != [] {
      var rest := BareKids(ts[1..]);
      if IsBlank(ts[0]) {
        IndentedKidsFromBare(ts[1..], depth, first, open, pad);
        assert BareKids(ts) == rest;
      } else {
        assert BareKids(ts)[0] == Bare(ts[0]) && BareKids(ts)[1..] == rest;
        if ts[0].kind.CharData? {
          IndentedKidsFromBare(ts[1..], depth, first, false, pad);
        } else {
          IndentedKidsFromBare(ts[1..], depth, false, true, pad);
          if ts[0].kind.Element? {
            IndentedFromBare(ts[0], depth + 1, pad);
          }
        }
      }
    }
  }

  /** Indenting a second time is as if the first time had not been; in the same way, it changes nothing. */
  lemma IndentedAgain(t: Tree, depth: nat, pad: Pad, depth': nat, pad': Pad)
    requires t.kind.Element?
    ensures Indented(Indented(t, depth, pad), depth', pad') == Indented(t, depth', pad')
    ensures Indented(Indented(t, depth, pad), depth, pad) == Indented(t, depth, pad)
  {
    var i := Indented(t, depth, pad);
    IndentedIsBare(t, depth, pad);
    IndentedFromBare(i, depth', pad');
    IndentedFromBare(t, depth', pad');
    IndentedFromBare(i, depth, pad);
    IndentedFromBare(t, depth, pad);
  }

  /** The capacity that is reserved for n children always suffices, and none of the n gets lost. */
  lemma {:induction false} IndentedSize(ts: seq<Tree>, depth: nat, first: bool, open: bool, pad: Pad)
    ensures var n, m := |Stripped(ts)|, |IndentedKids(ts, depth, first, open, pad)|;
            n <= m <= 2 * n + 1 && (n == 0 && !open ==> m == 0)
    decreases |ts|
  {
    if ts != [] {
      if IsBlank(ts[0]) {
        IndentedSize(ts[1..], depth, first, open, pad);
      } else if ts[0].kind.CharData? {
        IndentedSize(ts[1..], depth, first, false, pad);
      } else {
        IndentedSize(ts[1..], depth, false, true, pad);
      }
    }
  }

  lemma {:induction false} IndentedStripped(ts: seq<Tree>, depth: nat, first: bool, open: bool, pad: Pad)
    ensures IndentedKids(Stripped(ts), depth, first, open, pad) == IndentedKids(ts, depth, first, open, pad)
    decreases |ts|
  {
    if ts != [] {
      if IsBlank(ts[0]) {
        IndentedStripped(ts[1..], depth, first, open, pad);
      } else {
        assert Stripped(ts)[1..] == Stripped(ts[1..]);
        IndentedStripped(ts[1..], depth, first, false, pad);
        IndentedStripped(ts[1..], depth, false, true, pad);
      }
    }
  }

  /** Stripping one level is part of baring. */
  lemma {:induction false} BareStripped(ts: seq<Tree>)
    ensures BareKids(Stripped(ts)) == BareKids(ts) && forall t :: t in Stripped(ts) ==> !IsBlank(t)
    decreases |ts|
  {
    if ts != [] {
      BareStripped(ts[1..]);
      if !IsBlank(ts[0]) {
        assert Stripped(ts)[1..] == Stripped(ts[1..]);
      }
    }
  }

  lemma {:induction false} BareAt(ts: seq<Tree>, i: nat)
    requires i < |ts| && forall t :: t in ts ==> !IsBlank(t)
    ensures |BareKids(ts)| == |ts| && BareKids(ts)[i] == Bare(ts[i])
    decreases |ts|
  {
    assert ts[0] in ts;
    if |ts| > 1 {
      BareAt(ts[1..], if i > 0 then i - 1 else 0);
    }
  }

  // ---------------------------------------------------------------- NoIndent

  lemma {:induction false} PrintAllConcat(w: WriteSettings, a: seq<Tree>, b: seq<Tree>)
    ensures PrintAll(w, a + b) == PrintAll(w, a) + PrintAll(w, b)
  {
    if a == [] {
      assert a + b == b;
    } else {
      assert (a + b)[1..] == a[1..] + b;
      PrintAllConcat(w, a[1..], b);
    }
  }

  /** With negative `spaces` the text that is written has no indentation at all. */
  lemma {:induction false} NoIndentPrints(w: WriteSettings, t: Tree, depth: nat, spaces: int)
    requires t.kind.Element? && spaces < 0
    ensures Print(w, Indented(t, depth, Spaces(spaces))) == Print(w, Bare(t))
    decreases t, 1
  {
    hide PrintOpen, PrintClose;
    NoIndentPrintsKids(w, t.kids, depth, true, false, spaces);
  }

  lemma {:induction false} NoIndentPrintsKids(w: WriteSettings, ts: seq<Tree>, depth: nat, first: bool, open: bool,
                                              spaces: int)
    requires spaces < 0
    ensures PrintAll(w, IndentedKids(ts, depth, first, open, Spaces(spaces))) == PrintAll(w, BareKids(ts))
    ensures IndentedKids(ts, depth, first, open, Spaces(spaces)) == [] || BareKids(ts) != [] || open
    ensures BareKids(ts) != [] ==> IndentedKids(ts, depth, first, open, Spaces(spaces)) != []
    decreases ts, 0
  {
    hide PrintOpen, PrintClose;
    var pad := Spaces(spaces);
    if ts == [] {
      assert PrintAll(w, [Blank("")]) == "";
    } else if IsBlank(ts[0]) {
      NoIndentPrintsKids(w, ts[1..], depth, first, open, spaces);
    } else if ts[0].kind.CharData? {
      NoIndentPrintsKids(w, ts[1..], depth, first, false, spaces);
      PrintAllConcat(w, [ts[0]], IndentedKids(ts[1..], depth, first, false, pad));
    } else {
      var front := if !first || depth > 0 then [Blank("")] else [];
      var c := if ts[0].kind.Element? then Indented(ts[0], depth + 1, pad) else ts[0];
      if ts[0].kind.Element? {
        NoIndentPrints(w, ts[0], depth + 1, spaces);
      }
      NoIndentPrintsKids(w, ts[1..], depth, false, true, spaces);
      PrintBlankFront(w, front, c, IndentedKids(ts[1..], depth, false, true, pad));
    }
  }

  lemma PrintBlankFront(w: WriteSettings, front: seq<Tree>, c: Tree, rest: seq<Tree>)
    requires front == [] || front == [Blank("")]
    ensures PrintAll(w, front + [c] + rest) == Print(w, c) + PrintAll(w, rest)
  {
    hide PrintOpen, PrintClose;
    assert PrintAll(w, [c] + rest) == Print(w, c) + PrintAll(w, rest);
    assert front + [c] + rest == front + ([c] + rest);
    PrintAllConcat(w, front, [c] + rest);
    assert PrintAll(w, front) == "" by {
      assert front != [] ==> PrintAll(w, front[1..]) == "";
      assert Print(w, Blank("")) == "";
    }
  }
}
