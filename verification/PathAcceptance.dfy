/** Which strings CompilePath of pkg/controller/etree/path.go accepts. */
module PathAcceptance {
  import opened Seqs
  import opened Texts
  import opened Forest
  import opened PathSpec
  import opened PathGrammar
  import opened PathSpelling

  /** If a filter compares with a quoted value, the quote that closes the value is its last character. */
  predicate QuotesMatch(p: string) {
    var eq := IndexPair(p, '=', '\'');
    eq < |p| ==> NextIndex(p, '\'', eq + 2) == |p| - 1
  }

  /** What stands between an opening bracket and the next one, or the end: a filter and the closing bracket. */
  predicate PieceText(p: string) {
    |p| > 1 && p[|p| - 1] == ']' && QuotesMatch(p[..|p| - 1])
  }

  predicate SegmentText(text: string) {
    forall p :: p in Split(text, '[')[1..] ==> PieceText(p)
  }

  predicate GroupText(text: string) {
    !HasPrefix(Completed(text), "/") && forall t :: t in Split(Completed(text), '/') ==> SegmentText(t)
  }

  lemma FilterAccepted(p: string)
    ensures ParseFilter(p).Parsed? && (ParseFilter(p).err == "" <==> p != "" && QuotesMatch(p))
  {
  }

  lemma {:induction false} FiltersAccepted(pieces: seq<string>, done: seq<Filter>, err: string)
    ensures var r := ParseFilters(pieces, done, err);
            r.Parsed? && r.err == "" <==> err == "" && forall p :: p in pieces ==> PieceText(p)
    decreases |pieces|
  {
    hide ParseFilter, QuotesMatch;
    if pieces != [] {
      var p := pieces[0];
      HeadOrTail(pieces);
      if p != "" && p[|p| - 1] == ']' {
        FilterAccepted(p[..|p| - 1]);
        var f := ParseFilter(p[..|p| - 1]);
        assert PieceText(p) <==> f.err == "";
        FiltersAccepted(pieces[1..], done + [f.value], if f.err == "" then err else f.err);
      } else {
        assert !PieceText(p);
      }
    }
  }

  lemma SegmentAccepted(text: string)
    ensures ParseSegment(text).Parsed? && ParseSegment(text).err == "" <==> SegmentText(text)
  {
    hide ParseFilters, PieceText;
    FiltersAccepted(Split(text, '[')[1..], [], "");
  }

  lemma {:induction false} SegmentsAccepted(texts: seq<string>, done: Group)
    ensures var r := ParseSegments(texts, done);
            r.Parsed? && r.err == "" <==> forall t :: t in texts ==> SegmentText(t)
    decreases |texts|
  {
    hide ParseSegment, SegmentText;
    if texts != [] {
      HeadOrTail(texts);
      SegmentAccepted(texts[0]);
      match ParseSegment(texts[0])
      case Panicked =>
      case Parsed(seg, err) =>
        if err == "" {
          SegmentsAccepted(texts[1..], done + [seg]);
        }
    }
  }

  lemma GroupAccepted(text: string)
    ensures ParseGroup(text).Parsed? && ParseGroup(text).err == "" <==> GroupText(text)
  {
    hide ParseSegments, SegmentText, Completed;
    SegmentsAccepted(Split(Completed(text), '/'), []);
  }

  lemma {:induction false} GroupsAccepted(texts: seq<string>, done: Path)
    ensures var r := ParseGroups(texts, done);
            r.Parsed? && r.err == "" <==> forall t :: t in texts ==> GroupText(t)
    decreases |texts|
  {
    hide ParseGroup, GroupText;
    if texts != [] {
      HeadOrTail(texts);
      GroupAccepted(texts[0]);
      match ParseGroup(texts[0])
      case Panicked =>
      case Parsed(g, err) =>
        if err == "" {
          GroupsAccepted(texts[1..], done + [g]);
        }
    }
  }

  /**
   * A string compiles exactly when no alternative is absolute and every bracket opens a filter that is not empty,
   * is closed before the next bracket or segment, and has its quotes in place.
   */
  lemma CompilesIff(text: string)
    ensures Compile(text).Ok? <==> forall g :: g in Split(text, '|') ==> GroupText(g)
  {
    hide ParseGroups, GroupText;
    GroupsAccepted(Split(text, '|'), []);
  }

  // ---------------------------------------------------------------- panics

  /** The loop over the filters reaches a piece without any character, not even a bracket. */
  predicate RunsIntoEmpty(pieces: seq<string>) {
    exists i :: 0 <= i < |pieces| && pieces[i] == "" &&
                forall j :: 0 <= j < i ==> pieces[j] != "" && pieces[j][|pieces[j]| - 1] == ']'
  }

  lemma RunsOn(pieces: seq<string>)
    requires pieces != [] && pieces[0] != ""
    ensures RunsIntoEmpty(pieces) <==> pieces[0][|pieces[0]| - 1] == ']' && RunsIntoEmpty(pieces[1..])
  {
    var rest := pieces[1..];
    if RunsIntoEmpty(pieces) {
      var i :| 0 <= i < |pieces| && pieces[i] == "" &&
               forall j :: 0 <= j < i ==> pieces[j] != "" && pieces[j][|pieces[j]| - 1] == ']';
      assert pieces[i] == rest[i - 1];
      assert forall j :: 0 <= j < i - 1 ==> rest[j] == pieces[j + 1];
    }
    if pieces[0][|pieces[0]| - 1] == ']' && RunsIntoEmpty(rest) {
      var i :| 0 <= i < |rest| && rest[i] == "" &&
               forall j :: 0 <= j < i ==> rest[j] != "" && rest[j][|rest[j]| - 1] == ']';
      assert pieces[i + 1] == "";
      assert forall j :: 0 < j < i + 1 ==> pieces[j] == rest[j - 1];
    }
  }

  lemma {:induction false} FiltersPanicIff(pieces: seq<string>, done: seq<Filter>, err: string)
    ensures ParseFilters(pieces, done, err).Panicked? <==> RunsIntoEmpty(pieces)
    decreases |pieces|
  {
    hide ParseFilter, RunsIntoEmpty;
    if pieces == [] {
      NothingEmpty();
    } else if pieces[0] == "" {
      EmptyFirst(pieces);
    } else {
      var p := pieces[0];
      RunsOn(pieces);
      if p[|p| - 1] == ']' {
        FilterAccepted(p[..|p| - 1]);
        var f := ParseFilter(p[..|p| - 1]);
        FiltersPanicIff(pieces[1..], done + [f.value], if f.err == "" then err else f.err);
      }
    }
  }

  lemma NothingEmpty()
    ensures !RunsIntoEmpty([])
  {
  }

  lemma EmptyFirst(pieces: seq<string>)
    requires pieces != [] && pieces[0] == ""
    ensures RunsIntoEmpty(pieces)
  {
  }

  /** A segment makes the compiler panic exactly when its filters run into an empty piece. */
  lemma SegmentPanicsIff(text: string)
    ensures ParseSegment(text).Panicked? <==> RunsIntoEmpty(Split(text, '[')[1..])
  {
    hide ParseFilters, RunsIntoEmpty;
    FiltersPanicIff(Split(text, '[')[1..], [], "");
  }

  predicate SegmentPanics(text: string) {
    RunsIntoEmpty(Split(text, '[')[1..])
  }

  /** The first segment that is not in order is one that panics. */
  predicate SegmentsPanic(texts: seq<string>)
    decreases |texts|
  {
    texts != [] && (SegmentPanics(texts[0]) || (SegmentText(texts[0]) && SegmentsPanic(texts[1..])))
  }

  predicate GroupPanics(text: string) {
    !HasPrefix(Completed(text), "/") && SegmentsPanic(Split(Completed(text), '/'))
  }

  predicate GroupsPanic(texts: seq<string>)
    decreases |texts|
  {
    texts != [] && (GroupPanics(texts[0]) || (GroupText(texts[0]) && GroupsPanic(texts[1..])))
  }

  lemma {:induction false} SegmentsPanicIff(texts: seq<string>, done: Group)
    ensures ParseSegments(texts, done).Panicked? <==> SegmentsPanic(texts)
    decreases |texts|
  {
    hide ParseSegment, SegmentText, RunsIntoEmpty;
    if texts != [] {
      SegmentAccepted(texts[0]);
      SegmentPanicsIff(texts[0]);
      match ParseSegment(texts[0])
      case Panicked =>
      case Parsed(seg, err) => SegmentsPanicIff(texts[1..], done + [seg]);
    }
  }

  lemma GroupPanicsIff(text: string)
    ensures ParseGroup(text).Panicked? <==> GroupPanics(text)
  {
    hide ParseSegments, SegmentsPanic, Completed;
    SegmentsPanicIff(Split(Completed(text), '/'), []);
  }

  lemma {:induction false} GroupsPanicIff(texts: seq<string>, done: Path)
    ensures ParseGroups(texts, done).Panicked? <==> GroupsPanic(texts)
    decreases |texts|
  {
    hide ParseGroup, GroupText, GroupPanics;
    if texts != [] {
      GroupAccepted(texts[0]);
      GroupPanicsIff(texts[0]);
      match ParseGroup(texts[0])
      case Panicked =>
      case Parsed(g, err) => GroupsPanicIff(texts[1..], done + [g]);
    }
  }

  /**
   * The compiler panics exactly when, before anything else is out of order, a segment's filters run into an
   * empty piece after a bracket.
   */
  lemma PanicsIff(text: string)
    ensures Compile(text).Panic? <==> GroupsPanic(Split(text, '|'))
  {
    hide ParseGroups, GroupsPanic;
    GroupsPanicIff(Split(text, '|'), []);
  }

  // ---------------------------------------------------------------- the index that overflows

  /** The texts between brackets whose filter makes the machine panic: integers from -2^63 downwards. */
  lemma OverflowTexts(p: string)
    ensures ParseFilter(p) == Parsed(Position(MIN_INT), "") <==>
            IsInteger(p) && |p| > 1 && p[0] == '-' && Digits(p[1..]) >= 0x8000_0000_0000_0000
  {
    hide Digits;
    if IsInteger(p) && p != "" {
      NoPairInInteger(p);
    }
  }

  lemma NoPairInInteger(p: string)
    requires IsInteger(p)
    ensures IndexPair(p, '=', '\'') == |p|
  {
  }

  /** A path that compiles and panics wherever it is evaluated. */
  lemma OverflowExample(s: Shot, e: Token)
    requires WellFormed(s) && IsElement(s, e)
    ensures var path: Path := [[Segment(Children, [Position(MIN_INT)])]];
            Compile(SpellPath(path)) == Ok(path) && Panics(s, path, e)
  {
    hide WellFormed, Compile, SpellPath, Matches;
    var path: Path := [[Segment(Children, [Position(MIN_INT)])]];
    assert LegalFilter(path[0][0].filters[0]);
    assert LegalGroup(path[0]);
    PathReadBack(path);
    assert path[0] in path && PanicsFrom(s, path[0], [e]);
  }
}
