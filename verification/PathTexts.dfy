/** What the compiler of path.go makes of texts that no path is spelled as: shorthands, numbers, errors. */
module PathTexts {
  import opened Names
  import opened Texts
  import opened PathSpec
  import opened PathGrammar
  import opened PathAcceptance

  // ---------------------------------------------------------------- positions

  /** Digits, with a minus in front or without; so also a minus alone. */
  predicate Integral(p: string) {
    p != "" && forall i :: 0 <= i < |p| ==> '0' <= p[i] <= '9' || (i == 0 && p[i] == '-')
  }

  /** The index that a position stands for: one less if positive, and never beyond 64 bits. */
  function IndexOf(p: string): int
    requires Integral(p)
  {
    if p[0] == '-' then
      var d: int := Digits(p[1..]);
      if -d < MIN_INT then MIN_INT else -d
    else
      var d: int := Digits(p);
      if d == 0 then 0 else if d > MAX_INT then MAX_INT - 1 else d - 1
  }

  /** A filter is a position exactly if its text is a number; 0, "-0" and a minus alone mean the first candidate. */
  lemma PositionTexts(p: string, index: int)
    ensures ParseFilter(p) == Parsed(Position(index), "") <==> Integral(p) && index == IndexOf(p)
    ensures ParseFilter("-") == ParseFilter("0") == Parsed(Position(0), "")
  {
    hide Digits;
    NothingCounted();
    if Integral(p) {
      NoPairInInteger(p);
    }
    NoPairInInteger("-");
    NoPairInInteger("0");
  }

  lemma NothingCounted()
    ensures Digits("0") == 0 && Digits("") == 0
  {
    assert "0"[..0] == "";
  }

  // ---------------------------------------------------------------- double slashes

  lemma SplitAt(s: string, c: char, i: nat)
    requires i < |s| && s[i] == c && c !in s[..i]
    ensures Split(s, c) == [s[..i]] + Split(s[i + 1..], c)
  {
    IndexFirst(s, c, i);
  }

  lemma SplitNot(s: string, c: char)
    requires c !in s
    ensures Split(s, c) == [s]
  {
    assert s[..|s|] == s;
    IndexFirst(s, c, |s|);
  }

  /** Where a text is cut first, if it is cut at all. */
  lemma Cut(s: string, c: char)
    ensures c !in s[..Index(s, c)] && s[..|s|] == s
  {
  }

  lemma SplitFirst(front: string, text: string, c: char)
    requires c !in front
    ensures Split(front + text, c) == [front + Split(text, c)[0]] + Split(text, c)[1..]
  {
    hide Split;
    var all, i := front + text, Index(text, c);
    Cut(text, c);
    if i < |text| {
      assert all[..|front| + i] == front + text[..i];
      assert all[|front| + i + 1..] == text[i + 1..];
      SplitAt(all, c, |front| + i);
      SplitAt(text, c, i);
    } else {
      SplitNot(all, c);
      SplitNot(text, c);
    }
  }

  lemma {:induction false} SplitLast(text: string, back: string, c: char)
    requires c !in back
    ensures var n := |Split(text, c)| - 1; Split(text + back, c) == Split(text, c)[..n] + [Split(text, c)[n] + back]
    decreases |text|
  {
    hide Split;
    var all, i := text + back, Index(text, c);
    Cut(text, c);
    if i < |text| {
      assert all[..i] == text[..i] && all[i + 1..] == text[i + 1..] + back;
      SplitAt(all, c, i);
      SplitAt(text, c, i);
      SplitLast(text[i + 1..], back, c);
      var more := Split(text[i + 1..], c);
      assert ([text[..i]] + more)[..|more|] == [text[..i]] + more[..|more| - 1];
    } else {
      SplitNot(all, c);
      SplitNot(text, c);
    }
  }

  lemma SameGroups(a: seq<string>, b: seq<string>, done: Path)
    requires a != [] && b != [] && ParseGroup(a[0]) == ParseGroup(b[0]) && a[1..] == b[1..]
    ensures ParseGroups(a, done) == ParseGroups(b, done)
  {
  }

  lemma {:induction false} SameAtEnd(front: seq<string>, x: string, y: string, done: Path)
    requires ParseGroup(x) == ParseGroup(y)
    ensures ParseGroups(front + [x], done) == ParseGroups(front + [y], done)
    decreases |front|
  {
    hide ParseGroup;
    if front == [] {
      assert [x][1..] == [y][1..] == [];
    } else {
      assert (front + [x])[1..] == front[1..] + [x] && (front + [y])[1..] == front[1..] + [y];
      match ParseGroup(front[0])
      case Panicked =>
      case Parsed(g, err) => SameAtEnd(front[1..], x, y, done + [g]);
    }
  }

  lemma PrefixAt(s: string)
    ensures HasPrefix(s, "//") <==> |s| >= 2 && s[0] == '/' && s[1] == '/'
    ensures HasSuffix(s, "//") <==> |s| >= 2 && s[|s| - 2] == '/' && s[|s| - 1] == '/'
  {
    if |s| >= 2 {
      assert s[..2] == [s[0], s[1]];
      assert s[|s| - 2..] == [s[|s| - 2], s[|s| - 1]];
    }
  }

  lemma LedByDot(text: string)
    ensures Completed("//" + text) == Completed(".//" + text)
  {
    PrefixAt("//" + text);
    PrefixAt(".//" + text);
    assert "." + ("//" + text) == ".//" + text;
  }

  lemma EndedByStar(text: string)
    ensures Completed(text + "//") == Completed(text + "//*")
  {
    var a, b := text + "//", text + "//*";
    PrefixAt(a);
    PrefixAt(b);
    PrefixAt("." + a);
    PrefixAt("." + b);
    assert a + "*" == b && "." + a + "*" == "." + b;
  }

  /** A path that starts with a double slash starts at the element itself. */
  lemma LeadingSlashes(text: string)
    ensures Compile("//" + text) == Compile(".//" + text)
  {
    hide ParseGroups, Split, Completed;
    SplitFirst("//", text, '|');
    SplitFirst(".//", text, '|');
    LedByDot(Split(text, '|')[0]);
    SameGroups(Split("//" + text, '|'), Split(".//" + text, '|'), []);
  }

  /** A path that ends with a double slash goes on to all children. */
  lemma TrailingSlashes(text: string)
    ensures Compile(text + "//") == Compile(text + "//*")
  {
    hide ParseGroups, Split, Completed;
    var n := |Split(text, '|')| - 1;
    var last := Split(text, '|')[n];
    SplitLast(text, "//", '|');
    SplitLast(text, "//*", '|');
    EndedByStar(last);
    SameAtEnd(Split(text, '|')[..n], last + "//", last + "//*", []);
  }

  // ---------------------------------------------------------------- alternatives

  lemma {:induction false} SplitBoth(a: string, b: string, c: char)
    ensures Split(a + [c] + b, c) == Split(a, c) + Split(b, c)
    decreases |a|
  {
    hide Split;
    var all, i := a + [c] + b, Index(a, c);
    Cut(a, c);
    assert all[..i] == a[..i];
    SplitAt(all, c, i);
    if i < |a| {
      assert all[i + 1..] == a[i + 1..] + [c] + b;
      SplitAt(a, c, i);
      SplitBoth(a[i + 1..], b, c);
    } else {
      assert all[i + 1..] == b;
      SplitNot(a, c);
    }
  }

  lemma {:induction false} GroupsInTurn(a: seq<string>, b: seq<string>, done: Path)
    ensures var r := ParseGroups(a, done);
            ParseGroups(a + b, done) == if r.Parsed? && r.err == "" then ParseGroups(b, r.value) else r
    decreases |a|
  {
    hide ParseGroup;
    if a == [] {
      assert a + b == b;
    } else {
      assert (a + b)[1..] == a[1..] + b;
      match ParseGroup(a[0])
      case Panicked =>
      case Parsed(g, err) =>
        if err == "" {
          GroupsInTurn(a[1..], b, done + [g]);
        }
    }
  }

  lemma {:induction false} GroupsAfter(texts: seq<string>, done: Path)
    ensures ParseGroups(texts, done) ==
            match ParseGroups(texts, [])
            case Panicked => Panicked
            case Parsed(groups, err) => Parsed(done + groups, err)
    decreases |texts|
  {
    hide ParseGroup;
    if texts == [] {
      assert done + [] == done;
    } else {
      match ParseGroup(texts[0])
      case Panicked =>
      case Parsed(g, err) =>
        assert [] + [g] == [g];
        if err == "" {
          GroupsAfter(texts[1..], done + [g]);
          GroupsAfter(texts[1..], [g]);
          match ParseGroups(texts[1..], [])
          case Panicked =>
          case Parsed(groups, _) => assert done + [g] + groups == done + ([g] + groups);
        }
    }
  }

  /** Alternatives are compiled one after another, up to the first that is out of order. */
  lemma AlternativesInTurn(a: string, b: string)
    ensures Compile(a + "|" + b) ==
            if Compile(a).Ok? && Compile(b).Ok? then Ok(Compile(a).path + Compile(b).path)
            else if Compile(a).Ok? then Compile(b) else Compile(a)
  {
    hide ParseGroups, Split;
    SplitBoth(a, b, '|');
    GroupsInTurn(Split(a, '|'), Split(b, '|'), []);
    if Compile(a).Ok? {
      GroupsAfter(Split(b, '|'), Compile(a).path);
    }
  }

  // ---------------------------------------------------------------- error messages

  /** The piece is closed by its bracket. */
  predicate Shut(p: string) {
    p != "" && p[|p| - 1] == ']'
  }

  /** The first piece that is not closed ends the loop, and the error is that whatever came before. */
  lemma {:induction false} UnclosedError(pieces: seq<string>, i: nat, done: seq<Filter>, err: string)
    requires i < |pieces| && pieces[i] != "" && !Shut(pieces[i]) && forall j :: 0 <= j < i ==> Shut(pieces[j])
    ensures ParseFilters(pieces, done, err).Parsed? && ParseFilters(pieces, done, err).err == BRACKETS
    decreases |pieces|
  {
    hide ParseFilter;
    if i > 0 {
      var f := ParseFilter(pieces[0][..|pieces[0]| - 1]);
      FilterAccepted(pieces[0][..|pieces[0]| - 1]);
      UnclosedError(pieces[1..], i - 1, done + [f.value], if f.err == "" then err else f.err);
    }
  }

  lemma FilterError(p: string)
    ensures ParseFilter(p).Parsed? && (p == "" ==> ParseFilter(p).err == EMPTY_FILTER)
    ensures p != "" && !QuotesMatch(p) ==> ParseFilter(p).err == QUOTES
  {
  }

  /** If all pieces are closed, the last filter that is not in order has the say. */
  lemma {:induction false} LastError(pieces: seq<string>, i: nat, done: seq<Filter>, err: string)
    requires i < |pieces| && !PieceText(pieces[i]) && forall j :: 0 <= j < |pieces| ==> Shut(pieces[j])
    requires forall j :: i < j < |pieces| ==> PieceText(pieces[j])
    ensures ParseFilters(pieces, done, err).Parsed?
    ensures ParseFilters(pieces, done, err).err == if |pieces[i]| == 1 then EMPTY_FILTER else QUOTES
    decreases |pieces|
  {
    hide ParseFilter, QuotesMatch;
    var p := pieces[0][..|pieces[0]| - 1];
    var f := ParseFilter(p);
    FilterAccepted(p);
    FilterError(p);
    var next := if f.err == "" then err else f.err;
    if i > 0 {
      LastError(pieces[1..], i - 1, done + [f.value], next);
    } else {
      AllFine(pieces[1..], done + [f.value], next);
    }
  }

  lemma {:induction false} AllFine(pieces: seq<string>, done: seq<Filter>, err: string)
    requires forall j :: 0 <= j < |pieces| ==> PieceText(pieces[j])
    ensures ParseFilters(pieces, done, err).Parsed? && ParseFilters(pieces, done, err).err == err
    decreases |pieces|
  {
    hide ParseFilter, QuotesMatch;
    if pieces != [] {
      var p := pieces[0][..|pieces[0]| - 1];
      FilterAccepted(p);
      AllFine(pieces[1..], done + [ParseFilter(p).value], err);
    }
  }

  /** What is wrong with a closed piece that is not in order: its filter is empty, or its quotes are not in place. */
  function Complaint(piece: string): string {
    if |piece| == 1 then "path contains an empty filter expression." else "path has mismatched filter quotes."
  }

  /** The i-th piece is the first that is not closed. */
  predicate FirstOpen(pieces: seq<string>, i: nat) {
    i < |pieces| && pieces[i] != "" && !Shut(pieces[i]) && forall j :: 0 <= j < i ==> Shut(pieces[j])
  }

  /** All pieces are closed, and the i-th is the last that is not in order. */
  predicate LastBad(pieces: seq<string>, i: nat) {
    && i < |pieces| && !PieceText(pieces[i]) && (forall j :: 0 <= j < |pieces| ==> Shut(pieces[j]))
    && forall j :: i < j < |pieces| ==> PieceText(pieces[j])
  }

  /** The message that a segment gets. */
  ghost predicate SegmentBlamed(text: string, message: string) {
    var pieces := Split(text, '[')[1..];
    || (message == "path has invalid filter [brackets]." && exists i: nat :: FirstOpen(pieces, i))
    || exists i: nat :: LastBad(pieces, i) && message == Complaint(pieces[i])
  }

  lemma SegmentError(text: string, message: string)
    requires SegmentBlamed(text, message)
    ensures ParseSegment(text).Parsed? && ParseSegment(text).err == message
  {
    hide ParseFilters, PieceText, Split;
    var pieces := Split(text, '[')[1..];
    if i: nat :| FirstOpen(pieces, i) {
      UnclosedError(pieces, i, [], "");
    }
    if i: nat :| LastBad(pieces, i) && message == Complaint(pieces[i]) {
      LastError(pieces, i, [], "");
    }
  }

  lemma {:induction false} SegmentsError(texts: seq<string>, i: nat, done: Group, message: string)
    requires i < |texts| && SegmentBlamed(texts[i], message) && forall j :: 0 <= j < i ==> SegmentText(texts[j])
    requires message != ""
    ensures ParseSegments(texts, done).Parsed? && ParseSegments(texts, done).err == message
    decreases |texts|
  {
    hide ParseSegment, SegmentText, SegmentBlamed;
    if i == 0 {
      SegmentError(texts[0], message);
    } else {
      SegmentAccepted(texts[0]);
      SegmentsError(texts[1..], i - 1, done + [ParseSegment(texts[0]).value], message);
    }
  }

  lemma {:induction false} GroupsError(texts: seq<string>, i: nat, done: Path, message: string)
    requires i < |texts| && message != "" && ParseGroup(texts[i]).Parsed? && ParseGroup(texts[i]).err == message
    requires forall j :: 0 <= j < i ==> GroupText(texts[j])
    ensures ParseGroups(texts, done).Parsed? && ParseGroups(texts, done).err == message
    decreases |texts|
  {
    hide ParseGroup, GroupText;
    if i > 0 {
      GroupAccepted(texts[0]);
      GroupsError(texts[1..], i - 1, done + [ParseGroup(texts[0]).value], message);
    }
  }

  /**
   * Which error a text gives: that of its first alternative that is not in order. If that one is absolute it is that,
   * otherwise what its first segment out of order is blamed for.
   */
  lemma FailureIs(text: string, k: nat, i: nat, message: string)
    requires k < |Split(text, '|')| && forall j :: 0 <= j < k ==> GroupText(Split(text, '|')[j])
    ensures var t := Completed(Split(text, '|')[k]);
            var ss := Split(t, '/');
            && (HasPrefix(t, "/") ==> Compile(text) == Fail("paths cannot be absolute."))
            && ((!HasPrefix(t, "/") && i < |ss| && (forall j :: 0 <= j < i ==> SegmentText(ss[j])) &&
                 SegmentBlamed(ss[i], message)) ==> Compile(text) == Fail(message))
  {
    hide Split, SegmentText, SegmentBlamed, GroupText, ParseSegments, ParseGroups, Completed;
    var t := Completed(Split(text, '|')[k]);
    var ss := Split(t, '/');
    if HasPrefix(t, "/") {
      GroupsError(Split(text, '|'), k, [], ABSOLUTE);
    } else if i < |ss| && (forall j :: 0 <= j < i ==> SegmentText(ss[j])) && SegmentBlamed(ss[i], message) {
      BlamedFor(ss[i], message);
      SegmentsError(ss, i, [], message);
      GroupsError(Split(text, '|'), k, [], message);
    }
  }

  lemma BlamedFor(text: string, message: string)
    requires SegmentBlamed(text, message)
    ensures message != ""
  {
  }
}
