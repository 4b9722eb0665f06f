/**
 * Which strings compile to which paths: what the compiler guarantees of every path that it gives, how a path is
 * written, and that every path whose names and values hold none of the delimiters is read back from how it is written.
 */
module PathSpelling {
  import opened Names
  import opened Texts
  import opened PathSpec
  import opened PathGrammar

  // ---------------------------------------------------------------- what every success guarantees

  /** The piece after a '[' closes its bracket and holds the filter f. */
  predicate Holds(piece: string, f: Filter) {
    piece != "" && piece[|piece| - 1] == ']' && ParseFilter(piece[..|piece| - 1]) == Parsed(f, "")
  }

  lemma {:induction false} FiltersParsed(pieces: seq<string>, done: seq<Filter>, err: string)
    ensures var r := ParseFilters(pieces, done, err);
            r.Parsed? && r.err == "" ==>
              err == "" && |r.value| == |done| + |pieces| && done <= r.value &&
              forall i :: 0 <= i < |pieces| ==> Holds(pieces[i], r.value[|done| + i])
    decreases |pieces|
  {
    hide ParseFilter;
    if pieces != [] && pieces[0] != "" && pieces[0][|pieces[0]| - 1] == ']' {
      var f := ParseFilter(pieces[0][..|pieces[0]| - 1]);
      FilterParsed(pieces[0][..|pieces[0]| - 1]);
      FiltersParsed(pieces[1..], done + [f.value], if f.err == "" then err else f.err);
      var r := ParseFilters(pieces[1..], done + [f.value], if f.err == "" then err else f.err);
      if r.Parsed? && r.err == "" {
        assert r.value[|done|] == (done + [f.value])[|done|];
        assert Holds(pieces[0], r.value[|done|]);
        hide Holds;
        forall i | 0 < i < |pieces| ensures Holds(pieces[i], r.value[|done| + i]) {
          assert pieces[i] == pieces[1..][i - 1];
        }
      }
    }
  }

  lemma FiltersNotNil(pieces: seq<string>)
    ensures var r := ParseFilters(pieces, [], "");
            r.Parsed? && r.err == "" ==> NoFilter !in r.value
  {
    hide ParseFilter, ParseFilters;
    FiltersParsed(pieces, [], "");
    var r := ParseFilters(pieces, [], "");
    if r.Parsed? && r.err == "" && NoFilter in r.value {
      var i :| 0 <= i < |r.value| && r.value[i] == NoFilter;
      assert Holds(pieces[i], r.value[i]);
      FilterParsed(pieces[i][..|pieces[i]| - 1]);
    }
  }

  lemma FilterParsed(p: string)
    ensures ParseFilter(p).Parsed? && (ParseFilter(p).err == "" <==> ParseFilter(p).value != NoFilter)
  {
  }

  lemma SegmentNotNil(text: string)
    ensures var r := ParseSegment(text);
            r.Parsed? && r.err == "" ==> NoFilter !in r.value.filters
  {
    hide ParseFilters;
    FiltersNotNil(Split(text, '[')[1..]);
  }

  lemma {:induction false} SegmentsParsed(texts: seq<string>, done: Group)
    requires forall seg :: seg in done ==> NoFilter !in seg.filters
    ensures var r := ParseSegments(texts, done);
            r.Parsed? && r.err == "" ==>
              done <= r.value && |r.value| == |done| + |texts| &&
              (forall seg :: seg in r.value ==> NoFilter !in seg.filters) &&
              forall i :: 0 <= i < |texts| ==> ParseSegment(texts[i]) == Parsed(r.value[|done| + i], "")
    decreases |texts|
  {
    hide ParseSegment;
    if texts != [] {
      SegmentNotNil(texts[0]);
      match ParseSegment(texts[0])
      case Panicked =>
      case Parsed(seg, err) =>
        if err == "" {
          SegmentsParsed(texts[1..], done + [seg]);
          var r := ParseSegments(texts[1..], done + [seg]);
          if r.Parsed? && r.err == "" {
            forall i | 0 <= i < |texts| ensures ParseSegment(texts[i]) == Parsed(r.value[|done| + i], "") {
              assert i > 0 ==> texts[i] == texts[1..][i - 1];
            }
          }
        }
    }
  }

  lemma GroupParsed(text: string)
    ensures var r := ParseGroup(text);
            r.Parsed? && r.err == "" ==>
              CompiledGroup(r.value) && |r.value| == |Split(Completed(text), '/')| &&
              forall i :: 0 <= i < |r.value| ==> ParseSegment(Split(Completed(text), '/')[i]) == Parsed(r.value[i], "")
  {
    hide ParseSegments, ParseSegment;
    SegmentsParsed(Split(Completed(text), '/'), []);
  }

  lemma {:induction false} GroupsParsed(texts: seq<string>, done: Path)
    requires Compiled(done)
    ensures var r := ParseGroups(texts, done);
            r.Parsed? && r.err == "" ==>
              done <= r.value && |r.value| == |done| + |texts| && Compiled(r.value) &&
              forall i :: 0 <= i < |texts| ==> ParseGroup(texts[i]) == Parsed(r.value[|done| + i], "")
    decreases |texts|
  {
    hide ParseGroup, CompiledGroup, Completed, Split, ParseSegment;
    if texts != [] {
      GroupParsed(texts[0]);
      match ParseGroup(texts[0])
      case Panicked =>
      case Parsed(g, err) =>
        if err == "" {
          assert Compiled(done + [g]);
          GroupsParsed(texts[1..], done + [g]);
          var r := ParseGroups(texts[1..], done + [g]);
          if r.Parsed? && r.err == "" {
            forall i | 0 <= i < |texts| ensures ParseGroup(texts[i]) == Parsed(r.value[|done| + i], "") {
              assert i > 0 ==> texts[i] == texts[1..][i - 1];
            }
          }
        }
    }
  }

  /** A path that compiles has a group for every alternative, no empty group and no nil filter. */
  lemma CompiledPaths(text: string)
    requires Compile(text).Ok?
    ensures Compiled(Compile(text).path) && |Compile(text).path| == 1 + Count(text, '|')
  {
    hide ParseGroups, CompiledGroup;
    GroupsParsed(Split(text, '|'), []);
    SplitCount(text, '|');
  }

  // ---------------------------------------------------------------- how paths are written

  function SpellSelector(sel: Selector): string {
    match sel
    case Self => "."
    case Parent => ".."
    case Children => "*"
    case Descendants => ""
    case ChildrenByTag(space, tag) => Qualified(space, tag)
  }

  /** The text between the brackets; positions count from 1, or from the end when negative. */
  function SpellFilter(f: Filter): string {
    match f
    case NoFilter => ""
    case Position(index) => Itoa(if index >= 0 then index + 1 else index)
    case HasAttr(space, key) => "@" + Qualified(space, key)
    case AttrIs(space, key, value) => "@" + Qualified(space, key) + "='" + value + "'"
    case HasChild(space, tag) => Qualified(space, tag)
    case ChildTextIs(space, tag, text) => Qualified(space, tag) + "='" + text + "'"
  }

  function SpellFilters(fs: seq<Filter>): seq<string> {
    seq(|fs|, i requires 0 <= i < |fs| => SpellFilter(fs[i]) + "]")
  }

  function SpellSegment(seg: Segment): string {
    Join([SpellSelector(seg.sel)] + SpellFilters(seg.filters), '[')
  }

  function SpellSegments(g: Group): seq<string> {
    seq(|g|, i requires 0 <= i < |g| => SpellSegment(g[i]))
  }

  function SpellGroup(g: Group): string {
    if g == [] then "" else Join(SpellSegments(g), '/')
  }

  function SpellGroups(path: Path): seq<string> {
    seq(|path|, i requires 0 <= i < |path| => SpellGroup(path[i]))
  }

  function SpellPath(path: Path): string
    requires path != []
  {
    Join(SpellGroups(path), '|')
  }

  // ---------------------------------------------------------------- which paths can be written

  /** Free of the characters that cut a path string into pieces. */
  predicate Plain(s: string) {
    '/' !in s && '[' !in s && '|' !in s
  }

  /** A name that is read back as the same namespace and tag, and whose text starts no value. */
  predicate LegalName(space: string, tag: string) {
    && Plain(Qualified(space, tag))
    && ':' !in space && (space == "" ==> ':' !in tag)
    && IndexPair(Qualified(space, tag), '=', '\'') == |Qualified(space, tag)|
  }

  predicate LegalValue(value: string) {
    Plain(value) && '\'' !in value
  }

  predicate LegalSelector(sel: Selector) {
    sel.ChildrenByTag? ==>
      LegalName(sel.space, sel.tag) && Qualified(sel.space, sel.tag) !in ["", ".", "..", "*"]
  }

  predicate LegalFilter(f: Filter) {
    match f
    case NoFilter => false
    case Position(index) => MIN_INT <= index < MAX_INT
    case HasAttr(space, key) => LegalName(space, key)
    case AttrIs(space, key, value) => LegalName(space, key) && LegalValue(value)
    case HasChild(space, tag) =>
      var q := Qualified(space, tag);
      LegalName(space, tag) && q != "" && q[0] != '@' && !IsInteger(q)
    case ChildTextIs(space, tag, text) =>
      var q := Qualified(space, tag);
      LegalName(space, tag) && (q == "" || q[0] != '@') && LegalValue(text)
  }

  predicate LegalSegment(seg: Segment) {
    LegalSelector(seg.sel) && forall i :: 0 <= i < |seg.filters| ==> LegalFilter(seg.filters[i])
  }

  /** A segment written as the empty string: all descendants, unfiltered. */
  predicate Blank(seg: Segment) {
    seg == Segment(Descendants, [])
  }

  /** A group is not written as it stands if that would start with "/" or end with a double slash. */
  predicate LegalGroup(g: Group) {
    && g != [] && (forall i :: 0 <= i < |g| ==> LegalSegment(g[i]))
    && (|g| > 1 ==> !Blank(g[0]))
    && (|g| > 2 ==> !(Blank(g[|g| - 1]) && Blank(g[|g| - 2])))
  }

  // ---------------------------------------------------------------- written paths are read back

  lemma PairAfter(q: string, rest: string)
    requires IndexPair(q, '=', '\'') == |q|
    ensures IndexPair(q + "='" + rest, '=', '\'') == |q|
  {
    var p := q + "='" + rest;
    assert p[|q|] == '=' && p[|q| + 1] == '\'';
    assert forall k :: 0 <= k < |q| ==> p[k] == q[k];
  }

  lemma PairWithAt(q: string)
    requires IndexPair(q, '=', '\'') == |q|
    ensures IndexPair("@" + q, '=', '\'') == |q| + 1
  {
    assert ("@" + q)[1..] == q;
  }

  lemma IndexAtEnd(v: string, c: char)
    requires c !in v
    ensures Index(v + [c], c) == |v|
  {
    assert (v + [c])[..|v|] == v;
    IndexFirst(v + [c], c, |v|);
  }

  /** The text of a name, the opening of a value, the value and its closing quote are found again. */
  lemma ValueFound(q: string, v: string)
    requires IndexPair(q, '=', '\'') == |q| && '\'' !in v
    ensures var p := q + "='" + v + "'";
            && IndexPair(p, '=', '\'') == |q| && NextIndex(p, '\'', |q| + 2) == |p| - 1
            && p[..|q|] == q && p[|q| + 2..|p| - 1] == v
  {
    var p := q + "='" + v + "'";
    assert p == q + "='" + (v + "'");
    PairAfter(q, v + "'");
    assert p[|q| + 2..] == v + ['\''];
    IndexAtEnd(v, '\'');
  }

  lemma AttrReadBack(space: string, key: string, value: string)
    requires LegalFilter(AttrIs(space, key, value))
    ensures ParseFilter(SpellFilter(AttrIs(space, key, value))) == Parsed(AttrIs(space, key, value), "")
  {
    hide IndexPair, Qualified, SpaceDecompose, NextIndex, Plain;
    var q := Qualified(space, key);
    DecomposeQualified(space, key);
    PairWithAt(q);
    ValueFound("@" + q, value);
    assert SpellFilter(AttrIs(space, key, value))[1..|q| + 1] == q;
  }

  lemma TextReadBack(space: string, tag: string, text: string)
    requires LegalFilter(ChildTextIs(space, tag, text))
    ensures ParseFilter(SpellFilter(ChildTextIs(space, tag, text))) == Parsed(ChildTextIs(space, tag, text), "")
  {
    hide IndexPair, Qualified, SpaceDecompose, NextIndex, Plain;
    DecomposeQualified(space, tag);
    ValueFound(Qualified(space, tag), text);
  }

  lemma NameReadBack(space: string, tag: string)
    requires LegalName(space, tag)
    ensures LegalFilter(HasAttr(space, tag)) &&
            ParseFilter("@" + Qualified(space, tag)) == Parsed(HasAttr(space, tag), "")
    ensures LegalFilter(HasChild(space, tag)) ==>
              ParseFilter(Qualified(space, tag)) == Parsed(HasChild(space, tag), "")
  {
    hide IndexPair, Qualified, SpaceDecompose, NextIndex, Plain;
    var q := Qualified(space, tag);
    DecomposeQualified(space, tag);
    PairWithAt(q);
    assert ("@" + q)[1..] == q;
  }

  lemma FilterReadBack(f: Filter)
    requires LegalFilter(f)
    ensures ParseFilter(SpellFilter(f)) == Parsed(f, "")
  {
    hide ParseFilter, Qualified, Itoa, Plain, LegalName;
    match f
    case Position(index) => PositionReadBack(index);
    case HasAttr(space, key) => NameReadBack(space, key);
    case AttrIs(space, key, value) => AttrReadBack(space, key, value);
    case HasChild(space, tag) => NameReadBack(space, tag);
    case ChildTextIs(space, tag, text) => TextReadBack(space, tag, text);
  }

  lemma FilterPlain(f: Filter)
    requires LegalFilter(f)
    ensures Plain(SpellFilter(f))
  {
    hide ParseFilter, IndexPair, Qualified, Itoa;
    if f.Position? {
      PositionReadBack(f.index);
    }
  }

  lemma PositionReadBack(index: int)
    requires MIN_INT <= index < MAX_INT
    ensures ParseFilter(SpellFilter(Position(index))) == Parsed(Position(index), "")
    ensures Plain(SpellFilter(Position(index)))
  {
    var n := if index >= 0 then index + 1 else index;
    var p := Itoa(n);
    AtoiItoa(n);
    hide Decimal, Atoi;
    assert forall i :: 0 <= i < |p| ==> p[i] != '=' && p[i] != '@' && p[i] != '/' && p[i] != '[' && p[i] != '|';
    assert IndexPair(p, '=', '\'') == |p|;
  }

  lemma {:induction false} FiltersReadBack(fs: seq<Filter>, done: seq<Filter>)
    requires forall i :: 0 <= i < |fs| ==> LegalFilter(fs[i])
    ensures ParseFilters(SpellFilters(fs), done, "") == Parsed(done + fs, "")
  {
    hide ParseFilter, SpellFilter, LegalFilter;
    if fs == [] {
      assert done + fs == done;
    } else {
      FilterReadBack(fs[0]);
      var ps := SpellFilters(fs);
      assert ps[0][..|ps[0]| - 1] == SpellFilter(fs[0]);
      assert ps[1..] == SpellFilters(fs[1..]);
      FiltersReadBack(fs[1..], done + [fs[0]]);
      assert done + [fs[0]] + fs[1..] == done + fs;
    }
  }

  lemma SelectorReadBack(sel: Selector)
    requires LegalSelector(sel)
    ensures ParseSelector(SpellSelector(sel)) == sel && Plain(SpellSelector(sel))
  {
    if sel.ChildrenByTag? {
      DecomposeQualified(sel.space, sel.tag);
    }
  }

  lemma {:induction false} JoinPlain(parts: seq<string>, c: char, d: char)
    requires parts != [] && c != d && forall i :: 0 <= i < |parts| ==> d !in parts[i]
    ensures d !in Join(parts, c)
  {
    if |parts| > 1 {
      JoinPlain(parts[1..], c, d);
    }
  }

  lemma SegmentReadBack(seg: Segment)
    requires LegalSegment(seg)
    ensures ParseSegment(SpellSegment(seg)) == Parsed(seg, "")
    ensures '/' !in SpellSegment(seg) && '|' !in SpellSegment(seg)
    ensures SpellSegment(seg) == "" <==> Blank(seg)
  {
    hide ParseSelector, ParseFilters, LegalFilter, SpellFilter, LegalSelector, Split;
    var parts := [SpellSelector(seg.sel)] + SpellFilters(seg.filters);
    SelectorReadBack(seg.sel);
    forall i | 0 <= i < |parts| ensures '/' !in parts[i] && '|' !in parts[i] && '[' !in parts[i] {
      if i > 0 {
        FilterPlain(seg.filters[i - 1]);
      }
    }
    JoinPlain(parts, '[', '/');
    JoinPlain(parts, '[', '|');
    SplitJoin(parts, '[');
    assert parts[1..] == SpellFilters(seg.filters);
    FiltersReadBack(seg.filters, []);
    assert [] + seg.filters == seg.filters;
    assert SpellSelector(seg.sel) == "" ==> ParseSelector(SpellSelector(seg.sel)) == seg.sel;
    BlankText(seg);
  }

  lemma BlankText(seg: Segment)
    requires LegalSelector(seg.sel)
    ensures SpellSegment(seg) == "" <==> Blank(seg)
  {
    if seg.filters != [] {
      assert SpellSegment(seg)[|SpellSelector(seg.sel)|] == '[';
    }
  }

  lemma {:induction false} SegmentsReadBack(g: Group, done: Group)
    requires forall i :: 0 <= i < |g| ==> LegalSegment(g[i])
    ensures ParseSegments(SpellSegments(g), done) == Parsed(done + g, "")
  {
    hide ParseSegment, SpellSegment, LegalSegment;
    if g == [] {
      assert done + g == done;
    } else {
      SegmentReadBack(g[0]);
      assert SpellSegments(g)[1..] == SpellSegments(g[1..]);
      SegmentsReadBack(g[1..], done + [g[0]]);
      assert done + [g[0]] + g[1..] == done + g;
    }
  }

  lemma {:induction false} JoinSuffix(parts: seq<string>)
    requires parts != [] && forall i :: 0 <= i < |parts| ==> '/' !in parts[i]
    ensures HasSuffix(Join(parts, '/'), "//") ==> |parts| > 2 && parts[|parts| - 1] == parts[|parts| - 2] == ""
    ensures parts[0] != "" || |parts| == 1 ==> Join(parts, '/') == "" || Join(parts, '/')[0] != '/'
  {
    var s, p := Join(parts, '/'), parts[0];
    assert forall k :: 0 <= k < |p| ==> p[k] in p;
    assert HasSuffix(s, "//") ==> s[|s| - 2..][0] == '/' && s[|s| - 2..][1] == '/';
    if |parts| > 1 {
      var t := Join(parts[1..], '/');
      assert s == p + ['/'] + t;
      JoinSuffix(parts[1..]);
      assert |t| >= 2 ==> s[|s| - 2..] == t[|t| - 2..];
      JoinShort(parts[1..]);
    }
  }

  lemma {:induction false} JoinShort(parts: seq<string>)
    requires parts != [] && forall i :: 0 <= i < |parts| ==> '/' !in parts[i]
    ensures Join(parts, '/') == "/" ==> parts == ["", ""]
    ensures Join(parts, '/') == "" ==> parts == [""]
  {
    assert forall k :: 0 <= k < |parts[0]| ==> parts[0][k] in parts[0];
    if |parts| > 1 {
      JoinShort(parts[1..]);
      assert parts == [parts[0]] + parts[1..];
    }
  }

  lemma SlashPrefix(s: string)
    ensures HasPrefix(s, "/") <==> s != "" && s[0] == '/'
    ensures HasPrefix(s, "//") ==> HasPrefix(s, "/")
  {
    assert |s| >= 2 ==> s[..1] == s[..2][..1];
    assert "//"[..1] == "/";
  }

  lemma GroupCompleted(g: Group)
    requires LegalGroup(g)
    ensures Completed(SpellGroup(g)) == SpellGroup(g) && !HasPrefix(SpellGroup(g), "/")
  {
    hide SpellSegment, LegalSegment, Blank, Join;
    var parts := SpellSegments(g);
    forall i | 0 <= i < |g| ensures '/' !in parts[i] && (parts[i] == "" <==> Blank(g[i])) {
      SegmentReadBack(g[i]);
    }
    JoinSuffix(parts);
    SlashPrefix(SpellGroup(g));
  }

  lemma GroupReadBack(g: Group)
    requires LegalGroup(g)
    ensures ParseGroup(SpellGroup(g)) == Parsed(g, "") && '|' !in SpellGroup(g)
  {
    hide SpellSegment, LegalSegment, Blank, Completed, HasPrefix, ParseSegments;
    var parts := SpellSegments(g);
    forall i | 0 <= i < |g| ensures '/' !in parts[i] && '|' !in parts[i] {
      SegmentReadBack(g[i]);
    }
    GroupCompleted(g);
    SplitJoin(parts, '/');
    JoinPlain(parts, '/', '|');
    SegmentsReadBack(g, []);
    assert [] + g == g;
  }

  lemma {:induction false} GroupsReadBack(path: Path, done: Path)
    requires forall i :: 0 <= i < |path| ==> LegalGroup(path[i])
    ensures ParseGroups(SpellGroups(path), done) == Parsed(done + path, "")
  {
    hide ParseGroup, SpellGroup;
    if path == [] {
      assert done + path == done;
    } else {
      GroupReadBack(path[0]);
      assert SpellGroups(path)[1..] == SpellGroups(path[1..]);
      GroupsReadBack(path[1..], done + [path[0]]);
      assert done + [path[0]] + path[1..] == done + path;
    }
  }

  /** Every legal path is what its own spelling compiles to. */
  lemma PathReadBack(path: Path)
    requires path != [] && forall i :: 0 <= i < |path| ==> LegalGroup(path[i])
    ensures Compile(SpellPath(path)) == Ok(path)
  {
    hide ParseGroup, SpellGroup, ParseGroups;
    var parts := SpellGroups(path);
    forall i | 0 <= i < |path| ensures '|' !in parts[i] {
      GroupReadBack(path[i]);
    }
    SplitJoin(parts, '|');
    GroupsReadBack(path, []);
    assert [] + path == path;
  }

  // ---------------------------------------------------------------- values in compiled paths

  lemma {:induction false} SplitPieces(s: string, c: char)
    ensures forall i :: 0 <= i < |Split(s, c)| ==> c !in Split(s, c)[i] && forall d :: d in Split(s, c)[i] ==> d in s
    decreases |s|
  {
    var i := Index(s, c);
    assert forall d :: d in s[..i] ==> d in s;
    if i < |s| {
      SplitPieces(s[i + 1..], c);
      assert forall d :: d in s[i + 1..] ==> d in s;
    }
  }

  lemma Between(p: string, i: nat, j: nat)
    requires i <= j <= |p|
    ensures p[i..j] == p[i..][..j - i]
  {
  }

  /** The text in quotes that a filter compares with, if it does. */
  function ComparedWith(f: Filter): (v: string)
    ensures f.AttrIs? ==> v == f.value
    ensures f.ChildTextIs? ==> v == f.text
  {
    match f
    case AttrIs(_, _, value) => value
    case ChildTextIs(_, _, text) => text
    case _ => ""
  }

  lemma ValueParsed(p: string)
    requires Plain(p)
    ensures LegalValue(ComparedWith(ParseFilter(p).value))
  {
    var f := ParseFilter(p).value;
    if f.AttrIs? || f.ChildTextIs? {
      hide LegalValue, Plain;
      QuotedLegal(p, IndexPair(p, '=', '\'') + 2);
    }
  }

  lemma QuotedLegal(p: string, i: nat)
    requires Plain(p) && i <= |p|
    ensures LegalValue(p[i..NextIndex(p, '\'', i)])
  {
    var r := NextIndex(p, '\'', i);
    Between(p, i, r);
    assert forall d :: d in p[i..r] ==> d in p;
  }

  lemma SegmentValues(text: string, seg: Segment, i: nat)
    requires '/' !in text && '|' !in text && ParseSegment(text) == Parsed(seg, "") && i < |seg.filters|
    ensures LegalValue(ComparedWith(seg.filters[i]))
  {
    hide ParseFilter, ParseFilters, LegalValue, ComparedWith;
    var pieces := Split(text, '[');
    FiltersParsed(pieces[1..], [], "");
    assert Holds(pieces[1..][i], seg.filters[i]);
    var piece := pieces[i + 1];
    SplitPieces(text, '[');
    assert forall d :: d in piece[..|piece| - 1] ==> d in piece;
    ValueParsed(piece[..|piece| - 1]);
  }

  lemma GroupValues(text: string, g: Group, j: nat, i: nat)
    requires '|' !in text && ParseGroup(text) == Parsed(g, "") && j < |g| && i < |g[j].filters|
    ensures LegalValue(ComparedWith(g[j].filters[i]))
  {
    hide ParseSegment, LegalValue, ComparedWith;
    GroupParsed(text);
    SplitPieces(Completed(text), '/');
    assert '|' !in Completed(text);
    SegmentValues(Split(Completed(text), '/')[j], g[j], i);
  }

  /** No value or text that a compiled path compares with holds a delimiter or a quote. */
  lemma CompiledValues(text: string, k: nat, j: nat, i: nat)
    requires Compile(text).Ok? && k < |Compile(text).path| && j < |Compile(text).path[k]|
    requires i < |Compile(text).path[k][j].filters|
    ensures LegalValue(ComparedWith(Compile(text).path[k][j].filters[i]))
  {
    hide ParseGroup, ParseGroups, LegalValue, Compiled, ComparedWith;
    assert Compiled([]) by { NothingCompiled(); }
    GroupsParsed(Split(text, '|'), []);
    SplitPieces(text, '|');
    GroupValues(Split(text, '|')[k], Compile(text).path[k], j, i);
  }

  lemma NothingCompiled()
    ensures Compiled([])
  {
  }
}
