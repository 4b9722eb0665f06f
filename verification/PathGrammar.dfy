/** The grammar of path strings of pkg/controller/etree/path.go, and what the strings mean. */
module PathGrammar {
  import opened Names
  import opened Texts
  import opened PathSpec

  const ABSOLUTE := "paths cannot be absolute."
  const BRACKETS := "path has invalid filter [brackets]."
  const EMPTY_FILTER := "path contains an empty filter expression."
  const QUOTES := "path has mismatched filter quotes."

  /** What a parsing step leaves: a value and the compiler's error (empty for none), or a run-time panic. */
  datatype Parsed<T> = Parsed(value: T, err: string) | Panicked

  /** What CompilePath returns. */
  datatype Outcome = Ok(path: Path) | Fail(message: string) | Panic

  // ---------------------------------------------------------------- the grammar, as functions

  function ParseSelector(p: string): Selector {
    if p == "." then Self
    else if p == ".." then Parent
    else if p == "*" then Children
    else if p == "" then Descendants
    else var (space, tag) := SpaceDecompose(p); ChildrenByTag(space, tag)
  }

  /** nextIndex for a one-character needle, or |s| where the original says -1. */
  function NextIndex(s: string, c: char, offset: nat): (i: nat)
    requires offset <= |s|
    ensures offset <= i <= |s|
  {
    offset + Index(s[offset..], c)
  }

  function ParseFilter(p: string): Parsed<Filter> {
    if p == "" then Parsed(NoFilter, EMPTY_FILTER)
    else
      var eq := IndexPair(p, '=', '\'');
      if eq < |p| then
        var r := NextIndex(p, '\'', eq + 2);
        if r != |p| - 1 then Parsed(NoFilter, QUOTES)
        else if p[0] == '@' then
          assert eq > 0;
          var (space, key) := SpaceDecompose(p[1..eq]);
          Parsed(AttrIs(space, key, p[eq + 2..r]), "")
        else
          var (space, tag) := SpaceDecompose(p[..eq]);
          Parsed(ChildTextIs(space, tag, p[eq + 2..r]), "")
      else if p[0] == '@' then
        var (space, key) := SpaceDecompose(p[1..]);
        Parsed(HasAttr(space, key), "")
      else if IsInteger(p) then
        var pos := Atoi(p);
        Parsed(Position(if pos > 0 then pos - 1 else pos), "")
      else
        var (space, tag) := SpaceDecompose(p);
        Parsed(HasChild(space, tag), "")
  }

  /** The filters of a segment from the pieces after each '['; an error does not stop the loop. */
  function ParseFilters(pieces: seq<string>, done: seq<Filter>, err: string): Parsed<seq<Filter>> {
    if pieces == [] then Parsed(done, err)
    else
      var p := pieces[0];
      if p == "" then Panicked
      else if p[|p| - 1] != ']' then Parsed(done, BRACKETS)
      else
        var f := ParseFilter(p[..|p| - 1]);
        if f.Panicked? then Panicked
        else ParseFilters(pieces[1..], done + [f.value], if f.err == "" then err else f.err)
  }

  function ParseSegment(text: string): Parsed<Segment> {
    var pieces := Split(text, '[');
    match ParseFilters(pieces[1..], [], "")
    case Panicked => Panicked
    case Parsed(filters, err) => Parsed(Segment(ParseSelector(pieces[0]), filters), err)
  }

  function ParseSegments(texts: seq<string>, done: Group): Parsed<Group> {
    if texts == [] then Parsed(done, "")
    else
      match ParseSegment(texts[0])
      case Panicked => Panicked
      case Parsed(seg, err) => if err != "" then Parsed(done + [seg], err) else ParseSegments(texts[1..], done + [seg])
  }

  /** A leading double slash gets a "." in front, a trailing one a "*" behind. */
  function Completed(text: string): string {
    var t := if HasPrefix(text, "//") then "." + text else text;
    if HasSuffix(t, "//") then t + "*" else t
  }

  function ParseGroup(text: string): Parsed<Group> {
    var t := Completed(text);
    if HasPrefix(t, "/") then Parsed([], ABSOLUTE) else ParseSegments(Split(t, '/'), [])
  }

  function ParseGroups(texts: seq<string>, done: Path): Parsed<Path> {
    if texts == [] then Parsed(done, "")
    else
      match ParseGroup(texts[0])
      case Panicked => Panicked
      case Parsed(g, err) => if err != "" then Parsed(done + [g], err) else ParseGroups(texts[1..], done + [g])
  }

  function Compile(text: string): Outcome {
    match ParseGroups(Split(text, '|'), [])
    case Panicked => Panic
    case Parsed(groups, err) => if err != "" then Fail(err) else Ok(groups)
  }
}
