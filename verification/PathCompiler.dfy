/** The compiler of path strings in pkg/controller/etree/path.go. */
module PathCompiler {
  import opened Names
  import opened Texts
  import opened PathSpec
  import G = PathGrammar

  class Compiler {
    var err: string

    constructor ()
      ensures err == ""
    {
      err := "";
    }

    /** Parses the path; `panicked` stands for an index out of range at run time. */
    method ParsePath(path: string) returns (groups: Path, panicked: bool)
      requires err == ""
      modifies this
      ensures (if panicked then G.Panicked else G.Parsed(groups, err)) == G.ParseGroups(Split(path, '|'), [])
    {
      hide G.ParseGroup;
      groups, panicked := [], false;
      var texts := Split(path, '|');
      for i := 0 to |texts|
        invariant err == "" && !panicked
        invariant G.ParseGroups(texts[i..], groups) == G.ParseGroups(texts, [])
      {
        var g;
        g, panicked := ParseGroup(texts[i]);
        if panicked {
          return;
        }
        groups := groups + [g];
        if err != "" {
          return;
        }
      }
    }

    method ParseGroup(path: string) returns (g: Group, panicked: bool)
      requires err == ""
      modifies this
      ensures (if panicked then G.Panicked else G.Parsed(g, err)) == G.ParseGroup(path)
    {
      hide G.ParseSegment;
      g, panicked := [], false;
      var t := path;
      if HasPrefix(t, "//") {
        t := "." + t;
      }
      if HasSuffix(t, "//") {
        t := t + "*";
      }
      if HasPrefix(t, "/") {
        err := G.ABSOLUTE;
        return;
      }
      var texts := Split(t, '/');
      for i := 0 to |texts|
        invariant err == "" && !panicked
        invariant G.ParseSegments(texts[i..], g) == G.ParseSegments(texts, [])
      {
        var seg;
        seg, panicked := ParseSegment(texts[i]);
        if panicked {
          return;
        }
        g := g + [seg];
        if err != "" {
          return;
        }
      }
    }

    method ParseSegment(path: string) returns (seg: Segment, panicked: bool)
      requires err == ""
      modifies this
      ensures (if panicked then G.Panicked else G.Parsed(seg, err)) == G.ParseSegment(path)
    {
      hide G.ParseFilter, G.ParseSelector;
      panicked := false;
      var pieces := Split(path, '[');
      seg := Segment(G.ParseSelector(pieces[0]), []);
      for i := 1 to |pieces|
        invariant !panicked && seg.sel == G.ParseSelector(pieces[0])
        invariant G.ParseFilters(pieces[i..], seg.filters, err) == G.ParseFilters(pieces[1..], [], "")
      {
        var fpath := pieces[i];
        if fpath == "" {
          panicked := true;
          return;
        }
        if fpath[|fpath| - 1] != ']' {
          err := G.BRACKETS;
          return;
        }
        var f := ParseFilter(fpath[..|fpath| - 1]);
        seg := seg.(filters := seg.filters + [f]);
      }
    }

    method ParseFilter(p: string) returns (f: Filter)
      modifies this
      ensures G.ParseFilter(p).Parsed? && f == G.ParseFilter(p).value
      ensures err == if G.ParseFilter(p).err == "" then old(err) else G.ParseFilter(p).err
    {
      if |p| == 0 {
        err := G.EMPTY_FILTER;
        return NoFilter;
      }
      var eq := IndexPair(p, '=', '\'');
      if eq < |p| {
        var r := G.NextIndex(p, '\'', eq + 2);
        if r != |p| - 1 {
          err := G.QUOTES;
          return NoFilter;
        }
        if p[0] == '@' {
          var (space, key) := SpaceDecompose(p[1..eq]);
          return AttrIs(space, key, p[eq + 2..r]);
        }
        var (space, tag) := SpaceDecompose(p[..eq]);
        return ChildTextIs(space, tag, p[eq + 2..r]);
      }
      if p[0] == '@' {
        var (space, key) := SpaceDecompose(p[1..]);
        return HasAttr(space, key);
      }
      if IsInteger(p) {
        var pos := Atoi(p);
        return Position(if pos > 0 then pos - 1 else pos);
      }
      var (space, tag) := SpaceDecompose(p);
      return HasChild(space, tag);
    }
  }

  method CompilePath(path: string) returns (r: G.Outcome)
    ensures r == G.Compile(path)
  {
    var c := new Compiler();
    var groups, panicked := c.ParsePath(path);
    if panicked {
      return G.Panic;
    }
    return if c.err != "" then G.Fail(c.err) else G.Ok(groups);
  }
}
