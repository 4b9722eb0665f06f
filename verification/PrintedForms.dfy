/** Which of the forms that XML leaves open the writer chooses; reading the text back cannot tell. */
module PrintedForms {
  import opened Names
  import opened Texts
  import opened Attrs
  import opened Forest
  import opened Trees
  import opened Reading
  import opened Printing
  import opened Lexing
  import opened TextTrip
  import opened Deployment

  // ---------------------------------------------------------------- which characters are escaped

  lemma EscapeForm(table: Table, c: char)
    ensures var e := Escape(table, c);
            && '<' !in e && (e == [c] || (|e| > 1 && '>' !in e && '\'' !in e && '"' !in e))
            && (e == [c] <==> (c != '&' && c != '<' && (c == '>' ==> table.CanonicalAttrVal?)
                               && (c == '\'' ==> !table.AllFive?) && (c == '"' ==> table.CanonicalText?)))
  {
  }

  /** What is left of the three characters that a table may leave as they are. */
  lemma {:induction false} EscapedForm(table: Table, s: string)
    ensures var r := Escaped(table, s);
            && '<' !in r
            && ('>' in r <==> '>' in s && table.CanonicalAttrVal?)
            && ('\'' in r <==> '\'' in s && !table.AllFive?)
            && ('"' in r <==> '"' in s && table.CanonicalText?)
  {
    hide Escape;
    if s != "" {
      EscapedForm(table, s[1..]);
      EscapeForm(table, s[0]);
      assert s == [s[0]] + s[1..];
    }
  }

  /** Text keeps its quotes exactly with the setting for canonical text, and never keeps an angle bracket. */
  lemma TextForm(w: WriteSettings, data: string, flag: bool)
    ensures var r := Print(w, Tree(CharData(data, flag), [], []));
            && '<' !in r && '>' !in r
            && ('\'' in r <==> '\'' in data && w.canonicalText) && ('"' in r <==> '"' in data && w.canonicalText)
  {
    EscapedForm(TextTable(w), data);
  }

  /** An attribute's value keeps '>' and single quotes exactly with the setting for canonical values. */
  lemma AttrForm(w: WriteSettings, a: Attr)
    requires WellNamed(a.space, a.key)
    ensures var r := PrintAttr(w, a);
            && '<' !in r && Count(r, '"') == 2
            && ('>' in r <==> '>' in a.value && w.canonicalAttrVal)
            && ('\'' in r <==> '\'' in a.value && w.canonicalAttrVal)
  {
    hide Escaped, Qualified, WellNamed, Count;
    EscapedForm(AttrTable(w), a.value);
    NameChars(a.space, a.key);
    TwoQuotes(Qualified(a.space, a.key), Escaped(AttrTable(w), a.value));
  }

  lemma TwoQuotes(q: string, v: string)
    requires '"' !in q && '"' !in v
    ensures Count(q + "=\"" + v + "\"", '"') == 2
  {
    CountConcat(q + "=\"" + v, "\"", '"');
    CountConcat(q + "=\"", v, '"');
    CountConcat(q, "=\"", '"');
    CountNone(q, '"');
    CountNone(v, '"');
    assert "=\""[1..] == "\"" && "\""[1..] == "";
  }

  lemma NameChars(space: string, tag: string)
    requires WellNamed(space, tag)
    ensures forall c :: c in Qualified(space, tag) ==> NameChar(c) || c == ':'
  {
  }

  // ---------------------------------------------------------------- empty elements

  lemma SuffixAt(r: string)
    ensures HasSuffix(r, "/>") <==> |r| >= 2 && r[|r| - 2] == '/' && r[|r| - 1] == '>'
  {
    if |r| >= 2 {
      assert r[|r| - 2..] == [r[|r| - 2], r[|r| - 1]];
    }
  }

  /** An element ends in "/>" exactly if it has no children and the setting for canonical end tags is off. */
  lemma EndForm(w: WriteSettings, t: Tree)
    requires t.kind.Element? && WellNamed(t.kind.space, t.kind.tag)
    ensures HasSuffix(Print(w, t), "/>") <==> t.kids == [] && !w.canonicalEndTags
  {
    hide PrintAttrs, PrintAll;
    var r, q := Print(w, t), Qualified(t.kind.space, t.kind.tag);
    NameChars(t.kind.space, t.kind.tag);
    assert q != "" && q[|q| - 1] in q;
    SuffixAt(r);
    if t.kids == [] && !w.canonicalEndTags {
      assert r == PrintOpen(w, t.kind, t.attr) + "/>";
    } else {
      assert PrintClose(t.kind) == "</" + q + ">";
      assert r[|r| - 2] == q[|q| - 1];
    }
  }

  // ---------------------------------------------------------------- white space

  /** One for every separator, which is a space. */
  function Gap(c: char): nat {
    if c == ' ' then 1 else 0
  }

  /** How often c stands in the content of a tree, in front of its attributes and in front of instruction bodies. */
  function Among(t: Tree, c: char): nat
    decreases t, 1
  {
    match t.kind
    case Element(_, _) => AmongAttrs(t.attr, c) + AmongAll(t.kids, c)
    case CharData(data, _) => Count(data, c)
    case Comment(text) => Count(text, c)
    case Directive(text) => Count(text, c)
    case ProcInst(_, inst) => if inst == "" then 0 else Gap(c) + Count(inst, c)
    case CData(data) => Count(data, c)
  }

  function AmongAttrs(attrs: seq<Attr>, c: char): nat {
    if attrs == [] then 0 else Gap(c) + Count(attrs[0].value, c) + AmongAttrs(attrs[1..], c)
  }

  function AmongAll(ts: seq<Tree>, c: char): nat
    decreases ts, 0
  {
    if ts == [] then 0 else Among(ts[0], c) + AmongAll(ts[1..], c)
  }

  lemma CountThree(x: string, y: string, z: string, c: char)
    ensures Count(x + y + z, c) == Count(x, c) + Count(y, c) + Count(z, c)
  {
    CountConcat(x + y, z, c);
    CountConcat(x, y, c);
  }

  lemma EscapeWhite(table: Table, x: char, c: char)
    requires IsSpace(c)
    ensures Count(Escape(table, x), c) == if x == c then 1 else 0
  {
    var e := Escape(table, x);
    if e == [x] {
      assert e[1..] == "";
    } else {
      CountNone(e, c);
    }
  }

  lemma {:induction false} EscapedWhite(table: Table, s: string, c: char)
    requires IsSpace(c)
    ensures Count(Escaped(table, s), c) == Count(s, c)
  {
    hide Escape, IsSpace;
    if s != "" {
      EscapeWhite(table, s[0], c);
      CountConcat(Escape(table, s[0]), Escaped(table, s[1..]), c);
      EscapedWhite(table, s[1..], c);
    }
  }

  lemma NoWhite(space: string, tag: string, c: char)
    requires WellNamed(space, tag) && IsSpace(c)
    ensures Count(Qualified(space, tag), c) == 0
  {
    NameChars(space, tag);
    CountNone(Qualified(space, tag), c);
  }

  lemma {:induction false} AttrsWhite(w: WriteSettings, attrs: seq<Attr>, c: char)
    requires WritableAttrs(attrs) && IsSpace(c)
    ensures Count(PrintAttrs(w, attrs), c) == AmongAttrs(attrs, c)
  {
    hide Escaped, Qualified, WellNamed, Count;
    if attrs == [] {
      CountNone("", c);
    } else {
      var a := attrs[0];
      var q, v := Qualified(a.space, a.key), Escaped(AttrTable(w), a.value);
      NoWhite(a.space, a.key, c);
      EscapedWhite(AttrTable(w), a.value, c);
      AttrsWhite(w, attrs[1..], c);
      CountThree(q + "=\"", v, "\"", c);
      CountConcat(q, "=\"", c);
      CountThree(" ", PrintAttr(w, a), PrintAttrs(w, attrs[1..]), c);
      Marks(c);
    }
  }

  /** The marks around elements and attributes. */
  lemma Marks(c: char)
    requires IsSpace(c)
    ensures Count(" ", c) == Gap(c) && Count("", c) == 0 && Count("=\"", c) == 0 && Count("\"", c) == 0
    ensures Count("<", c) == 0 && Count(">", c) == 0 && Count("</", c) == 0 && Count("/>", c) == 0
  {
    assert " "[1..] == "";
    CountNone("=\"", c);
    CountNone("\"", c);
    CountNone("<", c);
    CountNone(">", c);
    CountNone("</", c);
    CountNone("/>", c);
  }

  lemma Wrapped(open: string, text: string, close: string, c: char)
    requires c !in open && c !in close
    ensures Count(open + text + close, c) == Count(text, c)
  {
    CountThree(open, text, close, c);
    CountNone(open, c);
    CountNone(close, c);
  }

  lemma LeafWhite(w: WriteSettings, t: Tree, c: char)
    requires !t.kind.Element? && Writable(t.kind) && IsSpace(c)
    ensures Count(PrintLeaf(w, t.kind), c) == Among(t, c)
  {
    hide Escaped, WellNamed, Count, Find, Balanced;
    match t.kind
    case CharData(data, _) => EscapedWhite(TextTable(w), data, c);
    case Comment(text) => Wrapped("<!--", text, "-->", c);
    case Directive(text) => Wrapped("<!", text, ">", c);
    case CData(data) => Wrapped("<![CDATA[", data, "]]>", c);
    case ProcInst(target, inst) =>
      NoWhite("", target, c);
      CountConcat(" ", inst, c);
      CountThree("<?" + target, if inst == "" then "" else " " + inst, "?>", c);
      Wrapped("<?", target, "", c);
      assert "<?" + target + "" == "<?" + target;
      CountNone("?>", c);
      Marks(c);
  }

  /** All white space in a text is content, but for one space in front of each attribute and instruction body. */
  lemma {:induction false} WhiteWritten(w: WriteSettings, t: Tree, c: char)
    requires Printable(t) && IsSpace(c)
    ensures Count(Print(w, t), c) == Among(t, c)
    decreases t, 1
  {
    hide Count, PrintAttrs, PrintLeaf, Qualified, WritableAttrs, WellNamed, AmongAttrs, IsSpace;
    if t.kind.Element? {
      var q := Qualified(t.kind.space, t.kind.tag);
      Marks(c);
      NoWhite(t.kind.space, t.kind.tag, c);
      AttrsWhite(w, t.attr, c);
      WhiteWrittenAll(w, t.kids, c);
      CountThree("<", q, PrintAttrs(w, t.attr), c);
      CountThree("</", q, ">", c);
      var end := if t.kids != [] then ">" + PrintAll(w, t.kids) + PrintClose(t.kind)
                 else if w.canonicalEndTags then ">" + PrintClose(t.kind) else "/>";
      CountThree(">", PrintAll(w, t.kids), PrintClose(t.kind), c);
      CountConcat(">", PrintClose(t.kind), c);
      CountConcat(PrintOpen(w, t.kind, t.attr), end, c);
    } else {
      LeafWhite(w, t, c);
    }
  }

  lemma {:induction false} WhiteWrittenAll(w: WriteSettings, ts: seq<Tree>, c: char)
    requires PrintableAll(ts) && IsSpace(c)
    ensures Count(PrintAll(w, ts), c) == AmongAll(ts, c)
    decreases ts, 0
  {
    hide Count, Print, Printable, Among, IsSpace;
    if ts == [] {
      CountNone("", c);
    } else {
      WhiteWritten(w, ts[0], c);
      WhiteWrittenAll(w, ts[1..], c);
      CountConcat(Print(w, ts[0]), PrintAll(w, ts[1..]), c);
    }
  }

  // ---------------------------------------------------------------- the settings of a new document

  /** With the settings of a new document, empty elements are closed in their tag and all five characters escaped. */
  lemma NewDocumentForm(t: Tree, a: Attr, data: string, flag: bool)
    requires t.kind.Element? && WellNamed(t.kind.space, t.kind.tag) && WellNamed(a.space, a.key)
    ensures HasSuffix(Print(DEFAULT, t), "/>") <==> t.kids == []
    ensures '>' !in PrintAttr(DEFAULT, a) && '\'' !in PrintAttr(DEFAULT, a)
    ensures var r := Print(DEFAULT, Tree(CharData(data, flag), [], [])); '\'' !in r && '"' !in r
  {
    EndForm(DEFAULT, t);
    AttrForm(DEFAULT, a);
    TextForm(DEFAULT, data, flag);
  }
}
