/**
 * A tokeniser for the part of XML 1.0 that writeTo emits (sections 2.2 to 2.8, 2.11, 3.1 and 4.6). It stands in for the
 * decoder of Go, which is not part of this model, and serves to say that what is written can be read.
 */
module Lexing {
  import opened Options
  import opened Names
  import opened Texts
  import opened Attrs
  import opened Reading

  /** A value read from the front of a text, and the text that remains. */
  datatype Lexed<T> = Bad | Got(value: T, rest: string)

  // ---------------------------------------------------------------- characters (section 2.2)

  predicate XmlChar(c: char) {
    || c == '\t' || c == '\n' || c == '\r'
    || 0x20 <= c as int <= 0xD7FF || 0xE000 <= c as int <= 0xFFFD || 0x1_0000 <= c as int
  }

  predicate XmlText(s: string) {
    forall i :: 0 <= i < |s| ==> XmlChar(s[i])
  }

  // ---------------------------------------------------------------- ASCII names (section 2.3)

  predicate NameStart(c: char) {
    'a' <= c <= 'z' || 'A' <= c <= 'Z' || c == '_'
  }

  predicate NameChar(c: char) {
    NameStart(c) || '0' <= c <= '9' || c == '-' || c == '.'
  }

  /** The length of the run of name characters and colons at the front. */
  function NameLength(s: string): (n: nat)
    ensures n <= |s| && (forall i :: 0 <= i < n ==> NameChar(s[i]) || s[i] == ':')
    ensures n < |s| ==> !NameChar(s[n]) && s[n] != ':'
  {
    if s != "" && (NameChar(s[0]) || s[0] == ':') then 1 + NameLength(s[1..]) else 0
  }

  function LexName(s: string): (r: Lexed<string>)
    ensures r.Got? ==> |r.rest| < |s|
  {
    var n := NameLength(s);
    if n == 0 || !NameStart(s[0]) then Bad else Got(s[..n], s[n..])
  }

  /** The text without the white space in front. */
  function Trimmed(s: string): (r: string)
    ensures |r| <= |s|
  {
    if s != "" && IsSpace(s[0]) then Trimmed(s[1..]) else s
  }

  // ---------------------------------------------------------------- character data (sections 2.4, 4.6)

  /** The character that a predefined entity name stands for. */
  function Entity(name: string): Option<char> {
    if name == "amp" then Some('&')
    else if name == "lt" then Some('<')
    else if name == "gt" then Some('>')
    else if name == "apos" then Some('\'')
    else if name == "quot" then Some('"')
    else None
  }

  function Unescaped(s: string): Option<string>
    decreases |s|
  {
    if s == "" then Some("")
    else if s[0] != '&' then
      var r := Unescaped(s[1..]);
      if r.None? then None else Some([s[0]] + r.value)
    else
      var i := Index(s, ';');
      if i == |s| then None
      else
        var c := Entity(s[1..i]);
        var r := Unescaped(s[i + 1..]);
        if c.None? || r.None? then None else Some([c.value] + r.value)
  }

  /** The first position of a text in another, or the length of the latter if there is none. */
  function Find(s: string, p: string): (i: nat)
    requires p != ""
    ensures i <= |s|
  {
    if HasPrefix(s, p) then 0
    else if s == "" then 0
    else 1 + Find(s[1..], p)
  }

  /** Reads up to a closing text and drops it. */
  function LexUntil(s: string, close: string): (r: Lexed<string>)
    requires close != ""
    ensures r.Got? ==> |r.rest| < |s|
  {
    var i := Find(s, close);
    if i + |close| > |s| then Bad else Got(s[..i], s[i + |close|..])
  }

  // ---------------------------------------------------------------- tags (section 3.1)

  function LexAttr(s: string): (r: Lexed<Attr>)
    ensures r.Got? ==> |r.rest| < |s|
  {
    var n := LexName(s);
    if n.Bad? then Bad
    else
      var eq := Trimmed(n.rest);
      if eq == "" || eq[0] != '=' then Bad
      else
        var q := Trimmed(eq[1..]);
        if q == "" || (q[0] != '"' && q[0] != '\'') then Bad
        else
          var i := Index(q[1..], q[0]);
          if i == |q[1..]| || '<' in q[1..][..i] then Bad
          else
            var v := Unescaped(q[1..][..i]);
            if v.None? then Bad
            else
              var (space, key) := SpaceDecompose(n.value);
              Got(Attr(space, key, v.value), q[1..][i + 1..])
  }

  /** The attributes of a start tag, up to but without the "/" or ">" that ends it. */
  function LexAttrs(s: string, done: seq<Attr>): (r: Lexed<seq<Attr>>)
    ensures r.Got? ==> |r.rest| <= |s| && r.rest != "" && (r.rest[0] == '>' || r.rest[0] == '/')
    decreases |s|
  {
    var t := Trimmed(s);
    if t == "" then Bad
    else if t[0] == '>' || t[0] == '/' then Got(done, t)
    else
      var a := LexAttr(t);
      if a.Bad? then Bad else LexAttrs(a.rest, done + [a.value])
  }

  function LexStart(s: string): (r: Lexed<seq<Raw>>)
    ensures r.Got? ==> |r.rest| < |s|
  {
    var n := LexName(s);
    if n.Bad? then Bad
    else
      var attrs := LexAttrs(n.rest, []);
      if attrs.Bad? then Bad
      else
        var (space, tag) := SpaceDecompose(n.value);
        var open := Start(space, tag, attrs.value);
        if attrs.rest[0] == '>' then Got([open], attrs.rest[1..])
        else if |attrs.rest| > 1 && attrs.rest[1] == '>' then Got([open, End(space, tag)], attrs.rest[2..])
        else Bad
  }

  function LexEnd(s: string): (r: Lexed<seq<Raw>>)
    ensures r.Got? ==> |r.rest| < |s|
  {
    var n := LexName(s);
    if n.Bad? then Bad
    else
      var t := Trimmed(n.rest);
      if t == "" || t[0] != '>' then Bad
      else
        var (space, tag) := SpaceDecompose(n.value);
        Got([End(space, tag)], t[1..])
  }

  // ---------------------------------------------------------------- comments, directives, instructions

  /** Comments (section 2.5) hold no double hyphen. */
  function LexComment(s: string): (r: Lexed<seq<Raw>>)
    ensures r.Got? ==> |r.rest| < |s|
  {
    var t := LexUntil(s, "--");
    if t.Bad? || t.rest == "" || t.rest[0] != '>' then Bad else Got([Remark(t.value)], t.rest[1..])
  }

  /** The quote that is open, if any, and the nesting of angle brackets, inside a directive. */
  datatype Inside = Inside(quote: Option<char>, depth: nat)

  function Onward(i: Inside, c: char): Inside {
    match i.quote
    case Some(q) => if c == q then i.(quote := None) else i
    case None =>
      if c == '\'' || c == '"' then i.(quote := Some(c))
      else if c == '<' then i.(depth := i.depth + 1)
      else if c == '>' && i.depth > 0 then i.(depth := i.depth - 1)
      else i
  }

  /** The '>' that ends the directive. */
  predicate EndsHere(i: Inside, c: char) {
    c == '>' && i == Inside(None, 0)
  }

  /** A comment inside a directive, which this tokeniser does not read. */
  predicate CommentHere(i: Inside, s: string) {
    i.quote.None? && HasPrefix(s, "<!--")
  }

  function LexDirective(s: string, i: Inside): (r: Lexed<string>)
    ensures r.Got? ==> |r.rest| < |s|
  {
    if s == "" || CommentHere(i, s) then Bad
    else if EndsHere(i, s[0]) then Got("", s[1..])
    else
      var r := LexDirective(s[1..], Onward(i, s[0]));
      if r.Bad? then Bad else Got([s[0]] + r.value, r.rest)
  }

  function LexInstruction(s: string): (r: Lexed<seq<Raw>>)
    ensures r.Got? ==> |r.rest| < |s|
  {
    var n := LexName(s);
    if n.Bad? then Bad
    else
      var t := LexUntil(Trimmed(n.rest), "?>");
      if t.Bad? then Bad else Got([Instruction(n.value, t.value)], t.rest)
  }

  // ---------------------------------------------------------------- the tokeniser

  /** Character data up to the next tag; the sequence "]]>" must not occur in it (section 2.4). */
  function LexChars(s: string): (r: Lexed<seq<Raw>>)
    requires s != "" && s[0] != '<'
    ensures r.Got? ==> |r.rest| < |s|
  {
    var i := Index(s, '<');
    var v := Unescaped(s[..i]);
    if v.None? || Find(s[..i], "]]>") + 3 <= i then Bad else Got([Chars(v.value)], s[i..])
  }

  /** The token at the front; an element without content gives its start and its end. */
  function LexOne(s: string): (r: Lexed<seq<Raw>>)
    requires s != ""
    ensures r.Got? ==> |r.rest| < |s|
  {
    if s[0] != '<' then LexChars(s)
    else if HasPrefix(s, "<!--") then LexComment(s[4..])
    else if HasPrefix(s, "<![CDATA[") then
      var t := LexUntil(s[9..], "]]>");
      if t.Bad? then Bad else Got([Chars(t.value)], t.rest)
    else if HasPrefix(s, "<!") then
      if |s| == 2 || s[2] == '-' || s[2] == '[' then Bad
      else
        var t := LexDirective(s[3..], Inside(None, 0));
        if t.Bad? then Bad else Got([Declaration([s[2]] + t.value)], t.rest)
    else if HasPrefix(s, "<?") then LexInstruction(s[2..])
    else if HasPrefix(s, "</") then LexEnd(s[2..])
    else LexStart(s[1..])
  }

  function Lex(s: string): Option<seq<Raw>>
    decreases |s|
  {
    if s == "" then Some([])
    else
      var one := LexOne(s);
      if one.Bad? then None else Prefixed(one.value, Lex(one.rest))
  }

  function Prefixed(raws: seq<Raw>, more: Option<seq<Raw>>): Option<seq<Raw>> {
    if more.None? then None else Some(raws + more.value)
  }

  /** Line ends are single line feeds to everything after this (section 2.11). */
  function LineEnds(s: string): string {
    if s == "" then ""
    else if s[0] != '\r' then [s[0]] + LineEnds(s[1..])
    else if |s| > 1 && s[1] == '\n' then LineEnds(s[1..])
    else "\n" + LineEnds(s[1..])
  }

  /** The tokens of a document, which is made of legal characters (sections 2.1 and 2.2). */
  function Tokens(s: string): Option<seq<Raw>> {
    if XmlText(s) then Lex(LineEnds(s)) else None
  }
}
