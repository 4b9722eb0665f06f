/** Namespace prefixes and the string helpers of pkg/controller/etree/helpers.go. */
module Names {

  /** An empty namespace in a query matches every namespace. */
  predicate SpaceMatch(a: string, b: string) {
    a == "" || a == b
  }

  /** Go's strings.IndexByte: the first position of c, or |s| where Go says -1. */
  function Index(s: string, c: char): (i: nat)
    ensures i <= |s| && (i < |s| ==> s[i] == c)
    ensures forall k :: 0 <= k < i ==> s[k] != c
  {
    if s == "" || s[0] == c then 0 else 1 + Index(s[1..], c)
  }

  /** Splits "space:tag" at the first colon. */
  function SpaceDecompose(s: string): (r: (string, string)) {
    var i := Index(s, ':');
    if i == |s| then ("", s) else (s[..i], s[i + 1..])
  }

  /** How a name is written; SpaceDecompose reads it back. */
  function Qualified(space: string, tag: string): string {
    if space == "" then tag else space + ":" + tag
  }

  lemma DecomposeQualified(space: string, tag: string)
    ensures (':' !in space && (space == "" ==> ':' !in tag)) <==>
            SpaceDecompose(Qualified(space, tag)) == (space, tag)
  {
    var q := Qualified(space, tag);
    var i := Index(q, ':');
    if space != "" {
      assert q[|space|] == ':';
      assert forall k :: 0 <= k < |space| ==> q[k] == space[k];
      assert ':' !in space ==> i == |space| && q[..i] == space && q[i + 1..] == tag;
    }
  }
}
