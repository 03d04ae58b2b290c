/**
  The composer's send validation: JavaScript's `String.prototype.trim` and the
  insert payload that `handleSend` builds from the draft.
 */
module Composer {
  import opened Messages

  /** Display name used when the name field is left empty. */
  const Anonymous: string := "익명"

  /**
    The characters `trim` removes: ECMAScript's WhiteSpace (tab, vertical tab,
    form feed, space, no-break space, byte order mark and the Unicode space
    separators) and LineTerminator (line feed, carriage return, U+2028, U+2029).
   */
  predicate IsWhitespace(c: char)
  {
    || c == '\t' || c == '\n' || c == '\U{000B}' || c == '\U{000C}' || c == '\r'
    || c == ' ' || c == '\U{00A0}' || c == '\U{1680}'
    || ('\U{2000}' <= c <= '\U{200A}')
    || c == '\U{2028}' || c == '\U{2029}' || c == '\U{202F}' || c == '\U{205F}'
    || c == '\U{3000}' || c == '\U{FEFF}'
  }

  predicate AllWhitespace(s: string)
  {
    forall i :: 0 <= i < |s| ==> IsWhitespace(s[i])
  }

  /** How many whitespace characters `s` starts with. */
  function Leading(s: string): (n: nat)
    ensures n <= |s|
    ensures forall i :: 0 <= i < n ==> IsWhitespace(s[i])
    ensures n < |s| ==> !IsWhitespace(s[n])
  {
    if s != [] && IsWhitespace(s[0]) then
      var n := 1 + Leading(s[1..]);
      assert forall i :: 1 <= i < n ==> s[i] == s[1..][i - 1];
      n
    else
      0
  }

  /** How many whitespace characters `s` ends with. */
  function Trailing(s: string): (n: nat)
    ensures n <= |s|
    ensures forall i :: |s| - n <= i < |s| ==> IsWhitespace(s[i])
    ensures n < |s| ==> !IsWhitespace(s[|s| - 1 - n])
  {
    if s != [] && IsWhitespace(s[|s| - 1]) then
      var n := 1 + Trailing(s[..|s| - 1]);
      assert forall i :: |s| - n <= i < |s| - 1 ==> s[i] == s[..|s| - 1][i];
      n
    else
      0
  }

  /**
    `s.trim()`: the window of `s` left once whitespace is dropped from both
    ends. Every character outside the window is whitespace, the window neither
    starts nor ends with whitespace, and it is empty exactly when `s` holds
    only whitespace.
   */
  function Trim(s: string): (r: string)
    ensures Leading(s) + |r| <= |s|
    ensures forall i :: 0 <= i < |r| ==> r[i] == s[Leading(s) + i]
    ensures forall i :: 0 <= i < |s| && !(Leading(s) <= i < Leading(s) + |r|) ==> IsWhitespace(s[i])
    ensures r != [] ==> !IsWhitespace(r[0]) && !IsWhitespace(r[|r| - 1])
    ensures r == [] <==> AllWhitespace(s)
  {
    var lead, trail := Leading(s), Trailing(s);
    if lead == |s| then
      []
    else
      assert lead < |s| - trail;
      s[lead..|s| - trail]
  }

  /** The row `handleSend` inserts. */
  datatype Payload = Payload(name: string, content: string)

  /**
    What `handleSend` sends for the draft (`name`, `content`): nothing when the
    trimmed content is empty; otherwise the name, or `Anonymous` for an empty
    one, with the trimmed content.
   */
  function Compose(name: string, content: string): (r: Option<Payload>)
    ensures r.None? <==> AllWhitespace(content)
    ensures r.Some? ==> r.value.name != [] && r.value.content != []
    ensures r.Some? && name != [] ==> r.value.name == name
    ensures r.Some? && name == [] ==> r.value.name == Anonymous
    ensures r.Some? ==> r.value.content == Trim(content)
  {
    var body := Trim(content);
    if body == [] then None
    else Some(Payload(if name != [] then name else Anonymous, body))
  }

  /** Trimming twice is trimming once. */
  lemma TrimIdempotent(s: string)
    ensures Trim(Trim(s)) == Trim(s)
  {
    var r := Trim(s);
    if r != [] {
      assert Leading(r) == 0 && Trailing(r) == 0;
    }
  }
}
