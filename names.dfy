/**
 * Player names: the whitespace stripping applied to the typed-in name, the
 * character/length rule `^[A-Za-z0-9_ ]{1,20}$` checked with `re.match`, and
 * the decision taken when a new player is registered.
 */
module Names {

  /** The characters Python's `str.isspace()` accepts; `str.strip()` removes
      exactly these from both ends of a string. */
  predicate IsSpace(c: char): (r: bool)
    ensures c == ' ' || c == '\t' || c == '\n' || c == '\r' ==> r
    ensures r && NameChar(c) ==> c == ' '
  {
    || ('\t' <= c <= '\r')                 // tab, line feed, vertical tab, form feed, carriage return
    || ('\U{1C}' <= c <= '\U{1F}')         // file, group, record and unit separators
    || c == ' '
    || c == '\U{85}' || c == '\U{A0}' || c == '\U{1680}'
    || ('\U{2000}' <= c <= '\U{200A}')
    || c == '\U{2028}' || c == '\U{2029}' || c == '\U{202F}' || c == '\U{205F}' || c == '\U{3000}'
  }

  /** `s` with its leading whitespace removed. */
  function TrimLeft(s: string): (r: string)
    ensures |r| <= |s| && r == s[|s| - |r|..]
    ensures forall k :: 0 <= k < |s| - |r| ==> IsSpace(s[k])
    ensures r == [] || !IsSpace(r[0])
  {
    if s != [] && IsSpace(s[0]) then TrimLeft(s[1..]) else s
  }

  /** `s` with its trailing whitespace removed. */
  function TrimRight(s: string): (r: string)
    ensures |r| <= |s| && r == s[..|r|]
    ensures forall k :: |r| <= k < |s| ==> IsSpace(s[k])
    ensures r == [] || !IsSpace(r[|r| - 1])
  {
    if s != [] && IsSpace(s[|s| - 1]) then TrimRight(s[..|s| - 1]) else s
  }

  /** Python's `s.strip()`: the longest infix of `s` that neither starts nor
      ends with whitespace, all characters cut off being whitespace. */
  function Strip(s: string): (r: string)
    ensures |r| <= |s|
    ensures r == [] || (!IsSpace(r[0]) && !IsSpace(r[|r| - 1]))
    ensures (forall k :: 0 <= k < |s| ==> IsSpace(s[k])) ==> r == []
    ensures (s == [] || (!IsSpace(s[0]) && !IsSpace(s[|s| - 1]))) ==> r == s
  {
    var left := TrimLeft(s);
    var r := TrimRight(left);
    assert r != [] ==> r[0] == left[0];
    r
  }

  /** What `Strip` keeps is an infix of its input, and everything it cuts
      off on either side is whitespace. */
  lemma StripKeepsInfix(s: string)
    ensures var r := Strip(s);
      exists i :: 0 <= i <= |s| - |r| && r == s[i..i + |r|] && Trimmed(s, i, |r|)
  {
    var left := TrimLeft(s);
    var r := TrimRight(left);
    assert Strip(s) == r;
    TrimmedInfix(s, left, r);
  }

  /** If `left` is what remains of `s` once leading whitespace is cut and `r`
      what remains of `left` once trailing whitespace is cut, then `r` sits in
      `s` at the position where `left` starts, with only whitespace around. */
  lemma TrimmedInfix(s: string, left: string, r: string)
    requires |left| <= |s| && left == s[|s| - |left|..]
    requires forall k :: 0 <= k < |s| - |left| ==> IsSpace(s[k])
    requires |r| <= |left| && r == left[..|r|]
    requires forall k :: |r| <= k < |left| ==> IsSpace(left[k])
    ensures var i := |s| - |left|;
      r == s[i..i + |r|] && Trimmed(s, i, |r|)
    ensures exists i :: 0 <= i <= |s| - |r| && r == s[i..i + |r|] && Trimmed(s, i, |r|)
  {
    var i := |s| - |left|;
    assert s[i..][..|r|] == s[i..i + |r|];
    forall k | i + |r| <= k < |s|
      ensures IsSpace(s[k])
    {
      assert s[k] == left[k - i];
    }
  }

  /** Everything of `s` outside `s[i..i + len]` is whitespace. */
  predicate Trimmed(s: string, i: nat, len: nat)
    requires i + len <= |s|
  {
    forall k :: 0 <= k < |s| && (k < i || i + len <= k) ==> IsSpace(s[k])
  }

  /** One character of the class `[A-Za-z0-9_ ]`. */
  predicate NameChar(c: char) {
    ('A' <= c <= 'Z') || ('a' <= c <= 'z') || ('0' <= c <= '9') || c == '_' || c == ' '
  }

  /** The whole of `s` is `[A-Za-z0-9_ ]{1,20}`. */
  predicate NameBody(s: string) {
    1 <= |s| <= 20 && forall k :: 0 <= k < |s| ==> NameChar(s[k])
  }

  /** `re.match("^[A-Za-z0-9_ ]{1,20}$", s)` succeeds: Python's `$` matches
      at the end of the string and also just before a final line feed. */
  predicate RegexMatches(s: string): (r: bool)
    ensures r ==> 1 <= |s| <= 21
    ensures r && (s == [] || s[|s| - 1] != '\n') ==> NameBody(s)
    ensures NameBody(s) ==> r
  {
    NameBody(s) || (|s| >= 1 && s[|s| - 1] == '\n' && NameBody(s[..|s| - 1]))
  }

  /** Once a name is stripped, the trailing-line-feed allowance of `$` can no
      longer apply: the regular expression accepts exactly the names made of
      1 to 20 allowed characters. */
  lemma StrippedMatchesIffBody(input: string)
    ensures RegexMatches(Strip(input)) <==> NameBody(Strip(input))
  {
  }

  /** The outcome of asking to register the typed-in text `input`. */
  datatype Registration = Added(name: string) | EmptyName | InvalidName | DuplicateName(name: string)

  /** The checks of the registration handler, in its order: strip, refuse an
      empty name, refuse a name the regular expression rejects, refuse a name
      that is already a key, otherwise add the stripped name. */
  function Admit(input: string, taken: set<string>): (r: Registration)
    ensures r.Added? <==> Strip(input) != [] && NameBody(Strip(input)) && Strip(input) !in taken
    ensures r.Added? ==> r.name == Strip(input) && 1 <= |r.name| <= 20
    ensures r.EmptyName? <==> Strip(input) == []
    ensures r.InvalidName? <==> Strip(input) != [] && !NameBody(Strip(input))
    ensures r.DuplicateName? <==> Strip(input) != [] && NameBody(Strip(input)) && Strip(input) in taken
    ensures r.DuplicateName? ==> r.name == Strip(input) && r.name in taken
  {
    var name := Strip(input);
    StrippedMatchesIffBody(input);
    if name == [] then EmptyName
    else if !RegexMatches(name) then InvalidName
    else if name in taken then DuplicateName(name)
    else Added(name)
  }
}
