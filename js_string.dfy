/**
 * The pieces of JavaScript string semantics the Lambda relies on: truthiness of an
 * optional string, the white-space set shared by `String.prototype.trim` and the
 * regular-expression class `\s`, `trim` itself, and `toLowerCase` restricted to ASCII.
 */
module JsString {
  import opened Wrappers

  /** `!!v` for a value that is either a string or absent: `undefined`, `null` and `""` are falsy. */
  predicate Truthy(v: Option<string>) {
    v.Some? && v.value != ""
  }

  /**
   * The ECMAScript WhiteSpace and LineTerminator code points: TAB, VT, FF, SP, NBSP,
   * ZWNBSP, the Zs category (U+1680, U+2000..U+200A, U+202F, U+205F, U+3000) and
   * LF, CR, U+2028, U+2029. `trim` strips exactly these and `\s` matches exactly these.
   */
  const WhitespaceChars: set<char> := {
    '\t', '\n', '\U{B}', '\U{C}', '\r', ' ', '\U{A0}', '\U{1680}',
    '\U{2000}', '\U{2001}', '\U{2002}', '\U{2003}', '\U{2004}', '\U{2005}',
    '\U{2006}', '\U{2007}', '\U{2008}', '\U{2009}', '\U{200A}',
    '\U{2028}', '\U{2029}', '\U{202F}', '\U{205F}', '\U{3000}', '\U{FEFF}'
  }

  predicate IsWhitespace(c: char) {
    c in WhitespaceChars
  }

  predicate AllWhitespace(s: string) {
    forall k :: 0 <= k < |s| ==> IsWhitespace(s[k])
  }

  predicate NoWhitespace(s: string) {
    forall k :: 0 <= k < |s| ==> !IsWhitespace(s[k])
  }

  /** Neither end of `s` is white space: what `trim` leaves behind. */
  predicate Trimmed(s: string) {
    s == [] || (!IsWhitespace(s[0]) && !IsWhitespace(s[|s| - 1]))
  }

  /** `s` with its leading white space dropped. */
  function TrimStart(s: string): string {
    if s != [] && IsWhitespace(s[0]) then TrimStart(s[1..]) else s
  }

  /** `s` with its trailing white space dropped. */
  function TrimEnd(s: string): string {
    if s != [] && IsWhitespace(s[|s| - 1]) then TrimEnd(s[..|s| - 1]) else s
  }

  /** `s.trim()` */
  function Trim(s: string): string {
    TrimEnd(TrimStart(s))
  }

  /** `s` is white space followed by `TrimStart(s)`, which does not start with white space. */
  lemma {:induction false} TrimStartSpec(s: string)
    ensures var r := TrimStart(s);
      && |r| <= |s| && r == s[|s| - |r|..]
      && AllWhitespace(s[..|s| - |r|])
      && (r == [] || !IsWhitespace(r[0]))
    decreases |s|
  {
    if s != [] && IsWhitespace(s[0]) {
      TrimStartSpec(s[1..]);
      var r := TrimStart(s);
      assert s[..|s| - |r|] == [s[0]] + s[1..][..|s| - 1 - |r|];
    }
  }

  /** `s` is `TrimEnd(s)` followed by white space, and `TrimEnd(s)` does not end with white space. */
  lemma {:induction false} TrimEndSpec(s: string)
    ensures var r := TrimEnd(s);
      && |r| <= |s| && r == s[..|r|]
      && AllWhitespace(s[|r|..])
      && (r == [] || !IsWhitespace(r[|r| - 1]))
    decreases |s|
  {
    if s != [] && IsWhitespace(s[|s| - 1]) {
      TrimEndSpec(s[..|s| - 1]);
      var r := TrimEnd(s);
      assert s[|r|..] == s[..|s| - 1][|r|..] + [s[|s| - 1]];
    }
  }

  /**
   * What `trim` returns: a factor of `s` that neither starts nor ends with white space,
   * everything cut off on either side being white space.
   */
  lemma TrimSpec(s: string)
    ensures Trimmed(Trim(s))
    ensures |TrimStart(s)| <= |s|
    ensures var r, i := Trim(s), |s| - |TrimStart(s)|;
      && i + |r| <= |s|
      && r == s[i..i + |r|]
      && AllWhitespace(s[..i])
      && AllWhitespace(s[i + |r|..])
  {
    var t := TrimStart(s);
    TrimStartSpec(s);
    TrimEndSpec(t);
    var r, i := Trim(s), |s| - |t|;
    assert s[i + |r|..] == t[|r|..];
    if r != [] {
      assert r[0] == t[0];
    }
  }

  /** ASCII case mapping of one character (`toLowerCase` outside ASCII is not modelled). */
  function LowerChar(c: char): char {
    if 'A' <= c <= 'Z' then (c as int - 'A' as int + 'a' as int) as char else c
  }

  /** `s.toLowerCase()`, character by character. */
  function ToLower(s: string): string {
    seq(|s|, k requires 0 <= k < |s| => LowerChar(s[k]))
  }

  /** Lower-casing changes neither white space nor non-white space. */
  lemma LowerCharKeepsWhitespace(c: char)
    ensures IsWhitespace(LowerChar(c)) == IsWhitespace(c)
  {
  }

  /** A string that is already trimmed is left alone by `trim`. */
  lemma TrimOfTrimmed(s: string)
    requires Trimmed(s)
    ensures Trim(s) == s
  {
  }

  /** `trim` is idempotent. */
  lemma TrimIdempotent(s: string)
    ensures Trim(Trim(s)) == Trim(s)
  {
    TrimSpec(s);
    TrimOfTrimmed(Trim(s));
  }

  /** A string without any white space is its own trim. */
  lemma TrimOfNoWhitespace(s: string)
    requires NoWhitespace(s)
    ensures Trim(s) == s
  {
    TrimOfTrimmed(s);
  }

  /** `trim` yields `""` exactly when the string consists of white space only. */
  lemma TrimEmptyIffAllWhitespace(s: string)
    ensures Trim(s) == "" <==> AllWhitespace(s)
  {
    TrimSpec(s);
  }

  /** Lower-casing and stripping leading white space commute. */
  lemma {:induction false} TrimStartLower(s: string)
    ensures TrimStart(ToLower(s)) == ToLower(TrimStart(s))
    decreases |s|
  {
    if s != [] {
      LowerCharKeepsWhitespace(s[0]);
      assert ToLower(s)[1..] == ToLower(s[1..]);
      if IsWhitespace(s[0]) {
        TrimStartLower(s[1..]);
      }
    }
  }

  /** Lower-casing and stripping trailing white space commute. */
  lemma {:induction false} TrimEndLower(s: string)
    ensures TrimEnd(ToLower(s)) == ToLower(TrimEnd(s))
    decreases |s|
  {
    if s != [] {
      LowerCharKeepsWhitespace(s[|s| - 1]);
      assert ToLower(s)[..|s| - 1] == ToLower(s[..|s| - 1]);
      if IsWhitespace(s[|s| - 1]) {
        TrimEndLower(s[..|s| - 1]);
      }
    }
  }

  /** `s.toLowerCase().trim()` equals `s.trim().toLowerCase()`. */
  lemma TrimLowerCommute(s: string)
    ensures Trim(ToLower(s)) == ToLower(Trim(s))
  {
    TrimStartLower(s);
    TrimEndLower(TrimStart(s));
  }

  /** Lower-casing twice is lower-casing once. */
  lemma ToLowerIdempotent(s: string)
    ensures ToLower(ToLower(s)) == ToLower(s)
  {
  }

  /** Lower-casing keeps a string free of white space. */
  lemma ToLowerKeepsNoWhitespace(s: string)
    requires NoWhitespace(s)
    ensures NoWhitespace(ToLower(s))
  {
    forall k | 0 <= k < |s| ensures !IsWhitespace(ToLower(s)[k]) {
      LowerCharKeepsWhitespace(s[k]);
    }
  }
}
