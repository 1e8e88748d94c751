/**
 * The email check `/^[^\s@]+@[^\s@]+\.[^\s@]+$/.test(email)`: a decision procedure,
 * the regular language it is meant to decide, and the proof that the two agree.
 */
module EmailFormat {
  import opened JsString

  /** One character of the class `[^\s@]`. */
  predicate IsPlain(c: char) {
    !IsWhitespace(c) && c != '@'
  }

  predicate AllPlain(s: string) {
    forall k :: 0 <= k < |s| ==> IsPlain(s[k])
  }

  /** Printable ASCII other than `@` is neither white space nor `@`. */
  lemma VisibleAsciiIsPlain(c: char)
    requires '!' <= c <= '~' && c != '@'
    ensures IsPlain(c)
  {
  }

  /** A run of printable ASCII without `@` is `[^\s@]*`. */
  lemma VisibleAsciiRunIsPlain(s: string)
    requires forall k :: 0 <= k < |s| ==> '!' <= s[k] <= '~' && s[k] != '@'
    ensures AllPlain(s)
  {
    forall k | 0 <= k < |s| ensures IsPlain(s[k]) {
      VisibleAsciiIsPlain(s[k]);
    }
  }

  /** `[^\s@]+` */
  predicate PlainPlus(s: string) {
    |s| > 0 && AllPlain(s)
  }

  /** `s` is `local "@" host "." tld` with each of the three parts in `[^\s@]+`. */
  ghost predicate SplitsAsEmail(s: string, local: string, host: string, tld: string) {
    s == local + "@" + host + "." + tld && PlainPlus(local) && PlainPlus(host) && PlainPlus(tld)
  }

  /** The language of the anchored pattern: some split of `s` fits it. */
  ghost predicate MatchesEmailPattern(s: string) {
    exists local, host, tld :: SplitsAsEmail(s, local, host, tld)
  }

  /** The part after the `@`: only `[^\s@]` characters, with a dot that is neither first nor last. */
  predicate IsDottedDomain(d: string) {
    AllPlain(d) && exists k :: 0 < k < |d| - 1 && d[k] == '.'
  }

  /** The check itself: a non-empty `[^\s@]` prefix, an `@`, and a dotted domain. */
  predicate IsEmail(s: string) {
    exists i :: 0 < i < |s| && s[i] == '@' && AllPlain(s[..i]) && IsDottedDomain(s[i + 1..])
  }

  /** A slice of a `[^\s@]*` string is one too. */
  lemma AllPlainSlice(s: string, lo: nat, hi: nat)
    requires AllPlain(s) && lo <= hi <= |s|
    ensures AllPlain(s[lo..hi])
  {
    forall j | 0 <= j < hi - lo ensures IsPlain(s[lo..hi][j]) {
      assert s[lo..hi][j] == s[lo + j];
    }
  }

  /** Cutting a string around position `i`. */
  lemma SplitAround(s: string, i: nat)
    requires i < |s|
    ensures s == s[..i] + [s[i]] + s[i + 1..]
  {
  }

  /** An accepted string, cut at its `@` (position `i`) and at the dot `k` places into the domain. */
  lemma SplitAccepted(s: string, i: nat, k: nat)
    requires 0 < i < |s| && s[i] == '@' && AllPlain(s[..i]) && IsDottedDomain(s[i + 1..])
    requires 0 < k < |s| - i - 2 && s[i + 1..][k] == '.'
    ensures SplitsAsEmail(s, s[..i], s[i + 1..][..k], s[i + 1..][k + 1..])
  {
    var d := s[i + 1..];
    SplitAround(s, i);
    SplitAround(d, k);
    AllPlainSlice(d, 0, k);
    AllPlainSlice(d, k + 1, |d|);
  }

  /** Every string the check accepts splits as the pattern demands. */
  lemma IsEmailMatchesPattern(s: string)
    requires IsEmail(s)
    ensures MatchesEmailPattern(s)
  {
    var i :| 0 < i < |s| && s[i] == '@' && AllPlain(s[..i]) && IsDottedDomain(s[i + 1..]);
    var d := s[i + 1..];
    var k :| 0 < k < |d| - 1 && d[k] == '.';
    SplitAccepted(s, i, k);
  }

  /** Every string of the pattern's language is accepted by the check. */
  lemma PatternMatchesIsEmail(s: string, local: string, host: string, tld: string)
    requires SplitsAsEmail(s, local, host, tld)
    ensures IsEmail(s)
  {
    var i := |local|;
    var d := host + "." + tld;
    assert s == local + "@" + d;
    assert s[..i] == local;
    assert s[i] == '@';
    assert s[i + 1..] == d;
    assert d[|host|] == '.';
    forall j | 0 <= j < |d| ensures IsPlain(d[j]) {
      if j < |host| {
        assert d[j] == host[j];
      } else if j > |host| {
        assert d[j] == tld[j - |host| - 1];
      }
    }
    assert IsDottedDomain(d);
  }

  /** The check accepts exactly the strings of the pattern's language. */
  lemma IsEmailIffMatchesPattern(s: string)
    ensures IsEmail(s) <==> MatchesEmailPattern(s)
  {
    if IsEmail(s) {
      IsEmailMatchesPattern(s);
    }
    if MatchesEmailPattern(s) {
      var local, host, tld :| SplitsAsEmail(s, local, host, tld);
      PatternMatchesIsEmail(s, local, host, tld);
    }
  }

  /** An accepted email contains no white space, so trimming it changes nothing. */
  lemma EmailHasNoWhitespace(s: string)
    requires IsEmail(s)
    ensures NoWhitespace(s)
    ensures Trim(s) == s
  {
    var i :| 0 < i < |s| && s[i] == '@' && AllPlain(s[..i]) && IsDottedDomain(s[i + 1..]);
    forall k | 0 <= k < |s| ensures !IsWhitespace(s[k]) {
      if k < i {
        assert s[k] == s[..i][k];
      } else if k > i {
        assert s[k] == s[i + 1..][k - i - 1];
      }
    }
    TrimOfNoWhitespace(s);
  }

  /** The test suite's malformed address is rejected. */
  lemma RejectsAddressWithoutAt()
    ensures !IsEmail("invalid-email-format")
  {
    var s := "invalid-email-format";
    assert '@' !in s;
  }

  /** Lower-casing preserves acceptance. */
  lemma ToLowerKeepsEmail(s: string)
    requires IsEmail(s)
    ensures IsEmail(ToLower(s))
  {
    var i :| 0 < i < |s| && s[i] == '@' && AllPlain(s[..i]) && IsDottedDomain(s[i + 1..]);
    var t := ToLower(s);
    var d, e := s[i + 1..], t[i + 1..];
    var k :| 0 < k < |d| - 1 && d[k] == '.';
    forall j | 0 <= j < i ensures IsPlain(t[..i][j]) {
      assert s[..i][j] == s[j];
      LowerCharKeepsWhitespace(s[j]);
    }
    forall j | 0 <= j < |e| ensures IsPlain(e[j]) {
      assert d[j] == s[i + 1 + j];
      LowerCharKeepsWhitespace(s[i + 1 + j]);
    }
    assert e[k] == LowerChar(d[k]);
    assert IsDottedDomain(e);
  }
}
