/**
 * The parts of Kotlin's string library the notes core relies on:
 * `Char.isWhitespace`, `CharSequence.isBlank`, `String.trim` and `ifBlank`.
 */
module Text {

  /** Kotlin's `Char.isWhitespace` on the JVM: `Character.isWhitespace(c) || Character.isSpaceChar(c)`.
      That is the controls TAB..CR and FS..US, and every space, line and paragraph separator
      (including the no-break spaces U+00A0, U+2007 and U+202F). */
  predicate IsWhitespace(c: char)
    ensures c == ' ' || c == '\t' || c == '\n' || c == '\r' || c == '\U{A0}' ==> IsWhitespace(c)
    ensures ('0' <= c <= '9') || ('a' <= c <= 'z') || ('A' <= c <= 'Z') ==> !IsWhitespace(c)
  {
    var n := c as int;
    (0x09 <= n <= 0x0D) || (0x1C <= n <= 0x20) || n == 0xA0 || n == 0x1680
    || (0x2000 <= n <= 0x200A) || n == 0x2028 || n == 0x2029 || n == 0x202F
    || n == 0x205F || n == 0x3000
  }

  /** `isBlank()`: empty, or made of whitespace only. */
  predicate IsBlank(s: string)
    ensures s == [] ==> IsBlank(s)
    ensures IsBlank(s) && s != [] ==> IsWhitespace(s[0]) && IsWhitespace(s[|s| - 1])
  {
    forall i :: 0 <= i < |s| ==> IsWhitespace(s[i])
  }

  /** Neither starts nor ends with whitespace. */
  predicate IsTrimmed(s: string) {
    s == [] || (!IsWhitespace(s[0]) && !IsWhitespace(s[|s| - 1]))
  }

  /** Drops the leading whitespace; what remains does not start with whitespace. */
  function TrimStart(s: string): (r: string)
    ensures |r| <= |s|
    ensures r == [] || !IsWhitespace(r[0])
  {
    if s != [] && IsWhitespace(s[0]) then TrimStart(s[1..]) else s
  }

  /** Drops the trailing whitespace; what remains does not end with whitespace. */
  function TrimEnd(s: string): (r: string)
    ensures |r| <= |s|
    ensures r == [] || !IsWhitespace(r[|r| - 1])
  {
    if s != [] && IsWhitespace(s[|s| - 1]) then TrimEnd(s[..|s| - 1]) else s
  }

  /** What `TrimStart` keeps is a suffix of `s`, and what it drops is blank. */
  lemma {:induction false} TrimStartIsSuffix(s: string)
    ensures TrimStart(s) == s[|s| - |TrimStart(s)|..]
    ensures IsBlank(s[..|s| - |TrimStart(s)|])
  {
    if s != [] && IsWhitespace(s[0]) {
      TrimStartIsSuffix(s[1..]);
      var k := |s| - |TrimStart(s)|;
      assert s[1..][k - 1..] == s[k..];
      assert forall i :: 1 <= i < k ==> s[i] == s[1..][i - 1];
    }
  }

  /** What `TrimEnd` keeps is a prefix of `s`, and what it drops is blank. */
  lemma {:induction false} TrimEndIsPrefix(s: string)
    ensures TrimEnd(s) == s[..|TrimEnd(s)|]
    ensures IsBlank(s[|TrimEnd(s)|..])
  {
    if s != [] && IsWhitespace(s[|s| - 1]) {
      TrimEndIsPrefix(s[..|s| - 1]);
      var k := |TrimEnd(s)|;
      assert s[..|s| - 1][..k] == s[..k];
      assert forall i :: k <= i < |s| - 1 ==> s[i] == s[..|s| - 1][i];
    }
  }

  /** `trim()`: removes whitespace from both ends. */
  function Trim(s: string): (r: string)
    ensures |r| <= |s|
    ensures IsTrimmed(r)
  {
    var u := TrimStart(s);
    TrimEndIsPrefix(u);
    var t := TrimEnd(u);
    assert t != [] ==> t[0] == u[0];
    t
  }

  /** `ifBlank { default }`. */
  function IfBlank(s: string, default: string): (r: string)
    ensures IsBlank(s) ==> r == default
    ensures !IsBlank(s) ==> r == s
  {
    if IsBlank(s) then default else s
  }

  lemma BlankConcat(a: string, b: string)
    ensures IsBlank(a + b) <==> IsBlank(a) && IsBlank(b)
  {
    if IsBlank(a + b) {
      forall i | 0 <= i < |a| ensures IsWhitespace(a[i]) { assert a[i] == (a + b)[i]; }
      forall i | 0 <= i < |b| ensures IsWhitespace(b[i]) { assert b[i] == (a + b)[|a| + i]; }
    }
  }

  /** The whitespace `trim()` removes from the front of `s`. */
  function LeadingPad(s: string): string {
    s[..|s| - |TrimStart(s)|]
  }

  /** The whitespace `trim()` removes from the back of `s`. */
  function TrailingPad(s: string): string {
    TrimStart(s)[|Trim(s)|..]
  }

  lemma LeadingPadIsBlank(s: string)
    ensures IsBlank(LeadingPad(s))
  {
    TrimStartIsSuffix(s);
    assert LeadingPad(s) == s[..|s| - |TrimStart(s)|];
  }

  lemma TrailingPadIsBlank(s: string)
    ensures IsBlank(TrailingPad(s))
  {
    TrimEndIsPrefix(TrimStart(s));
    assert TrailingPad(s) == TrimStart(s)[|TrimEnd(TrimStart(s))|..];
  }

  lemma PadsSurroundTrim(s: string)
    ensures s == LeadingPad(s) + Trim(s) + TrailingPad(s)
  {
    var u := TrimStart(s);
    TrimStartIsSuffix(s);
    TrimEndIsPrefix(u);
    assert s == s[..|s| - |u|] + u;
    assert u == Trim(s) + u[|Trim(s)|..];
  }

  /** `trim()` removes only blank text from the two ends: `s` is the result padded with blank text. */
  lemma TrimDecomposes(s: string)
    ensures IsBlank(LeadingPad(s))
    ensures IsBlank(TrailingPad(s))
    ensures s == LeadingPad(s) + Trim(s) + TrailingPad(s)
  {
    LeadingPadIsBlank(s);
    TrailingPadIsBlank(s);
    PadsSurroundTrim(s);
  }

  /** `trim()` is empty exactly when the string is blank. */
  lemma TrimEmptyIffBlank(s: string)
    ensures Trim(s) == [] <==> IsBlank(s)
  {
    TrimDecomposes(s);
    var a, b := LeadingPad(s), TrailingPad(s);
    if Trim(s) == [] {
      assert s == a + b;
      BlankConcat(a, b);
    } else {
      assert s[|a|] == Trim(s)[0];
    }
  }

  lemma {:induction false} TrimStartPadded(a: string, t: string)
    requires IsBlank(a)
    requires t == [] || !IsWhitespace(t[0])
    ensures TrimStart(a + t) == t
  {
    if a != [] {
      assert (a + t)[1..] == a[1..] + t;
      assert (a + t)[0] == a[0];
      TrimStartPadded(a[1..], t);
    }
  }

  lemma {:induction false} TrimEndPadded(t: string, b: string)
    requires IsBlank(b)
    requires t == [] || !IsWhitespace(t[|t| - 1])
    ensures TrimEnd(t + b) == t
  {
    if b != [] {
      assert (t + b)[..|t + b| - 1] == t + b[..|b| - 1];
      assert (t + b)[|t + b| - 1] == b[|b| - 1];
      TrimEndPadded(t, b[..|b| - 1]);
    }
  }

  /** An independent characterisation of `trim()`: for a string with no whitespace at its ends,
      padding it with blank text on either side and trimming gives it back. */
  lemma TrimOfPadded(a: string, t: string, b: string)
    requires IsBlank(a) && IsBlank(b) && IsTrimmed(t)
    ensures Trim(a + t + b) == t
  {
    if t == [] {
      assert a + t + b == a + b;
      BlankConcat(a, b);
      TrimEmptyIffBlank(a + b);
    } else {
      assert a + t + b == a + (t + b);
      TrimStartPadded(a, t + b);
      TrimEndPadded(t, b);
    }
  }

  /** A string with no whitespace at its ends is its own `trim()`. */
  lemma TrimOfTrimmed(t: string)
    requires IsTrimmed(t)
    ensures Trim(t) == t
  {
    assert [] + t + [] == t;
    TrimOfPadded([], t, []);
  }

  /** Trimming is idempotent. */
  lemma TrimIdempotent(s: string)
    ensures Trim(Trim(s)) == Trim(s)
  {
    TrimOfTrimmed(Trim(s));
  }

  lemma Regroup(p: string, a: string, t: string, b: string, q: string)
    ensures p + (a + t + b) + q == (p + a) + t + (b + q)
  {
  }

  /** Strings that differ only in leading or trailing whitespace trim to the same text. */
  lemma TrimIgnoresPadding(p: string, s: string, q: string)
    requires IsBlank(p) && IsBlank(q)
    ensures Trim(p + s + q) == Trim(s)
  {
    TrimDecomposes(s);
    var a, t, b := LeadingPad(s), Trim(s), TrailingPad(s);
    BlankConcat(p, a);
    BlankConcat(b, q);
    Regroup(p, a, t, b, q);
    TrimOfPadded(p + a, t, b + q);
  }

  /** Padding a string with whitespace does not change whether it is blank. */
  lemma BlankIgnoresPadding(p: string, s: string, q: string)
    requires IsBlank(p) && IsBlank(q)
    ensures IsBlank(p + s + q) <==> IsBlank(s)
  {
    BlankConcat(p, s);
    BlankConcat(p + s, q);
  }
}
