/** The few `java.lang.String` operations the services rely on. */
module Text {
  import opened Common

  /** `String.trim` strips every character whose code point is at most U+0020. */
  predicate IsTrimmable(c: char) {
    c <= ' '
  }

  function TrimStart(s: string): (r: string)
    ensures |r| <= |s| && r == s[|s| - |r|..]
    ensures r == [] <==> forall k :: 0 <= k < |s| ==> IsTrimmable(s[k])
    ensures r != [] ==> !IsTrimmable(r[0])
  {
    if s != [] && IsTrimmable(s[0]) then TrimStart(s[1..]) else s
  }

  function TrimEnd(s: string): (r: string)
    ensures |r| <= |s| && r == s[..|r|]
    ensures r == [] <==> forall k :: 0 <= k < |s| ==> IsTrimmable(s[k])
    ensures r != [] ==> !IsTrimmable(r[|r| - 1])
  {
    if s != [] && IsTrimmable(s[|s| - 1]) then TrimEnd(s[..|s| - 1]) else s
  }

  /** `String.trim`: the string without leading and trailing blanks. */
  function Trim(s: string): (r: string)
    ensures |r| <= |s|
    ensures r == [] <==> forall k :: 0 <= k < |s| ==> IsTrimmable(s[k])
    ensures r != [] ==> !IsTrimmable(r[0]) && !IsTrimmable(r[|r| - 1])
  {
    var t := TrimStart(s);
    assert t == [] <==> forall k :: 0 <= k < |s| ==> IsTrimmable(s[k]);
    TrimEnd(t)
  }

  /** Every character of `s` is one `String.trim` strips. */
  predicate AllTrimmable(s: string) {
    forall k :: 0 <= k < |s| ==> IsTrimmable(s[k])
  }

  /** `@NotBlank` fails: the value is null or holds only blanks. */
  predicate IsBlank(s: Option<string>) {
    s.None? || AllTrimmable(s.value)
  }

  /** Blank means "trims to the empty string", the test `@NotBlank` makes. */
  lemma BlankIsEmptyTrim(s: string)
    ensures IsBlank(Some(s)) <==> Trim(s) == []
  {
  }

  /** Lower case of one character, ASCII letters only. */
  function LowerChar(c: char): (r: char)
    ensures 'A' <= c <= 'Z' ==> r as int == c as int + 32
    ensures !('A' <= c <= 'Z') ==> r == c
  {
    if 'A' <= c <= 'Z' then (c as int + 32) as char else c
  }

  /** `String.toLowerCase`, restricted to ASCII letters. */
  function ToLower(s: string): (r: string)
    ensures |r| == |s|
    ensures forall k :: 0 <= k < |s| ==> r[k] == LowerChar(s[k])
  {
    if s == [] then [] else [LowerChar(s[0])] + ToLower(s[1..])
  }

  /** A string with no blank at either end is its own trim. */
  lemma TrimOfUnpadded(s: string)
    requires s != [] && !IsTrimmable(s[0]) && !IsTrimmable(s[|s| - 1])
    ensures Trim(s) == s
  {
    assert TrimStart(s) == s;
  }

  /** Leading blanks, however many, are all that `TrimStart` removes. */
  lemma {:induction false} TrimStartSkipsPadding(pad: string, s: string)
    requires AllTrimmable(pad)
    requires s == [] || !IsTrimmable(s[0])
    ensures TrimStart(pad + s) == s
    decreases |pad|
  {
    if pad == [] {
      assert pad + s == s;
    } else {
      assert (pad + s)[1..] == pad[1..] + s;
      TrimStartSkipsPadding(pad[1..], s);
    }
  }

  /** Trailing blanks, however many, are all that `TrimEnd` removes. */
  lemma {:induction false} TrimEndSkipsPadding(s: string, pad: string)
    requires AllTrimmable(pad)
    requires s == [] || !IsTrimmable(s[|s| - 1])
    ensures TrimEnd(s + pad) == s
    decreases |pad|
  {
    if pad == [] {
      assert s + pad == s;
    } else {
      var shorter := pad[..|pad| - 1];
      assert (s + pad)[..|s + pad| - 1] == s + shorter;
      TrimEndSkipsPadding(s, shorter);
    }
  }

  /** `String.trim` of a padded word is the word. */
  lemma TrimOfPadded(pre: string, core: string, post: string)
    requires AllTrimmable(pre) && AllTrimmable(post)
    requires core != [] && !IsTrimmable(core[0]) && !IsTrimmable(core[|core| - 1])
    ensures Trim(pre + core + post) == core
  {
    assert pre + core + post == pre + (core + post);
    TrimStartSkipsPadding(pre, core + post);
    TrimEndSkipsPadding(core, post);
  }

  /** Lower-casing twice is lower-casing once. */
  lemma ToLowerIdempotent(s: string)
    ensures ToLower(ToLower(s)) == ToLower(s)
  {
    LowerCaseOf(ToLower(s), ToLower(s));
  }

  /** The lower case of `s` is `t` when they agree character by character. */
  lemma LowerCaseOf(s: string, t: string)
    requires |s| == |t|
    requires forall k :: 0 <= k < |s| ==> LowerChar(s[k]) == t[k]
    ensures ToLower(s) == t
  {
  }

  /** The lower case of an unpadded `s`, trimmed first, is `t` when they
      agree character by character. */
  lemma TrimmedLowerCaseOf(s: string, t: string)
    requires s != [] && !IsTrimmable(s[0]) && !IsTrimmable(s[|s| - 1])
    requires |s| == |t|
    requires forall k :: 0 <= k < |s| ==> LowerChar(s[k]) == t[k]
    ensures ToLower(Trim(s)) == t
  {
    TrimOfUnpadded(s);
    LowerCaseOf(s, t);
  }

  /** `String.equalsIgnoreCase`, restricted to ASCII letters. */
  predicate EqualsIgnoreCase(a: string, b: string) {
    ToLower(a) == ToLower(b)
  }

  /** `String.startsWith`. */
  predicate StartsWith(s: string, prefix: string) {
    |prefix| <= |s| && s[..|prefix|] == prefix
  }

  /** `String.endsWith`. */
  predicate EndsWith(s: string, suffix: string) {
    |suffix| <= |s| && s[|s| - |suffix|..] == suffix
  }

  function Digit(d: nat): (c: char)
    requires d < 10
    ensures '0' <= c <= '9'
  {
    "0123456789"[d]
  }

  function NatToString(n: nat): (r: string)
    ensures |r| >= 1
    ensures forall k :: 0 <= k < |r| ==> '0' <= r[k] <= '9'
  {
    if n < 10 then [Digit(n)] else NatToString(n / 10) + [Digit(n % 10)]
  }

  /** `String.valueOf(long)`: decimal digits, a minus sign when negative. */
  function IntToString(i: int): (r: string)
    ensures |r| >= 1
    ensures r[0] == '-' <==> i < 0
  {
    if i < 0 then "-" + NatToString(-i) else NatToString(i)
  }
}
