/**
 * The JavaScript string built-ins the schedule board relies on:
 * `trim`, `toLowerCase`, `includes`, `replace(/[^0-9]/g, "")` and `parseInt`
 * on a string of decimal digits.
 */
module JsText {

  /** The characters `String.prototype.trim` removes: WhiteSpace and LineTerminator. */
  predicate IsJsWhitespace(c: char) {
    || c == ' ' || c == '\t' || c == '\n' || c == '\r'
    || c == '\U{B}' || c == '\U{C}' || c == '\U{A0}' || c == '\U{1680}'
    || ('\U{2000}' <= c <= '\U{200A}')
    || c == '\U{2028}' || c == '\U{2029}' || c == '\U{202F}' || c == '\U{205F}'
    || c == '\U{3000}' || c == '\U{FEFF}'
  }

  /** Drops leading whitespace: what is left is a suffix that starts with a non-blank. */
  function TrimStart(s: string): (r: string)
    ensures |r| <= |s| && r == s[|s| - |r|..]
    ensures forall k :: 0 <= k < |s| - |r| ==> IsJsWhitespace(s[k])
    ensures r == [] || !IsJsWhitespace(r[0])
  {
    if s != [] && IsJsWhitespace(s[0]) then TrimStart(s[1..]) else s
  }

  /** Drops trailing whitespace: what is left is a prefix that ends with a non-blank. */
  function TrimEnd(s: string): (r: string)
    ensures |r| <= |s| && r == s[..|r|]
    ensures forall k :: |r| <= k < |s| ==> IsJsWhitespace(s[k])
    ensures r == [] || !IsJsWhitespace(r[|r| - 1])
  {
    if s != [] && IsJsWhitespace(s[|s| - 1]) then TrimEnd(s[..|s| - 1]) else s
  }

  /**
   * `s.trim()`: a contiguous piece of `s` with only whitespace on either side
   * of it, which neither starts nor ends with whitespace.
   */
  function Trim(s: string): (r: string)
    ensures exists i :: TrimmedAt(s, r, i)
    ensures r == [] || (!IsJsWhitespace(r[0]) && !IsJsWhitespace(r[|r| - 1]))
  {
    var t := TrimStart(s);
    var r := TrimEnd(t);
    var i := |s| - |t|;
    assert r == s[i..i + |r|];
    assert forall k :: i + |r| <= k < |s| ==> s[k] == t[k - i];
    assert TrimmedAt(s, r, i);
    r
  }

  /** `r` sits at index `i` of `s` with only whitespace before and after it. */
  predicate TrimmedAt(s: string, r: string, i: int) {
    && 0 <= i <= |s| - |r| && r == s[i..i + |r|]
    && (forall k :: 0 <= k < i ==> IsJsWhitespace(s[k]))
    && (forall k :: i + |r| <= k < |s| ==> IsJsWhitespace(s[k]))
  }

  /** A string made of whitespace only trims to the empty string. */
  lemma {:induction false} TrimBlank(s: string)
    requires forall k :: 0 <= k < |s| ==> IsJsWhitespace(s[k])
    ensures Trim(s) == ""
  {
    if s != [] {
      TrimBlank(s[1..]);
    }
  }

  /**
   * `toLowerCase` on one character, for ASCII, Latin-1 and the Cyrillic block
   * (which holds the Mongolian letters Ё, Ө and Ү of the roster's names).
   */
  function ToLowerChar(c: char): char {
    if 'A' <= c <= 'Z' then (c as int + 32) as char
    else if '\U{C0}' <= c <= '\U{DE}' && c != '\U{D7}' then (c as int + 32) as char
    else if '\U{400}' <= c <= '\U{40F}' then (c as int + 0x50) as char
    else if '\U{410}' <= c <= '\U{42F}' then (c as int + 0x20) as char
    else if c == '\U{4C0}' then '\U{4CF}'
    else if '\U{4C1}' <= c <= '\U{4CE}' && c as int % 2 == 1 then (c as int + 1) as char
    else if ('\U{460}' <= c <= '\U{481}' || '\U{48A}' <= c <= '\U{4BF}' || '\U{4D0}' <= c <= '\U{52F}')
            && c as int % 2 == 0 then (c as int + 1) as char
    else c
  }

  /** `s.toLowerCase()`, character by character. */
  function ToLower(s: string): (r: string)
    ensures |r| == |s|
    ensures forall k :: 0 <= k < |s| ==> r[k] == ToLowerChar(s[k])
  {
    seq(|s|, k requires 0 <= k < |s| => ToLowerChar(s[k]))
  }

  /** Lower-casing a lower-cased character changes nothing. */
  lemma ToLowerCharIdempotent(c: char)
    ensures ToLowerChar(ToLowerChar(c)) == ToLowerChar(c)
  {
  }

  /** Lower-casing neither creates nor removes whitespace. */
  lemma ToLowerCharKeepsBlank(c: char)
    ensures IsJsWhitespace(ToLowerChar(c)) == IsJsWhitespace(c)
  {
  }

  /** `needle` occurs in `hay` starting at index `i`. */
  predicate OccursAt(hay: string, needle: string, i: nat) {
    i + |needle| <= |hay| && hay[i..i + |needle|] == needle
  }

  /** Lower-casing a lower-cased string changes nothing. */
  lemma ToLowerIdempotent(s: string)
    ensures ToLower(ToLower(s)) == ToLower(s)
  {
    forall k | 0 <= k < |s| ensures ToLower(ToLower(s))[k] == ToLower(s)[k] {
      ToLowerCharIdempotent(s[k]);
    }
  }

  /** Trimming and lower-casing can be done in either order. */
  lemma {:induction false} TrimStartToLower(s: string)
    ensures TrimStart(ToLower(s)) == ToLower(TrimStart(s))
  {
    if s != [] {
      ToLowerCharKeepsBlank(s[0]);
      assert ToLower(s)[1..] == ToLower(s[1..]);
      TrimStartToLower(s[1..]);
    }
  }

  lemma {:induction false} TrimEndToLower(s: string)
    ensures TrimEnd(ToLower(s)) == ToLower(TrimEnd(s))
  {
    if s != [] {
      var n := |s| - 1;
      ToLowerCharKeepsBlank(s[n]);
      assert ToLower(s)[..n] == ToLower(s[..n]);
      TrimEndToLower(s[..n]);
    }
  }

  lemma TrimToLower(s: string)
    ensures Trim(ToLower(s)) == ToLower(Trim(s))
  {
    TrimStartToLower(s);
    TrimEndToLower(TrimStart(s));
  }

  /** `hay.includes(needle)`: the needle occurs as a contiguous slice. */
  predicate Includes(hay: string, needle: string)
    ensures Includes(hay, needle) ==> |needle| <= |hay|
  {
    exists i: nat | i <= |hay| :: OccursAt(hay, needle, i)
  }

  /** Every string includes the empty string. */
  lemma IncludesEmpty(hay: string)
    ensures Includes(hay, "")
  {
    assert OccursAt(hay, "", 0);
  }

  predicate IsDigit(c: char) {
    '0' <= c <= '9'
  }

  /** `s.replace(/[^0-9]/g, "")`: the decimal digits of `s`, in order. */
  function DigitsOf(s: string): (r: string)
    ensures |r| <= |s|
    ensures forall k :: 0 <= k < |r| ==> IsDigit(r[k])
    ensures (forall k :: 0 <= k < |s| ==> IsDigit(s[k])) ==> r == s
    ensures (forall k :: 0 <= k < |s| ==> !IsDigit(s[k])) ==> r == []
  {
    if s == [] then []
    else if IsDigit(s[0]) then [s[0]] + DigitsOf(s[1..])
    else DigitsOf(s[1..])
  }

  /** A single character is kept exactly when it is a digit. */
  lemma DigitsOfChar(c: char)
    ensures DigitsOf([c]) == if IsDigit(c) then [c] else []
  {
    assert [c][1..] == [];
  }

  /**
   * Digits are extracted piece by piece: those of a concatenation are those of
   * its first part followed by those of its second, so every digit of the
   * input is kept, in order, and nothing else.
   */
  lemma {:induction false} DigitsOfConcat(a: string, b: string)
    ensures DigitsOf(a + b) == DigitsOf(a) + DigitsOf(b)
  {
    if a != [] {
      assert (a + b)[0] == a[0];
      assert (a + b)[1..] == a[1..] + b;
      DigitsOfConcat(a[1..], b);
    } else {
      assert a + b == b;
    }
  }

  /**
   * The value of a string of decimal digits, most significant first: `parseInt`
   * of such a string, where the empty string (NaN there) is 0 here.
   */
  function DigitsValue(s: string): (v: nat)
    requires forall k :: 0 <= k < |s| ==> IsDigit(s[k])
  {
    if s == [] then 0
    else
      var last := s[|s| - 1];
      assert IsDigit(last);
      DigitsValue(s[..|s| - 1]) * 10 + (last as int - '0' as int)
  }

  /** A value is 0 exactly when every digit is '0' (in particular for no digits). */
  lemma {:induction false} DigitsValueZero(s: string)
    requires forall k :: 0 <= k < |s| ==> IsDigit(s[k])
    ensures DigitsValue(s) == 0 <==> forall k :: 0 <= k < |s| ==> s[k] == '0'
  {
    if s != [] {
      var init := s[..|s| - 1];
      DigitsValueZero(init);
      assert forall k :: 0 <= k < |init| ==> init[k] == s[k];
    }
  }
}
