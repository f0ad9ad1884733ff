/**
 The string trimming that JavaScript's `String.prototype.trim` performs.
 Both entity APIs and every form guard in the application decide "is this
 field blank?" with `s.trim()`, so the whole model rests on this module.
 */
module Text {

  /** The characters `trim` strips: the WhiteSpace and LineTerminator code
      points of ECMA-262 (sections 12.2 and 12.3), with the Zs category
      written out as it stands in Unicode 15. */
  predicate IsWhitespace(c: char) {
    || c == '\t' || c == '\n' || c == '\U{000B}' || c == '\U{000C}' || c == '\r'
    || c == ' ' || c == '\U{00A0}' || c == '\U{1680}'
    || ('\U{2000}' <= c <= '\U{200A}')
    || c == '\U{2028}' || c == '\U{2029}' || c == '\U{202F}' || c == '\U{205F}'
    || c == '\U{3000}' || c == '\U{FEFF}'
  }

  /** The JavaScript test `!s.trim()`: every character is whitespace, the
      empty string included (`Trim` shows these are the same). */
  predicate IsBlank(s: string) {
    forall i :: 0 <= i < |s| ==> IsWhitespace(s[i])
  }

  /** Neither end of `s` is whitespace. */
  predicate IsTrimmed(s: string) {
    s == [] || (!IsWhitespace(s[0]) && !IsWhitespace(s[|s| - 1]))
  }

  /** Drops the leading whitespace run. */
  function TrimStart(s: string): (r: string)
    ensures |r| <= |s| && r == s[|s| - |r|..]
    ensures IsBlank(s[..|s| - |r|])
    ensures r == [] || !IsWhitespace(r[0])
  {
    if |s| > 0 && IsWhitespace(s[0]) then
      var r := TrimStart(s[1..]);
      assert s[..|s| - |r|] == [s[0]] + s[1..][..|s| - 1 - |r|];
      r
    else
      s
  }

  /** Drops the trailing whitespace run. */
  function TrimEnd(s: string): (r: string)
    ensures |r| <= |s| && r == s[..|r|]
    ensures IsBlank(s[|r|..])
    ensures r == [] || !IsWhitespace(r[|r| - 1])
  {
    if |s| > 0 && IsWhitespace(s[|s| - 1]) then
      var r := TrimEnd(s[..|s| - 1]);
      assert s[|r|..] == s[..|s| - 1][|r|..] + [s[|s| - 1]];
      r
    else
      s
  }

  /** `s.trim()`: the infix of `s` left once both whitespace runs are gone. */
  function Trim(s: string): (r: string)
    ensures IsTrimmed(r)
    ensures |r| <= |s|
    ensures r == [] <==> IsBlank(s)
  {
    var e := TrimEnd(s);
    var r := TrimStart(e);
    assert s == e + s[|e|..];
    if r == [] then
      assert IsBlank(e) by { assert e == e[..|e| - |r|]; }
      r
    else
      assert !IsWhitespace(r[|r| - 1]) by { assert r[|r| - 1] == e[|e| - 1]; }
      assert !IsBlank(s) by { assert s[|e| - 1] == r[|r| - 1]; }
      r
  }

  /** The empty string is blank. */
  lemma EmptyIsBlank()
    ensures IsBlank("")
  {
  }

  /** A lone space is blank, though JavaScript treats it as truthy. */
  lemma SpaceIsBlank()
    ensures IsBlank(" ")
  {
    assert IsBlank(" ") by { assert IsWhitespace(" "[0]); }
  }

  lemma {:induction false} TrimStartSkips(pre: string, b: string)
    requires IsBlank(pre)
    requires b == [] || !IsWhitespace(b[0])
    ensures TrimStart(pre + b) == b
    decreases |pre|
  {
    if pre == [] {
      assert pre + b == b;
    } else {
      assert (pre + b)[1..] == pre[1..] + b;
      TrimStartSkips(pre[1..], b);
    }
  }

  lemma {:induction false} TrimEndSkips(a: string, suf: string)
    requires IsBlank(suf)
    requires a == [] || !IsWhitespace(a[|a| - 1])
    ensures TrimEnd(a + suf) == a
    decreases |suf|
  {
    if suf == [] {
      assert a + suf == a;
    } else {
      var s := a + suf;
      assert s[..|s| - 1] == a + suf[..|suf| - 1];
      TrimEndSkips(a, suf[..|suf| - 1]);
    }
  }

  /** `Trim` is characterised by its result alone: any split of a string into
      a whitespace prefix, a trimmed middle and a whitespace suffix has that
      middle as the trimmed string. */
  lemma {:induction false} TrimUnique(pre: string, t: string, suf: string)
    requires IsBlank(pre) && IsBlank(suf) && IsTrimmed(t)
    ensures Trim(pre + t + suf) == t
  {
    if t == [] {
      assert pre + t + suf == pre + suf;
      assert IsBlank(pre + suf) by {
        forall i | 0 <= i < |pre + suf|
          ensures IsWhitespace((pre + suf)[i])
        {
          if i < |pre| { assert (pre + suf)[i] == pre[i]; }
          else { assert (pre + suf)[i] == suf[i - |pre|]; }
        }
      }
    } else {
      assert pre + t + suf == (pre + t) + suf;
      assert (pre + t)[|pre + t| - 1] == t[|t| - 1];
      TrimEndSkips(pre + t, suf);
      TrimStartSkips(pre, t);
    }
  }

  /** Trimming twice is trimming once. */
  lemma TrimIdempotent(s: string)
    ensures Trim(Trim(s)) == Trim(s)
  {
    var t := Trim(s);
    assert [] + t + [] == t;
    TrimUnique([], t, []);
  }
}
