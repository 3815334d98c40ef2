/**
 * The JavaScript string operations the search page and the recipe card rely on
 * (`trim`, `replace(/ /g, '_')`, `toLowerCase`, `includes`), on strings as
 * sequences of characters.
 */
module JsStrings {

  /** The characters `String.prototype.trim` strips: ECMAScript's WhiteSpace and LineTerminator. */
  predicate IsWhitespace(c: char)
    ensures ('a' <= c <= 'z' || 'A' <= c <= 'Z' || '0' <= c <= '9' || c == '_') ==> !IsWhitespace(c)
    ensures c == ' ' || c == '\t' || c == '\n' ==> IsWhitespace(c)
  {
    || c == '\t' || c == '\n' || c == '\U{000B}' || c == '\U{000C}' || c == '\r' || c == ' '
    || c == '\U{00A0}' || c == '\U{1680}' || ('\U{2000}' <= c <= '\U{200A}')
    || c == '\U{2028}' || c == '\U{2029}' || c == '\U{202F}' || c == '\U{205F}'
    || c == '\U{3000}' || c == '\U{FEFF}'
  }

  ghost predicate AllWhitespace(s: string) {
    forall i :: 0 <= i < |s| ==> IsWhitespace(s[i])
  }

  /** Drops the leading whitespace: what is dropped is all whitespace, and what is left does not start with any. */
  function TrimStart(s: string): (r: string)
    ensures |r| <= |s| && r == s[|s| - |r|..]
    ensures AllWhitespace(s[..|s| - |r|])
    ensures r == [] || !IsWhitespace(r[0])
  {
    if s != [] && IsWhitespace(s[0]) then
      var r := TrimStart(s[1..]);
      var k := |s| - |r|;
      assert AllWhitespace(s[..k]) by {
        forall i | 0 <= i < k ensures IsWhitespace(s[..k][i]) {
          if i > 0 { assert s[..k][i] == s[1..][..k - 1][i - 1]; }
        }
      }
      r
    else
      s
  }

  /** Drops the trailing whitespace: what is dropped is all whitespace, and what is left does not end with any. */
  function TrimEnd(s: string): (r: string)
    ensures |r| <= |s| && r == s[..|r|]
    ensures AllWhitespace(s[|r|..])
    ensures r == [] || !IsWhitespace(r[|r| - 1])
  {
    if s != [] && IsWhitespace(s[|s| - 1]) then
      var r := TrimEnd(s[..|s| - 1]);
      assert AllWhitespace(s[|r|..]) by {
        forall i | |r| <= i < |s| ensures IsWhitespace(s[i]) {
          if i < |s| - 1 { assert s[i] == s[..|s| - 1][|r|..][i - |r|]; }
        }
      }
      r
    else
      s
  }

  /** `s.trim()`: whitespace stripped from both ends. */
  function Trim(s: string): (r: string)
    ensures |r| <= |s|
    ensures r == [] || (!IsWhitespace(r[0]) && !IsWhitespace(r[|r| - 1]))
  {
    TrimEnd(TrimStart(s))
  }

  /** What `Trim` keeps is an infix of `s`, and what it strips on either side is all whitespace. */
  lemma TrimKeepsInfix(s: string)
    ensures var r := Trim(s);
            exists a :: 0 <= a <= |s| - |r| && r == s[a..][..|r|]
                        && AllWhitespace(s[..a]) && AllWhitespace(s[a..][|r|..])
  {
    var t := TrimStart(s);
    var r := TrimEnd(t);
    assert r == Trim(s);
    var a := |s| - |t|;
    assert t == s[a..] && AllWhitespace(s[..a]);
    assert r == t[..|r|] && AllWhitespace(t[|r|..]);
    assert 0 <= a <= |s| - |r| && r == s[a..][..|r|] && AllWhitespace(s[a..][|r|..]);
  }

  /** A string JavaScript treats as falsy once trimmed: `!s.trim()`. */
  predicate IsBlank(s: string) {
    Trim(s) == []
  }

  lemma {:induction false} TrimStartOfWhitespace(s: string)
    ensures TrimStart(s) == [] <==> AllWhitespace(s)
  {
    if s != [] && IsWhitespace(s[0]) {
      TrimStartOfWhitespace(s[1..]);
      if AllWhitespace(s[1..]) {
        forall i | 0 <= i < |s| ensures IsWhitespace(s[i]) {
          if i > 0 { assert s[i] == s[1..][i - 1]; }
        }
      }
    }
  }

  /** A term is blank exactly when every character of it is whitespace. */
  lemma BlankIffAllWhitespace(s: string)
    ensures IsBlank(s) <==> AllWhitespace(s)
  {
    TrimStartOfWhitespace(s);
    var t := TrimStart(s);
    if t != [] {
      assert !IsWhitespace(t[0]);
      assert t[0] == s[|s| - |t|];
    }
  }

  /** A string with no whitespace at either end is its own trim. */
  lemma TrimOfTrimmed(s: string)
    requires s == [] || (!IsWhitespace(s[0]) && !IsWhitespace(s[|s| - 1]))
    ensures Trim(s) == s
  {
    assert TrimStart(s) == s;
    assert TrimEnd(s) == s;
  }

  /** `s.replace(/ /g, '_')`: every space (U+0020 only) becomes an underscore, nothing else moves. */
  function ReplaceSpaces(s: string): (r: string)
    ensures |r| == |s|
    ensures forall i :: 0 <= i < |s| ==> r[i] == (if s[i] == ' ' then '_' else s[i])
  {
    if s == [] then []
    else [if s[0] == ' ' then '_' else s[0]] + ReplaceSpaces(s[1..])
  }

  /** A string without spaces is left as it is. */
  lemma ReplaceSpacesOfSpaceless(s: string)
    requires ' ' !in s
    ensures ReplaceSpaces(s) == s
  {
  }

  /** `toLowerCase` on one character, for the ASCII letters only. */
  function LowerChar(c: char): char {
    if 'A' <= c <= 'Z' then (c as int + 32) as char else c
  }

  /** `s.toLowerCase()`, character by character. */
  function ToLower(s: string): (r: string)
    ensures |r| == |s|
    ensures forall i :: 0 <= i < |s| ==> r[i] == LowerChar(s[i])
  {
    if s == [] then [] else [LowerChar(s[0])] + ToLower(s[1..])
  }

  /** Lower-casing commutes with taking a slice. */
  lemma ToLowerSlice(s: string, i: nat, j: nat)
    requires i <= j <= |s|
    ensures ToLower(s)[i..j] == ToLower(s[i..j])
  {
    var l, t := ToLower(s), ToLower(s[i..j]);
    forall k | 0 <= k < j - i ensures l[i..j][k] == t[k] {
      assert s[i..j][k] == s[i + k];
    }
  }

  /** `pat` occurs in `s` at some position. */
  ghost predicate IsInfix(pat: string, s: string) {
    exists i :: 0 <= i <= |s| && pat <= s[i..]
  }

  /** `s.includes(pat)`: a scan of the start positions of `s`. */
  function Includes(s: string, pat: string): (r: bool)
    ensures pat <= s ==> r
    ensures r ==> |pat| <= |s|
    decreases |s|
  {
    pat <= s || (s != [] && Includes(s[1..], pat))
  }

  /** The scan finds `pat` exactly when `pat` occurs somewhere in `s`. */
  lemma {:induction false} IncludesIffInfix(s: string, pat: string)
    ensures Includes(s, pat) <==> IsInfix(pat, s)
    decreases |s|
  {
    if pat <= s {
      assert pat <= s[0..];
    } else if s == [] {
      assert !IsInfix(pat, s) by {
        forall i | 0 <= i <= |s| ensures !(pat <= s[i..]) { assert s[i..] == s; }
      }
    } else {
      IncludesIffInfix(s[1..], pat);
      if IsInfix(pat, s[1..]) {
        var i :| 0 <= i <= |s[1..]| && pat <= s[1..][i..];
        assert s[1..][i..] == s[i + 1..];
      }
      if IsInfix(pat, s) {
        var i :| 0 <= i <= |s| && pat <= s[i..];
        assert i != 0;
        assert s[1..][i - 1..] == s[i..];
      }
    }
  }
}
