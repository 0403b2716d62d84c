/** The JavaScript string built-ins the core relies on: the regular expressions
    `\d` and `\D`, `toLowerCase` (ASCII letters only), `trim`, `includes` and
    `startsWith`. */
module JsString {

  /** `\d`: an ASCII decimal digit. */
  predicate IsDigit(c: char) {
    '0' <= c <= '9'
  }

  /** The characters `String.prototype.trim` removes: ECMAScript's WhiteSpace
      and LineTerminator code points. */
  predicate IsWhiteSpace(c: char) {
    c in {'\t', '\n', '\U{000B}', '\U{000C}', '\r', ' ', '\U{00A0}', '\U{1680}',
          '\U{2000}', '\U{2001}', '\U{2002}', '\U{2003}', '\U{2004}', '\U{2005}',
          '\U{2006}', '\U{2007}', '\U{2008}', '\U{2009}', '\U{200A}', '\U{2028}',
          '\U{2029}', '\U{202F}', '\U{205F}', '\U{3000}', '\U{FEFF}'}
  }

  /** `/\d/.test(s)`: some character of `s` is a digit. */
  function HasDigit(s: string): (r: bool)
    ensures r <==> exists i :: 0 <= i < |s| && IsDigit(s[i])
  {
    if s == [] then false else IsDigit(s[0]) || HasDigit(s[1..])
  }

  /** `/\D/.test(s)`: some character of `s` is not a digit. */
  function HasNonDigit(s: string): (r: bool)
    ensures r <==> exists i :: 0 <= i < |s| && !IsDigit(s[i])
  {
    if s == [] then false else !IsDigit(s[0]) || HasNonDigit(s[1..])
  }

  /** `/^\d+$/.test(s)`, written as the absence of a `\D` match in a
      non-empty string. */
  function IsDigitsOnly(s: string): (r: bool)
    ensures r <==> |s| > 0 && forall i :: 0 <= i < |s| ==> IsDigit(s[i])
  {
    |s| > 0 && !HasNonDigit(s)
  }

  /** `toLowerCase` on one character, ASCII letters only: a capital becomes
      its small letter and every other character is kept. */
  function LowerChar(c: char): (r: char)
    ensures !('A' <= r <= 'Z')
    ensures !('A' <= c <= 'Z') ==> r == c
    ensures 'A' <= c <= 'Z' ==> 'a' <= r <= 'z' && r as int - 'a' as int == c as int - 'A' as int
  {
    if 'A' <= c <= 'Z' then (c as int + 32) as char else c
  }

  /** `s.toLowerCase()`, ASCII letters only: each character lower-cased in
      place. */
  function Lower(s: string): (r: string)
    ensures |r| == |s|
    ensures forall i :: 0 <= i < |s| ==> !('A' <= r[i] <= 'Z') && (r[i] == s[i] || 'A' <= s[i] <= 'Z')
    ensures forall i :: 0 <= i < |s| && 'A' <= s[i] <= 'Z' ==> r[i] as int - 'a' as int == s[i] as int - 'A' as int
  {
    seq(|s|, i requires 0 <= i < |s| => LowerChar(s[i]))
  }

  /** The number of white-space characters `trim` removes at the front. */
  function LeadingSpace(s: string): (n: nat)
    ensures n <= |s|
    ensures forall k :: 0 <= k < n ==> IsWhiteSpace(s[k])
    ensures n < |s| ==> !IsWhiteSpace(s[n])
  {
    if s == [] || !IsWhiteSpace(s[0]) then 0 else 1 + LeadingSpace(s[1..])
  }

  /** The number of white-space characters `trim` removes at the back. */
  function TrailingSpace(s: string): (n: nat)
    ensures n <= |s|
    ensures forall k :: |s| - n <= k < |s| ==> IsWhiteSpace(s[k])
    ensures n < |s| ==> !IsWhiteSpace(s[|s| - 1 - n])
  {
    if s == [] || !IsWhiteSpace(s[|s| - 1]) then 0 else 1 + TrailingSpace(s[..|s| - 1])
  }

  /** `s.trim()`: `s` without its leading and trailing white space
      (characterised by TrimSpec). */
  function Trim(s: string): (r: string)
    ensures |r| <= |s|
  {
    var t := s[LeadingSpace(s)..];
    t[..|t| - TrailingSpace(t)]
  }

  /** The trimmed string is the infix of `s` left after removing white space
      at both ends: empty iff `s` is all white space, and otherwise starting
      and ending with a non-white-space character. */
  lemma TrimSpec(s: string)
    ensures Trim(s) == [] <==> forall k :: 0 <= k < |s| ==> IsWhiteSpace(s[k])
    ensures Trim(s) != [] ==> !IsWhiteSpace(Trim(s)[0]) && !IsWhiteSpace(Trim(s)[|Trim(s)| - 1])
    ensures exists i :: OccursAt(s, Trim(s), i)
              && (forall k :: 0 <= k < i ==> IsWhiteSpace(s[k]))
              && (forall k :: i + |Trim(s)| <= k < |s| ==> IsWhiteSpace(s[k]))
  {
    var a := LeadingSpace(s);
    var t := s[a..];
    var r := t[..|t| - TrailingSpace(t)];
    assert OccursAt(s, r, a);
  }

  /** `needle` occurs in `hay` starting at index `i`. */
  predicate OccursAt(hay: string, needle: string, i: int) {
    0 <= i <= |hay| - |needle| && hay[i..i + |needle|] == needle
  }

  /** `s.startsWith(p)`: `p` occurs at the front of `s`, character by
      character. */
  function StartsWith(s: string, p: string): (r: bool)
    ensures r <==> OccursAt(s, p, 0)
    ensures r <==> |p| <= |s| && forall i :: 0 <= i < |p| ==> s[i] == p[i]
  {
    |p| <= |s| && s[..|p|] == p
  }

  /** `hay.includes(needle)`: `needle` occurs in `hay` at some position. */
  function Contains(hay: string, needle: string): (r: bool)
    ensures r <==> exists i :: OccursAt(hay, needle, i)
  {
    if StartsWith(hay, needle) then
      assert OccursAt(hay, needle, 0);
      true
    else if hay == [] then false
    else
      var r := Contains(hay[1..], needle);
      assert !OccursAt(hay, needle, 0) by {
        if |needle| <= |hay| {
          assert hay[0..|needle|] == hay[..|needle|];
        }
      }
      assert forall j :: OccursAt(hay[1..], needle, j) <==> OccursAt(hay, needle, j + 1) by {
        forall j ensures OccursAt(hay[1..], needle, j) <==> OccursAt(hay, needle, j + 1) {
          if 0 <= j <= |hay| - 1 - |needle| {
            assert hay[1..][j..j + |needle|] == hay[j + 1..j + 1 + |needle|];
          }
        }
      }
      assert (exists i :: OccursAt(hay, needle, i)) ==> exists j :: OccursAt(hay[1..], needle, j) by {
        if i :| OccursAt(hay, needle, i) {
          assert OccursAt(hay[1..], needle, i - 1);
        }
      }
      r
  }

  /** Removing surrounding white space neither adds nor removes a digit, so
      `/\d/.test(s.trim()) == /\d/.test(s)`. */
  lemma TrimKeepsDigits(s: string)
    ensures HasDigit(Trim(s)) <==> HasDigit(s)
  {
    TrimSpec(s);
    var r := Trim(s);
    var i :| OccursAt(s, r, i)
              && (forall k :: 0 <= k < i ==> IsWhiteSpace(s[k]))
              && (forall k :: i + |r| <= k < |s| ==> IsWhiteSpace(s[k]));
    if HasDigit(s) {
      var k :| 0 <= k < |s| && IsDigit(s[k]);
      assert !IsWhiteSpace(s[k]);
      assert r[k - i] == s[k];
    }
    if HasDigit(r) {
      var k :| 0 <= k < |r| && IsDigit(r[k]);
      assert s[i + k] == r[k];
    }
  }

  /** White space has no upper case, so lower-casing never creates or
      destroys it. */
  lemma LowerCharKeepsWhiteSpace(c: char)
    ensures IsWhiteSpace(LowerChar(c)) <==> IsWhiteSpace(c)
  {
  }

  lemma {:induction false} LowerLeadingSpace(s: string)
    ensures LeadingSpace(Lower(s)) == LeadingSpace(s)
  {
    if s != [] {
      LowerCharKeepsWhiteSpace(s[0]);
      assert Lower(s)[1..] == Lower(s[1..]);
      LowerLeadingSpace(s[1..]);
    }
  }

  lemma {:induction false} LowerTrailingSpace(s: string)
    ensures TrailingSpace(Lower(s)) == TrailingSpace(s)
  {
    if s != [] {
      LowerCharKeepsWhiteSpace(s[|s| - 1]);
      assert Lower(s)[..|s| - 1] == Lower(s[..|s| - 1]);
      LowerTrailingSpace(s[..|s| - 1]);
    }
  }

  /** Lower-casing commutes with dropping a prefix. */
  lemma LowerDrop(s: string, a: nat)
    requires a <= |s|
    ensures Lower(s)[a..] == Lower(s[a..])
  {
    var x, y := Lower(s)[a..], Lower(s[a..]);
    assert |x| == |y|;
    forall i | 0 <= i < |x| ensures x[i] == y[i] {
      assert x[i] == LowerChar(s[a + i]);
    }
  }

  /** Lower-casing commutes with taking a prefix. */
  lemma LowerTake(s: string, a: nat)
    requires a <= |s|
    ensures Lower(s)[..a] == Lower(s[..a])
  {
    var x, y := Lower(s)[..a], Lower(s[..a]);
    assert |x| == |y|;
    forall i | 0 <= i < |x| ensures x[i] == y[i] {
      assert x[i] == LowerChar(s[i]);
    }
  }

  /** `s.toLowerCase().trim() == s.trim().toLowerCase()`: the catalog search
      normalises in one order and the search page in the other. */
  lemma TrimLowerCommute(s: string)
    ensures Trim(Lower(s)) == Lower(Trim(s))
  {
    var a := LeadingSpace(s);
    var t := s[a..];
    var n := |t| - TrailingSpace(t);
    LowerLeadingSpace(s);
    LowerDrop(s, a);
    LowerTrailingSpace(t);
    LowerTake(t, n);
  }

  /** A string that contains `needle` still does once text is put around it. */
  lemma ContainsInContext(left: string, x: string, right: string, needle: string)
    requires Contains(x, needle)
    ensures Contains(left + x + right, needle)
  {
    var i :| OccursAt(x, needle, i);
    var hay := left + x + right;
    assert hay[|left| + i..|left| + i + |needle|] == x[i..i + |needle|];
    assert OccursAt(hay, needle, |left| + i);
  }

  /** A needle found in one of three strings is found in them joined with
      single spaces, as `[a, b, c].join(' ')` does. */
  lemma ContainsInJoin(a: string, b: string, c: string, needle: string)
    requires Contains(a, needle) || Contains(b, needle) || Contains(c, needle)
    ensures Contains(a + " " + b + " " + c, needle)
  {
    var hay := a + " " + b + " " + c;
    if Contains(a, needle) {
      assert hay == "" + a + (" " + b + " " + c);
      ContainsInContext("", a, " " + b + " " + c, needle);
    } else if Contains(b, needle) {
      assert hay == a + " " + b + (" " + c);
      ContainsInContext(a + " ", b, " " + c, needle);
    } else {
      assert hay == a + " " + b + " " + c + "";
      ContainsInContext(a + " " + b + " ", c, "", needle);
    }
  }
}
