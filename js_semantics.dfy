/** The small part of JavaScript's built-in behaviour that the booking rules
    depend on: `Array.prototype.find` and `filter`, the `<` operator on
    strings, `String.prototype.trim`, and the phone-number pattern
    `/^[0-9-]+$/`. */
module JsSemantics {

  datatype Option<+T> = None | Some(value: T)

  // ---------------------------------------------------------------------
  // Array.prototype.find and Array.prototype.filter

  /** `s.find(p)`: the first element satisfying `p`, or nothing. */
  function Find<T>(s: seq<T>, p: T -> bool): (r: Option<T>)
    ensures r.None? <==> forall i :: 0 <= i < |s| ==> !p(s[i])
    ensures r.Some? ==> exists i :: 0 <= i < |s| && s[i] == r.value && p(s[i]) &&
                                    forall j :: 0 <= j < i ==> !p(s[j])
  {
    if |s| == 0 then None
    else if p(s[0]) then Some(s[0])
    else
      var r := Find(s[1..], p);
      assert forall i :: 1 <= i < |s| ==> s[i] == s[1..][i - 1];
      r
  }

  /** `s.filter(p)`: the elements satisfying `p`, in their original order. */
  function Filter<T>(s: seq<T>, p: T -> bool): (r: seq<T>)
    ensures |r| <= |s|
    ensures multiset(r) <= multiset(s)
    ensures forall i :: 0 <= i < |r| ==> r[i] in s && p(r[i])
    ensures forall i :: 0 <= i < |s| && p(s[i]) ==> s[i] in r
  {
    if |s| == 0 then []
    else
      assert s == [s[0]] + s[1..];
      if p(s[0]) then [s[0]] + Filter(s[1..], p)
      else Filter(s[1..], p)
  }

  // ---------------------------------------------------------------------
  // String comparison

  /** JavaScript `a < b` on two strings: lexicographic order on characters,
      a proper prefix being smaller. */
  predicate StrLess(a: string, b: string)
  {
    if |a| == 0 then |b| > 0
    else if |b| == 0 then false
    else a[0] < b[0] || (a[0] == b[0] && StrLess(a[1..], b[1..]))
  }

  lemma {:induction false} StrLessIrreflexive(a: string)
    ensures !StrLess(a, a)
  {
    if |a| > 0 {
      StrLessIrreflexive(a[1..]);
    }
  }

  lemma {:induction false} StrLessTransitive(a: string, b: string, c: string)
    requires StrLess(a, b) && StrLess(b, c)
    ensures StrLess(a, c)
  {
    if |a| > 0 && |b| > 0 && |c| > 0 && a[0] == b[0] == c[0] {
      StrLessTransitive(a[1..], b[1..], c[1..]);
    }
  }

  /** Any two distinct strings are ordered one way or the other. */
  lemma {:induction false} StrLessTotal(a: string, b: string)
    ensures a == b || StrLess(a, b) || StrLess(b, a)
  {
    if |a| > 0 && |b| > 0 && a[0] == b[0] {
      StrLessTotal(a[1..], b[1..]);
      if a[1..] == b[1..] {
        assert a == [a[0]] + a[1..] && b == [b[0]] + b[1..];
      }
    }
  }

  lemma StrLessAsymmetric(a: string, b: string)
    requires StrLess(a, b)
    ensures !StrLess(b, a)
  {
    if StrLess(b, a) {
      StrLessTransitive(a, b, a);
      StrLessIrreflexive(a);
    }
  }

  // ---------------------------------------------------------------------
  // String.prototype.trim

  /** The characters `trim` removes: ECMAScript WhiteSpace (tab, vertical
      tab, form feed, space, no-break space, byte order mark and every
      space separator) and LineTerminator (line feed, carriage return,
      line and paragraph separators). */
  predicate IsJsWhitespace(c: char)
  {
    c == '\t' || c == '\U{B}' || c == '\U{C}' || c == ' ' || c == '\U{A0}' ||
    c == '\U{FEFF}' || c == '\U{1680}' || ('\U{2000}' <= c <= '\U{200A}') ||
    c == '\U{202F}' || c == '\U{205F}' || c == '\U{3000}' ||
    c == '\n' || c == '\r' || c == '\U{2028}' || c == '\U{2029}'
  }

  /** Leading white space removed; what is left does not start with white
      space. */
  function TrimStart(s: string): (r: string)
    ensures |r| <= |s|
    ensures r != "" ==> !IsJsWhitespace(r[0])
  {
    if |s| > 0 && IsJsWhitespace(s[0]) then TrimStart(s[1..]) else s
  }

  /** Trailing white space removed: a prefix that does not end with white
      space. */
  function TrimEnd(s: string): (r: string)
    ensures |r| <= |s| && r == s[..|r|]
    ensures r != "" ==> !IsJsWhitespace(r[|r| - 1])
  {
    if |s| > 0 && IsJsWhitespace(s[|s| - 1]) then TrimEnd(s[..|s| - 1]) else s
  }

  /** `s.trim()`: neither starts nor ends with white space. */
  function Trim(s: string): (r: string)
    ensures |r| <= |s|
    ensures r != "" ==> !IsJsWhitespace(r[0]) && !IsJsWhitespace(r[|r| - 1])
  {
    TrimEnd(TrimStart(s))
  }

  /** `trim` drops only white space: the result is the part of `s` between
      two blank margins. */
  lemma TrimDropsOnlyWhitespace(s: string)
    ensures var r := Trim(s);
      exists i :: 0 <= i <= |s| - |r| && r == s[i..i + |r|] && IsBlank(s[..i]) && IsBlank(s[i + |r|..])
  {
    var t := TrimStart(s);
    var i := |s| - |t|;
    TrimStartDropsBlank(s);
    var r := TrimEnd(t);
    TrimEndDropsBlank(t);
    assert s[i..i + |r|] == r by {
      assert s[i..i + |r|] == t[..|r|];
    }
    assert s[i + |r|..] == t[|r|..];
  }

  lemma {:induction false} TrimStartDropsBlank(s: string)
    ensures var r := TrimStart(s); r == s[|s| - |r|..] && IsBlank(s[..|s| - |r|])
  {
    if |s| > 0 && IsJsWhitespace(s[0]) {
      var r := TrimStart(s[1..]);
      TrimStartDropsBlank(s[1..]);
      assert s[..|s| - |r|] == [s[0]] + s[1..][..|s[1..]| - |r|];
    }
  }

  lemma {:induction false} TrimEndDropsBlank(s: string)
    ensures var r := TrimEnd(s); IsBlank(s[|r|..])
  {
    if |s| > 0 && IsJsWhitespace(s[|s| - 1]) {
      var r := TrimEnd(s[..|s| - 1]);
      TrimEndDropsBlank(s[..|s| - 1]);
      assert s[|r|..] == s[..|s| - 1][|r|..] + [s[|s| - 1]];
    }
  }

  /** Every character of `s` is white space. */
  predicate IsBlank(s: string)
  {
    forall i :: 0 <= i < |s| ==> IsJsWhitespace(s[i])
  }

  lemma {:induction false} TrimStartEmptyIffBlank(s: string)
    ensures TrimStart(s) == "" <==> IsBlank(s)
  {
    if |s| > 0 && IsJsWhitespace(s[0]) {
      TrimStartEmptyIffBlank(s[1..]);
      assert forall i :: 1 <= i < |s| ==> s[i] == s[1..][i - 1];
    }
  }

  lemma {:induction false} TrimEndKeepsNonBlank(s: string)
    requires !IsBlank(s)
    ensures TrimEnd(s) != ""
  {
    if |s| > 0 && IsJsWhitespace(s[|s| - 1]) {
      var k :| 0 <= k < |s| && !IsJsWhitespace(s[k]);
      assert s[..|s| - 1][k] == s[k];
      TrimEndKeepsNonBlank(s[..|s| - 1]);
    }
  }

  lemma {:induction false} TrimEndOfBlank(s: string)
    requires IsBlank(s)
    ensures TrimEnd(s) == ""
  {
    if |s| > 0 {
      TrimEndOfBlank(s[..|s| - 1]);
    }
  }

  /** `!s.trim()` holds exactly when `s` consists of white space only. */
  lemma TrimEmptyIffBlank(s: string)
    ensures Trim(s) == "" <==> IsBlank(s)
  {
    TrimStartEmptyIffBlank(s);
    if IsBlank(s) {
      TrimEndOfBlank(TrimStart(s));
    } else {
      TrimStartNonBlank(s);
      TrimEndKeepsNonBlank(TrimStart(s));
    }
  }

  lemma {:induction false} TrimStartNonBlank(s: string)
    requires !IsBlank(s)
    ensures !IsBlank(TrimStart(s))
  {
    if |s| > 0 && IsJsWhitespace(s[0]) {
      var k :| 0 <= k < |s| && !IsJsWhitespace(s[k]);
      assert s[1..][k - 1] == s[k];
      TrimStartNonBlank(s[1..]);
    }
  }

  // ---------------------------------------------------------------------
  // The phone-number pattern

  predicate IsDigit(c: char)
  {
    '0' <= c <= '9'
  }

  /** `/^[0-9-]+$/.test(s)`: one or more characters, each a digit or a hyphen. */
  predicate MatchesPhonePattern(s: string)
  {
    |s| > 0 && forall i :: 0 <= i < |s| ==> IsDigit(s[i]) || s[i] == '-'
  }

  /** A string the phone pattern accepts is never blank, so `trim` never
      empties it. */
  lemma PhonePatternNotBlank(s: string)
    requires MatchesPhonePattern(s)
    ensures Trim(s) != ""
  {
    assert !IsJsWhitespace(s[0]);
    TrimEmptyIffBlank(s);
  }
}
