/**
 The three JavaScript string operations the symptom search and the send
 handler depend on: `String.prototype.trim`, `toLowerCase` and `includes`.
 */
module Text {

  /** The characters ECMAScript's `trim` strips: WhiteSpace and LineTerminator. */
  predicate IsJsWhitespace(c: char)
  {
    || c == ' ' || c == '\t' || c == '\n' || c == '\r'
    || c == '\U{B}' || c == '\U{C}' || c == '\U{A0}' || c == '\U{1680}'
    || ('\U{2000}' <= c <= '\U{200A}')
    || c == '\U{2028}' || c == '\U{2029}' || c == '\U{202F}' || c == '\U{205F}'
    || c == '\U{3000}' || c == '\U{FEFF}'
  }

  predicate IsBlank(s: string)
  {
    forall i :: 0 <= i < |s| ==> IsJsWhitespace(s[i])
  }

  function TrimStart(s: string): (r: string)
    decreases |s|
  {
    if s != [] && IsJsWhitespace(s[0]) then TrimStart(s[1..]) else s
  }

  function TrimEnd(s: string): (r: string)
    decreases |s|
  {
    if s != [] && IsJsWhitespace(s[|s| - 1]) then TrimEnd(s[..|s| - 1]) else s
  }

  /** `s.trim()`: empty, i.e. falsy in `!s.trim()`, exactly when every character is whitespace. */
  function Trim(s: string): (r: string)
    ensures r == [] <==> IsBlank(s)
  {
    TrimmedEmptyIffBlank(s);
    TrimEnd(TrimStart(s))
  }

  lemma {:induction false} TrimStartEmptyIffBlank(s: string)
    ensures TrimStart(s) == [] <==> IsBlank(s)
    decreases |s|
  {
    if s != [] && IsJsWhitespace(s[0]) {
      TrimStartEmptyIffBlank(s[1..]);
      assert IsBlank(s) <==> IsBlank(s[1..]) by {
        if IsBlank(s[1..]) {
          forall i | 0 <= i < |s| ensures IsJsWhitespace(s[i]) {
            if i > 0 { assert s[i] == s[1..][i - 1]; }
          }
        }
      }
    } else if s != [] {
      assert !IsJsWhitespace(s[0]);
    }
  }

  lemma {:induction false} TrimEndOfNonBlank(s: string)
    requires !IsBlank(s)
    ensures TrimEnd(s) != []
    decreases |s|
  {
    if s != [] && IsJsWhitespace(s[|s| - 1]) {
      var t := s[..|s| - 1];
      assert !IsBlank(t) by {
        var i :| 0 <= i < |s| && !IsJsWhitespace(s[i]);
        assert i < |s| - 1 && t[i] == s[i];
      }
      TrimEndOfNonBlank(t);
    }
  }

  lemma TrimmedEmptyIffBlank(s: string)
    ensures TrimEnd(TrimStart(s)) == [] <==> IsBlank(s)
  {
    TrimStartEmptyIffBlank(s);
    if !IsBlank(s) {
      TrimStartStopsAtText(s);
      assert !IsBlank(TrimStart(s)) by { assert !IsJsWhitespace(TrimStart(s)[0]); }
      TrimEndOfNonBlank(TrimStart(s));
    }
  }

  lemma {:induction false} TrimStartStopsAtText(s: string)
    requires TrimStart(s) != []
    ensures !IsJsWhitespace(TrimStart(s)[0])
    decreases |s|
  {
    if s != [] && IsJsWhitespace(s[0]) {
      TrimStartStopsAtText(s[1..]);
    }
  }

  /** `toLowerCase` on one character; only the ASCII capitals are mapped. */
  function LowerChar(c: char): char
  {
    if 'A' <= c <= 'Z' then (c as int + 32) as char else c
  }

  /** `s.toLowerCase()`: no ASCII capital is left, each became its small letter, and every other character is kept. */
  function ToLower(s: string): (r: string)
    ensures |r| == |s|
    ensures forall i :: 0 <= i < |r| ==> !('A' <= r[i] <= 'Z')
    ensures forall i :: 0 <= i < |s| && 'A' <= s[i] <= 'Z' ==> r[i] as int == s[i] as int + 32
    ensures forall i :: 0 <= i < |s| && !('A' <= s[i] <= 'Z') ==> r[i] == s[i]
  {
    seq(|s|, i requires 0 <= i < |s| => LowerChar(s[i]))
  }


  /** `q` occurs in `s` starting at index `i`. */
  predicate OccursAt(s: string, q: string, i: int)
  {
    0 <= i && i + |q| <= |s| && s[i..i + |q|] == q
  }

  /** `s.includes(q)`: some index of `s` starts an occurrence of `q`. */
  function Contains(s: string, q: string): (r: bool)
    ensures r <==> exists i :: OccursAt(s, q, i)
    decreases |s|
  {
    if OccursAt(s, q, 0) then true
    else if s == [] then false
    else
      OccurrencesShift(s, q);
      Contains(s[1..], q)
  }

  /** Without an occurrence at 0, the occurrences in `s` are those in its tail, shifted by one. */
  lemma OccurrencesShift(s: string, q: string)
    requires s != [] && !OccursAt(s, q, 0)
    ensures (exists i :: OccursAt(s, q, i)) <==> (exists i :: OccursAt(s[1..], q, i))
  {
    forall i | OccursAt(s[1..], q, i) ensures OccursAt(s, q, i + 1) {
      assert s[1..][i..i + |q|] == s[i + 1..i + 1 + |q|];
    }
    forall i | OccursAt(s, q, i) ensures OccursAt(s[1..], q, i - 1) {
      assert s[1..][i - 1..i - 1 + |q|] == s[i..i + |q|];
    }
  }
}
