/** The Go standard-library string operations the core depends on:
    strings.TrimSpace, strings.ToLower, strings.HasPrefix/HasSuffix and
    the ordering of Go's string comparison operators. Strings are sequences of
    Unicode scalar values; Go compares the UTF-8 bytes, which orders strings
    exactly as comparing their code points does. */
module GoStrings {

  /** unicode.IsSpace: the characters with the Unicode White_Space property. */
  predicate IsSpace(c: char) {
    || c == ' '
    || ('\t' <= c <= '\r')          // tab, line feed, vertical tab, form feed, carriage return
    || c == '\U{85}' || c == '\U{A0}' || c == '\U{1680}'
    || ('\U{2000}' <= c <= '\U{200A}')
    || c == '\U{2028}' || c == '\U{2029}' || c == '\U{202F}' || c == '\U{205F}' || c == '\U{3000}'
  }

  predicate AllSpace(s: string) {
    forall i :: 0 <= i < |s| ==> IsSpace(s[i])
  }

  /** The number of white-space characters `s` starts with. */
  function LeadingSpace(s: string): (n: nat)
    ensures n <= |s|
    ensures forall i :: 0 <= i < n ==> IsSpace(s[i])
    ensures n == |s| || !IsSpace(s[n])
  {
    if s != [] && IsSpace(s[0]) then 1 + LeadingSpace(s[1..]) else 0
  }

  /** The number of white-space characters `s` ends with. */
  function TrailingSpace(s: string): (n: nat)
    ensures n <= |s|
    ensures forall i :: |s| - n <= i < |s| ==> IsSpace(s[i])
    ensures n == |s| || !IsSpace(s[|s| - n - 1])
  {
    if s != [] && IsSpace(s[|s| - 1]) then 1 + TrailingSpace(s[..|s| - 1]) else 0
  }

  /** strings.TrimSpace: the piece of `s` between its leading and its
      trailing white space. */
  function TrimSpace(s: string): string
  {
    var l := LeadingSpace(s);
    s[l..|s| - TrailingSpace(s[l..])]
  }

  /** What is cut off is white space, and what remains neither starts nor
      ends with it. */
  lemma TrimSpaceShape(s: string)
    ensures LeadingSpace(s) + |TrimSpace(s)| <= |s|
    ensures TrimSpace(s) == s[LeadingSpace(s)..LeadingSpace(s) + |TrimSpace(s)|]
    ensures forall i :: 0 <= i < LeadingSpace(s) ==> IsSpace(s[i])
    ensures forall i :: LeadingSpace(s) + |TrimSpace(s)| <= i < |s| ==> IsSpace(s[i])
    ensures TrimSpace(s) == [] || (!IsSpace(TrimSpace(s)[0]) && !IsSpace(TrimSpace(s)[|TrimSpace(s)| - 1]))
  {
    TrimSpaceCut(s);
    TrimSpaceTail(s);
    TrimSpaceEnds(s);
  }

  lemma TrimSpaceCut(s: string)
    ensures LeadingSpace(s) + |TrimSpace(s)| <= |s|
    ensures TrimSpace(s) == s[LeadingSpace(s)..LeadingSpace(s) + |TrimSpace(s)|]
  {
  }

  lemma TrimSpaceTail(s: string)
    ensures forall i :: LeadingSpace(s) + |TrimSpace(s)| <= i < |s| ==> IsSpace(s[i])
  {
    var l := LeadingSpace(s);
    var t := s[l..];
    var n := TrailingSpace(t);
    forall i | l + |t| - n <= i < |s|
      ensures IsSpace(s[i])
    {
      assert s[i] == t[i - l];
    }
  }

  lemma TrimSpaceEnds(s: string)
    ensures TrimSpace(s) == [] || (!IsSpace(TrimSpace(s)[0]) && !IsSpace(TrimSpace(s)[|TrimSpace(s)| - 1]))
  {
    var l := LeadingSpace(s);
    var t := s[l..];
    var n := TrailingSpace(t);
    if |TrimSpace(s)| > 0 {
      assert TrimSpace(s)[0] == s[l];
      assert TrimSpace(s)[|TrimSpace(s)| - 1] == t[|t| - n - 1];
    }
  }

  /** A string trims to nothing exactly when it is all white space. */
  lemma TrimSpaceEmpty(s: string)
    ensures TrimSpace(s) == [] <==> AllSpace(s)
  {
    TrimSpaceShape(s);
  }

  /** Trimming twice is trimming once: a validated field is a fixed point. */
  lemma TrimSpaceIdempotent(s: string)
    ensures TrimSpace(TrimSpace(s)) == TrimSpace(s)
  {
    var t := TrimSpace(s);
    TrimSpaceShape(s);
    if t != [] {
      assert LeadingSpace(t) == 0;
      assert TrailingSpace(t[0..]) == 0 by { assert t[0..] == t; }
      assert t[0..|t|] == t;
    }
  }

  /** Maps each character the way Go's strings.ToLower does for the
      characters that lower-case into ASCII: 'A'..'Z', U+0130 (capital I
      with dot) and U+212A (Kelvin sign). Every other character is returned
      unchanged. */
  function LowerRune(c: char): (r: char)
    ensures ('a' <= r <= 'z') ==> (('a' <= c <= 'z') || ('A' <= c <= 'Z') || c == '\U{130}' || c == '\U{212A}')
  {
    if 'A' <= c <= 'Z' then (c as int + 32) as char
    else if c == '\U{130}' then 'i'
    else if c == '\U{212A}' then 'k'
    else c
  }

  function ToLower(s: string): (r: string)
    ensures |r| == |s| && forall i :: 0 <= i < |s| ==> r[i] == LowerRune(s[i])
  {
    seq(|s|, i requires 0 <= i < |s| => LowerRune(s[i]))
  }

  predicate HasPrefix(s: string, prefix: string) {
    |prefix| <= |s| && s[..|prefix|] == prefix
  }

  predicate HasSuffix(s: string, suffix: string) {
    |suffix| <= |s| && s[|s| - |suffix|..] == suffix
  }

  /** Go's `a < b` on strings: lexicographic order. */
  predicate Less(a: string, b: string)
  {
    if a == [] then b != []
    else b != [] && (a[0] < b[0] || (a[0] == b[0] && Less(a[1..], b[1..])))
  }

  lemma {:induction false} LessIrreflexive(a: string)
    ensures !Less(a, a)
  {
    if a != [] { LessIrreflexive(a[1..]); }
  }

  lemma {:induction false} LessTransitive(a: string, b: string, c: string)
    requires Less(a, b) && Less(b, c)
    ensures Less(a, c)
  {
    if a != [] && b != [] && c != [] && a[0] == b[0] == c[0] {
      LessTransitive(a[1..], b[1..], c[1..]);
    }
  }

  /** Any two strings are equal or ordered one way or the other. */
  lemma {:induction false} LessTotal(a: string, b: string)
    ensures Less(a, b) || a == b || Less(b, a)
  {
    if a != [] && b != [] && a[0] == b[0] {
      LessTotal(a[1..], b[1..]);
      if a[1..] == b[1..] { assert a == [a[0]] + a[1..] && b == [b[0]] + b[1..]; }
    }
  }

  /** `a >= b` in Go, i.e. `!(a < b)`, is transitive. */
  lemma AtLeastTransitive(a: string, b: string, c: string)
    requires !Less(a, b) && !Less(b, c)
    ensures !Less(a, c)
  {
    LessTotal(a, b);
    LessTotal(b, c);
    if Less(a, c) {
      if a == b { } else if b == c { } else { LessTransitive(c, b, a); LessTransitive(a, c, b); LessIrreflexive(a); }
    }
  }
}
