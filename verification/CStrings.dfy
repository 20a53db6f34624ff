/** C strings over a block of memory, and the library functions the program uses on them. */
module CStrings {
  const NUL: char := '\0'
  const CRLF: string := "\r\n"
  const WHITESPACE: set<char> := {' ', '\t', '\n', '\U{0B}', '\U{0C}', '\r'}
  const DIGITS: set<char> := {'0', '1', '2', '3', '4', '5', '6', '7', '8', '9'}

  datatype Option<+T> = None | Some(value: T)

  lemma Grouped<T>(a: seq<T>, b: seq<T>, c: seq<T>)
    ensures (a + b) + c == a + (b + c)
  {
  }

  lemma AtPlace<T>(s: seq<T>, k: nat)
    requires k < |s|
    ensures s == s[..k] + s[k..] && s[k..] != [] && s[k..][0] == s[k] && s[k..][1..] == s[k + 1..]
  {
  }

  // ---- strspn, strcspn, strlen ------------------------------------------------------------

  /** Length of the longest prefix of s made only of characters in accept. */
  function StrSpn(s: string, accept: set<char>): (k: nat)
    ensures k <= |s|
    ensures forall i :: 0 <= i < k ==> s[i] in accept
    ensures k < |s| ==> s[k] !in accept
  {
    if s == "" || s[0] !in accept then 0 else 1 + StrSpn(s[1..], accept)
  }

  /** Length of the longest prefix of s that has no character in reject. */
  function StrCSpn(s: string, reject: set<char>): (k: nat)
    ensures k <= |s|
    ensures forall i :: 0 <= i < k ==> s[i] !in reject
    ensures k < |s| ==> s[k] in reject
  {
    if s == "" || s[0] in reject then 0 else 1 + StrCSpn(s[1..], reject)
  }

  /** The C string that begins a block of memory: everything before the first NUL. */
  function UpToNul(s: string): (r: string)
    ensures |r| <= |s| && r == s[..|r|]
    ensures NoNul(r)
    ensures |r| < |s| ==> s[|r|] == NUL
  {
    s[..StrCSpn(s, {NUL})]
  }

  predicate NoNul(s: string) {
    forall i :: 0 <= i < |s| ==> s[i] != NUL
  }

  predicate Free(s: string, bad: set<char>) {
    forall i :: 0 <= i < |s| ==> s[i] !in bad
  }

  lemma SpnStops(a: string, b: string, accept: set<char>)
    requires forall i :: 0 <= i < |a| ==> a[i] in accept
    requires b == "" || b[0] !in accept
    ensures StrSpn(a + b, accept) == |a|
  {
    assert forall i :: 0 <= i < |a| ==> (a + b)[i] == a[i];
    assert b != "" ==> (a + b)[|a|] == b[0];
  }

  lemma CSpnStops(a: string, b: string, reject: set<char>)
    requires Free(a, reject)
    requires b == "" || b[0] in reject
    ensures StrCSpn(a + b, reject) == |a|
  {
    assert forall i :: 0 <= i < |a| ==> (a + b)[i] == a[i];
    assert b != "" ==> (a + b)[|a|] == b[0];
  }

  lemma UpToNulStops(a: string, b: string)
    requires NoNul(a)
    requires b == "" || b[0] == NUL
    ensures UpToNul(a + b) == a
  {
    CSpnStops(a, b, {NUL});
  }

  // ---- strstr -----------------------------------------------------------------------------

  predicate OccursAt(s: string, pat: string, i: int) {
    0 <= i <= |s| - |pat| && s[i..i + |pat|] == pat
  }

  lemma OccursShift(s: string, pat: string, i: int)
    requires s != "" && i > 0
    ensures OccursAt(s, pat, i) <==> OccursAt(s[1..], pat, i - 1)
  {
    if i + |pat| <= |s| {
      assert s[1..][i - 1..i - 1 + |pat|] == s[i..i + |pat|];
    }
  }

  /** The occurrences in a text that does not begin with pat are those in its tail. */
  lemma OccursInTail(s: string, pat: string)
    requires s != "" && !OccursAt(s, pat, 0)
    ensures forall i :: OccursAt(s, pat, i) ==> i > 0 && OccursAt(s[1..], pat, i - 1)
    ensures forall i :: OccursAt(s[1..], pat, i) ==> OccursAt(s, pat, i + 1)
  {
    forall i | OccursAt(s, pat, i)
      ensures i > 0 && OccursAt(s[1..], pat, i - 1)
    {
      OccursShift(s, pat, i);
    }
    forall i | OccursAt(s[1..], pat, i)
      ensures OccursAt(s, pat, i + 1)
    {
      OccursShift(s, pat, i + 1);
    }
  }

  lemma OccursFront(s: string, pat: string)
    ensures OccursAt(s, pat, 0) <==> |pat| <= |s| && s[..|pat|] == pat
  {
  }

  /** Index of the first occurrence of pat in s, or -1. */
  function Find(s: string, pat: string): (k: int)
    ensures -1 <= k
    ensures k >= 0 ==> OccursAt(s, pat, k)
    ensures forall i :: OccursAt(s, pat, i) ==> 0 <= k <= i
  {
    if |s| < |pat| then -1
    else
      OccursFront(s, pat);
      if s[..|pat|] == pat then 0
      else
        OccursInTail(s, pat);
        var rest := Find(s[1..], pat);
        if rest < 0 then -1 else rest + 1
  }

  /** No carriage return of s is directly followed by a line feed. */
  predicate NoCrLf(s: string) {
    forall i :: 0 <= i < |s| - 1 ==> !(s[i] == '\r' && s[i + 1] == '\n')
  }

  lemma CrLfOccurs(s: string, i: int)
    ensures OccursAt(s, CRLF, i) <==> 0 <= i < |s| - 1 && s[i] == '\r' && s[i + 1] == '\n'
  {
    if 0 <= i < |s| - 1 {
      assert s[i..i + 2] == [s[i], s[i + 1]];
    }
  }

  lemma NoCrLfConcat(a: string, b: string)
    requires NoCrLf(a) && NoCrLf(b)
    requires a == "" || b == "" || a[|a| - 1] != '\r' || b[0] != '\n'
    ensures NoCrLf(a + b)
  {
    var s := a + b;
    forall i | 0 <= i < |s| - 1
      ensures !(s[i] == '\r' && s[i + 1] == '\n')
    {
      if i >= |a| {
        assert s[i] == b[i - |a|] && s[i + 1] == b[i - |a| + 1];
      }
    }
  }

  /** A CRLF-free text followed by CRLF has its first CRLF exactly there. */
  lemma FindCrLf(a: string, b: string)
    requires NoCrLf(a)
    ensures Find(a + CRLF + b, CRLF) == |a|
  {
    var s := a + CRLF + b;
    CrLfOccurs(s, |a|);
    var k := Find(s, CRLF);
    CrLfOccurs(s, k);
    assert forall i :: 0 <= i < |a| ==> s[i] == a[i];
  }

  /** What precedes the first CRLF has no CRLF. */
  lemma BeforeFirstCrLf(s: string)
    ensures var k := Find(s, CRLF); k >= 0 ==> NoCrLf(s[..k])
    ensures Find(s, CRLF) < 0 ==> NoCrLf(s)
  {
    var k := Find(s, CRLF);
    forall i | 0 <= i < |s| - 1 && s[i] == '\r' && s[i + 1] == '\n'
      ensures 0 <= k <= i
    {
      CrLfOccurs(s, i);
    }
  }

  // ---- printf("%d"), printf("%ld") and sscanf ----------------------------------------------

  function Digit(d: nat): (c: char)
    requires d < 10
    ensures c in DIGITS && c as int == '0' as int + d
  {
    ['0', '1', '2', '3', '4', '5', '6', '7', '8', '9'][d]
  }

  /** Decimal text of a natural number. */
  function Dec(n: nat): (s: string)
    ensures |s| > 0
    ensures forall i :: 0 <= i < |s| ==> s[i] in DIGITS
  {
    if n < 10 then [Digit(n)] else Dec(n / 10) + [Digit(n % 10)]
  }

  function DigitValue(c: char): nat
    requires c in DIGITS
  {
    c as int - '0' as int
  }

  function Value(s: string): nat
    requires forall i :: 0 <= i < |s| ==> s[i] in DIGITS
  {
    if s == "" then 0 else 10 * Value(s[..|s| - 1]) + DigitValue(s[|s| - 1])
  }

  lemma {:induction false} ValueOfDec(n: nat)
    ensures Value(Dec(n)) == n
  {
    if n >= 10 {
      ValueOfDec(n / 10);
      assert Dec(n)[..|Dec(n)| - 1] == Dec(n / 10);
    }
  }

  datatype Scan<+T> = NoMatch | Match(value: T, rest: string)

  function SkipSpace(s: string): string {
    s[StrSpn(s, WHITESPACE)..]
  }

  /** The "%<max>s" directive: skip white space, then take at most max other characters. */
  function ScanWord(s: string, max: nat): Scan<string> {
    var t := SkipSpace(s);
    var k := StrCSpn(t, WHITESPACE);
    var n := if k <= max then k else max;
    if n == 0 then NoMatch else Match(t[..n], t[n..])
  }

  const ULONG: int := 0x1_0000_0000_0000_0000

  /** An optionally signed decimal number after white space, as "%d" and "%lu" read it. */
  function ScanInt(s: string): Scan<int> {
    var t := SkipSpace(s);
    var sign := if t != "" && t[0] in {'+', '-'} then 1 else 0;
    var digits := t[sign..];
    var k := StrSpn(digits, DIGITS);
    if k == 0 then NoMatch
    else
      var v := Value(digits[..k]);
      Match(if sign == 1 && t[0] == '-' then 0 - v else v, digits[k..])
  }

  /** The "%lu" directive: a minus sign negates modulo 2^64, values out of range saturate. */
  function ScanUnsigned(s: string): Scan<nat> {
    match ScanInt(s)
    case NoMatch => NoMatch
    case Match(v, rest) =>
      Match(if 0 <= v < ULONG then v else if 0 - ULONG < v < 0 then v + ULONG else ULONG - 1, rest)
  }

  lemma ScanWordStops(lead: string, w: string, rest: string, max: nat)
    requires forall i :: 0 <= i < |lead| ==> lead[i] in WHITESPACE
    requires 0 < |w| <= max && Free(w, WHITESPACE)
    requires rest == "" || rest[0] in WHITESPACE
    ensures ScanWord(lead + w + rest, max) == Match(w, rest)
  {
    assert lead + w + rest == lead + (w + rest);
    SpnStops(lead, w + rest, WHITESPACE);
    assert SkipSpace(lead + w + rest) == w + rest;
    CSpnStops(w, rest, WHITESPACE);
  }

  lemma WordParts(lead: string, w: string, rest: string)
    requires forall i :: 0 <= i < |lead| ==> lead[i] in WHITESPACE
    requires w != "" && Free(w, WHITESPACE)
    ensures lead + w + rest == lead + (w + rest) && SkipSpace(lead + (w + rest)) == w + rest
  {
    hide StrSpn;
    assert (w + rest)[0] == w[0];
    SpnStops(lead, w + rest, WHITESPACE);
  }

  lemma TakeFront(a: string, b: string, n: nat)
    requires n <= |a|
    ensures (a + b)[..n] == a[..n] && (a + b)[n..] == a[n..] + b
  {
  }

  /** "%<max>s" on any word: white space before it is skipped and at most max characters are taken. */
  lemma ScanWordTakes(lead: string, w: string, rest: string, max: nat)
    requires forall i :: 0 <= i < |lead| ==> lead[i] in WHITESPACE
    requires w != "" && Free(w, {' ', '\t', '\n', '\U{0B}', '\U{0C}', '\r'}) && max > 0
    requires rest == "" || rest[0] in WHITESPACE
    ensures var n := if |w| <= max then |w| else max;
            ScanWord(lead + w + rest, max) == Match(w[..n], w[n..] + rest)
  {
    hide StrCSpn, SkipSpace, Free;
    WordParts(lead, w, rest);
    CSpnStops(w, rest, WHITESPACE);
    TakeFront(w, rest, if |w| <= max then |w| else max);
  }

  lemma ScanWordNone(s: string, max: nat)
    requires forall i :: 0 <= i < |s| ==> s[i] in {' ', '\t', '\n', '\U{0B}', '\U{0C}', '\r'}
    ensures ScanWord(s, max) == NoMatch && ScanInt(s) == NoMatch && ScanUnsigned(s) == NoMatch
  {
    hide StrSpn, StrCSpn;
    assert s + "" == s;
    SpnStops(s, "", WHITESPACE);
  }

  lemma DigitIsPlain(c: char)
    requires c in DIGITS
    ensures c !in WHITESPACE && c != NUL && c != '+' && c != '-'
  {
  }

  /** Decimal text is positional: one more digit behind it adds that digit to ten times the value. */
  lemma DecDigits(n: nat, d: nat)
    requires d < 10
    ensures Dec(d) == [('0' as int + d) as char]
    ensures n > 0 ==> Dec(10 * n + d) == Dec(n) + Dec(d)
  {
    assert (10 * n + d) / 10 == n && (10 * n + d) % 10 == d;
  }

  lemma SignedParts(lead: string, sign: char, d: string, rest: string)
    requires forall i :: 0 <= i < |lead| ==> lead[i] in WHITESPACE
    requires sign == '+' || sign == '-'
    ensures var t := [sign] + d + rest;
            && lead + [sign] + d + rest == lead + t && t[0] == sign && t[1..] == d + rest
            && SkipSpace(lead + t) == t && (d + rest)[..|d|] == d && (d + rest)[|d|..] == rest
  {
    hide StrSpn;
    SpnStops(lead, [sign] + d + rest, WHITESPACE);
  }

  /** "%d" takes a sign in front of the digits. */
  lemma ScanIntSigned(lead: string, sign: char, n: nat, rest: string)
    requires forall i :: 0 <= i < |lead| ==> lead[i] in WHITESPACE
    requires sign == '+' || sign == '-'
    requires rest == "" || rest[0] !in DIGITS
    ensures ScanInt(lead + [sign] + Dec(n) + rest) == Match(if sign == '-' then 0 - n else 0 + n, rest)
  {
    hide Dec, StrSpn, SkipSpace, Value;
    var d := Dec(n);
    SignedParts(lead, sign, d, rest);
    SpnStops(d, rest, DIGITS);
    ValueOfDec(n);
  }

  /** "%lu" takes a negative number modulo 2^64, and the greatest value for a number that does not fit. */
  lemma ScanUnsignedIs(s: string, v: int, rest: string)
    requires ScanInt(s) == Match(v, rest)
    ensures ScanUnsigned(s).Match? && ScanUnsigned(s).rest == rest
    ensures 0 <= ScanUnsigned(s).value < 0x1_0000_0000_0000_0000
    ensures -0x1_0000_0000_0000_0000 < v < 0x1_0000_0000_0000_0000 ==>
              ScanUnsigned(s).value == v % 0x1_0000_0000_0000_0000
    ensures v <= -0x1_0000_0000_0000_0000 || 0x1_0000_0000_0000_0000 <= v ==>
              ScanUnsigned(s).value == 0xFFFF_FFFF_FFFF_FFFF
  {
    hide ScanInt;
  }

  lemma UnsignedParts(lead: string, d: string, rest: string)
    requires forall i :: 0 <= i < |lead| ==> lead[i] in WHITESPACE
    requires d != "" && d[0] in DIGITS
    ensures var t := d + rest;
            && lead + d + rest == lead + t && t[0] == d[0] && t[0..] == t && t[..|d|] == d && t[|d|..] == rest
            && SkipSpace(lead + t) == t
  {
    hide StrSpn;
    DigitIsPlain(d[0]);
    SpnStops(lead, d + rest, WHITESPACE);
  }

  lemma ScanIntStops(lead: string, n: nat, rest: string)
    requires forall i :: 0 <= i < |lead| ==> lead[i] in WHITESPACE
    requires rest == "" || rest[0] !in DIGITS
    ensures ScanInt(lead + Dec(n) + rest) == Match(n, rest)
  {
    hide Dec, StrSpn, SkipSpace, Value;
    var d := Dec(n);
    DigitIsPlain(d[0]);
    UnsignedParts(lead, d, rest);
    SpnStops(d, rest, DIGITS);
    ValueOfDec(n);
  }
}
