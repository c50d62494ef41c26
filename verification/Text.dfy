/** Byte strings as the C code handles them (utils.c and the few libc
    functions the parser calls): character classes, NUL-terminated copies,
    trimming and decimal numbers.  A byte is a `char`; only ASCII is compared. */
module Text {

  datatype Option<+T> = None | Some(value: T)

  // ---------- character classes ----------

  // isspace in the C locale: blank, or one of \t \n \v \f \r.
  predicate IsSpace(c: char) {
    c == ' ' || '\t' <= c <= '\r'
  }

  // The macro issp: a space that does not end the line.
  predicate IsBlank(c: char) {
    IsSpace(c) && c != '\n'
  }

  predicate IsDigit(c: char) {
    '0' <= c <= '9'
  }

  function ToLower(c: char): char {
    if 'A' <= c <= 'Z' then (c as int + 32) as char else c
  }

  // strcasecmp(a, b) == 0
  predicate CaseEq(a: string, b: string) {
    |a| == |b| && CaseEqFrom(a, b, 0)
  }

  predicate CaseEqFrom(a: string, b: string, i: nat)
    requires |a| == |b| && i <= |a|
    decreases |a| - i
  {
    i < |a| ==> ToLower(a[i]) == ToLower(b[i]) && CaseEqFrom(a, b, i + 1)
  }

  lemma {:induction false} CaseEqSame(s: string, i: nat)
    requires i <= |s|
    ensures CaseEqFrom(s, s, i)
    decreases |s| - i
  {
    if i < |s| {
      CaseEqSame(s, i + 1);
    }
  }

  predicate AllSpace(s: string) {
    forall i :: 0 <= i < |s| ==> IsSpace(s[i])
  }

  predicate AllBlank(s: string) {
    forall i :: 0 <= i < |s| ==> IsBlank(s[i])
  }

  lemma Regroup(a: string, b: string, c: string)
    ensures (a + b) + c == a + (b + c)
  {
  }

  // ---------- NUL-terminated strings ----------

  // The first c in s at or behind i, or |s| (strchr).
  function IndexFrom(s: string, c: char, i: nat): (n: nat)
    requires i <= |s|
    ensures i <= n <= |s| && (n < |s| ==> s[n] == c)
    decreases |s| - i
  {
    if i == |s| || s[i] == c then i else IndexFrom(s, c, i + 1)
  }

  function IndexOf(s: string, c: char): (n: nat)
    ensures n <= |s| && (n < |s| ==> s[n] == c)
  {
    IndexFrom(s, c, 0)
  }

  lemma {:induction false} IndexFromIs(s: string, c: char, i: nat, n: nat)
    requires i <= n <= |s| && (n < |s| ==> s[n] == c)
    requires forall k :: i <= k < n ==> s[k] != c
    ensures IndexFrom(s, c, i) == n
    decreases |s| - i
  {
    if i < n {
      IndexFromIs(s, c, i + 1, n);
    }
  }

  lemma {:induction false} IndexFromFirst(s: string, c: char, i: nat)
    requires i <= |s|
    ensures forall k :: i <= k < IndexFrom(s, c, i) ==> s[k] != c
    decreases |s| - i
  {
    if i < |s| && s[i] != c {
      IndexFromFirst(s, c, i + 1);
    }
  }

  // The C string that starts where `s` starts.
  function CutNul(s: string): string {
    s[..IndexOf(s, '\0')]
  }

  lemma CutNulIs(s: string, n: nat)
    requires n <= |s| && '\0' !in s[..n] && (n < |s| ==> s[n] == '\0')
    ensures CutNul(s) == s[..n]
  {
    assert forall k :: 0 <= k < n ==> s[k] == s[..n][k];
    IndexFromIs(s, '\0', 0, n);
  }

  // strncpy0(d, s, n): at most n bytes, stopping at the first NUL.
  function StrNCpy0(s: string, n: nat): (r: string)
    ensures |r| <= |s| && |r| <= n
  {
    CutNul(if |s| <= n then s else s[..n])
  }

  lemma StrNCpy0Whole(s: string, n: nat)
    requires |s| <= n && '\0' !in s
    ensures StrNCpy0(s, n) == s
  {
    assert s[..|s|] == s;
    CutNulIs(s, |s|);
  }

  // ---------- trimming ----------

  function TrimStart(s: string): string {
    if s != "" && IsSpace(s[0]) then TrimStart(s[1..]) else s
  }

  function TrimEnd(s: string): string {
    if s != "" && IsSpace(s[|s| - 1]) then TrimEnd(s[..|s| - 1]) else s
  }

  // What strstrip leaves of a C string.
  function Trim(s: string): string {
    TrimEnd(TrimStart(s))
  }

  predicate Trimmed(s: string) {
    s == "" || (!IsSpace(s[0]) && !IsSpace(s[|s| - 1]))
  }

  // Trimming removes exactly the surrounding spaces: whatever is put around a
  // trimmed string comes off again, and nothing else does.
  lemma {:induction false} TrimPadded(before: string, s: string, after: string)
    requires AllSpace(before) && AllSpace(after) && Trimmed(s)
    ensures Trim(before + s + after) == s
  {
    if before != "" {
      assert (before + s + after)[1..] == before[1..] + s + after;
      TrimPadded(before[1..], s, after);
    } else if s == "" {
      assert before + s + after == after;
      TrimAllSpace(after);
    } else {
      assert before + s + after == s + after;
      assert TrimStart(s + after) == s + after;
      TrimEndPadded(s, after);
    }
  }

  lemma {:induction false} TrimAllSpace(s: string)
    requires AllSpace(s)
    ensures TrimStart(s) == ""
  {
    if s != "" {
      TrimAllSpace(s[1..]);
    }
  }

  lemma {:induction false} TrimEndPadded(s: string, after: string)
    requires AllSpace(after) && Trimmed(s)
    ensures TrimEnd(s + after) == s
  {
    if after == "" {
      assert s + after == s;
    } else {
      assert (s + after)[..|s + after| - 1] == s + after[..|after| - 1];
      TrimEndPadded(s, after[..|after| - 1]);
    }
  }

  lemma TrimSlice(s: string, p: nat, q: nat)
    requires p <= q <= |s|
    requires forall k :: 0 <= k < p || q <= k < |s| ==> IsSpace(s[k])
    requires p == q || (!IsSpace(s[p]) && !IsSpace(s[q - 1]))
    ensures Trim(s) == s[p..q]
  {
    assert s == s[..p] + s[p..q] + s[q..];
    TrimPadded(s[..p], s[p..q], s[q..]);
  }

  lemma {:induction false} TrimStartStops(s: string)
    ensures TrimStart(s) != "" ==> !IsSpace(TrimStart(s)[0])
  {
    if s != "" {
      TrimStartStops(s[1..]);
    }
  }

  lemma {:induction false} TrimEndStops(s: string)
    ensures TrimEnd(s) <= s
    ensures TrimEnd(s) != "" ==> !IsSpace(TrimEnd(s)[|TrimEnd(s)| - 1])
  {
    if s != "" {
      TrimEndStops(s[..|s| - 1]);
    }
  }

  // The result is always trimmed, so trimming twice changes nothing more.
  lemma TrimIdempotent(s: string)
    ensures Trimmed(Trim(s)) && Trim(Trim(s)) == Trim(s)
  {
    var r := Trim(s);
    TrimStartStops(s);
    TrimEndStops(TrimStart(s));
    TrimSlice(r, 0, |r|);
    assert r[0..|r|] == r;
  }

  // ---------- decimal numbers ----------

  predicate AllDigits(s: string) {
    s != "" ==> IsDigit(s[|s| - 1]) && AllDigits(s[..|s| - 1])
  }

  // atoi of a string of digits, without the 32-bit limit.
  function Atoi(s: string): nat
    requires AllDigits(s)
  {
    if s == "" then 0
    else 10 * Atoi(s[..|s| - 1]) + (s[|s| - 1] as int - '0' as int)
  }

  // sprintf("%zd", n)
  function Dec(n: int): (s: string)
    decreases n < 0, if n < 0 then -n else n
  {
    if n < 0 then "-" + Dec(-n)
    else if n < 10 then [Digit(n)]
    else Dec(n / 10) + [Digit(n % 10)]
  }

  function Digit(n: int): char
    requires 0 <= n < 10
  {
    (n + '0' as int) as char
  }

  lemma {:induction false} AtoiDec(n: nat)
    ensures AllDigits(Dec(n)) && |Dec(n)| > 0 && Atoi(Dec(n)) == n
  {
    if n < 10 {
      assert Dec(n)[..0] == "";
    } else {
      AtoiDec(n / 10);
      var s := Dec(n);
      assert s[..|s| - 1] == Dec(n / 10);
    }
  }

  lemma {:induction false} AllDigitsAt(s: string)
    requires AllDigits(s)
    ensures forall i :: 0 <= i < |s| ==> IsDigit(s[i])
  {
    if s != "" {
      AllDigitsAt(s[..|s| - 1]);
    }
  }

  lemma {:induction false} DigitAt(s: string, i: nat)
    requires i < |s| && !IsDigit(s[i])
    ensures !AllDigits(s)
  {
    if i < |s| - 1 {
      DigitAt(s[..|s| - 1], i);
    }
  }

  // ---------- the loops of utils.c ----------

  // Index of the first NUL.
  method StrLen(str: array<char>) returns (n: nat)
    requires '\0' in str[..]
    ensures n < str.Length && str[n] == '\0' && '\0' !in str[..n]
    ensures str[..n] == CutNul(str[..])
  {
    n := 0;
    ghost var z :| 0 <= z < str.Length && str[..][z] == '\0';
    while str[n] != '\0'
      invariant n <= z && '\0' !in str[..n]
      decreases z - n
    {
      assert str[..n + 1] == str[..n] + [str[n]];
      n := n + 1;
    }
    CutNulIs(str[..], n);
    assert str[..][..n] == str[..n];
  }

  // strncpy0(d, s + lo, n): copies bytes one by one, up to n of them, and
  // stops at a NUL.
  method StrNCpy(d: array<char>, s: array<char>, lo: nat, n: nat, ghost w: string)
    requires d != s && lo + n <= s.Length && n < d.Length && s[lo..lo + n] == w
    modifies d
    ensures '\0' in d[..]
    ensures CutNul(d[..]) == CutNul(w)
  {
    var i := 0;
    while i < n && s[lo + i] != '\0'
      invariant 0 <= i <= n
      invariant d[..i] == w[..i] && '\0' !in w[..i]
      invariant s[lo..lo + n] == w
    {
      assert s[lo..lo + n][i] == s[lo + i];
      d[i] := s[lo + i];
      i := i + 1;
      assert d[..i] == d[..i - 1] + [d[i - 1]];
      assert w[..i] == w[..i - 1] + [w[i - 1]];
    }
    assert i < n ==> s[lo..lo + n][i] == s[lo + i];
    CutNulIs(w, i);
    d[i] := '\0';
    assert d[..][i] == '\0' && d[..][..i] == d[..i];
    CutNulIs(d[..], i);
  }

  // strstrip works in place: it shifts the kept part to the front and puts a
  // NUL behind it.
  method StrStrip(str: array<char>)
    requires '\0' in str[..]
    modifies str
    ensures '\0' in str[..]
    ensures CutNul(str[..]) == Trim(CutNul(old(str[..])))
  {
    var p, q, n := FindEnds(str);
    if p == n {
      str[0] := '\0';
      assert str[..][0] == '\0';
      return;
    }
    str[q] := '\0';
    ShiftLeft(str, p, q);
    assert str[..][q - p] == '\0';
    CutNulIs(str[..], q - p);
    assert str[..][..q - p] == str[..q - p];
  }

  // The first two loops of strstrip.
  method FindEnds(str: array<char>) returns (p: nat, q: nat, n: nat)
    requires '\0' in str[..]
    ensures p <= q <= n < str.Length && (p < n ==> p < q)
    ensures Trim(CutNul(str[..])) == str[p..q] && '\0' !in str[p..q]
  {
    n := StrLen(str);
    ghost var s := str[..n];
    p := SkipSpaces(str, n);
    q := if p == n then n else n - 1;
    while p < q && IsSpace(str[q])
      invariant p <= q <= n && (p < n ==> q < n)
      invariant forall k :: q < k < n ==> IsSpace(s[k])
    {
      q := q - 1;
    }
    q := if p == n then n else q + 1;
    TrimSlice(s, p, q);
    assert s[p..q] == str[p..q];
  }

  method SkipSpaces(str: array<char>, n: nat) returns (p: nat)
    requires n < str.Length && str[n] == '\0' && '\0' !in str[..n]
    ensures p <= n && !IsSpace(str[p])
    ensures forall k :: 0 <= k < p ==> IsSpace(str[k])
  {
    p := 0;
    while IsSpace(str[p])
      invariant p <= n
      invariant forall k :: 0 <= k < p ==> IsSpace(str[k])
      decreases n - p
    {
      p := p + 1;
    }
  }

  // The last loop of strstrip: moves str[p..q] to the front.
  method ShiftLeft(str: array<char>, p: nat, q: nat)
    requires p <= q < str.Length
    modifies str
    ensures str[..q - p] == old(str[p..q]) && str[q - p] == '\0'
  {
    var i, r := 0, p;
    while r < q
      invariant i == r - p && p <= r <= q
      invariant forall k :: 0 <= k < i ==> str[k] == old(str[p + k])
      invariant forall k :: r <= k < q ==> str[k] == old(str[k])
    {
      str[i] := str[r];
      i, r := i + 1, r + 1;
    }
    str[i] := '\0';
  }

  method IsNum(str: array<char>) returns (b: bool)
    requires '\0' in str[..]
    ensures b == AllDigits(CutNul(str[..]))
  {
    var n := StrLen(str);
    var p := 0;
    while str[p] != '\0'
      invariant 0 <= p <= n
      invariant AllDigits(str[..p])
      decreases n - p
    {
      assert str[..p + 1][..p] == str[..p];
      if !IsDigit(str[p]) {
        DigitAt(str[..n], p);
        return false;
      }
      p := p + 1;
    }
    return true;
  }
}
