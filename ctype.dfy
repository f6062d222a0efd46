/**
 * The C library routines the proxy applies to NUL-terminated strings, in the
 * C locale with one `char` standing for one byte: the character classes,
 * case-insensitive comparison, `strchr`/`strpbrk`, the word scanning of
 * `sscanf("%s")` and `atoi`.
 */
module CType {

  /** A pointer result that may be NULL. */
  datatype Option<T> = None | Some(value: T)

  const IntMin: int := -0x8000_0000
  const IntMax: int := 0x7fff_ffff

  /** `size_t` on an LP64 platform: arithmetic modulo 2^64. */
  const SizeMod: int := 0x1_0000_0000_0000_0000
  type SizeT = x: int | 0 <= x < 0x1_0000_0000_0000_0000

  /** isdigit */
  predicate IsDigit(c: char) { '0' <= c <= '9' }

  /** isspace: space, tab, newline, vertical tab, form feed, carriage return */
  predicate IsSpace(c: char) { c == ' ' || '\t' <= c <= '\r' }

  /** tolower: only the upper-case ASCII letters change */
  function Lower(c: char): char
  {
    if 'A' <= c <= 'Z' then (c as int + 32) as char else c
  }

  predicate AllDigits(s: string) { forall i :: 0 <= i < |s| ==> IsDigit(s[i]) }

  /**
   * `strncasecmp(s, lit, |lit|) == 0` for NUL-free `s` and `lit`: when `s` is
   * shorter, its terminating NUL differs from the literal's next byte.
   */
  predicate PrefixCI(s: string, lit: string)
  {
    |lit| <= |s| && forall i :: 0 <= i < |lit| ==> Lower(s[i]) == Lower(lit[i])
  }

  /** `strcasecmp(s, t) == 0` for NUL-free `s` and `t`. */
  /** Whatever follows it, `p` is a case-insensitive prefix of `p + t`. */
  lemma {:induction false} PrefixCIOfAppend(p: string, t: string)
    ensures PrefixCI(p + t, p)
  {
    assert forall i :: 0 <= i < |p| ==> (p + t)[i] == p[i];
  }

  predicate EqualCI(s: string, t: string)
  {
    |s| == |t| && PrefixCI(s, t)
  }

  /**
   * `strpbrk(s + from, accept)` (and `strchr` when `accept` is one byte):
   * the first index at or after `from` whose byte is in `accept`, or NULL.
   */
  function FirstOf(s: string, from: nat, accept: string): (r: Option<nat>)
    requires from <= |s|
    ensures r.Some? ==> from <= r.value < |s| && s[r.value] in accept
    ensures forall i :: from <= i < (if r.Some? then r.value else |s|) ==> s[i] !in accept
    decreases |s| - from
  {
    if from == |s| then None
    else if s[from] in accept then Some(from)
    else FirstOf(s, from + 1, accept)
  }

  /** The search depends only on the bytes from `from` on. */
  lemma {:induction false} FirstOfSuffix(s: string, t: string, from: nat, accept: string)
    requires from <= |s| && from <= |t| && s[from..] == t[from..]
    ensures FirstOf(s, from, accept) == FirstOf(t, from, accept)
    decreases |s| - from
  {
    if from < |s| {
      assert s[from] == s[from..][0] == t[from..][0] == t[from];
      assert s[from + 1..] == s[from..][1..] == t[from..][1..] == t[from + 1..];
      FirstOfSuffix(s, t, from + 1, accept);
    }
  }

  /** A search that skips no match before `k` and hits one at `k` returns `k`. */
  lemma {:induction false} FirstAfter(s: string, from: nat, k: nat, accept: string)
    requires from <= k < |s| && s[k] in accept
    requires forall i :: from <= i < k ==> s[i] !in accept
    ensures FirstOf(s, from, accept) == Some(k)
    decreases k - from
  {
    if from < k {
      FirstAfter(s, from + 1, k, accept);
    }
  }

  /** A NUL-free buffer is its own C string. */
  lemma {:induction false} CStrOfNulFree(s: string)
    requires '\0' !in s
    ensures CStr(s) == s
  {
  }

  /** The C string a buffer holds: the bytes before its first NUL (`strlen`). */
  function CStr(s: string): (r: string)
    ensures r <= s && '\0' !in r
    ensures |r| < |s| ==> s[|r|] == '\0'
  {
    match FirstOf(s, 0, "\0")
    case None => s
    case Some(j) => s[..j]
  }

  predicate NotSpace(c: char) { !IsSpace(c) }

  /** The end of the run of bytes satisfying `p` that starts at `from`. */
  function SpanEnd(s: string, from: nat, p: char -> bool): (r: nat)
    requires from <= |s|
    ensures from <= r <= |s|
    ensures forall i :: from <= i < r ==> p(s[i])
    ensures r < |s| ==> !p(s[r])
    decreases |s| - from
  {
    if from < |s| && p(s[from]) then SpanEnd(s, from + 1, p) else from
  }

  /** What `sscanf` and `atoi` skip first: the leading whitespace. */
  function SkipSpace(s: string): (r: string)
    ensures |r| <= |s| && r == s[|s| - |r|..]
    ensures forall i :: 0 <= i < |s| - |r| ==> IsSpace(s[i])
    ensures r == [] || !IsSpace(r[0])
  {
    s[SpanEnd(s, 0, IsSpace)..]
  }

  /** What one `%s` conversion stores: the longest prefix free of whitespace. */
  function Token(s: string): (r: string)
    ensures r <= s
    ensures forall i :: 0 <= i < |r| ==> !IsSpace(r[i])
    ensures |r| < |s| ==> IsSpace(s[|r|])
  {
    s[..SpanEnd(s, 0, NotSpace)]
  }

  /** The longest prefix of decimal digits (what `while (isdigit(*p))` walks over). */
  function Digits(s: string): (r: string)
    ensures r <= s && AllDigits(r)
    ensures |r| < |s| ==> !IsDigit(s[|r|])
  {
    s[..SpanEnd(s, 0, IsDigit)]
  }

  /** A maximal run of digits at the start of `s` is `Digits(s)`. */
  lemma {:induction false} DigitsUnique(s: string, d: string)
    requires d <= s && AllDigits(d)
    requires |d| < |s| ==> !IsDigit(s[|d|])
    ensures Digits(s) == d
  {
    if d != [] {
      assert s[0] == d[0];
      assert d[1..] <= s[1..];
      DigitsUnique(s[1..], d[1..]);
    } else if s != [] {
      assert !IsDigit(s[0]);
    }
  }

  /** The number a run of decimal digits denotes. */
  function DecimalValue(ds: string): nat
    requires AllDigits(ds)
  {
    if ds == [] then 0
    else DecimalValue(ds[..|ds| - 1]) * 10 + (ds[|ds| - 1] as int - '0' as int)
  }

  /** The shortest decimal rendering of `n`, as an origin server writes a header's value. */
  function Decimal(n: nat): (r: string)
    ensures |r| > 0 && AllDigits(r)
    ensures r[0] != '0' || n == 0
  {
    var last := ('0' as int + n % 10) as char;
    if n < 10 then [last] else Decimal(n / 10) + [last]
  }

  lemma {:induction false} DecimalRoundTrip(n: nat)
    ensures DecimalValue(Decimal(n)) == n
  {
    var r := Decimal(n);
    if n >= 10 {
      assert r[..|r| - 1] == Decimal(n / 10);
      DecimalRoundTrip(n / 10);
    }
  }

  /**
   * `atoi`: leading whitespace, an optional sign, then the longest run of
   * digits; no digits at all gives 0.
   */
  function Atoi(s: string): int
  {
    var t := SkipSpace(s);
    if t != [] && (t[0] == '-' || t[0] == '+') then
      var v: int := DecimalValue(Digits(t[1..]));
      if t[0] == '-' then -v else v
    else
      DecimalValue(Digits(t))
  }

  /** `atoi` has defined behaviour only when the value fits in an `int`. */
  predicate AtoiDefined(s: string)
  {
    IntMin <= Atoi(s) <= IntMax
  }

  /** The conversion `(size_t) v` of an `int`: reduction modulo 2^64. */
  function ToSizeT(v: int): (r: SizeT)
    requires IntMin <= v <= IntMax
    ensures r % SizeMod == v % SizeMod
    ensures 0 <= v ==> r == v
  {
    if v < 0 then v + SizeMod else v
  }

  /** `atoi` reads back what `Decimal` renders, up to the first non-digit. */
  lemma {:induction false} AtoiOfDecimal(n: nat, rest: string)
    requires rest == [] || !IsDigit(rest[0])
    ensures Atoi(Decimal(n) + rest) == n
  {
    var s := Decimal(n) + rest;
    assert s[0] == Decimal(n)[0];
    assert SkipSpace(s) == s;
    DigitsUnique(s, Decimal(n));
    DecimalRoundTrip(n);
  }
}
