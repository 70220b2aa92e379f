/** A small model of the C semantics the supervisor and telemetry code rely on:
    truncating integer division, unsigned 32-bit wrap-around, fixed-width ranges,
    NUL-terminated strings and the parts of `isdigit`/`atol` that are used. */
module CLib {

  /** The string terminator. */
  const NUL: char := '\0'

  const UINT32_MODULUS: int := 0x1_0000_0000

  /** C `uint32_t` / Mach `natural_t`. */
  type uint32 = x: int | 0 <= x < 0x1_0000_0000

  /** C `int32_t`. */
  type int32 = x: int | -0x8000_0000 <= x < 0x8000_0000

  /** Whether a value fits in C `int64_t`. */
  predicate InInt64Range(x: int) {
    -0x8000_0000_0000_0000 <= x < 0x8000_0000_0000_0000
  }

  datatype Option<T> = None | Some(value: T)

  /** The result of running code that contains a C `assert`: either it finishes
      with a value, or the assertion fails and the process aborts. */
  datatype Run<T> = Done(value: T) | AssertionFailure

  function Min(a: int, b: int): (m: int)
    ensures m <= a && m <= b && (m == a || m == b)
  {
    if a < b then a else b
  }

  /** C's `/` on signed integers: the quotient truncated toward zero.
      (Dafny's own `/` is Euclidean and rounds negative quotients down.) */
  function CDiv(n: int, d: int): (q: int)
    requires d > 0
    ensures n >= 0 ==> 0 <= q && q * d <= n < q * d + d
    ensures n < 0 ==> q <= 0 && q * d - d < n <= q * d
  {
    var m := if n >= 0 then n else -n;
    assert m == (m / d) * d + m % d && 0 <= m % d < d;
    if n >= 0 then m / d else -(m / d)
  }

  /** A negative operand where C and Dafny differ: C gives -1, Dafny gives -2. */
  lemma CDivNegativeDiffers()
    ensures CDiv(-1 * 5, 4) == -1
    ensures (-1 * 5) / 4 == -2
  {
  }

  /** Reduction modulo 2^32: the value an unsigned 32-bit C expression holds. */
  function Wrap32(x: int): (r: uint32)
    ensures (x - r) % UINT32_MODULUS == 0
    ensures 0 <= x < UINT32_MODULUS ==> r == x
  {
    x % UINT32_MODULUS
  }

  /** Reducing an intermediate result does not change the final reduction,
      so a chain of wrapping `+`/`-` equals one reduction of the exact sum. */
  lemma Wrap32Absorbs(a: int, b: int)
    ensures Wrap32(Wrap32(a) + b) == Wrap32(a + b)
  {
    var m := UINT32_MODULUS;
    var q := a / m;
    assert a == q * m + Wrap32(a);
  }

  // ---------------------------------------------------------------------
  // Characters and decimal numerals

  predicate IsDigit(c: char) {
    '0' <= c <= '9'
  }

  function DigitValue(c: char): (v: nat)
    requires IsDigit(c)
    ensures v < 10
  {
    (c as int) - ('0' as int)
  }

  function DigitChar(v: nat): (c: char)
    requires v < 10
    ensures IsDigit(c) && DigitValue(c) == v
  {
    (('0' as int) + v) as char
  }

  predicate AllDigits(ds: seq<char>) {
    forall k :: 0 <= k < |ds| ==> IsDigit(ds[k])
  }

  /** The number a run of decimal digits denotes (most significant first). */
  function DecimalValue(ds: seq<char>): (n: nat)
    requires AllDigits(ds)
  {
    if ds == [] then 0
    else DecimalValue(ds[..|ds| - 1]) * 10 + DigitValue(ds[|ds| - 1])
  }

  /** The shortest decimal numeral of `n`, as `printf("%ld")` writes it. */
  function DecimalDigits(n: nat): (ds: seq<char>)
    ensures |ds| > 0 && AllDigits(ds)
  {
    if n < 10 then [DigitChar(n)] else DecimalDigits(n / 10) + [DigitChar(n % 10)]
  }

  /** Reading back a written numeral gives the number. */
  lemma {:induction false} DecimalRoundTrip(n: nat)
    ensures DecimalValue(DecimalDigits(n)) == n
  {
    var ds := DecimalDigits(n);
    if n >= 10 {
      DecimalRoundTrip(n / 10);
      assert ds[..|ds| - 1] == DecimalDigits(n / 10);
    }
  }

  // ---------------------------------------------------------------------
  // NUL-terminated strings

  /** A buffer holding a C string: its last element is the terminator (an
      earlier NUL simply ends the string sooner). */
  predicate Terminated(s: seq<char>) {
    |s| > 0 && s[|s| - 1] == NUL
  }

  /** `strncmp(s, key, strlen(key)) == 0` for a NUL-free `key`: the first
      `|key|` characters of `s` are those of `key` (so none of them is NUL). */
  predicate HasPrefix(s: seq<char>, key: seq<char>) {
    |key| < |s| && s[..|key|] == key
  }

  /** The index of the first non-digit at or after `i`; the terminator
      guarantees one exists. */
  function DigitRunEnd(s: seq<char>, i: nat): (j: nat)
    requires Terminated(s) && i < |s|
    ensures i <= j < |s| && !IsDigit(s[j])
    ensures forall k :: i <= k < j ==> IsDigit(s[k])
    decreases |s| - i
  {
    if IsDigit(s[i]) then DigitRunEnd(s, i + 1) else i
  }

  /** `atol(&s[i])` where `s[i]` is a digit: the value of the maximal run of
      digits starting at `i`. (Whitespace and sign handling of `atol` cannot
      apply here, and the 64-bit overflow of very long runs is not modelled.) */
  function Atol(s: seq<char>, i: nat): (n: nat)
    requires Terminated(s) && i < |s| && IsDigit(s[i])
  {
    var j := DigitRunEnd(s, i);
    DecimalValue(s[i..j])
  }

  /** `atol` reads back the numeral `DecimalDigits(n)` wherever it sits in a
      string, provided the character after it is not a digit. */
  lemma AtolReadsNumeral(s: seq<char>, i: nat, n: nat)
    requires Terminated(s)
    requires i + |DecimalDigits(n)| < |s|
    requires s[i..i + |DecimalDigits(n)|] == DecimalDigits(n)
    requires !IsDigit(s[i + |DecimalDigits(n)|])
    ensures IsDigit(s[i]) && Atol(s, i) == n
  {
    var ds := DecimalDigits(n);
    assert s[i] == ds[0];
    forall k | i <= k < i + |ds| ensures IsDigit(s[k]) {
      assert s[k] == ds[k - i];
    }
    DigitRunEndAt(s, i, i + |ds|);
    DecimalRoundTrip(n);
  }

  lemma {:induction false} DigitRunEndAt(s: seq<char>, i: nat, j: nat)
    requires Terminated(s) && i <= j < |s|
    requires forall k :: i <= k < j ==> IsDigit(s[k])
    requires !IsDigit(s[j])
    ensures DigitRunEnd(s, i) == j
    decreases j - i
  {
    if i < j {
      DigitRunEndAt(s, i + 1, j);
    }
  }
}
