/** Bytes, and decimal numbers written in them. */
module Bytes {

  datatype Option<T> = None | Some(value: T)

  type Byte = n: nat | n < 256

  predicate IsDigit(b: Byte) {
    0x30 <= b <= 0x39
  }

  function Decimal(n: nat): (s: seq<Byte>)
    ensures s != []
  {
    if n < 10 then [0x30 + n] else Decimal(n / 10) + [0x30 + n % 10]
  }

  function Number(s: seq<Byte>): int {
    if s == [] then 0 else 10 * Number(s[..|s| - 1]) + s[|s| - 1] - 0x30
  }

  lemma NumberMore(s: seq<Byte>, b: Byte)
    ensures Number(s + [b]) == 10 * Number(s) + b - 0x30
  {
    assert (s + [b])[..|s|] == s;
  }

  lemma {:induction false} DecimalNumber(n: nat)
    ensures Number(Decimal(n)) == n && forall i :: 0 <= i < |Decimal(n)| ==> IsDigit(Decimal(n)[i])
  {
    hide Number;
    if n < 10 {
      NoDigits();
      NumberMore([], 0x30 + n);
      assert [] + [0x30 + n] == Decimal(n);
    } else {
      DecimalNumber(n / 10);
      NumberMore(Decimal(n / 10), 0x30 + n % 10);
    }
  }

  lemma NoDigits()
    ensures Number([]) == 0
  {
  }

  // ---- strtoul in base ten, assigned to an unsigned int ----

  /** A byte of a buffer that ends with a zero byte. */
  function At(s: seq<Byte>, i: nat): Byte {
    if i < |s| then s[i] else 0
  }

  function SkipSpaces(s: seq<Byte>, i: nat): (j: nat)
    requires i <= |s|
    ensures i <= j <= |s|
    decreases |s| - i
  {
    if i < |s| && (s[i] == 0x20 || 0x09 <= s[i] <= 0x0d) then SkipSpaces(s, i + 1) else i
  }

  function SkipDigits(s: seq<Byte>, i: nat): (j: nat)
    requires i <= |s|
    ensures i <= j <= |s| && forall k :: i <= k < j ==> IsDigit(s[k])
    decreases |s| - i
  {
    if i < |s| && IsDigit(s[i]) then SkipDigits(s, i + 1) else i
  }

  const ULONG: int := 0x1_0000_0000_0000_0000
  const UINT: int := 0x1_0000_0000

  /** The value, and where the number ends; a number too large is the largest one, and one with a minus
    * sign is negated. */
  function Strtoul(s: seq<Byte>, i: nat): (r: (nat, nat))
    requires i <= |s|
    ensures r.0 < UINT && i <= r.1 <= |s|
  {
    var j := SkipSpaces(s, i);
    var start := if At(s, j) == 0x2b || At(s, j) == 0x2d then j + 1 else j;
    var end := SkipDigits(s, start);
    if end == start then (0, i)
    else
      var n := Number(s[start..end]);
      ((if n >= ULONG then ULONG - 1 else if At(s, j) == 0x2d then -n else n) % UINT, end)
  }

  lemma {:induction false} SkipDigitsEnd(s: seq<Byte>, i: nat, j: nat)
    requires i <= j <= |s| && (forall k :: i <= k < j ==> IsDigit(s[k])) && !IsDigit(At(s, j))
    ensures SkipDigits(s, i) == j
    decreases j - i
  {
    if i < j { SkipDigitsEnd(s, i + 1, j); }
  }

  /** A number is read back as it was written. */
  lemma StrtoulDecimal(s: seq<Byte>, i: nat, j: nat, n: nat)
    requires i <= j <= |s| && s[i..j] == Decimal(n) && !IsDigit(At(s, j)) && n < UINT
    ensures Strtoul(s, i) == (n, j)
  {
    hide Decimal, Number;
    DecimalNumber(n);
    forall k | i <= k < j ensures IsDigit(s[k]) {
      assert s[i..j][k - i] == s[k];
    }
    assert s[i] == Decimal(n)[0];
    SkipDigitsEnd(s, i, j);
  }
}
