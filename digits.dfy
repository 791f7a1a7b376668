/**
 * Decimal digit strings as terminals send them in escape-sequence replies,
 * and the shift-and-add accumulation (`v *= 10; v += in - '0'`) that the
 * reply parsers apply to them.
 */
module Digits {

  predicate IsDigit(c: char) {
    '0' <= c <= '9'
  }

  predicate AllDigits(d: seq<char>) {
    forall k :: 0 <= k < |d| ==> IsDigit(d[k])
  }

  /** A slice is all digits exactly when every position it covers holds a digit. */
  lemma AllDigitsSlice(t: seq<char>, a: nat, b: nat)
    requires a <= b <= |t|
    ensures AllDigits(t[a..b]) <==> forall k :: a <= k < b ==> IsDigit(t[k])
  {
    if AllDigits(t[a..b]) {
      forall k | a <= k < b ensures IsDigit(t[k]) {
        assert t[a..b][k - a] == t[k];
      }
    }
  }

  function DigitValue(c: char): (v: nat)
    requires IsDigit(c)
    ensures v < 10
  {
    (c as int) - ('0' as int)
  }

  function DigitChar(v: nat): (c: char)
    requires v < 10
    ensures IsDigit(c) && DigitValue(c) == v
  {
    (('0' as int) + v) as char
  }

  /** The number a run of digits denotes, most significant digit first. */
  function DecValue(d: seq<char>): nat
    requires AllDigits(d)
    decreases |d|
  {
    if d == [] then 0 else DecValue(d[..|d| - 1]) * 10 + DigitValue(d[|d| - 1])
  }

  /** One more digit shifts the value one decimal place and adds the digit. */
  lemma DecValueSnoc(d: seq<char>, c: char)
    requires AllDigits(d) && IsDigit(c)
    ensures AllDigits(d + [c]) && DecValue(d + [c]) == DecValue(d) * 10 + DigitValue(c)
  {
    assert (d + [c])[..|d|] == d;
  }

  /** How a terminal writes a number: decimal digits, no leading zeros. */
  function Decimal(n: nat): (d: seq<char>)
    ensures 1 <= |d| && AllDigits(d)
    ensures |d| > 1 ==> d[0] != '0'
    decreases n
  {
    if n < 10 then [DigitChar(n)] else Decimal(n / 10) + [DigitChar(n % 10)]
  }

  /** Reading back what `Decimal` wrote gives the number again. */
  lemma {:induction false} DecValueOfDecimal(n: nat)
    ensures DecValue(Decimal(n)) == n
  {
    if n >= 10 {
      DecValueOfDecimal(n / 10);
      DecValueSnoc(Decimal(n / 10), DigitChar(n % 10));
    }
  }

  /**
   * The end of the longest run, starting at `i`, of characters that `accept`
   * admits: the first index at or after `i` holding a character it rejects,
   * or `|t|` when there is none.
   */
  function Span(t: seq<char>, i: nat, accept: char -> bool): (j: nat)
    requires i <= |t|
    ensures i <= j <= |t|
    ensures forall k :: i <= k < j ==> accept(t[k])
    ensures j == |t| || !accept(t[j])
    decreases |t| - i
  {
    if i == |t| || !accept(t[i]) then i else Span(t, i + 1, accept)
  }

  /** Any index that ends an accepted run starting at `i` is the span's end. */
  lemma SpanEndsAt(t: seq<char>, i: nat, j: nat, accept: char -> bool)
    requires i <= j <= |t|
    requires forall k :: i <= k < j ==> accept(t[k])
    requires j == |t| || !accept(t[j])
    ensures Span(t, i, accept) == j
  {
  }

  /** A run of accepted characters from `i` to `m` lies within the span. */
  lemma SpanCovers(t: seq<char>, i: nat, m: nat, accept: char -> bool)
    requires i <= m <= |t|
    requires forall k :: i <= k < m ==> accept(t[k])
    ensures m <= Span(t, i, accept)
  {
  }
}
