/** Decimal printing, as the ledger uses it for its transaction ids. */
module Decimal {
  import opened Values

  function DigitChar(d: nat): char
    requires d < 10
  {
    '0' + d as char
  }

  function Digits(n: nat): string {
    if n < 10 then [DigitChar(n)] else Digits(n / 10) + [DigitChar(n % 10)]
  }

  function Zeros(k: nat): string {
    seq(k, _ => '0')
  }

  /** `f"{n:04}"`: at least four characters, padded on the left with zeros. */
  function Padded(n: nat): string {
    var d := Digits(n);
    if |d| < 4 then Zeros(4 - |d|) + d else d
  }

  /** `f"TX-{counter:04}"` */
  function TxId(counter: nat): string {
    "TX-" + Padded(counter)
  }

  /** The number a string of decimal digits denotes; None for any other string. */
  function ParseNat(s: string): (r: Option<nat>) {
    if s == [] then Some(0)
    else
      var last := s[|s| - 1];
      match ParseNat(s[..|s| - 1])
      case None => None
      case Some(high) =>
        if '0' <= last <= '9' then Some(high * 10 + (last - '0') as nat) else None
  }

  function ParseTxId(id: string): Option<nat> {
    if |id| > 3 && id[..3] == "TX-" then ParseNat(id[3..]) else None
  }

  lemma {:induction false} DigitsRoundTrip(n: nat)
    ensures ParseNat(Digits(n)) == Some(n)
    ensures |Digits(n)| >= 1
  {
    if n >= 10 {
      DigitsRoundTrip(n / 10);
      assert Digits(n)[..|Digits(n)| - 1] == Digits(n / 10);
    } else {
      assert Digits(n)[..0] == [];
      assert ParseNat(Digits(n)[..0]) == Some(0);
    }
  }

  /** Zeros in front do not change the number a digit string denotes. */
  lemma {:induction false} LeadingZeros(k: nat, s: string)
    ensures ParseNat(Zeros(k) + s) == ParseNat(s)
  {
    var t := Zeros(k) + s;
    if s == [] {
      assert t == Zeros(k);
      ZerosAreZero(k);
    } else {
      assert t[..|t| - 1] == Zeros(k) + s[..|s| - 1];
      LeadingZeros(k, s[..|s| - 1]);
    }
  }

  lemma {:induction false} ZerosAreZero(k: nat)
    ensures ParseNat(Zeros(k)) == Some(0)
  {
    if k > 0 {
      assert Zeros(k)[..k - 1] == Zeros(k - 1);
      ZerosAreZero(k - 1);
    }
  }

  /** Reading back a printed transaction id gives the counter, for every counter. */
  lemma TxIdRoundTrip(n: nat)
    ensures ParseTxId(TxId(n)) == Some(n)
  {
    DigitsRoundTrip(n);
    var d := Digits(n);
    if |d| < 4 { LeadingZeros(4 - |d|, d); }
    assert TxId(n)[3..] == Padded(n);
  }

  lemma TxIdInjective(m: nat, n: nat)
    requires TxId(m) == TxId(n)
    ensures m == n
  {
    TxIdRoundTrip(m);
    TxIdRoundTrip(n);
  }

  lemma {:induction false} DigitsWidth(n: nat)
    ensures |Digits(n)| <= 4 <==> n <= 9999
    ensures |Digits(n)| <= 3 <==> n <= 999
    ensures |Digits(n)| <= 2 <==> n <= 99
    ensures |Digits(n)| <= 1 <==> n <= 9
    ensures |Digits(n)| >= 1
  {
    if n >= 10 { DigitsWidth(n / 10); }
  }

  /** The four-digit column holds exactly up to 9999; wider ids stay readable, see TxIdRoundTrip. */
  lemma TxIdWidth(n: nat)
    ensures |TxId(n)| >= 7
    ensures |TxId(n)| == 7 <==> n <= 9999
  {
    DigitsWidth(n);
  }

  /** The most significant digit comes first, and short numbers are padded on the left. */
  lemma TxIdExamples()
    ensures TxId(1) == "TX-0001" && TxId(120) == "TX-0120" && TxId(12345) == "TX-12345"
  {
    assert Digits(12) == "12" && Digits(120) == "120";
    assert Digits(123) == "123" && Digits(1234) == "1234" && Digits(12345) == "12345";
    assert Zeros(3) == "000" && Zeros(1) == "0";
  }

  /** Printed numbers contain nothing but decimal digits. */
  lemma {:induction false} DigitsAreDigits(n: nat, c: char)
    requires c in Digits(n)
    ensures '0' <= c <= '9'
  {
    if n >= 10 && c in Digits(n / 10) { DigitsAreDigits(n / 10, c); }
  }
}
