/** Decimal numerals: `u64_to_string` of src/attestation.rs. */
module Decimal {
  import opened Types

  function Digit(d: nat): char
    requires d < 10
  {
    '0' + d as char
  }

  function Value(c: char): nat
    requires '0' <= c <= '9'
  {
    (c - '0') as nat
  }

  predicate Numeric(s: string) {
    forall i :: 0 <= i < |s| ==> '0' <= s[i] <= '9'
  }

  /** No leading zero, except in the numeral of zero itself. */
  predicate Canonical(s: string) {
    Numeric(s) && s != "" && (s[0] == '0' ==> s == "0")
  }

  function Parse(s: string): nat
    requires Numeric(s)
  {
    if s == "" then 0 else Parse(s[..|s| - 1]) * 10 + Value(s[|s| - 1])
  }

  function Numeral(n: nat): string {
    if n < 10 then [Digit(n)] else Numeral(n / 10) + [Digit(n % 10)]
  }

  lemma {:induction false} NumeralRoundTrip(n: nat)
    ensures Canonical(Numeral(n))
    ensures n > 0 ==> Numeral(n)[0] != '0'
    ensures Parse(Numeral(n)) == n
  {
    var s := Numeral(n);
    if n >= 10 {
      NumeralRoundTrip(n / 10);
      assert s[..|s| - 1] == Numeral(n / 10);
    } else {
      assert s[..|s| - 1] == "";
    }
  }

  /** The numeral is the only canonical string with its value. */
  lemma {:induction false} ParseRoundTrip(s: string)
    requires Canonical(s)
    ensures Numeral(Parse(s)) == s
    ensures s != "0" ==> Parse(s) > 0
  {
    var front := s[..|s| - 1];
    if front != "" {
      assert front[0] == s[0];
      ParseRoundTrip(front);
      assert s == front + [s[|s| - 1]];
    }
  }

  function Pow10(n: nat): nat {
    if n == 0 then 1 else 10 * Pow10(n - 1)
  }

  lemma Pow10Twenty()
    ensures Pow10(20) > U64_MAX
  {
    assert Pow10(4) == 10_000;
    assert Pow10(8) == 100_000_000;
    assert Pow10(12) == 1_000_000_000_000;
    assert Pow10(16) == 10_000_000_000_000_000;
    assert Pow10(20) == 100_000_000_000_000_000_000;
  }

  lemma DropDigit(val: nat, pos: nat)
    requires 0 < val < Pow10(pos)
    ensures pos > 0 && val / 10 < Pow10(pos - 1)
  {
  }

  /** The digits still to be written for `val`. */
  ghost function Leading(val: nat): string { if val > 0 then Numeral(val) else "" }

  lemma MoveDigit(val: nat, tail: string)
    requires val > 0
    ensures Leading(val) + tail == Leading(val / 10) + ([Digit(val % 10)] + tail)
  {
    assert Leading(val) == Leading(val / 10) + [Digit(val % 10)];
  }

  /** Fills a 20-byte buffer from the right; `val < 10^pos` keeps the index from underflowing. */
  method Fill(n: nat, buf: array<char>) returns (pos: nat)
    requires 0 < n < Pow10(20) && buf.Length == 20
    modifies buf
    ensures pos <= 20 && buf[pos..] == Numeral(n)
  {
    pos := 20;
    var val: nat := n;
    assert Leading(n) + buf[20..] == Numeral(n);
    while val > 0
      invariant pos <= 20
      invariant val < Pow10(pos)
      invariant Leading(val) + buf[pos..] == Numeral(n)
    {
      ghost var tail := buf[pos..];
      MoveDigit(val, tail);
      DropDigit(val, pos);
      pos := pos - 1;
      buf[pos] := Digit(val % 10);
      assert buf[pos..] == [Digit(val % 10)] + tail;
      val := val / 10;
    }
  }

  method FromU64(n: nat) returns (s: string)
    requires n <= U64_MAX
    ensures s == Numeral(n)
    ensures Canonical(s) && Parse(s) == n && |s| <= 20
  {
    if n == 0 {
      return "0";
    }
    Pow10Twenty();
    var buf := new char[20](_ => '0');
    var pos := Fill(n, buf);
    s := buf[pos..20];
    NumeralRoundTrip(n);
  }
}
