/** Decimal identifiers of api/internal/hub/hub.go: "evt_7", "dec_12", "part_3". */
module Ids {

  function Digit(d: nat): char
    requires d < 10
  {
    '0' + d as char
  }

  predicate IsDigit(c: char) {
    '0' <= c <= '9'
  }

  /** `%d` as printed. */
  function Decimal(n: nat): (s: string)
    ensures s != ""
  {
    if n < 10 then [Digit(n)] else Decimal(n / 10) + [Digit(n % 10)]
  }

  /** `%d` as scanned: the longest run of leading digits, or 0. */
  function Scan(s: string, acc: nat): nat {
    if s == "" || !IsDigit(s[0]) then acc else Scan(s[1..], acc * 10 + (s[0] - '0') as nat)
  }

  lemma {:induction false} ScanLast(s: string, d: nat, acc: nat)
    requires d < 10 && forall i :: 0 <= i < |s| ==> IsDigit(s[i])
    ensures Scan(s + [Digit(d)], acc) == Scan(s, acc) * 10 + d
  {
    if s == "" {
      assert [Digit(d)][1..] == "";
    } else {
      ScanLast(s[1..], d, acc * 10 + (s[0] - '0') as nat);
      assert (s + [Digit(d)])[1..] == s[1..] + [Digit(d)];
    }
  }

  lemma {:induction false} AllDigits(n: nat)
    ensures forall i :: 0 <= i < |Decimal(n)| ==> IsDigit(Decimal(n)[i])
  {
    if n >= 10 {
      AllDigits(n / 10);
    }
  }

  /** Scanning what was printed gives the number back, so identifiers are injective. */
  lemma {:induction false} ScanDecimal(n: nat)
    ensures Scan(Decimal(n), 0) == n
  {
    if n >= 10 {
      ScanDecimal(n / 10);
      AllDigits(n / 10);
      ScanLast(Decimal(n / 10), n % 10, 0);
    } else {
      ScanLast("", n, 0);
      assert "" + [Digit(n)] == [Digit(n)];
    }
  }

  function EventId(n: nat): (id: string)
    ensures id != ""
  {
    "evt_" + Decimal(n)
  }

  function DecisionId(n: nat): string {
    "dec_" + Decimal(n)
  }

  function PartId(n: nat): (id: string)
    ensures id != ""
  {
    "part_" + Decimal(n)
  }

  /** decCursorOf: the number inside a decision's identifier. */
  function DecisionNumber(id: string): nat {
    if |id| > 4 && id[..4] == "dec_" then Scan(id[4..], 0) else 0
  }

  lemma DecisionNumberOf(n: nat)
    ensures DecisionNumber(DecisionId(n)) == n
  {
    ScanDecimal(n);
    assert DecisionId(n)[..4] == "dec_" && DecisionId(n)[4..] == Decimal(n);
  }

  lemma EventIdInjective(m: nat, n: nat)
    requires EventId(m) == EventId(n)
    ensures m == n
  {
    ScanDecimal(m);
    ScanDecimal(n);
    assert EventId(m)[4..] == Decimal(m) && EventId(n)[4..] == Decimal(n);
  }
}
