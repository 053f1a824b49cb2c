/** Endpoint names: a digest of "ip:port". */
module Naming {

  function Digit(d: nat): char
    requires d < 10
  {
    "0123456789"[d]
  }

  /** The decimal digits of `n`. */
  function Digits(n: nat): (s: string)
    ensures |s| > 0
  {
    if n < 10 then [Digit(n)] else Digits(n / 10) + [Digit(n % 10)]
  }

  /** What "%d" prints. */
  function Decimal(n: int): string {
    if n < 0 then "-" + Digits(-n) else Digits(n)
  }

  /** What "%s:%d" prints. */
  function Address(ip: string, port: int): string {
    ip + ":" + Decimal(port)
  }

  lemma {:induction false} DigitsAreDigits(n: nat, i: nat)
    requires i < |Digits(n)|
    ensures '0' <= Digits(n)[i] <= '9'
  {
    if n >= 10 && i < |Digits(n / 10)| {
      DigitsAreDigits(n / 10, i);
    }
  }

  function ValueOf(s: string): int {
    if s == "" then 0 else 10 * ValueOf(s[..|s| - 1]) + (s[|s| - 1] as int - '0' as int)
  }

  /** The digits of `n`, read as a decimal numeral, are `n`; there is no leading zero. */
  lemma {:induction false} DigitsRead(n: nat)
    ensures ValueOf(Digits(n)) == n
    ensures |Digits(n)| > 1 ==> Digits(n)[0] != '0'
  {
    if n < 10 {
      assert Digits(n)[..0] == "";
    } else {
      DigitsRead(n / 10);
      assert Digits(n)[..|Digits(n)| - 1] == Digits(n / 10);
    }
  }

  /** A port prints as its decimal numeral, after a minus sign if it is negative. */
  lemma DecimalMeans(n: int)
    ensures n >= 0 ==> ValueOf(Decimal(n)) == n && forall i :: 0 <= i < |Decimal(n)| ==> '0' <= Decimal(n)[i] <= '9'
    ensures n < 0 ==> Decimal(n) == "-" + Decimal(-n)
    ensures n >= 0 && |Decimal(n)| > 1 ==> Decimal(n)[0] != '0'
  {
    if n >= 0 {
      DigitsRead(n);
      forall i | 0 <= i < |Decimal(n)| ensures '0' <= Decimal(n)[i] <= '9' {
        DigitsAreDigits(n, i);
      }
    }
  }

  lemma DecimalHasNoColon(n: int, i: nat)
    requires i < |Decimal(n)|
    ensures Decimal(n)[i] != ':'
  {
    if n < 0 {
      if i > 0 {
        assert Decimal(n)[i] == Digits(-n)[i - 1];
        DigitsAreDigits(-n, i - 1);
      }
    } else {
      DigitsAreDigits(n, i);
    }
  }

  lemma {:induction false} DigitsInjective(m: nat, n: nat)
    requires Digits(m) == Digits(n)
    ensures m == n
    decreases m
  {
    var a, b := Digits(m), Digits(n);
    assert a[|a| - 1] == b[|b| - 1] && a[..|a| - 1] == b[..|b| - 1];
    if m >= 10 && n >= 10 {
      assert a[..|a| - 1] == Digits(m / 10) && b[..|b| - 1] == Digits(n / 10);
      DigitsInjective(m / 10, n / 10);
    } else {
      assert m >= 10 ==> |a| > 1;
      assert n >= 10 ==> |b| > 1;
    }
  }

  lemma DecimalInjective(m: int, n: int)
    requires Decimal(m) == Decimal(n)
    ensures m == n
  {
    if m < 0 && n < 0 {
      assert Decimal(m)[1..] == Digits(-m) && Decimal(n)[1..] == Digits(-n);
      DigitsInjective(-m, -n);
    } else if m >= 0 && n >= 0 {
      DigitsInjective(m, n);
    } else {
      DigitsAreDigits(if m < 0 then n else m, 0);
    }
  }

  /** The last colon of "ip:port" is the one between them. */
  lemma LastColon(ip: string, port: int, i: nat)
    requires |ip| < i < |Address(ip, port)|
    ensures Address(ip, port)[i] != ':'
  {
    DecimalHasNoColon(port, i - |ip| - 1);
  }

  /** "ip:port" determines the address and the port, colons in the address notwithstanding. */
  lemma AddressInjective(ip1: string, port1: int, ip2: string, port2: int)
    requires Address(ip1, port1) == Address(ip2, port2)
    ensures ip1 == ip2 && port1 == port2
  {
    var a := Address(ip1, port1);
    assert a[|ip1|] == ':' && a[|ip2|] == ':';
    if |ip1| < |ip2| {
      LastColon(ip1, port1, |ip2|);
    } else if |ip2| < |ip1| {
      LastColon(ip2, port2, |ip1|);
    }
    assert ip1 == a[..|ip1|] && ip2 == a[..|ip2|];
    assert Decimal(port1) == a[|ip1| + 1..] && Decimal(port2) == a[|ip2| + 1..];
    DecimalInjective(port1, port2);
  }
}
