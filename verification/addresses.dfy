/**
 * IPv4 socket addresses and the peer identity string "a.b.c.d:port" that keys the
 * session registry (`getPeerIdentifier`, src/server/ConcurrentServer.h and
 * src/server/ServerCommandHandlers.cpp).
 */
module Addresses {

  newtype Octet = x: int | 0 <= x < 256
  newtype Port = x: int | 0 <= x < 65536

  /** An IPv4 address in host byte order and a port. */
  datatype Addr = Addr(a: Octet, b: Octet, c: Octet, d: Octet, port: Port)

  /** The zero-initialised `sockaddr_in{}`. */
  const ZeroAddr := Addr(0, 0, 0, 0, 0)

  predicate IsDigit(ch: char)
  {
    '0' <= ch <= '9'
  }

  function DigitChar(n: nat): char
    requires n < 10
  {
    ('0' as int + n) as char
  }

  /** `std::to_string` of a natural number: decimal, no leading zeros. */
  function Decimal(n: nat): (s: string)
    ensures |s| > 0 && forall i :: 0 <= i < |s| ==> IsDigit(s[i])
  {
    if n < 10 then [DigitChar(n)] else Decimal(n / 10) + [DigitChar(n % 10)]
  }

  /** The value of a string of decimal digits. */
  function DecimalValue(s: string): nat
    requires forall i :: 0 <= i < |s| ==> IsDigit(s[i])
  {
    if s == [] then 0
    else
      assert IsDigit(s[|s| - 1]);
      10 * DecimalValue(s[..|s| - 1]) + (s[|s| - 1] as int - '0' as int)
  }

  /** Reading back a decimal numeral gives the number. */
  lemma {:induction false} DecimalRoundTrip(n: nat)
    ensures DecimalValue(Decimal(n)) == n
  {
    if n >= 10 {
      DecimalRoundTrip(n / 10);
      var s := Decimal(n);
      assert s[..|s| - 1] == Decimal(n / 10);
    }
  }

  /** `getPeerIdentifier`: dotted address (as `inet_ntoa` prints it), a colon, then the decimal port. */
  function Identity(addr: Addr): (r: string)
    ensures var p := Decimal(addr.port as nat); |r| > |p| && r[|r| - |p| - 1] == ':' && r[|r| - |p|..] == p
    ensures var a := Decimal(addr.a as nat); |r| > |a| && r[..|a|] == a && r[|a|] == '.'
  {
    Decimal(addr.a as nat) + "." + (Decimal(addr.b as nat) + "." + (Decimal(addr.c as nat) + "."
      + (Decimal(addr.d as nat) + ":" + Decimal(addr.port as nat))))
  }

  lemma SeparatorAt(d: string, sep: char, r: string, l: string)
    requires l == d + [sep] + r
    ensures l[|d|] == sep
  {
  }

  /** A numeral followed by a separator that is not a digit can be split off uniquely. */
  lemma SplitNumeral(x: nat, y: nat, sep: char, r1: string, r2: string)
    requires !IsDigit(sep)
    requires Decimal(x) + [sep] + r1 == Decimal(y) + [sep] + r2
    ensures x == y && r1 == r2
  {
    var dx, dy := Decimal(x), Decimal(y);
    var l := dx + [sep] + r1;
    if |dx| < |dy| {
      SeparatorAt(dx, sep, r1, l);
      assert false;
    } else if |dy| < |dx| {
      SeparatorAt(dy, sep, r2, l);
      assert false;
    }
    assert dx == l[..|dx|] == dy;
    DecimalRoundTrip(x);
    DecimalRoundTrip(y);
    assert r1 == l[|dx| + 1..] == r2;
  }

  /** Different addresses give different identities, so the registry holds at most one entry per address. */
  lemma IdentityInjective(p: Addr, q: Addr)
    requires Identity(p) == Identity(q)
    ensures p == q
  {
    var p3, q3 := Decimal(p.d as nat) + ":" + Decimal(p.port as nat), Decimal(q.d as nat) + ":" + Decimal(q.port as nat);
    var p2, q2 := Decimal(p.c as nat) + "." + p3, Decimal(q.c as nat) + "." + q3;
    var p1, q1 := Decimal(p.b as nat) + "." + p2, Decimal(q.b as nat) + "." + q2;
    SplitNumeral(p.a as nat, q.a as nat, '.', p1, q1);
    SplitNumeral(p.b as nat, q.b as nat, '.', p2, q2);
    SplitNumeral(p.c as nat, q.c as nat, '.', p3, q3);
    SplitNumeral(p.d as nat, q.d as nat, ':', Decimal(p.port as nat), Decimal(q.port as nat));
    DecimalRoundTrip(p.port as nat);
    DecimalRoundTrip(q.port as nat);
  }
}
