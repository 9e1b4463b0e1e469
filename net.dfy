/**
 * IPv4 addresses as the packet decoder hands them over (a 4-byte net.IP),
 * the address-class predicates of Go's net package that IsPublicIP uses,
 * and the dotted-quad text form that net.IP.String produces.
 */
module Net {
  import opened Text

  type Octet = x: int | 0 <= x < 256

  datatype IPv4 = IPv4(a: Octet, b: Octet, c: Octet, d: Octet)
  {
    /** net.IP.IsLoopback: 127.0.0.0/8. */
    predicate IsLoopback()
    {
      a == 127
    }

    /** net.IP.IsLinkLocalUnicast: 169.254.0.0/16. */
    predicate IsLinkLocalUnicast()
    {
      a == 169 && b == 254
    }

    /** net.IP.IsLinkLocalMulticast: 224.0.0.0/24. */
    predicate IsLinkLocalMulticast()
    {
      a == 224 && b == 0 && c == 0
    }

    /**
     * net.IP.IsPrivate: 10/8, 172.16/12 (the second octet's high nibble
     * is 1, written `ip4[1]&0xf0 == 16` in Go) and 192.168/16.
     */
    predicate IsPrivate()
    {
      a == 10 || (a == 172 && b / 16 == 1) || (a == 192 && b == 168)
    }

    /** The address as a 32-bit number in network byte order. */
    function Value(): (v: nat)
      ensures v < 0x1_0000_0000
    {
      a * 0x100_0000 + b * 0x1_0000 + c * 0x100 + d
    }

    /** net.IP.String for a 4-byte address: dotted decimal. */
    function String(): string
    {
      Join([Decimal(a), Decimal(b), Decimal(c), Decimal(d)], '.')
    }
  }

  lemma DigitsLackChar(s: string, ch: char)
    requires forall i :: 0 <= i < |s| ==> IsDigit(s[i])
    requires !IsDigit(ch)
    ensures ch !in s
  {
  }

  /** The text form is never empty and holds only digits and dots. */
  lemma StringShape(ip: IPv4, ch: char)
    requires !IsDigit(ch) && ch != '.'
    ensures ip.String() != ""
    ensures ch !in ip.String()
  {
    var parts := [Decimal(ip.a), Decimal(ip.b), Decimal(ip.c), Decimal(ip.d)];
    forall i | 0 <= i < |parts|
      ensures ch !in parts[i]
    {
      DigitsLackChar(parts[i], ch);
    }
    NotInJoin(parts, '.', ch);
    assert |ip.String()| >= |Decimal(ip.a)|;
  }

  /** Distinct addresses render to distinct strings. */
  lemma StringInjective(x: IPv4, y: IPv4)
    requires x.String() == y.String()
    ensures x == y
  {
    var px := [Decimal(x.a), Decimal(x.b), Decimal(x.c), Decimal(x.d)];
    var py := [Decimal(y.a), Decimal(y.b), Decimal(y.c), Decimal(y.d)];
    forall i | 0 <= i < 4
      ensures '.' !in px[i] && '.' !in py[i]
    {
      DigitsLackChar(px[i], '.');
      DigitsLackChar(py[i], '.');
    }
    SplitJoin(px, '.');
    SplitJoin(py, '.');
    assert px == py;
    DecimalInjective(x.a, y.a);
    DecimalInjective(x.b, y.b);
    DecimalInjective(x.c, y.c);
    DecimalInjective(x.d, y.d);
  }
}
