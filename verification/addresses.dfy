/** Optional values, used where the source returns null or undefined, and listings of sets. */
module Wrappers {
  datatype Option<+T> = None | Some(value: T)

  ghost predicate NoDuplicates<T>(s: seq<T>) {
    forall i, j :: 0 <= i < j < |s| ==> s[i] != s[j]
  }

  /** A list without duplicates is as long as the set it lists. */
  lemma {:induction false} ListingLength<T>(s: seq<T>, elements: set<T>)
    requires NoDuplicates(s)
    requires forall x :: x in s <==> x in elements
    ensures |s| == |elements|
  {
    if s == [] {
      assert elements == {};
    } else {
      var n := |s| - 1;
      forall x ensures x in s[..n] <==> x in elements - {s[n]} {
        assert x in s <==> x in s[..n] || x == s[n];
      }
      ListingLength(s[..n], elements - {s[n]});
    }
  }
}

/**
 * Address text as the fleet manager and the bridge handle it: decimal numerals,
 * `subnet + host` addresses, the dotted-quad test and the `DRONE-IP-...` names.
 */
module Addresses {
  const GATEWAY_HOST: nat := 1

  function DigitChar(d: nat): (c: char)
    requires d < 10
    ensures IsDigit(c) && DigitValue(c) == d
  {
    '0' + d as char
  }

  predicate IsDigit(c: char) {
    '0' <= c <= '9'
  }

  function DigitValue(c: char): nat
    requires IsDigit(c)
  {
    c as nat - '0' as nat
  }

  predicate AllDigits(s: string) {
    forall i :: 0 <= i < |s| ==> IsDigit(s[i])
  }

  /** Decimal text of a number, as a template literal or a JSON writer prints it. */
  function Digits(n: nat): (s: string)
    ensures |s| > 0 && AllDigits(s)
  {
    if n < 10 then [DigitChar(n)] else Digits(n / 10) + [DigitChar(n % 10)]
  }

  /** The number a digit string denotes. */
  function NumberOf(s: string): nat
    requires AllDigits(s)
  {
    if s == "" then 0 else 10 * NumberOf(s[..|s| - 1]) + DigitValue(s[|s| - 1])
  }

  /** Reading back a printed number. */
  lemma {:induction false} NumberOfDigits(n: nat)
    ensures NumberOf(Digits(n)) == n
  {
    if n < 10 {
      assert NumberOf([DigitChar(n)][..0]) == 0;
    } else {
      NumberOfDigits(n / 10);
      assert Digits(n)[..|Digits(n)| - 1] == Digits(n / 10);
    }
  }

  /** Address of one host of the pool. */
  function HostIp(subnet: string, host: nat): string {
    subnet + Digits(host)
  }

  lemma HostIpInjective(subnet: string, a: nat, b: nat)
    requires HostIp(subnet, a) == HostIp(subnet, b)
    ensures a == b
  {
    assert Digits(a) == HostIp(subnet, a)[|subnet|..];
    assert Digits(b) == HostIp(subnet, b)[|subnet|..];
    NumberOfDigits(a);
    NumberOfDigits(b);
  }

  /** Pieces of `s` between separators; the text before the first one comes first. */
  function Split(s: string, sep: char): (parts: seq<string>)
    ensures |parts| > 0
  {
    if s == "" then [""]
    else
      var rest := Split(s[1..], sep);
      if s[0] == sep then [""] + rest else WithPrefix(s[0], rest)
  }

  /** Three dots between four groups of one to three digits. */
  predicate IsDottedQuad(ip: string) {
    var parts := Split(ip, '.');
    |parts| == 4 && forall p :: p in parts ==> 1 <= |p| <= 3 && AllDigits(p)
  }

  lemma {:induction false} SplitKeepsCharacters(s: string, sep: char, c: char)
    requires c in s && c != sep
    ensures exists p :: p in Split(s, sep) && c in p
  {
    var rest := Split(s[1..], sep);
    if s[0] == c {
      assert c in Split(s, sep)[0];
    } else {
      SplitKeepsCharacters(s[1..], sep, c);
      var p :| p in rest && c in p;
      if s[0] == sep {
        assert p in Split(s, sep);
      } else if p == rest[0] {
        assert c in Split(s, sep)[0];
      } else {
        assert p in rest[1..];
        assert p in Split(s, sep);
      }
    }
  }

  lemma DottedQuadHasNoDash(ip: string)
    requires IsDottedQuad(ip)
    ensures '-' !in ip
  {
    if '-' in ip {
      SplitKeepsCharacters(ip, '.', '-');
      assert false;
    }
  }

  /** `ip.replace(/\./g, '-')` */
  function Dashed(ip: string): (s: string)
    ensures |s| == |ip|
    ensures forall i :: 0 <= i < |ip| ==> s[i] == if ip[i] == '.' then '-' else ip[i]
  {
    seq(|ip|, i requires 0 <= i < |ip| => if ip[i] == '.' then '-' else ip[i])
  }

  /** Temporary identity of a device known only by its address. */
  function TempDeviceId(ip: string): string {
    "DRONE-IP-" + Dashed(ip)
  }

  lemma TempDeviceIdInjective(a: string, b: string)
    requires '-' !in a && '-' !in b
    requires TempDeviceId(a) == TempDeviceId(b)
    ensures a == b
  {
    assert Dashed(a) == TempDeviceId(a)[9..];
    assert Dashed(b) == TempDeviceId(b)[9..];
    forall i | 0 <= i < |a|
      ensures a[i] == b[i]
    {
      assert a[i] in a && b[i] in b;
      assert Dashed(a)[i] == Dashed(b)[i];
    }
  }

  /** Addresses the startup scan takes into the pool: in the subnet, not the gateway, well formed. */
  predicate InPool(subnet: string, ip: string) {
    subnet <= ip && ip != HostIp(subnet, GATEWAY_HOST) && IsDottedQuad(ip)
  }

  /** A configured prefix such as `10.13.37.`: three groups of digits, each followed by a dot. */
  predicate IsSubnetPrefix(subnet: string) {
    var parts := Split(subnet, '.');
    |parts| == 4 && parts[3] == "" && forall i :: 0 <= i < 3 ==> 1 <= |parts[i]| <= 3 && AllDigits(parts[i])
  }

  lemma {:induction false} SplitDigits(d: string)
    requires AllDigits(d)
    ensures Split(d, '.') == [d]
  {
    if d != "" {
      SplitDigits(d[1..]);
      assert [d[0]] + d[1..] == d;
    }
  }

  /** Pieces with `d` put behind the last one. */
  function WithSuffix(parts: seq<string>, d: string): seq<string>
    requires |parts| > 0
  {
    parts[..|parts| - 1] + [parts[|parts| - 1] + d]
  }

  /** Putting one more character, not a separator, in front changes only the first piece. */
  function WithPrefix(c: char, parts: seq<string>): seq<string>
    requires |parts| > 0
  {
    [[c] + parts[0]] + parts[1..]
  }

  lemma PrefixSuffix(c: char, parts: seq<string>, d: string)
    requires |parts| > 0
    ensures WithSuffix(WithPrefix(c, parts), d) == WithPrefix(c, WithSuffix(parts, d))
    ensures WithSuffix([""] + parts, d) == [""] + WithSuffix(parts, d)
  {
    if |parts| == 1 {
      assert [c] + (parts[0] + d) == [c] + parts[0] + d;
    }
  }

  lemma {:induction false} SplitDigitsSuffix(s: string, d: string)
    requires AllDigits(d)
    ensures Split(s + d, '.') == WithSuffix(Split(s, '.'), d)
  {
    if s == "" {
      SplitDigits(d);
      assert s + d == d && [""][..0] + ["" + d] == [d];
    } else {
      SplitDigitsSuffix(s[1..], d);
      assert (s + d)[1..] == s[1..] + d;
      PrefixSuffix(s[0], Split(s[1..], '.'), d);
    }
  }

  lemma {:induction false} DigitsLength(n: nat)
    requires n < 1000
    ensures |Digits(n)| <= 3
  {
    if n >= 10 {
      var m := n / 10;
      if m >= 10 {
        assert |Digits(m / 10)| == 1;
      }
      assert |Digits(m)| <= 2;
    }
  }

  /** Every host the allocator can hand out is an address the startup scan recognises. */
  lemma HostIpInPool(subnet: string, host: nat)
    requires IsSubnetPrefix(subnet)
    requires 2 <= host <= 254
    ensures InPool(subnet, HostIp(subnet, host))
  {
    SplitDigitsSuffix(subnet, Digits(host));
    DigitsLength(host);
    var parts := Split(subnet, '.');
    assert "" + Digits(host) == Digits(host);
    assert Split(HostIp(subnet, host), '.') == parts[..3] + [Digits(host)];
    if HostIp(subnet, host) == HostIp(subnet, GATEWAY_HOST) {
      HostIpInjective(subnet, host, GATEWAY_HOST);
    }
  }

  // ------------------------------------------------- the texts themselves

  /** One to three digits. */
  predicate IsGroup(g: string) {
    1 <= |g| <= 3 && AllDigits(g)
  }

  /** Pieces with separators between them. */
  function Join(parts: seq<string>, sep: char): string
    requires |parts| > 0
  {
    if |parts| == 1 then parts[0] else parts[0] + [sep] + Join(parts[1..], sep)
  }

  lemma {:induction false} JoinOfSplit(s: string, sep: char)
    ensures Join(Split(s, sep), sep) == s
  {
    if s != "" {
      JoinOfSplit(s[1..], sep);
      JoinOneMore(s[0], Split(s[1..], sep), sep);
      assert [s[0]] + s[1..] == s;
    }
  }

  lemma JoinOneMore(c: char, rest: seq<string>, sep: char)
    requires |rest| > 0
    ensures Join([""] + rest, sep) == [sep] + Join(rest, sep)
    ensures Join(WithPrefix(c, rest), sep) == [c] + Join(rest, sep)
  {
    assert ([""] + rest)[1..] == rest;
    assert WithPrefix(c, rest)[1..] == rest[1..];
    if |rest| > 1 {
      assert [c] + rest[0] + [sep] + Join(rest[1..], sep) == [c] + (rest[0] + [sep] + Join(rest[1..], sep));
    }
  }

  lemma {:induction false} SplitAfterDigits(g: string, rest: string)
    requires AllDigits(g)
    ensures Split(g + "." + rest, '.') == [g] + Split(rest, '.')
  {
    if g == "" {
      var s := g + "." + rest;
      assert s == "." + rest;
      assert s[1..] == rest && s[0] == '.';
    } else {
      SplitAfterDigits(g[1..], rest);
      assert (g + "." + rest)[1..] == g[1..] + "." + rest;
      var parts := [g[1..]] + Split(rest, '.');
      assert parts[1..] == Split(rest, '.') && [g[0]] + parts[0] == g;
      assert WithPrefix(g[0], parts) == [g] + Split(rest, '.');
    }
  }

  /** Four groups of digits with dots between them. */
  ghost predicate IsQuadOf(ip: string, a: string, b: string, c: string, d: string) {
    IsGroup(a) && IsGroup(b) && IsGroup(c) && IsGroup(d) && ip == a + "." + (b + "." + (c + "." + d))
  }

  /** The well-formedness test accepts exactly four groups of one to three digits, separated by dots. */
  lemma QuadIff(ip: string)
    ensures IsDottedQuad(ip) <==> exists a, b, c, d :: IsQuadOf(ip, a, b, c, d)
  {
    if IsDottedQuad(ip) {
      QuadGroups(ip);
    }
    if a, b, c, d :| IsQuadOf(ip, a, b, c, d) {
      QuadParts(ip, a, b, c, d);
    }
  }

  lemma QuadGroups(ip: string)
    requires IsDottedQuad(ip)
    ensures var parts := Split(ip, '.'); IsQuadOf(ip, parts[0], parts[1], parts[2], parts[3])
  {
    JoinOfSplit(ip, '.');
    JoinOfFour(Split(ip, '.'), '.');
  }

  lemma QuadParts(ip: string, a: string, b: string, c: string, d: string)
    requires IsQuadOf(ip, a, b, c, d)
    ensures Split(ip, '.') == [a, b, c, d]
  {
    SplitAfterDigits(a, b + "." + (c + "." + d));
    SplitAfterDigits(b, c + "." + d);
    SplitAfterDigits(c, d);
    SplitDigits(d);
  }

  lemma JoinOfFour(parts: seq<string>, sep: char)
    requires |parts| == 4
    ensures Join(parts, sep) == parts[0] + [sep] + (parts[1] + [sep] + (parts[2] + [sep] + parts[3]))
  {
    var three, two := parts[1..], parts[2..];
    assert three[1..] == two && two[1..] == [parts[3]];
    assert Join(two, sep) == parts[2] + [sep] + parts[3];
  }

  /** A temporary name is the fixed prefix and the address with dashes for dots. */
  lemma TempDeviceIdText(ip: string)
    ensures var id := TempDeviceId(ip);
      && |id| == 9 + |ip| && id[..9] == "DRONE-IP-"
      && forall i :: 0 <= i < |ip| ==> id[9 + i] == if ip[i] == '.' then '-' else ip[i]
  {
  }
}
