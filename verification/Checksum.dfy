/** The unrolled Internet checksum of packet headers, on a little-endian host. */
module Checksum {
  import opened Words

  type Half = h: int | 0 <= h < 0x1_0000

  /** The 16-bit word that begins at an index of a buffer, low octet first. */
  function HalfAt(d: seq<Octet>, i: nat): Half
    requires i + 2 <= |d|
  {
    d[i] as int + 0x100 * d[i + 1] as int
  }

  // ----- The Internet checksum, as section 1 of RFC 1071 defines it -----

  /** One's complement addition: the carry goes round to the low end. */
  function OnesAdd(a: Half, b: Half): Half {
    if a + b > 0xffff then a + b - 0xffff else a + b
  }

  /** The one's complement sum of the 16-bit words of a buffer; a last odd octet is padded with zero. */
  function OnesSum(s: seq<Octet>): Half {
    if s == [] then 0
    else if |s| == 1 then s[0]
    else OnesAdd(HalfAt(s, 0), OnesSum(s[2..]))
  }

  function InternetChecksum(s: seq<Octet>): Half { 0xffff - OnesSum(s) }

  /** The plain sum of the same words. */
  function Total(s: seq<Octet>): nat {
    if s == [] then 0
    else if |s| == 1 then s[0]
    else HalfAt(s, 0) + Total(s[2..])
  }

  /** What folding the carries of a sum into its low 16 bits leads to: its residue, with 0xffff for a multiple. */
  function Folded(n: nat): Half {
    if n == 0 then 0 else 1 + (n - 1) % 0xffff
  }

  lemma FoldedAdd(a: Half, n: nat)
    ensures Folded(a + n) == OnesAdd(a, Folded(n))
  {
    if n > 0 {
      var q := (n - 1) / 0xffff;
      var r := (n - 1) % 0xffff;
      assert n - 1 == q * 0xffff + r;
      ResidueIs(a + n - 1, if a + r < 0xffff then q else if a + r < 2 * 0xffff then q + 1 else q + 2);
    }
  }

  lemma ResidueIs(n: nat, q: nat)
    requires 0 <= n - q * 0xffff < 0xffff
    ensures n % 0xffff == n - q * 0xffff
  {
  }

  /** One's complement addition word by word is plain addition with the carries folded at the end. */
  lemma {:induction false} OnesSumIsFolded(s: seq<Octet>)
    ensures OnesSum(s) == Folded(Total(s))
  {
    if |s| >= 2 {
      OnesSumIsFolded(s[2..]);
      FoldedAdd(HalfAt(s, 0), Total(s[2..]));
    }
  }

  /** 65537 words cannot carry out of 32 bits. */
  const MAX_OCTETS: nat := 131074

  lemma {:induction false} TotalBound(s: seq<Octet>)
    ensures Total(s) <= 0xffff * ((|s| + 1) / 2)
    ensures |s| <= MAX_OCTETS ==> Total(s) < TWO_TO_THE_32
  {
    if |s| >= 2 {
      TotalBound(s[2..]);
    }
  }

  lemma {:induction false} TotalConcat(h: seq<Octet>, d: seq<Octet>)
    requires |h| % 2 == 0
    ensures Total(h + d) == Total(h) + Total(d)
  {
    if h == [] {
      assert h + d == d;
    } else {
      assert (h + d)[2..] == h[2..] + d;
      TotalConcat(h[2..], d);
    }
  }

  lemma TotalStep(d: seq<Octet>, i: nat)
    requires i + 2 <= |d|
    ensures Total(d[i..]) == HalfAt(d, i) + Total(d[i + 2..])
  {
    assert d[i..][2..] == d[i + 2..];
  }

  // ----- The code -----

  /** Four unrolled additions. */
  method AddFour(d: seq<Octet>, i: nat, cksum: Word) returns (c: Word)
    requires i + 8 <= |d| && cksum + Total(d[i..]) < TWO_TO_THE_32
    ensures c + Total(d[i + 8..]) == cksum + Total(d[i..])
  {
    TotalStep(d, i);
    TotalStep(d, i + 2);
    TotalStep(d, i + 4);
    TotalStep(d, i + 6);
    hide Total;
    c := Wrap(cksum + HalfAt(d, i));
    c := Wrap(c + HalfAt(d, i + 2));
    c := Wrap(c + HalfAt(d, i + 4));
    c := Wrap(c + HalfAt(d, i + 6));
  }

  method AddTwo(d: seq<Octet>, i: nat, cksum: Word) returns (c: Word)
    requires i + 4 <= |d| && cksum + Total(d[i..]) < TWO_TO_THE_32
    ensures c + Total(d[i + 4..]) == cksum + Total(d[i..])
  {
    TotalStep(d, i);
    TotalStep(d, i + 2);
    hide Total;
    c := Wrap(cksum + HalfAt(d, i));
    c := Wrap(c + HalfAt(d, i + 2));
  }

  /** Ten unrolled additions: the fixed part of an IP or a TCP header. */
  method AddTen(d: seq<Octet>, i: nat, cksum: Word) returns (c: Word)
    requires i + 20 <= |d| && cksum + Total(d[i..]) < TWO_TO_THE_32
    ensures c + Total(d[i + 20..]) == cksum + Total(d[i..])
  {
    hide Total;
    c := AddFour(d, i, cksum);
    c := AddFour(d, i + 8, c);
    c := AddTwo(d, i + 16, c);
  }

  method AddSixteen(d: seq<Octet>, i: nat, cksum: Word) returns (c: Word)
    requires i + 32 <= |d| && cksum + Total(d[i..]) < TWO_TO_THE_32
    ensures c + Total(d[i + 32..]) == cksum + Total(d[i..])
  {
    hide Total;
    c := AddFour(d, i, cksum);
    c := AddFour(d, i + 8, c);
    c := AddFour(d, i + 16, c);
    c := AddFour(d, i + 24, c);
  }

  /** The six words of an IPv4 pseudo-header. */
  method AddPseudo(h: seq<Octet>) returns (c: Word)
    requires |h| == 12
    ensures c == Total(h)
  {
    TotalBound(h);
    assert h[0..] == h && h[12..] == [];
    c := AddFour(h, 0, 0);
    c := AddTwo(h, 8, c);
  }

  /** The eighteen words of an IPv6 pseudo-header. */
  method AddPseudo6(h: seq<Octet>) returns (c: Word)
    requires |h| == 36
    ensures c == Total(h)
  {
    TotalBound(h);
    assert h[0..] == h && h[36..] == [];
    c := AddSixteen(h, 0, 0);
    c := AddTwo(h, 32, c);
  }

  /** The three loops over what follows the fixed headers, and the odd octet. */
  method AddRest(d: seq<Octet>, at: nat, cksum: Word) returns (c: Word)
    requires at <= |d| && cksum + Total(d[at..]) < TWO_TO_THE_32
    ensures c == cksum + Total(d[at..])
  {
    hide Total;
    var i, dlen := at, |d| - at;
    c := cksum;
    while dlen >= 32
      invariant i <= |d| && dlen == |d| - i
      invariant c + Total(d[i..]) == cksum + Total(d[at..])
    {
      c := AddSixteen(d, i, c);
      i, dlen := i + 32, dlen - 32;
    }
    while dlen >= 8
      invariant i <= |d| && dlen == |d| - i
      invariant c + Total(d[i..]) == cksum + Total(d[at..])
    {
      c := AddFour(d, i, c);
      i, dlen := i + 8, dlen - 8;
    }
    while dlen > 1
      invariant i <= |d| && dlen == |d| - i
      invariant c + Total(d[i..]) == cksum + Total(d[at..])
    {
      TotalStep(d, i);
      c := Wrap(c + HalfAt(d, i));
      i, dlen := i + 2, dlen - 2;
    }
    LastTotal(d, i);
    if dlen == 1 {
      c := Wrap(c + d[i]);
    }
  }

  lemma LastTotal(d: seq<Octet>, i: nat)
    requires i <= |d| <= i + 1
    ensures Total(d[i..]) == if i < |d| then d[i] else 0
  {
  }

  /** The two folding steps and the complement. */
  method Finish(cksum: Word) returns (r: Half)
    ensures r == 0xffff - Folded(cksum)
  {
    var c: Word := cksum / 0x1_0000 + cksum % 0x1_0000;
    TwoFolds(cksum);
    c := Wrap(c + c / 0x1_0000);
    r := (TWO_TO_THE_32 - 1 - c) % 0x1_0000;
  }

  /** After two folding steps the low 16 bits are the folded sum, for every 32-bit sum. */
  lemma TwoFolds(n: Word)
    ensures var c := n / 0x1_0000 + n % 0x1_0000; (c + c / 0x1_0000) % 0x1_0000 == Folded(n)
    ensures var c := n / 0x1_0000 + n % 0x1_0000;
      (TWO_TO_THE_32 - 1 - Wrap(c + c / 0x1_0000)) % 0x1_0000 == 0xffff - Folded(n)
  {
    var hi, lo := n / 0x1_0000, n % 0x1_0000;
    var c := hi + lo;
    if 0 < c {
      var q := if c <= 0xffff then hi else if c <= 2 * 0xffff then hi + 1 else hi + 2;
      assert n == hi * 0x1_0000 + lo == hi * 0xffff + c;
      ResidueIs(n - 1, q);
    }
  }

  lemma ChecksumOf(h: seq<Octet>, d: seq<Octet>)
    requires |h| % 2 == 0 && |h| + |d| <= MAX_OCTETS
    ensures Total(h) + Total(d) < TWO_TO_THE_32
    ensures InternetChecksum(h + d) == 0xffff - Folded(Total(h) + Total(d))
    ensures d[0..] == d
  {
    TotalBound(h + d);
    TotalConcat(h, d);
    OnesSumIsFolded(h + d);
  }

  lemma ChecksumOfOne(d: seq<Octet>)
    requires |d| <= MAX_OCTETS
    ensures Total(d) < TWO_TO_THE_32
    ensures InternetChecksum(d) == 0xffff - Folded(Total(d))
    ensures d[0..] == d
  {
    TotalBound(d);
    OnesSumIsFolded(d);
  }

  /** in_chksum_ip: a header of at least twenty octets, in units of four. */
  method InChksumIp(w: seq<Octet>) returns (r: Half)
    requires 20 <= |w| <= MAX_OCTETS && |w| % 4 == 0
    ensures r == InternetChecksum(w)
  {
    hide Total, Folded, InternetChecksum;
    ChecksumOfOne(w);
    var cksum: Word := AddTen(w, 0, 0);
    var i, blen := 20, |w| - 20;
    while blen != 0
      invariant i <= |w| && blen == |w| - i && blen % 4 == 0
      invariant cksum + Total(w[i..]) == Total(w)
    {
      cksum := AddTwo(w, i, cksum);
      i, blen := i + 4, blen - 4;
    }
    LastTotal(w, i);
    r := Finish(cksum);
  }

  /** in_chksum_tcp: a pseudo-header, and a segment with a header of at least twenty octets. */
  method InChksumTcp(ph: seq<Octet>, d: seq<Octet>) returns (r: Half)
    requires |ph| == 12 && 20 <= |d| && |ph| + |d| <= MAX_OCTETS
    ensures r == InternetChecksum(ph + d)
  {
    ChecksumOf(ph, d);
    var cksum := AddPseudo(ph);
    cksum := AddTen(d, 0, cksum);
    cksum := AddRest(d, 20, cksum);
    r := Finish(cksum);
  }

  /** in_chksum_tcp6. */
  method InChksumTcp6(ph: seq<Octet>, d: seq<Octet>) returns (r: Half)
    requires |ph| == 36 && 20 <= |d| && |ph| + |d| <= MAX_OCTETS
    ensures r == InternetChecksum(ph + d)
  {
    ChecksumOf(ph, d);
    var cksum := AddPseudo6(ph);
    cksum := AddTen(d, 0, cksum);
    cksum := AddRest(d, 20, cksum);
    r := Finish(cksum);
  }

  /** in_chksum_udp: a pseudo-header, and a datagram with its header of eight octets. */
  method InChksumUdp(ph: seq<Octet>, d: seq<Octet>) returns (r: Half)
    requires |ph| == 12 && 8 <= |d| && |ph| + |d| <= MAX_OCTETS
    ensures r == InternetChecksum(ph + d)
  {
    ChecksumOf(ph, d);
    var cksum := AddPseudo(ph);
    cksum := AddFour(d, 0, cksum);
    cksum := AddRest(d, 8, cksum);
    r := Finish(cksum);
  }

  /** in_chksum_udp6. */
  method InChksumUdp6(ph: seq<Octet>, d: seq<Octet>) returns (r: Half)
    requires |ph| == 36 && 8 <= |d| && |ph| + |d| <= MAX_OCTETS
    ensures r == InternetChecksum(ph + d)
  {
    ChecksumOf(ph, d);
    var cksum := AddPseudo6(ph);
    cksum := AddFour(d, 0, cksum);
    cksum := AddRest(d, 8, cksum);
    r := Finish(cksum);
  }

  /** in_chksum_icmp: no pseudo-header, and nothing is asked of the length. */
  method InChksumIcmp(w: seq<Octet>) returns (r: Half)
    requires |w| <= MAX_OCTETS
    ensures r == InternetChecksum(w)
  {
    ChecksumOfOne(w);
    var cksum := AddRest(w, 0, 0);
    r := Finish(cksum);
  }

  /** in_chksum_icmp6. */
  method InChksumIcmp6(ph: seq<Octet>, w: seq<Octet>) returns (r: Half)
    requires |ph| == 36 && |ph| + |w| <= MAX_OCTETS
    ensures r == InternetChecksum(ph + w)
  {
    ChecksumOf(ph, w);
    var cksum := AddPseudo6(ph);
    cksum := AddRest(w, 0, cksum);
    r := Finish(cksum);
  }

  /** ones_compl_checksum: word by word, and carries folded until there are none. */
  method OnesComplChecksum(buf: seq<Octet>) returns (r: Half)
    requires 0 < |buf| <= MAX_OCTETS
    ensures r == InternetChecksum(buf)
  {
    hide Total, Folded, InternetChecksum;
    ChecksumOfOne(buf);
    var sum: Word := 0;
    var i := 0;
    while i < |buf| - 1
      invariant i <= |buf| && i % 2 == 0
      invariant sum + Total(buf[i..]) == Total(buf)
    {
      TotalStep(buf, i);
      sum := Wrap(sum + HalfAt(buf, i));
      i := i + 2;
    }
    LastTotal(buf, i);
    if |buf| % 2 == 1 {
      sum := Wrap(sum + buf[i]);
    }
    r := FoldAll(sum);
  }

  method FoldAll(n: Word) returns (r: Half)
    ensures r == 0xffff - Folded(n)
  {
    var sum := n;
    while sum / 0x1_0000 != 0
      invariant Folded(sum) == Folded(n)
      decreases sum
    {
      FoldKeeps(sum);
      sum := sum % 0x1_0000 + sum / 0x1_0000;
    }
    r := (TWO_TO_THE_32 - 1 - sum) % 0x1_0000;
  }

  lemma FoldKeeps(n: Word)
    requires n / 0x1_0000 != 0
    ensures var m := n % 0x1_0000 + n / 0x1_0000; m < n && Folded(m) == Folded(n)
  {
    var hi, lo := n / 0x1_0000, n % 0x1_0000;
    var m := lo + hi;
    var q := (m - 1) / 0xffff;
    assert n == hi * 0xffff + m;
    ResidueIs(n - 1, q + hi);
  }

  // ----- What the checksum is for -----

  /** A buffer with a word written at an index. */
  function Filled(s: seq<Octet>, k: nat, c: Half): seq<Octet>
    requires k + 2 <= |s|
  {
    s[k := c % 0x100][k + 1 := c / 0x100]
  }

  lemma {:induction false} TotalFilled(s: seq<Octet>, k: nat, c: Half)
    requires k % 2 == 0 && k + 2 <= |s| && HalfAt(s, k) == 0
    ensures Total(Filled(s, k, c)) == Total(s) + c
  {
    var t := Filled(s, k, c);
    if k == 0 {
      assert t[2..] == s[2..];
    } else {
      assert t[2..] == Filled(s[2..], k - 2, c);
      TotalFilled(s[2..], k - 2, c);
    }
  }

  /**
   * A zeroed field at an even place verifies, that is, the checksum over everything becomes zero, exactly
   * when it is filled with the checksum; if that is zero, all ones do as well.
   */
  lemma FieldVerifies(s: seq<Octet>, k: nat, c: Half)
    requires k % 2 == 0 && k + 2 <= |s| && HalfAt(s, k) == 0
    ensures InternetChecksum(Filled(s, k, c)) == 0 <==>
      c == InternetChecksum(s) || (c == 0xffff && InternetChecksum(s) == 0)
  {
    TotalFilled(s, k, c);
    OnesSumIsFolded(s);
    OnesSumIsFolded(Filled(s, k, c));
    FoldedAdd(c, Total(s));
  }

  function Swap(h: Half): Half { h / 0x100 + 0x100 * (h % 0x100) }

  /** The checksum of the words of a buffer in network order, high octet first. */
  function NetworkSum(s: seq<Octet>): Half {
    if s == [] then 0
    else if |s| == 1 then 0x100 * s[0]
    else OnesAdd(Swap(HalfAt(s, 0)), NetworkSum(s[2..]))
  }

  lemma SwapAdd(a: Half, b: Half)
    ensures Swap(OnesAdd(a, b)) == OnesAdd(Swap(a), Swap(b))
  {
    var ah, al, bh, bl := a / 0x100, a % 0x100, b / 0x100, b % 0x100;
    assert a == 0x100 * ah + al && b == 0x100 * bh + bl;
    var s := OnesAdd(a, b);
    var carry := if al + bl + (if a + b > 0xffff then 1 else 0) >= 0x100 then 1 else 0;
    var low := al + bl + (if a + b > 0xffff then 1 else 0) - 0x100 * carry;
    var high := ah + bh + carry - (if a + b > 0xffff then 0x100 else 0);
    assert s == 0x100 * high + low;
    assert 0 <= low < 0x100 && 0 <= high < 0x100;
    assert s / 0x100 == high && s % 0x100 == low;
  }

  /** Byte order independence: stored back in host order, the checksum is the one of network order. */
  lemma {:induction false} NetworkOrder(s: seq<Octet>)
    ensures Swap(InternetChecksum(s)) == 0xffff - NetworkSum(s)
  {
    SwapSum(s);
    var x := OnesSum(s);
    assert (0xffff - x) / 0x100 == 0xff - x / 0x100 && (0xffff - x) % 0x100 == 0xff - x % 0x100;
  }

  lemma {:induction false} SwapSum(s: seq<Octet>)
    ensures Swap(OnesSum(s)) == NetworkSum(s)
  {
    if |s| >= 2 {
      SwapSum(s[2..]);
      SwapAdd(HalfAt(s, 0), OnesSum(s[2..]));
    }
  }
}
