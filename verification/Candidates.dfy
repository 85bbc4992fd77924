/** Which addresses of a network may be reserved for machines: its DHCP range, or the top of its subnet. */
module Candidates {
  import opened Base
  import opened IPv4

  /** machineReservationBlockSize */
  const BLOCK_SIZE: nat := 200

  /** The numbers from lo to hi, ascending. */
  function Interval(lo: nat, hi: int): (r: seq<uint32>)
    requires hi <= MAX_UINT32
    ensures |r| == if hi < lo then 0 else hi - lo + 1
    ensures forall i :: 0 <= i < |r| ==> r[i] == lo + i
  {
    seq(if hi < lo then 0 else hi - lo + 1, i => lo + i)
  }

  predicate Ascending(s: seq<uint32>) {
    forall i, j :: 0 <= i < j < |s| ==> s[i] < s[j]
  }

  lemma IntervalMembers(lo: nat, hi: int, x: int)
    requires hi <= MAX_UINT32
    ensures x in Interval(lo, hi) <==> lo <= x <= hi
  {
    if lo <= x <= hi {
      assert Interval(lo, hi)[x - lo] == x;
    }
  }

  // ---- the DHCP range ----

  /** The uint32 loop counter of the range loop after k rounds: it wraps. */
  function Counter(start: uint32, k: nat): uint32 {
    Wrap(start + k)
  }

  /** The loop `for i := start; i <= end; i++` ever leaves its range exactly when end is below the largest uint32. */
  lemma RangeLoopExits(start: uint32, end: uint32)
    ensures (exists k: nat :: Counter(start, k) > end) <==> end < MAX_UINT32
  {
    if end < MAX_UINT32 {
      assert Counter(start, MAX_UINT32 - start) > end;
    }
  }

  method RangeCandidates(start: uint32, end: uint32) returns (r: Option<seq<uint32>>)
    requires end < start || end < MAX_UINT32  // otherwise the Go code does not return, see RangeLoopExits
    ensures r.None? <==> end < start
    ensures r.Some? ==> r.value == Interval(start, end)
  {
    if end < start {
      return None;
    }
    var block: seq<uint32> := [];
    var i := start;
    while i <= end
      invariant start <= i <= end + 1
      invariant block == Interval(start, i - 1)
      decreases end + 1 - i
    {
      block := block + [i];
      i := Wrap(i + 1);
    }
    return Some(block);
  }

  // ---- masks ----

  /** Bitwise AND. */
  function And(a: nat, b: nat): (r: nat)
    ensures r <= a && r <= b
  {
    if a == 0 || b == 0 then 0
    else 2 * And(a / 2, b / 2) + (if a % 2 == 1 && b % 2 == 1 then 1 else 0)
  }

  function Pow2(k: nat): (r: nat)
    ensures 0 < r
  {
    if k == 0 then 1 else 2 * Pow2(k - 1)
  }

  lemma {:induction false} Pow2Grows(i: nat, k: nat)
    requires i <= k
    ensures Pow2(i) <= Pow2(k)
    decreases k
  {
    if i < k { Pow2Grows(i, k - 1); }
  }

  lemma Pow2Is32()
    ensures Pow2(32) == TWO_32
  {
    assert Pow2(8) == 0x100;
    assert Pow2(16) == 0x1_0000;
    assert Pow2(24) == 0x100_0000;
  }

  lemma {:induction false} MulGrows(d: nat, a: nat, b: nat)
    requires a < b
    ensures d * a + d <= d * b
    decreases b
  {
    if a + 1 < b { MulGrows(d, a, b - 1); }
    assert d * b == d * (b - 1) + d;
  }

  lemma ModUnique(x: nat, d: nat, q: nat, r: nat)
    requires 0 < d && x == d * q + r && r < d
    ensures x % d == r
  {
    var q' := x / d;
    assert x == d * q' + x % d;
    if q < q' { MulGrows(d, q, q'); }
    if q' < q { MulGrows(d, q', q); }
  }

  lemma ModHalves(a: nat, p: nat)
    requires 0 < p
    ensures a % (2 * p) == 2 * (a / 2 % p) + a % 2
  {
    var q, r := a / 2 / p, a / 2 % p;
    assert a / 2 == p * q + r;
    assert 2 * (p * q) == (2 * p) * q;
    ModUnique(a, 2 * p, q, 2 * r + a % 2);
  }

  /** The number the lowest k bits make. */
  function LowBits(a: nat, k: nat): nat {
    if k == 0 then 0 else 2 * LowBits(a / 2, k - 1) + a % 2
  }

  lemma {:induction false} LowBitsIsMod(a: nat, k: nat)
    ensures LowBits(a, k) == a % Pow2(k)
  {
    if k != 0 {
      LowBitsIsMod(a / 2, k - 1);
      ModHalves(a, Pow2(k - 1));
    }
  }

  lemma {:induction false} AndClears(a: nat, w: nat, k: nat)
    requires k <= w && a < Pow2(w)
    ensures Pow2(k) <= Pow2(w) && And(a, Pow2(w) - Pow2(k)) == a - LowBits(a, k)
    decreases w
  {
    Pow2Grows(k, w);
    if w != 0 {
      var k' := if k == 0 then 0 else k - 1;
      AndClears(a / 2, w - 1, k');
      AndStep(a, Pow2(w - 1) - Pow2(k'), if k == 0 then 1 else 0);
    }
  }

  /** A contiguous mask with k zero bits at the bottom clears exactly the low k bits. */
  lemma AndContiguous(a: nat, w: nat, k: nat)
    requires k <= w && a < Pow2(w)
    ensures Pow2(k) <= Pow2(w) && And(a, Pow2(w) - Pow2(k)) == a - a % Pow2(k)
  {
    AndClears(a, w, k);
    LowBitsIsMod(a, k);
  }

  lemma AndStep(a: nat, m: nat, bit: nat)
    requires bit <= 1
    ensures And(a, 2 * m + bit) == 2 * And(a / 2, m) + (if a % 2 == 1 then bit else 0)
  {
  }

  // ---- the top of the subnet ----

  /** A subnet as net.IPNet holds it. */
  datatype Subnet = Subnet(network: uint32, mask: uint32) {
    function HostMask(): uint32 { MAX_UINT32 - mask }
    /** The IP of the subnet is masked, as every subnet built by parseSubnet is. */
    predicate Masked() { network + HostMask() <= MAX_UINT32 }
  }

  function SubnetOf(addr: uint32, mask: uint32): (s: Subnet)
    ensures s.Masked()
  {
    Subnet(And(addr, mask), mask)
  }

  function ParseSubnet(address: string, netmask: string): (r: Option<Subnet>)
    ensures r.Some? ==> r.value.Masked()
  {
    var a, m := ParseIPv4(address), ParseIPv4(netmask);
    if a.None? || m.None? then None
    else
      Some(SubnetOf(a.value, m.value))
  }

  /** The highest `size` numbers strictly between the lowest and the highest of the subnet; nothing when there are none. */
  function Tail(s: Subnet, size: nat): Option<seq<uint32>>
    requires s.Masked()
  {
    if s.mask == 0 || s.HostMask() <= 1 then None
    else
      var last := s.network + s.HostMask() - 1;
      Some(Interval(last + 1 - Min(size, s.HostMask() - 1), last))
  }

  /** The uint32 computation of the Go code, with every operation wrapping as it does there. */
  method SubnetTailCandidates(s: Subnet, size: nat) returns (r: Option<seq<uint32>>)
    requires s.Masked()
    ensures r == Tail(s, size)
  {
    var hostMask := MAX_UINT32 - s.mask;
    var hostCount := Wrap(hostMask + 1);
    if hostCount <= 2 {
      return None;
    }
    var usableCount := hostCount - 2;
    var n := Min(size, usableCount);
    var lastHost := Wrap(s.network + usableCount);
    var first := Wrap(lastHost - (n - 1));
    var block: seq<uint32> := [];
    var i := first;
    while i <= lastHost
      invariant first <= i <= lastHost + 1
      invariant block == Interval(first, i - 1)
      decreases lastHost + 1 - i
    {
      block := block + [i];
      i := Wrap(i + 1);
    }
    return Some(block);
  }

  function MaskOf(ones: nat): uint32
    requires ones <= 32
  {
    Pow2Grows(32 - ones, 32);
    Pow2Is32();
    TWO_32 - Pow2(32 - ones)
  }

  /**
   For a prefix of /1 to /30 the subnet's addresses are the 2^(32-ones) numbers from its network
   address, and the block is exactly the min(size, usable) highest ones strictly between the
   network and the broadcast address.
   */
  lemma TailOfPrefix(addr: uint32, ones: nat, size: nat, x: int)
    requires 1 <= ones <= 30
    ensures var hosts, s := Pow2(32 - ones), SubnetOf(addr, MaskOf(ones));
            var broadcast := s.network + hosts - 1;
            && s.network == addr - addr % hosts && s.network <= addr <= broadcast <= MAX_UINT32
            && Tail(s, size).Some?
            && var block := Tail(s, size).value;
               && Ascending(block)
               && |block| == Min(size, hosts - 2)
               && (x in block <==> s.network < x < broadcast && broadcast - Min(size, hosts - 2) <= x)
  {
    var hosts, s := Pow2(32 - ones), SubnetOf(addr, MaskOf(ones));
    HostCount(ones);
    SubnetOfPrefix(addr, ones);
    var last := s.network + hosts - 2;
    IntervalMembers(last + 1 - Min(size, hosts - 2), last, x);
  }

  lemma HostCount(ones: nat)
    requires 1 <= ones <= 30
    ensures 4 <= Pow2(32 - ones) < TWO_32
  {
    Pow2Is32();
    Pow2Grows(2, 32 - ones);
    Pow2Grows(32 - ones, 31);
  }

  lemma SubnetOfPrefix(addr: uint32, ones: nat)
    requires ones <= 32
    ensures var hosts, mask := Pow2(32 - ones), MaskOf(ones);
            And(addr, mask) == addr - addr % hosts && addr % hosts < hosts && And(addr, mask) + hosts <= TWO_32
  {
    Pow2Is32();
    AndContiguous(addr, 32, 32 - ones);
  }

  /** The first usable host of a CIDR block; a prefix longer than /30 has none. */
  function FirstHost(addr: uint32, ones: nat): Option<uint32>
    requires ones <= 32
  {
    if ones > 30 then None
    else
      var first := Wrap(And(addr, MaskOf(ones)) + 1);
      if first == 0 then None else Some(first)
  }

  /** FirstHostAndPrefix on a parsed CIDR. */
  function FirstHostAndPrefix(addr: uint32, ones: nat): Option<(string, nat)>
    requires ones <= 32
  {
    var first := FirstHost(addr, ones);
    if first.None? then None else Some((FormatIPv4(first.value), ones))
  }

  /** Exactly the prefixes up to /30 have a first host: the address behind the network address. */
  lemma FirstHostIff(addr: uint32, ones: nat)
    requires ones <= 32
    ensures FirstHost(addr, ones) == if 30 < ones then None else Some(addr - addr % Pow2(32 - ones) + 1)
  {
    if ones <= 30 {
      SubnetOfPrefix(addr, ones);
      Pow2Grows(2, 32 - ones);
      assert Pow2(2) == 4;
    }
  }

  lemma FirstHostIsNext(addr: uint32, ones: nat)
    requires 1 <= ones <= 30
    ensures SubnetOf(addr, MaskOf(ones)).network < MAX_UINT32
    ensures FirstHost(addr, ones) == Some(SubnetOf(addr, MaskOf(ones)).network + 1)
  {
    HostCount(ones);
    SubnetOfPrefix(addr, ones);
  }

  lemma TailLowest(s: Subnet)
    requires s.Masked() && s.mask != 0 && 3 <= s.HostMask()
    ensures Tail(s, BLOCK_SIZE).Some? && Tail(s, BLOCK_SIZE).value != []
    ensures Tail(s, BLOCK_SIZE).value[0] == s.network + 1 <==> s.HostMask() - 1 <= BLOCK_SIZE
  {
  }

  /** The block starts at the first usable host exactly when the whole subnet fits into it. */
  lemma TailStartsAtFirstHost(addr: uint32, ones: nat)
    requires 1 <= ones <= 30
    ensures var block, first := Tail(SubnetOf(addr, MaskOf(ones)), BLOCK_SIZE), FirstHostAndPrefix(addr, ones);
            && block.Some? && block.value != [] && first.Some? && first.value.1 == ones
            && (FormatIPv4(block.value[0]) == first.value.0 <==> Pow2(32 - ones) - 2 <= BLOCK_SIZE)
  {
    var s := SubnetOf(addr, MaskOf(ones));
    HostCount(ones);
    TailLowest(s);
    FirstHostIsNext(addr, ones);
    FormatsAgree(Tail(s, BLOCK_SIZE).value[0], s.network + 1);
  }

  lemma FormatsAgree(m: uint32, n: uint32)
    ensures FormatIPv4(m) == FormatIPv4(n) <==> m == n
  {
    if FormatIPv4(m) == FormatIPv4(n) { FormatInjective(m, n); }
  }

  // ---- choosing between the two ----

  datatype DhcpRange = DhcpRange(start: string, end: string)

  /** An <ip> element of the network; `ranges` is None when it has no DHCP section. */
  datatype NetworkIP = NetworkIP(family: string, address: string, netmask: string, ranges: Option<seq<DhcpRange>>)

  function FirstInet(ips: seq<NetworkIP>): Option<NetworkIP> {
    if ips == [] then None
    else if ips[0].family == "inet" then Some(ips[0])
    else FirstInet(ips[1..])
  }

  /** The first range whose two ends both parse. */
  function FirstDhcpRange(ranges: seq<DhcpRange>): Option<(uint32, uint32)> {
    if ranges == [] then None
    else
      var s, e := ParseIPv4(ranges[0].start), ParseIPv4(ranges[0].end);
      if s.Some? && e.Some? then Some((s.value, e.value)) else FirstDhcpRange(ranges[1..])
  }

  /** The range that decides the block, when there is one. */
  function DecidingRange(ips: seq<NetworkIP>): Option<(uint32, uint32)> {
    var ip := FirstInet(ips);
    if ip.None? || ip.value.ranges.None? then None else FirstDhcpRange(ip.value.ranges.value)
  }

  /** None stands for every error return of the Go code. */
  function CandidatesOf(ips: seq<NetworkIP>): Option<seq<uint32>> {
    var ip := FirstInet(ips);
    if ip.None? then None
    else
      var subnet := ParseSubnet(ip.value.address, ip.value.netmask);
      if subnet.None? then None
      else
        match DecidingRange(ips)
        case Some((start, end)) => if end < start then None else Some(Interval(start, end))
        case None => Tail(subnet.value, BLOCK_SIZE)
  }

  method AllocationCandidates(ips: seq<NetworkIP>) returns (r: Option<seq<uint32>>)
    requires var g := DecidingRange(ips); g.Some? ==> g.value.1 < g.value.0 || g.value.1 < MAX_UINT32
    ensures r == CandidatesOf(ips)
  {
    var ip := FirstInet(ips);
    if ip.None? {
      return None;
    }
    var subnet := ParseSubnet(ip.value.address, ip.value.netmask);
    if subnet.None? {
      return None;
    }
    if ip.value.ranges.Some? {
      var g := FirstDhcpRange(ip.value.ranges.value);
      if g.Some? {
        r := RangeCandidates(g.value.0, g.value.1);
        return;
      }
    }
    r := SubnetTailCandidates(subnet.value, BLOCK_SIZE);
  }

  /** Whatever the network, the candidates are never empty and never repeat. */
  lemma CandidatesAscend(ips: seq<NetworkIP>)
    requires CandidatesOf(ips).Some?
    ensures CandidatesOf(ips).value != [] && Ascending(CandidatesOf(ips).value)
  {
  }

  // ---- which element decides ----

  lemma {:induction false} FirstInetAt(ips: seq<NetworkIP>, i: nat)
    requires i < |ips| && ips[i].family == "inet" && forall j :: 0 <= j < i ==> ips[j].family != "inet"
    ensures FirstInet(ips) == Some(ips[i])
  {
    if i != 0 { FirstInetAt(ips[1..], i - 1); }
  }

  lemma {:induction false} NoInet(ips: seq<NetworkIP>)
    requires forall j :: 0 <= j < |ips| ==> ips[j].family != "inet"
    ensures FirstInet(ips) == None
  {
    if ips != [] { NoInet(ips[1..]); }
  }

  predicate Readable(r: DhcpRange) {
    ParseIPv4(r.start).Some? && ParseIPv4(r.end).Some?
  }

  lemma {:induction false} FirstRangeAt(ranges: seq<DhcpRange>, j: nat)
    requires j < |ranges| && Readable(ranges[j]) && forall i :: 0 <= i < j ==> !Readable(ranges[i])
    ensures FirstDhcpRange(ranges) == Some((ParseIPv4(ranges[j].start).value, ParseIPv4(ranges[j].end).value))
  {
    if j != 0 { FirstRangeAt(ranges[1..], j - 1); }
  }

  lemma {:induction false} NoRange(ranges: seq<DhcpRange>)
    requires forall i :: 0 <= i < |ranges| ==> !Readable(ranges[i])
    ensures FirstDhcpRange(ranges) == None
  {
    if ranges != [] { NoRange(ranges[1..]); }
  }

  /** ips[i] is the first IPv4 element of the network. */
  predicate Decides(ips: seq<NetworkIP>, i: nat) {
    i < |ips| && ips[i].family == "inet" && forall j :: 0 <= j < i ==> ips[j].family != "inet"
  }

  /**
   Without a readable DHCP range, the candidates of a network are the 200 highest numbers, or all there
   are, strictly between the lowest and the highest number of the subnet that the address and the
   netmask of its first IPv4 element make.
   */
  lemma TailOfNetwork(ips: seq<NetworkIP>, i: nat, addr: uint32, ones: nat, x: int)
    requires Decides(ips, i) && 1 <= ones <= 30
    requires ParseIPv4(ips[i].address) == Some(addr) && ParseIPv4(ips[i].netmask) == Some(MaskOf(ones))
    requires ips[i].ranges.Some? ==> forall j :: 0 <= j < |ips[i].ranges.value| ==> !Readable(ips[i].ranges.value[j])
    ensures var hosts := Pow2(32 - ones);
            var network, n := addr - addr % hosts, if 200 < hosts - 2 then 200 else hosts - 2;
            var broadcast := network + hosts - 1;
            && CandidatesOf(ips).Some? && |CandidatesOf(ips).value| == n
            && (x in CandidatesOf(ips).value <==> network < x < broadcast && broadcast - n <= x)
  {
    FirstInetAt(ips, i);
    if ips[i].ranges.Some? { NoRange(ips[i].ranges.value); }
    TailOfPrefix(addr, ones, BLOCK_SIZE, x);
  }

  /** With a readable DHCP range the first one decides: its addresses, or the error when it is inverted. */
  lemma RangeOfNetwork(ips: seq<NetworkIP>, i: nat, j: nat, start: uint32, end: uint32, x: int)
    requires Decides(ips, i) && ParseIPv4(ips[i].address).Some? && ParseIPv4(ips[i].netmask).Some?
    requires ips[i].ranges.Some? && j < |ips[i].ranges.value|
    requires ParseIPv4(ips[i].ranges.value[j].start) == Some(start) && ParseIPv4(ips[i].ranges.value[j].end) == Some(end)
    requires forall k :: 0 <= k < j ==> !Readable(ips[i].ranges.value[k])
    ensures CandidatesOf(ips).None? <==> end < start
    ensures start <= end ==> |CandidatesOf(ips).value| == end - start + 1 && (x in CandidatesOf(ips).value <==> start <= x <= end)
  {
    FirstInetAt(ips, i);
    FirstRangeAt(ips[i].ranges.value, j);
    if start <= end { IntervalMembers(start, end, x); }
  }

  /** Without an IPv4 element, or with an unreadable address or netmask in the first one, there are no candidates. */
  lemma NoCandidates(ips: seq<NetworkIP>, i: nat)
    requires (forall j :: 0 <= j < |ips| ==> ips[j].family != "inet")
             || (Decides(ips, i) && (ParseIPv4(ips[i].address).None? || ParseIPv4(ips[i].netmask).None?))
    ensures CandidatesOf(ips) == None
  {
    if Decides(ips, i) { FirstInetAt(ips, i); } else { NoInet(ips); }
  }
}
