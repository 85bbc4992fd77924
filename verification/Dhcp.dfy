/**
 The DHCP host table of a libvirt network and the reservation of one fixed address per machine.
 The table is an open-addressing hash table: the candidate addresses are its slots, the home slot
 comes from the hash of the domain name, and collisions are resolved by cyclic linear probing.
 */
module Dhcp {
  import opened Base
  import opened IPv4
  import opened Candidates

  /** A <host> element: MAC, host name and address, as text. The address may be empty. */
  datatype HostEntry = HostEntry(mac: string, name: string, ip: string)

  // ---- text comparison ----

  function LowerChar(c: char): char {
    if 'A' <= c <= 'Z' then c - 'A' + 'a' else c
  }

  function Lower(s: string): string {
    seq(|s|, i requires 0 <= i < |s| => LowerChar(s[i]))
  }

  /** strings.EqualFold on ASCII text. */
  predicate EqualFold(a: string, b: string) {
    Lower(a) == Lower(b)
  }

  /** Equal, or the upper and the lower case of one letter. */
  predicate SameLetter(c: char, d: char) {
    c == d || ('A' <= c <= 'Z' && d as int == c as int + 32) || ('A' <= d <= 'Z' && c as int == d as int + 32)
  }

  lemma LowerCharMeans(c: char, d: char)
    ensures LowerChar(c) == LowerChar(d) <==> SameLetter(c, d)
  {
  }

  /** Two texts match when they agree in every place up to the case of a letter. */
  lemma FoldMeans(a: string, b: string)
    ensures EqualFold(a, b) <==> |a| == |b| && forall i :: 0 <= i < |a| ==> SameLetter(a[i], b[i])
  {
    assert |Lower(a)| == |a| && |Lower(b)| == |b|;
    if |a| == |b| {
      forall i | 0 <= i < |a| ensures Lower(a)[i] == Lower(b)[i] <==> SameLetter(a[i], b[i]) {
        LowerCharMeans(a[i], b[i]);
      }
    }
  }

  lemma FoldPlain(a: string, b: string)
    requires Plain(b)
    ensures EqualFold(a, b) <==> a == b
  {
    if EqualFold(a, b) {
      forall i | 0 <= i < |a| ensures i < |b| && a[i] == b[i] {
        assert |Lower(a)| == |Lower(b)|;
        assert Lower(a)[i] == Lower(b)[i];
      }
    }
  }

  // ---- reading the table ----

  /** Index of the first entry bound to mac, or the length of the table. */
  function FindMac(hosts: seq<HostEntry>, mac: string): (i: nat)
    ensures i <= |hosts|
    ensures i < |hosts| ==> EqualFold(hosts[i].mac, mac)
    ensures forall j :: 0 <= j < i ==> !EqualFold(hosts[j].mac, mac)
  {
    if hosts == [] || EqualFold(hosts[0].mac, mac) then 0 else 1 + FindMac(hosts[1..], mac)
  }

  predicate HasMac(hosts: seq<HostEntry>, mac: string) {
    FindMac(hosts, mac) < |hosts|
  }

  function EntryOf(hosts: seq<HostEntry>, mac: string): Option<HostEntry> {
    var i := FindMac(hosts, mac);
    if i < |hosts| then Some(hosts[i]) else None
  }

  method HostEntryInNetwork(hosts: seq<HostEntry>, mac: string) returns (r: Option<HostEntry>)
    ensures r == EntryOf(hosts, mac)
  {
    for i := 0 to |hosts|
      invariant forall j :: 0 <= j < i ==> !EqualFold(hosts[j].mac, mac)
    {
      if EqualFold(hosts[i].mac, mac) {
        return Some(hosts[i]);
      }
    }
    return None;
  }

  /** Address to MAC; a later entry for the same address wins, entries without address are skipped. */
  function Owners(hosts: seq<HostEntry>): map<string, string> {
    if hosts == [] then map[]
    else
      var rest, h := Owners(hosts[..|hosts| - 1]), hosts[|hosts| - 1];
      if h.ip == "" then rest else rest[h.ip := h.mac]
  }

  method HostIPSet(hosts: seq<HostEntry>) returns (owners: map<string, string>)
    ensures owners == Owners(hosts)
  {
    owners := map[];
    for i := 0 to |hosts|
      invariant owners == Owners(hosts[..i])
    {
      assert hosts[..i + 1][..i] == hosts[..i];
      if hosts[i].ip != "" {
        owners := owners[hosts[i].ip := hosts[i].mac];
      }
    }
    assert hosts[..|hosts|] == hosts;
  }

  /** Entry i is the last one with this address. */
  ghost predicate LastFor(hosts: seq<HostEntry>, i: int, ip: string) {
    0 <= i < |hosts| && hosts[i].ip == ip && forall j :: i < j < |hosts| ==> hosts[j].ip != ip
  }

  /** Some entry binds ip to a MAC other than mac. */
  ghost predicate TakenByOther(hosts: seq<HostEntry>, ip: string, mac: string) {
    exists i :: 0 <= i < |hosts| && hosts[i].ip == ip && !EqualFold(hosts[i].mac, mac)
  }

  predicate Usable(owners: map<string, string>, ip: string, mac: string) {
    ip !in owners || EqualFold(owners[ip], mac)
  }

  ghost predicate DistinctMacs(hosts: seq<HostEntry>) {
    forall i, j :: 0 <= i < j < |hosts| ==> !EqualFold(hosts[i].mac, hosts[j].mac)
  }

  ghost predicate DistinctIPs(hosts: seq<HostEntry>) {
    forall i, j :: 0 <= i < j < |hosts| && hosts[i].ip != "" ==> hosts[i].ip != hosts[j].ip
  }

  ghost predicate Sane(hosts: seq<HostEntry>) {
    DistinctMacs(hosts) && DistinctIPs(hosts)
  }

  /** The address map holds exactly the addresses of the table, each with the MAC of the last entry for it. */
  lemma {:induction false} OwnersSound(hosts: seq<HostEntry>, ip: string)
    ensures ip in Owners(hosts) ==> ip != "" && exists i :: LastFor(hosts, i, ip) && hosts[i].mac == Owners(hosts)[ip]
    ensures forall i :: 0 <= i < |hosts| && hosts[i].ip != "" ==> hosts[i].ip in Owners(hosts)
  {
    if hosts != [] {
      var n := |hosts| - 1;
      OwnersSound(hosts[..n], ip);
      if ip in Owners(hosts) {
        if hosts[n].ip == ip {
          assert LastFor(hosts, n, ip);
        } else {
          var i :| LastFor(hosts[..n], i, ip) && hosts[..n][i].mac == Owners(hosts)[ip];
          assert LastFor(hosts, i, ip) && hosts[i].mac == Owners(hosts)[ip];
        }
      }
      forall i | 0 <= i < |hosts| && hosts[i].ip != "" ensures hosts[i].ip in Owners(hosts) {
        if i < n { assert hosts[..n][i] == hosts[i]; }
      }
    }
  }

  lemma UsableIff(hosts: seq<HostEntry>, ip: string, mac: string)
    requires DistinctIPs(hosts) && ip != ""
    ensures Usable(Owners(hosts), ip, mac) <==> !TakenByOther(hosts, ip, mac)
  {
    OwnersSound(hosts, ip);
    if ip in Owners(hosts) {
      var k :| LastFor(hosts, k, ip) && hosts[k].mac == Owners(hosts)[ip];
    }
  }

  // ---- the probe ----

  /** The slots of the table: distinct addresses in canonical text. */
  ghost predicate GoodBlock(block: seq<string>) {
    && (forall i, j :: 0 <= i < j < |block| ==> block[i] != block[j])
    && (forall i :: 0 <= i < |block| ==> block[i] != "" && Plain(block[i]))
  }

  /** (home + d) % n for a home and a distance below n. */
  function Slot(home: nat, d: nat, n: nat): (s: nat)
    requires home < n && d < n
    ensures s < n
  {
    if home + d < n then home + d else home + d - n
  }

  /** The slot at probe distance d from the home slot of a hash sum. */
  function SlotIP(block: seq<string>, sum: nat, d: nat): string
    requires d < |block|
  {
    block[Slot(sum % |block|, d, |block|)]
  }

  /** The distance, from d on, of the first slot usable for mac; the block size when there is none. */
  function Probe(owners: map<string, string>, block: seq<string>, sum: nat, mac: string, d: nat): (r: nat)
    requires d <= |block|
    ensures d <= r <= |block|
    ensures r < |block| ==> Usable(owners, SlotIP(block, sum, r), mac)
    ensures forall j :: d <= j < r ==> !Usable(owners, SlotIP(block, sum, j), mac)
    decreases |block| - d
  {
    if d == |block| || Usable(owners, SlotIP(block, sum, d), mac) then d
    else Probe(owners, block, sum, mac, d + 1)
  }

  /** Every slot is reached at exactly one distance: the probe visits each candidate once. */
  lemma SlotOnce(home: nat, n: nat, s: nat, d: nat)
    requires home < n && s < n && d < n
    ensures Slot(home, d, n) == s <==> d == (if home <= s then s - home else s + n - home)
  {
  }

  lemma ProbeExhausts(owners: map<string, string>, block: seq<string>, sum: nat, mac: string, s: nat)
    requires s < |block| && Probe(owners, block, sum, mac, 0) == |block|
    ensures !Usable(owners, block[s], mac)
  {
    var home, n := sum % |block|, |block|;
    var d := if home <= s then s - home else s + n - home;
    SlotOnce(home, n, s, d);
    assert SlotIP(block, sum, d) == block[s];
  }

  lemma SlotIsMod(home: nat, d: nat, n: nat)
    requires home < n && d < n
    ensures (home + d) % n == Slot(home, d, n)
  {
    if home + d < n { ModUnique(home + d, n, 0, home + d); } else { ModUnique(home + d, n, 1, home + d - n); }
  }

  function Formatted(candidates: seq<uint32>): (block: seq<string>)
    ensures |block| == |candidates|
    ensures forall i :: 0 <= i < |candidates| ==> block[i] == FormatIPv4(candidates[i])
  {
    seq(|candidates|, i requires 0 <= i < |candidates| => FormatIPv4(candidates[i]))
  }

  function Allocate(hosts: seq<HostEntry>, block: seq<string>, sum: nat, mac: string): Option<string> {
    var d := Probe(Owners(hosts), block, sum, mac, 0);
    if d == |block| then None else Some(SlotIP(block, sum, d))
  }

  lemma ProbeAt(owners: map<string, string>, block: seq<string>, sum: nat, mac: string, d: nat)
    requires d <= |block|
    requires forall j :: 0 <= j < d ==> !Usable(owners, SlotIP(block, sum, j), mac)
    requires d < |block| ==> Usable(owners, SlotIP(block, sum, d), mac)
    ensures Probe(owners, block, sum, mac, 0) == d
  {
  }

  /** The probe loop of the Go code, on candidate numbers and with its own index arithmetic. */
  method AllocateMachineIPIn(hosts: seq<HostEntry>, candidates: seq<uint32>, sum: nat, mac: string) returns (r: Option<string>)
    ensures r == Allocate(hosts, Formatted(candidates), sum, mac)
  {
    if |candidates| == 0 {
      return None;
    }
    ghost var block := Formatted(candidates);
    var n := |candidates|;
    var taken := HostIPSet(hosts);
    var offset := sum % n;
    for i := 0 to n
      invariant forall j :: 0 <= j < i ==> !Usable(taken, SlotIP(block, sum, j), mac)
    {
      SlotIsMod(offset, i, n);
      var ip := FormatIPv4(candidates[(offset + i) % n]);
      assert ip == SlotIP(block, sum, i);
      if ip !in taken || EqualFold(taken[ip], mac) {
        ProbeAt(taken, block, sum, mac, i);
        return Some(ip);
      }
    }
    ProbeAt(taken, block, sum, mac, n);
    return None;
  }

  /** Distances add up modulo the block size. */
  lemma SlotOfSum(sum: nat, d: nat, n: nat)
    requires d < n
    ensures (sum + d) % n == Slot(sum % n, d, n)
  {
    var q, home := sum / n, sum % n;
    assert sum == n * q + home;
    if home + d < n {
      ModUnique(sum + d, n, q, home + d);
    } else {
      assert n * (q + 1) == n * q + n;
      ModUnique(sum + d, n, q + 1, home + d - n);
    }
  }

  /** The slots in the order of the probe: the block from the home slot on, then its beginning. */
  lemma SlotIPIs(block: seq<string>, sum: nat, d: nat)
    requires d < |block|
    ensures SlotIP(block, sum, d) == block[(sum + d) % |block|]
    ensures SlotIP(block, sum, d) == (block[sum % |block|..] + block[..sum % |block|])[d]
  {
    SlotOfSum(sum, d, |block|);
  }

  /**
   What the probe finds: the first usable slot, from the home slot on and then from the beginning of the
   block; it finds none only when no slot at all is usable.
   */
  lemma AllocateIsFirstUsable(hosts: seq<HostEntry>, block: seq<string>, sum: nat, mac: string)
    ensures Allocate(hosts, block, sum, mac).None? <==> forall s :: 0 <= s < |block| ==> !Usable(Owners(hosts), block[s], mac)
    ensures Allocate(hosts, block, sum, mac).Some? ==>
              && block != []
              && var turned := block[sum % |block|..] + block[..sum % |block|];
                 exists d :: 0 <= d < |turned| && Allocate(hosts, block, sum, mac).value == turned[d]
                   && Usable(Owners(hosts), turned[d], mac)
                   && forall j :: 0 <= j < d ==> !Usable(Owners(hosts), turned[j], mac)
  {
    var d := Probe(Owners(hosts), block, sum, mac, 0);
    if d == |block| {
      forall s | 0 <= s < |block| ensures !Usable(Owners(hosts), block[s], mac) {
        ProbeExhausts(Owners(hosts), block, sum, mac, s);
      }
    } else {
      var turned := block[sum % |block|..] + block[..sum % |block|];
      forall j | 0 <= j <= d ensures turned[j] == SlotIP(block, sum, j) {
        SlotIPIs(block, sum, j);
      }
      assert turned[d] == block[Slot(sum % |block|, d, |block|)];
    }
  }

  /** The answer is the slot at distance d from the hash sum, for the least d whose slot no other MAC holds. */
  lemma AllocateAt(hosts: seq<HostEntry>, block: seq<string>, sum: nat, mac: string, d: nat)
    requires GoodBlock(block) && DistinctIPs(hosts) && d < |block|
    requires var turned := block[sum % |block|..] + block[..sum % |block|];
             !TakenByOther(hosts, turned[d], mac) && forall j :: 0 <= j < d ==> TakenByOther(hosts, turned[j], mac)
    ensures Allocate(hosts, block, sum, mac) == Some(block[(sum + d) % |block|])
  {
    forall j | 0 <= j <= d ensures Usable(Owners(hosts), SlotIP(block, sum, j), mac) <==> j == d {
      SlotIPIs(block, sum, j);
      UsableIff(hosts, SlotIP(block, sum, j), mac);
    }
    SlotIPIs(block, sum, d);
    ProbeAt(Owners(hosts), block, sum, mac, d);
  }

  /** In particular a machine whose home slot is free gets it. */
  lemma AllocateHome(hosts: seq<HostEntry>, block: seq<string>, sum: nat, mac: string)
    requires GoodBlock(block) && DistinctIPs(hosts) && block != [] && !TakenByOther(hosts, block[sum % |block|], mac)
    ensures Allocate(hosts, block, sum, mac) == Some(block[sum % |block|])
  {
    AllocateAt(hosts, block, sum, mac, 0);
  }

  lemma FormattedIsGood(candidates: seq<uint32>)
    requires forall i, j :: 0 <= i < j < |candidates| ==> candidates[i] != candidates[j]
    ensures GoodBlock(Formatted(candidates))
  {
    forall i | 0 <= i < |candidates| ensures FormatIPv4(candidates[i]) != "" && Plain(FormatIPv4(candidates[i])) {
      DottedIsPlain(Octets(candidates[i]));
    }
    forall i, j | 0 <= i < j < |candidates| ensures FormatIPv4(candidates[i]) != FormatIPv4(candidates[j]) {
      if FormatIPv4(candidates[i]) == FormatIPv4(candidates[j]) { FormatInjective(candidates[i], candidates[j]); }
    }
  }

  /** The string-keyed table answers like a table of numbers: an entry blocks a candidate iff it reads as that number. */
  lemma StringLookupIsNumeric(hosts: seq<HostEntry>, c: uint32, mac: string)
    requires DistinctIPs(hosts)
    ensures Usable(Owners(hosts), FormatIPv4(c), mac)
            <==> forall i :: 0 <= i < |hosts| && ParseIPv4(hosts[i].ip) == Some(c) ==> EqualFold(hosts[i].mac, mac)
  {
    DottedIsPlain(Octets(c));
    UsableIff(hosts, FormatIPv4(c), mac);
    forall i | 0 <= i < |hosts| ensures ParseIPv4(hosts[i].ip) == Some(c) <==> hosts[i].ip == FormatIPv4(c) {
      ParseIsFormatInverse(hosts[i].ip, c);
    }
  }

  // ---- pigeonhole ----

  function Filter(p: HostEntry -> bool, s: seq<HostEntry>): seq<HostEntry> {
    if s == [] then []
    else if p(s[0]) then [s[0]] + Filter(p, s[1..])
    else Filter(p, s[1..])
  }

  lemma {:induction false} FilterConcat(p: HostEntry -> bool, s: seq<HostEntry>, t: seq<HostEntry>)
    ensures Filter(p, s + t) == Filter(p, s) + Filter(p, t)
  {
    if s == [] {
      assert s + t == t;
    } else {
      FilterConcat(p, s[1..], t);
      assert (s + t)[1..] == s[1..] + t;
    }
  }

  /** The entries of other MACs, in table order. */
  function Others(hosts: seq<HostEntry>, mac: string): seq<HostEntry> {
    Filter((e: HostEntry) => !EqualFold(e.mac, mac), hosts)
  }

  /** The addresses another MAC holds. */
  function Blocked(owners: map<string, string>, mac: string): set<string> {
    set ip | ip in owners && !EqualFold(owners[ip], mac)
  }

  lemma {:induction false} BlockedBound(hosts: seq<HostEntry>, mac: string)
    ensures |Blocked(Owners(hosts), mac)| <= |Others(hosts, mac)|
  {
    if hosts != [] {
      var n := |hosts| - 1;
      var last := hosts[n];
      BlockedBound(hosts[..n], mac);
      assert hosts == hosts[..n] + [last];
      FilterConcat((e: HostEntry) => !EqualFold(e.mac, mac), hosts[..n], [last]);
      var before, now := Blocked(Owners(hosts[..n]), mac), Blocked(Owners(hosts), mac);
      if EqualFold(last.mac, mac) {
        assert now <= before;
        SubsetSize(now, before);
      } else {
        assert now <= before + {last.ip};
        SubsetSize(now, before + {last.ip});
      }
    }
  }

  lemma {:induction false} SubsetSize<T>(a: set<T>, b: set<T>)
    requires a <= b
    ensures |a| <= |b|
  {
    assert |a| + |b - a| == |b| by { assert a + (b - a) == b; }
  }

  lemma {:induction false} DistinctSize(s: seq<string>)
    requires forall i, j :: 0 <= i < j < |s| ==> s[i] != s[j]
    ensures |set x | x in s| == |s|
  {
    if s != [] {
      DistinctSize(s[1..]);
      assert (set x | x in s) == {s[0]} + (set x | x in s[1..]);
    }
  }

  /** Allocation fails only when other MACs hold every slot, so never while they have fewer entries than there are slots. */
  lemma AllocateSucceeds(hosts: seq<HostEntry>, block: seq<string>, sum: nat, mac: string)
    requires GoodBlock(block) && |Others(hosts, mac)| < |block|
    ensures Allocate(hosts, block, sum, mac).Some?
  {
    var owners := Owners(hosts);
    if Allocate(hosts, block, sum, mac).None? {
      var slots := set x | x in block;
      forall ip | ip in slots ensures ip in Blocked(owners, mac) {
        var s :| 0 <= s < |block| && block[s] == ip;
        ProbeExhausts(owners, block, sum, mac, s);
      }
      DistinctSize(block);
      SubsetSize(slots, Blocked(owners, mac));
      BlockedBound(hosts, mac);
    }
  }
}
