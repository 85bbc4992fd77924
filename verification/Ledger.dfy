/** Conservation of the DHCP host table: what runs of reservations and releases add, remove and leave alone. */
module Ledger {
  import opened Base
  import opened IPv4
  import opened Candidates
  import opened Dhcp
  import opened Naming
  import opened Reservation

  // ---- frames ----

  lemma FilterSkip(p: HostEntry -> bool, s: seq<HostEntry>, h: HostEntry, t: seq<HostEntry>)
    requires !p(h)
    ensures Filter(p, s + [h] + t) == Filter(p, s + t)
  {
    FilterConcat(p, s + [h], t);
    FilterConcat(p, s, [h]);
    FilterConcat(p, s, t);
    assert Filter(p, [h]) == [];
  }

  /** An update is invisible to every filter that drops the entries of the updated MAC. */
  lemma UpdateFiltered(p: HostEntry -> bool, hosts: seq<HostEntry>, cmd: Command, e: HostEntry)
    requires forall h: HostEntry :: EqualFold(h.mac, e.mac) ==> !p(h)
    ensures Filter(p, Updated(hosts, cmd, e)) == Filter(p, hosts)
  {
    var i := FindMac(hosts, e.mac);
    if cmd.AddLast? {
      FilterSkip(p, hosts, e, []);
      assert hosts + [e] + [] == hosts + [e] && hosts + [] == hosts;
    } else if i < |hosts| {
      var s, t := hosts[..i], hosts[i + 1..];
      assert hosts == s + [hosts[i]] + t;
      FilterSkip(p, s, hosts[i], t);
      if cmd.ModifyHost? {
        assert hosts[i := e] == s + [e] + t;
        FilterSkip(p, s, e, t);
      }
    }
  }

  lemma {:induction false} EntryAmongOthers(hosts: seq<HostEntry>, mac: string, m: string)
    requires !EqualFold(m, mac)
    ensures EntryOf(Others(hosts, mac), m) == EntryOf(hosts, m)
  {
    if hosts != [] {
      EntryAmongOthers(hosts[1..], mac, m);
      if !EqualFold(hosts[0].mac, mac) {
        assert Others(hosts, mac)[1..] == Others(hosts[1..], mac);
      }
    }
  }

  /** Reserving and releasing for x leave the entries of every other MAC alone, contents and order. */
  lemma OthersUntouched(a: Addressing, hosts: seq<HostEntry>, x: string, f: NetFaults, mac: string)
    ensures Others(Reserve(a, hosts, x, f).hosts, a.mac(x)) == Others(hosts, a.mac(x))
    ensures Others(Release(a, hosts, x, f).hosts, a.mac(x)) == Others(hosts, a.mac(x))
    ensures !EqualFold(mac, a.mac(x)) ==>
              && EntryOf(Reserve(a, hosts, x, f).hosts, mac) == EntryOf(hosts, mac)
              && EntryOf(Release(a, hosts, x, f).hosts, mac) == EntryOf(hosts, mac)
  {
    var p := (e: HostEntry) => !EqualFold(e.mac, a.mac(x));
    var r, l := Reserve(a, hosts, x, f).hosts, Release(a, hosts, x, f).hosts;
    var plan := PlanHostUpdate(a, hosts, x);
    if r != hosts {
      UpdateFiltered(p, hosts, if plan.Add? then AddLast else ModifyHost, HostEntry(a.mac(x), x, plan.ip));
    }
    if l != hosts {
      UpdateFiltered(p, hosts, DeleteHost, HostEntry(a.mac(x), x, EntryOf(hosts, a.mac(x)).value.ip));
    }
    if !EqualFold(mac, a.mac(x)) {
      EntryAmongOthers(hosts, a.mac(x), mac);
      EntryAmongOthers(r, a.mac(x), mac);
      EntryAmongOthers(l, a.mac(x), mac);
    }
  }

  /** Removing an entry keeps distinct what was distinct, and leaves no entry of its MAC. */
  lemma WithoutSane(hosts: seq<HostEntry>, mac: string)
    requires DistinctMacs(hosts)
    ensures var rest := Without(hosts, mac);
            && DistinctMacs(rest) && !HasMac(rest, mac) && (DistinctIPs(hosts) ==> DistinctIPs(rest))
            && |rest| == |hosts| - if HasMac(hosts, mac) then 1 else 0
  {
    var i, rest := FindMac(hosts, mac), Without(hosts, mac);
    if i < |hosts| {
      assert forall j :: 0 <= j < |rest| ==> rest[j] == hosts[if j < i then j else j + 1];
      assert forall j :: 0 <= j < |rest| ==> !EqualFold(rest[j].mac, hosts[i].mac);
    }
  }

  lemma ReleaseIs(a: Addressing, hosts: seq<HostEntry>, x: string, f: NetFaults)
    ensures var r := Release(a, hosts, x, f);
            && r.hosts in {hosts, Without(hosts, a.mac(x))}
            && (r.ok ==> r.hosts == Without(hosts, a.mac(x)))
  {
  }

  /** A release that reports success leaves no entry of the machine; any release keeps the table sane. */
  lemma ReleaseOwn(a: Addressing, hosts: seq<HostEntry>, x: string, f: NetFaults)
    requires DistinctMacs(hosts)
    ensures var r := Release(a, hosts, x, f);
            && DistinctMacs(r.hosts) && (DistinctIPs(hosts) ==> DistinctIPs(r.hosts))
            && (r.ok || r.hosts != hosts ==> !HasMac(r.hosts, a.mac(x)))
            && (HasMac(r.hosts, a.mac(x)) ==> r.hosts == hosts)
            && |r.hosts| == |hosts| - (if HasMac(hosts, a.mac(x)) && !HasMac(r.hosts, a.mac(x)) then 1 else 0)
  {
    ReleaseIs(a, hosts, x, f);
    WithoutSane(hosts, a.mac(x));
  }

  lemma SameFind(hosts: seq<HostEntry>, m: string, m': string)
    requires EqualFold(m, m')
    ensures FindMac(hosts, m) == FindMac(hosts, m')
  {
  }

  // ---- runs of reservations and releases ----

  datatype TableOp = ReserveOp(x: string, f: NetFaults) | ReleaseOp(x: string, f: NetFaults)

  function ApplyOp(a: Addressing, hosts: seq<HostEntry>, op: TableOp): seq<HostEntry> {
    match op
    case ReserveOp(x, f) => Reserve(a, hosts, x, f).hosts
    case ReleaseOp(x, f) => Release(a, hosts, x, f).hosts
  }

  function ApplyOps(a: Addressing, hosts: seq<HostEntry>, ops: seq<TableOp>): seq<HostEntry>
    decreases |ops|
  {
    if ops == [] then hosts else ApplyOps(a, ApplyOp(a, hosts, ops[0]), ops[1..])
  }

  /** The entries that belong to none of the machines, in table order. */
  ghost function Foreign(a: Addressing, ms: set<string>, hosts: seq<HostEntry>): seq<HostEntry> {
    Filter((e: HostEntry) => forall x :: x in ms ==> !EqualFold(e.mac, a.mac(x)), hosts)
  }

  /** The address each currently reserved machine is bound to. */
  ghost function Bound(a: Addressing, ms: set<string>, hosts: seq<HostEntry>): map<string, string> {
    map x | x in ms && HasMac(hosts, a.mac(x)) :: EntryOf(hosts, a.mac(x)).value.ip
  }

  ghost predicate TableInv(a: Addressing, ms: set<string>, hosts: seq<HostEntry>) {
    Sane(hosts) && forall x :: x in ms && HasMac(hosts, a.mac(x)) ==> EntryOf(hosts, a.mac(x)).value.ip in a.block
  }

  lemma OpFrame(a: Addressing, ms: set<string>, hosts: seq<HostEntry>, op: TableOp)
    requires op.x in ms
    ensures Foreign(a, ms, ApplyOp(a, hosts, op)) == Foreign(a, ms, hosts)
  {
    var p := (e: HostEntry) => forall x :: x in ms ==> !EqualFold(e.mac, a.mac(x));
    var mac, plan, existing := a.mac(op.x), PlanHostUpdate(a, hosts, op.x), EntryOf(hosts, a.mac(op.x));
    if ApplyOp(a, hosts, op) != hosts {
      if op.ReserveOp? {
        UpdateFiltered(p, hosts, if plan.Add? then AddLast else ModifyHost, HostEntry(mac, op.x, plan.ip));
      } else {
        UpdateFiltered(p, hosts, DeleteHost, HostEntry(mac, op.x, existing.value.ip));
      }
    }
  }

  /** The table after an operation is as long as its own machine's binding says. */
  ghost predicate Steps(hosts: seq<HostEntry>, hosts': seq<HostEntry>, mac: string) {
    |hosts'| - |hosts| == (if HasMac(hosts', mac) then 1 else 0) - (if HasMac(hosts, mac) then 1 else 0)
  }

  lemma ReserveSteps(a: Addressing, hosts: seq<HostEntry>, x: string, f: NetFaults)
    requires GoodBlock(a.block) && Sane(hosts)
    ensures Steps(hosts, Reserve(a, hosts, x, f).hosts, a.mac(x))
  {
    var plan := PlanHostUpdate(a, hosts, x);
    if plan.Add? {
      AddSettles(a, hosts, x);
    } else if plan.Modify? {
      ModifySettles(a, hosts, x);
    }
  }

  lemma OpOwn(a: Addressing, hosts: seq<HostEntry>, op: TableOp)
    requires GoodBlock(a.block) && Sane(hosts)
    ensures var hosts', mac := ApplyOp(a, hosts, op), a.mac(op.x);
            && Sane(hosts') && Steps(hosts, hosts', mac)
            && (HasMac(hosts', mac) && hosts' != hosts ==> EntryOf(hosts', mac).value.ip in a.block)
  {
    if op.ReleaseOp? {
      ReleaseOwn(a, hosts, op.x, op.f);
    } else {
      ReserveOwn(a, hosts, op.x, op.f);
      ReserveSteps(a, hosts, op.x, op.f);
    }
  }

  /** One operation changes the binding of its own machine only, and the table's length with it. */
  lemma OpStep(a: Addressing, ms: set<string>, hosts: seq<HostEntry>, op: TableOp)
    requires GoodBlock(a.block) && DistinctMachines(a, ms) && op.x in ms && TableInv(a, ms, hosts)
    ensures var hosts' := ApplyOp(a, hosts, op);
            && TableInv(a, ms, hosts')
            && Bound(a, ms, hosts') - {op.x} == Bound(a, ms, hosts) - {op.x}
            && |hosts'| - |Bound(a, ms, hosts')| == |hosts| - |Bound(a, ms, hosts)|
  {
    var hosts' := ApplyOp(a, hosts, op);
    OpOwn(a, hosts, op);
    OpOthers(a, ms, hosts, op);
    BoundRest(a, ms, hosts, hosts', op.x);
    BoundStep(a, ms, hosts, hosts', op.x);
  }

  lemma OpOthers(a: Addressing, ms: set<string>, hosts: seq<HostEntry>, op: TableOp)
    requires DistinctMachines(a, ms) && op.x in ms
    ensures forall y :: y in ms && y != op.x ==> EntryOf(ApplyOp(a, hosts, op), a.mac(y)) == EntryOf(hosts, a.mac(y))
  {
    forall y | y in ms && y != op.x ensures EntryOf(ApplyOp(a, hosts, op), a.mac(y)) == EntryOf(hosts, a.mac(y)) {
      OthersUntouched(a, hosts, op.x, op.f, a.mac(y));
    }
  }

  lemma BoundRest(a: Addressing, ms: set<string>, hosts: seq<HostEntry>, hosts': seq<HostEntry>, x: string)
    requires forall y :: y in ms && y != x ==> EntryOf(hosts', a.mac(y)) == EntryOf(hosts, a.mac(y))
    ensures Bound(a, ms, hosts') - {x} == Bound(a, ms, hosts) - {x}
  {
    var b, b' := Bound(a, ms, hosts) - {x}, Bound(a, ms, hosts') - {x};
    forall y ensures y in b <==> y in b' {
      if y in ms && y != x { assert EntryOf(hosts', a.mac(y)) == EntryOf(hosts, a.mac(y)); }
    }
  }

  lemma BoundStep(a: Addressing, ms: set<string>, hosts: seq<HostEntry>, hosts': seq<HostEntry>, x: string)
    requires x in ms
    requires Bound(a, ms, hosts') - {x} == Bound(a, ms, hosts) - {x}
    ensures |Bound(a, ms, hosts')| - |Bound(a, ms, hosts)|
            == (if HasMac(hosts', a.mac(x)) then 1 else 0) - (if HasMac(hosts, a.mac(x)) then 1 else 0)
  {
    RestSize(Bound(a, ms, hosts), x);
    RestSize(Bound(a, ms, hosts'), x);
  }

  lemma RestSize(m: map<string, string>, x: string)
    ensures |m| == |m - {x}| + if x in m then 1 else 0
  {
    assert (m - {x}).Keys == m.Keys - {x};
  }

  /**
   From a sane table without machine entries, every run of reservations and releases with any
   failures ends in a sane table: the foreign entries are exactly the initial table, in order, and
   there is one entry more, inside the block, for each machine that is bound.
   */
  lemma TableConserved(a: Addressing, ms: set<string>, hosts: seq<HostEntry>, ops: seq<TableOp>)
    requires GoodBlock(a.block) && DistinctMachines(a, ms) && forall o :: o in ops ==> o.x in ms
    requires Sane(hosts) && forall x :: x in ms ==> !HasMac(hosts, a.mac(x))
    ensures var end := ApplyOps(a, hosts, ops);
            TableInv(a, ms, end) && Foreign(a, ms, end) == hosts && |end| == |hosts| + |Bound(a, ms, end)|
  {
    assert Bound(a, ms, hosts) == map[];
    AllForeign(a, ms, hosts);
    RunConserves(a, ms, hosts, ops);
  }

  lemma {:induction false} AllForeign(a: Addressing, ms: set<string>, hosts: seq<HostEntry>)
    requires forall x :: x in ms ==> !HasMac(hosts, a.mac(x))
    ensures Foreign(a, ms, hosts) == hosts
  {
    if hosts != [] {
      forall x | x in ms ensures !EqualFold(hosts[0].mac, a.mac(x)) && !HasMac(hosts[1..], a.mac(x)) {
        assert FindMac(hosts, a.mac(x)) == |hosts|;
      }
      AllForeign(a, ms, hosts[1..]);
    }
  }

  lemma {:induction false} RunConserves(a: Addressing, ms: set<string>, hosts: seq<HostEntry>, ops: seq<TableOp>)
    requires GoodBlock(a.block) && DistinctMachines(a, ms) && forall o :: o in ops ==> o.x in ms
    requires TableInv(a, ms, hosts)
    ensures var end := ApplyOps(a, hosts, ops);
            && TableInv(a, ms, end) && Foreign(a, ms, end) == Foreign(a, ms, hosts)
            && |end| - |Bound(a, ms, end)| == |hosts| - |Bound(a, ms, hosts)|
    decreases |ops|
  {
    if ops != [] {
      OpStep(a, ms, hosts, ops[0]);
      OpFrame(a, ms, hosts, ops[0]);
      RunConserves(a, ms, ApplyOp(a, hosts, ops[0]), ops[1..]);
    }
  }

  /** The bindings of a sane table are a partial injection, and no machine shares an address with a foreign entry. */
  lemma BindingsInjective(a: Addressing, ms: set<string>, hosts: seq<HostEntry>, x: string, mac: string)
    requires TableInv(a, ms, hosts) && GoodBlock(a.block)
    requires x in Bound(a, ms, hosts) && HasMac(hosts, mac) && !EqualFold(mac, a.mac(x))
    ensures EntryOf(hosts, mac).value.ip != Bound(a, ms, hosts)[x]
  {
    var i, j := FindMac(hosts, a.mac(x)), FindMac(hosts, mac);
    assert i != j && hosts[i].ip != "";
  }

  // ---- why a live machine must not be planned again ----

  lemma HomeOnly(block: seq<string>, s: nat, t: nat, d: nat)
    requires d < |block| && s % |block| == t % |block|
    ensures SlotIP(block, s, d) == SlotIP(block, t, d)
  {
  }

  /** Behind another machine on its home slot, y is settled one slot further on. */
  lemma SecondKeeps(a: Addressing, ex: HostEntry, y: string)
    requires GoodBlock(a.block) && 2 <= |a.block| && !EqualFold(ex.mac, a.mac(y)) && ex.ip == SlotIP(a.block, a.sum(y), 0)
    ensures var second := SlotIP(a.block, a.sum(y), 1);
            PlanHostUpdate(a, [ex, HostEntry(a.mac(y), y, second)], y) == Keep(second)
  {
    var second := SlotIP(a.block, a.sum(y), 1);
    var ey := HostEntry(a.mac(y), y, second);
    var hosts := [ex, ey];
    assert hosts[1..] == [ey];
    assert FindMac([ey], a.mac(y)) == 0 && FindMac(hosts, a.mac(y)) == 1;
    assert TakenByOther(hosts, ex.ip, a.mac(y)) by { assert hosts[0].ip == ex.ip; }
    assert ChainAt(a, hosts, y, second, 1);
    KeepIffSettled(a, hosts, y);
  }

  /** Alone, one slot from its home, it would be moved home. */
  lemma AloneModifies(a: Addressing, y: string)
    requires GoodBlock(a.block) && 2 <= |a.block|
    ensures var home, second := SlotIP(a.block, a.sum(y), 0), SlotIP(a.block, a.sum(y), 1);
            PlanHostUpdate(a, [HostEntry(a.mac(y), y, second)], y) == Modify(home)
  {
    var home, second := SlotIP(a.block, a.sum(y), 0), SlotIP(a.block, a.sum(y), 1);
    var rest := [HostEntry(a.mac(y), y, second)];
    assert FindMac(rest, a.mac(y)) == 0;
    UsableIff(rest, home, a.mac(y));
    ProbeAt(Owners(rest), a.block, a.sum(y), a.mac(y), 0);
    FoldPlain(second, home);
  }

  /**
   Of two machines with the same home slot the second sits one slot further on, and once the first is
   released a further reservation would move it. KeepIffSettled says exactly when.
   */
  lemma ReleaseCanMove(a: Addressing, x: string, y: string, f: NetFaults)
    requires GoodBlock(a.block) && 2 <= |a.block| && a.sum(x) % |a.block| == a.sum(y) % |a.block|
    requires !EqualFold(a.mac(x), a.mac(y)) && f.read && f.update.Done?
    ensures var home, second := SlotIP(a.block, a.sum(x), 0), SlotIP(a.block, a.sum(y), 1);
            var hosts := [HostEntry(a.mac(x), x, home), HostEntry(a.mac(y), y, second)];
            && PlanHostUpdate(a, hosts, y) == Keep(second)
            && PlanHostUpdate(a, Release(a, hosts, x, f).hosts, y) == Modify(home)
  {
    HomeOnly(a.block, a.sum(x), a.sum(y), 0);
    var ex := HostEntry(a.mac(x), x, SlotIP(a.block, a.sum(y), 0));
    var ey := HostEntry(a.mac(y), y, SlotIP(a.block, a.sum(y), 1));
    SecondKeeps(a, ex, y);
    AloneModifies(a, y);
    ReleaseFirst(a, ex, ey, x, f);
  }

  lemma ReleaseFirst(a: Addressing, ex: HostEntry, ey: HostEntry, x: string, f: NetFaults)
    requires ex.mac == a.mac(x) && f.read && f.update.Done?
    ensures Release(a, [ex, ey], x, f).hosts == [ey]
  {
    assert FindMac([ex, ey], a.mac(x)) == 0;
    assert [ex, ey][..0] + [ex, ey][1..] == [ey];
  }

  /** A network with one parseable range has the addresses of that range as candidates. */
  lemma RangeNetwork(ip: NetworkIP, start: uint32, end: uint32)
    requires ip.family == "inet" && ip.ranges.Some? && |ip.ranges.value| == 1 && start <= end
    requires ParseIPv4(ip.address).Some? && ParseIPv4(ip.netmask).Some?
    requires ParseIPv4(ip.ranges.value[0].start) == Some(start) && ParseIPv4(ip.ranges.value[0].end) == Some(end)
    ensures CandidatesOf([ip]) == Some(Interval(start, end))
  {
    assert FirstInet([ip]) == Some(ip);
    assert FirstDhcpRange(ip.ranges.value) == Some((start, end));
  }

  /** A /24 network with a DHCP range of two addresses. */
  function TwoSlots(start: uint32): NetworkIP
    requires start < MAX_UINT32
  {
    NetworkIP("inet", FormatIPv4(start), FormatIPv4(0xFFFF_FF00), Some([DhcpRange(FormatIPv4(start), FormatIPv4(start + 1))]))
  }

  /** Sums that share their home in a block of two slots but not their MAC. */
  function ZeroOrTwo(n: string): nat {
    if n == "x" then 0 else 2
  }

  lemma TwoSlotsRange(start: uint32)
    requires start < MAX_UINT32
    ensures CandidatesOf([TwoSlots(start)]) == Some(Interval(start, start + 1))
  {
    ParseFormat(start);
    ParseFormat(start + 1);
    ParseFormat(0xFFFF_FF00);
    RangeNetwork(TwoSlots(start), start, start + 1);
  }

  /** Such machines exist: on every network with two candidates, with those sums, x and y meet the conditions of ReleaseCanMove. */
  lemma SharersExist(ips: seq<NetworkIP>)
    requires CandidatesOf(ips).Some? && |CandidatesOf(ips).value| == 2
    ensures var a := AddressingOf(ips, ZeroOrTwo);
            && GoodBlock(a.block) && |a.block| == 2 && a.sum("x") % |a.block| == a.sum("y") % |a.block|
            && !EqualFold(a.mac("x"), a.mac("y"))
  {
    BlockIsGood(ips);
    MacsAgree(0, 2);
  }

  /** The move happens on a real network: with two slots, y is kept behind x and moves home once x is released. */
  lemma ReleaseMoves(start: uint32, f: NetFaults)
    requires start < MAX_UINT32 && f.read && f.update.Done?
    ensures var a := AddressingOf([TwoSlots(start)], ZeroOrTwo);
            |a.block| == 2 &&
            var home, second := SlotIP(a.block, 0, 0), SlotIP(a.block, 2, 1);
            var hosts := [HostEntry(a.mac("x"), "x", home), HostEntry(a.mac("y"), "y", second)];
            && home != second && PlanHostUpdate(a, hosts, "y") == Keep(second)
            && PlanHostUpdate(a, Release(a, hosts, "x", f).hosts, "y") == Modify(home)
  {
    TwoSlotsRange(start);
    SharersExist([TwoSlots(start)]);
    ReleaseCanMove(AddressingOf([TwoSlots(start)], ZeroOrTwo), "x", "y", f);
  }
}
