/** Reserving and releasing machine addresses in a network's DHCP host table, and what every run of them keeps. */
module Reservation {
  import opened Base
  import opened Candidates
  import opened Dhcp
  import opened Naming

  /** The slots of a network, and the MAC and the hash sum of every domain name. */
  datatype Addressing = Addressing(block: seq<string>, mac: string -> string, sum: string -> nat)

  function BlockOf(ips: seq<NetworkIP>): seq<string> {
    match CandidatesOf(ips)
    case None => []
    case Some(c) => Formatted(c)
  }

  function AddressingOf(ips: seq<NetworkIP>, fnv: string -> nat): Addressing {
    Addressing(BlockOf(ips), n => DeriveMac(fnv(n)), fnv)
  }

  /** Every network yields a well-formed block: distinct slots, written canonically. */
  lemma BlockIsGood(ips: seq<NetworkIP>)
    ensures GoodBlock(BlockOf(ips))
  {
    if CandidatesOf(ips).Some? {
      CandidatesAscend(ips);
      FormattedIsGood(CandidatesOf(ips).value);
    }
  }

  // ---- one update ----

  datatype Command = AddLast | ModifyHost | DeleteHost

  /** The table without the first entry of a MAC. */
  function Without(hosts: seq<HostEntry>, mac: string): seq<HostEntry> {
    var i := FindMac(hosts, mac);
    if i < |hosts| then hosts[..i] + hosts[i + 1..] else hosts
  }

  /** The effect assumed of libvirt's Network.Update on the host section: the entry's MAC selects what is changed. */
  function Updated(hosts: seq<HostEntry>, cmd: Command, e: HostEntry): seq<HostEntry> {
    var i := FindMac(hosts, e.mac);
    match cmd
    case AddLast => hosts + [e]
    case ModifyHost => if i < |hosts| then hosts[i := e] else hosts
    case DeleteHost => Without(hosts, e.mac)
  }

  datatype Plan = Full | Keep(ip: string) | Add(ip: string) | Modify(ip: string)

  function PlanHostUpdate(a: Addressing, hosts: seq<HostEntry>, x: string): Plan {
    match Allocate(hosts, a.block, a.sum(x), a.mac(x))
    case None => Full
    case Some(ip) =>
      var existing := EntryOf(hosts, a.mac(x));
      if existing.Some? && existing.value.ip != "" && EqualFold(existing.value.ip, ip) then Keep(ip)
      else if existing.Some? then Modify(ip)
      else Add(ip)
  }

  /** Outcomes of the calls one reservation or release makes: reading the network and updating it. */
  datatype NetFaults = NetFaults(read: bool, update: Effect)

  datatype Reserved = Reserved(hosts: seq<HostEntry>, ip: Option<string>)
  datatype Released = Released(hosts: seq<HostEntry>, ok: bool)

  function Reserve(a: Addressing, hosts: seq<HostEntry>, x: string, f: NetFaults): Reserved {
    var plan := PlanHostUpdate(a, hosts, x);
    if !f.read || plan.Full? then Reserved(hosts, None)
    else if plan.Keep? then Reserved(hosts, Some(plan.ip))
    else
      var cmd := if plan.Add? then AddLast else ModifyHost;
      Reserved(if f.update.Took() then Updated(hosts, cmd, HostEntry(a.mac(x), x, plan.ip)) else hosts,
               if f.update.Done? then Some(plan.ip) else None)
  }

  function Release(a: Addressing, hosts: seq<HostEntry>, x: string, f: NetFaults): Released {
    var existing := EntryOf(hosts, a.mac(x));
    if !f.read then Released(hosts, false)
    else if existing.None? then Released(hosts, true)
    else Released(if f.update.Took() then Updated(hosts, DeleteHost, HostEntry(a.mac(x), x, existing.value.ip)) else hosts,
                  f.update.Done?)
  }

  /** The network object: its address configuration is fixed, its host table changes through Update only. */
  class DhcpNetwork {
    const ips: seq<NetworkIP>
    const fnv: string -> nat
    var hosts: seq<HostEntry>

    constructor (ips: seq<NetworkIP>, fnv: string -> nat, hosts: seq<HostEntry>)
      ensures this.ips == ips && this.fnv == fnv && this.hosts == hosts
    {
      this.ips, this.fnv, this.hosts := ips, fnv, hosts;
    }

    ghost function Scheme(): Addressing { AddressingOf(ips, fnv) }

    /** The range loop of the Go code returns on this network, see RangeLoopExits. */
    predicate Converges() {
      var g := DecidingRange(ips);
      g.Some? ==> g.value.1 < g.value.0 || g.value.1 < MAX_UINT32
    }

    method Update(cmd: Command, e: HostEntry, eff: Effect) returns (ok: bool)
      modifies this
      ensures hosts == if eff.Took() then Updated(old(hosts), cmd, e) else old(hosts)
      ensures ok == eff.Done?
    {
      if eff.Took() {
        hosts := Updated(hosts, cmd, e);
      }
      ok := eff.Done?;
    }

    method PlanUpdate(x: string) returns (plan: Plan)
      requires Converges()
      ensures plan == PlanHostUpdate(Scheme(), hosts, x)
    {
      var mac := DeriveMac(fnv(x));
      var candidates := AllocationCandidates(ips);
      if candidates.None? {
        return Full;
      }
      var ip := AllocateMachineIPIn(hosts, candidates.value, fnv(x), mac);
      if ip.None? {
        return Full;
      }
      var existing := HostEntryInNetwork(hosts, mac);
      if existing.Some? && existing.value.ip != "" && EqualFold(existing.value.ip, ip.value) {
        return Keep(ip.value);
      }
      return if existing.Some? then Modify(ip.value) else Add(ip.value);
    }

    method ReserveMachineIP(x: string, f: NetFaults) returns (r: Option<string>)
      requires Converges()
      modifies this
      ensures Reserved(hosts, r) == Reserve(Scheme(), old(hosts), x, f)
    {
      if !f.read {
        return None;
      }
      var plan := PlanUpdate(x);
      if plan.Full? {
        return None;
      }
      if plan.Keep? {
        return Some(plan.ip);
      }
      var ok := Update(if plan.Add? then AddLast else ModifyHost, HostEntry(DeriveMac(fnv(x)), x, plan.ip), f.update);
      return if ok then Some(plan.ip) else None;
    }

    method ReleaseMachineIP(x: string, f: NetFaults) returns (ok: bool)
      modifies this
      ensures Released(hosts, ok) == Release(Scheme(), old(hosts), x, f)
    {
      if !f.read {
        return false;
      }
      var mac := DeriveMac(fnv(x));
      var existing := HostEntryInNetwork(hosts, mac);
      if existing.None? {
        return true;
      }
      ok := Update(DeleteHost, HostEntry(mac, x, existing.value.ip), f.update);
    }
  }

  // ---- the probe chain ----

  /** x's entry sits at some probe distance, and all slots before it are held by other MACs. */
  ghost predicate ChainAt(a: Addressing, hosts: seq<HostEntry>, x: string, ip: string, d: nat) {
    && d < |a.block| && ip == SlotIP(a.block, a.sum(x), d)
    && forall j :: 0 <= j < d ==> TakenByOther(hosts, SlotIP(a.block, a.sum(x), j), a.mac(x))
  }

  /** The linear-probing invariant for x; a machine without entry satisfies it. */
  ghost predicate Settled(a: Addressing, hosts: seq<HostEntry>, x: string) {
    HasMac(hosts, a.mac(x)) ==> exists d: nat :: ChainAt(a, hosts, x, EntryOf(hosts, a.mac(x)).value.ip, d)
  }

  lemma AllocatedChain(a: Addressing, hosts: seq<HostEntry>, x: string) returns (d: nat)
    requires GoodBlock(a.block) && DistinctIPs(hosts) && Allocate(hosts, a.block, a.sum(x), a.mac(x)).Some?
    ensures ChainAt(a, hosts, x, Allocate(hosts, a.block, a.sum(x), a.mac(x)).value, d)
    ensures !TakenByOther(hosts, SlotIP(a.block, a.sum(x), d), a.mac(x))
  {
    d := Probe(Owners(hosts), a.block, a.sum(x), a.mac(x), 0);
    forall j | 0 <= j <= d ensures j < d <==> TakenByOther(hosts, SlotIP(a.block, a.sum(x), j), a.mac(x)) {
      UsableIff(hosts, SlotIP(a.block, a.sum(x), j), a.mac(x));
    }
  }

  /** A machine that has an entry is left alone by another reservation exactly when its probe chain is intact. */
  lemma KeepIffSettled(a: Addressing, hosts: seq<HostEntry>, x: string)
    requires GoodBlock(a.block) && Sane(hosts) && HasMac(hosts, a.mac(x))
    ensures PlanHostUpdate(a, hosts, x).Keep? <==> Settled(a, hosts, x)
    ensures Settled(a, hosts, x) ==> PlanHostUpdate(a, hosts, x) == Keep(EntryOf(hosts, a.mac(x)).value.ip)
  {
    var mac, i := a.mac(x), FindMac(hosts, a.mac(x));
    var ip := hosts[i].ip;
    if PlanHostUpdate(a, hosts, x).Keep? {
      var d := AllocatedChain(a, hosts, x);
      FoldPlain(ip, SlotIP(a.block, a.sum(x), d));
      assert ChainAt(a, hosts, x, ip, d);
    }
    if Settled(a, hosts, x) {
      var d: nat :| ChainAt(a, hosts, x, ip, d);
      assert !TakenByOther(hosts, ip, mac);
      forall j | 0 <= j <= d ensures j < d <==> !Usable(Owners(hosts), SlotIP(a.block, a.sum(x), j), mac) {
        UsableIff(hosts, SlotIP(a.block, a.sum(x), j), mac);
      }
      ProbeAt(Owners(hosts), a.block, a.sum(x), mac, d);
      FoldPlain(ip, ip);
    }
  }

  // ---- one reservation ----

  lemma FindMacAppend(hosts: seq<HostEntry>, e: HostEntry, mac: string)
    ensures FindMac(hosts + [e], mac) ==
            if HasMac(hosts, mac) then FindMac(hosts, mac) else if EqualFold(e.mac, mac) then |hosts| else |hosts| + 1
  {
    var i := FindMac(hosts + [e], mac);
    assert forall j :: 0 <= j < |hosts| ==> (hosts + [e])[j] == hosts[j];
    var k := FindMac(hosts, mac);
    if k < |hosts| { assert EqualFold((hosts + [e])[k].mac, mac); }
    if i < |hosts| { assert EqualFold(hosts[i].mac, mac); }
    assert (hosts + [e])[|hosts|] == e;
  }

  lemma TakenMonotone(hosts: seq<HostEntry>, e: HostEntry, ip: string, mac: string)
    ensures TakenByOther(hosts, ip, mac) ==> TakenByOther(hosts + [e], ip, mac)
  {
    if TakenByOther(hosts, ip, mac) {
      var i :| 0 <= i < |hosts| && hosts[i].ip == ip && !EqualFold(hosts[i].mac, mac);
      assert (hosts + [e])[i] == hosts[i];
    }
  }

  /** An addition gives x exactly the planned slot and keeps the table sane. */
  lemma AddSettles(a: Addressing, hosts: seq<HostEntry>, x: string)
    requires GoodBlock(a.block) && Sane(hosts) && PlanHostUpdate(a, hosts, x).Add?
    ensures var e := HostEntry(a.mac(x), x, PlanHostUpdate(a, hosts, x).ip);
            Sane(hosts + [e]) && EntryOf(hosts + [e], a.mac(x)) == Some(e) && e.ip in a.block && Settled(a, hosts + [e], x)
  {
    var ip := PlanHostUpdate(a, hosts, x).ip;
    var e := HostEntry(a.mac(x), x, ip);
    var d := AllocatedChain(a, hosts, x);
    FindMacAppend(hosts, e, a.mac(x));
    forall j | 0 <= j < d ensures TakenByOther(hosts + [e], SlotIP(a.block, a.sum(x), j), a.mac(x)) {
      TakenMonotone(hosts, e, SlotIP(a.block, a.sum(x), j), a.mac(x));
    }
    assert ChainAt(a, hosts + [e], x, ip, d);
  }

  /** A modification moves x's entry to the planned slot, in place, and keeps the table sane. */
  lemma ModifySettles(a: Addressing, hosts: seq<HostEntry>, x: string)
    requires GoodBlock(a.block) && Sane(hosts) && PlanHostUpdate(a, hosts, x).Modify?
    ensures var e := HostEntry(a.mac(x), x, PlanHostUpdate(a, hosts, x).ip);
            var hosts' := hosts[FindMac(hosts, a.mac(x)) := e];
            Sane(hosts') && EntryOf(hosts', a.mac(x)) == Some(e) && e.ip in a.block && Settled(a, hosts', x)
  {
    var mac, i := a.mac(x), FindMac(hosts, a.mac(x));
    var e := HostEntry(mac, x, PlanHostUpdate(a, hosts, x).ip);
    var hosts' := hosts[i := e];
    var d := AllocatedChain(a, hosts, x);
    assert FindMac(hosts', mac) == i by {
      assert EqualFold(hosts'[i].mac, mac);
      assert forall j :: 0 <= j < i ==> hosts'[j] == hosts[j];
    }
    forall j | 0 <= j < d ensures TakenByOther(hosts', SlotIP(a.block, a.sum(x), j), mac) {
      var k :| 0 <= k < |hosts| && hosts[k].ip == SlotIP(a.block, a.sum(x), j) && !EqualFold(hosts[k].mac, mac);
      assert hosts'[k] == hosts[k];
    }
    assert ChainAt(a, hosts', x, e.ip, d);
  }

  /** What a reservation does to its own machine, whatever the calls answer. */
  lemma ReserveOwn(a: Addressing, hosts: seq<HostEntry>, x: string, f: NetFaults)
    requires GoodBlock(a.block) && Sane(hosts)
    ensures var r := Reserve(a, hosts, x, f);
            && Sane(r.hosts)
            && (r.hosts != hosts || r.ip.Some? ==>
                  && Settled(a, r.hosts, x) && HasMac(r.hosts, a.mac(x))
                  && EntryOf(r.hosts, a.mac(x)).value.ip in a.block)
            && (r.ip.Some? ==> EntryOf(r.hosts, a.mac(x)).value.ip == r.ip.value)
  {
    var plan := PlanHostUpdate(a, hosts, x);
    if plan.Add? {
      AddSettles(a, hosts, x);
    } else if plan.Modify? {
      ModifySettles(a, hosts, x);
    } else if plan.Keep? {
      KeepIffSettled(a, hosts, x);
      var d := AllocatedChain(a, hosts, x);
    }
  }

  /** What is planned: nothing without a free slot, and otherwise no update exactly when the entry has the allocated address. */
  lemma PlanMeans(a: Addressing, hosts: seq<HostEntry>, x: string)
    requires GoodBlock(a.block)
    ensures var plan, ip, entry := PlanHostUpdate(a, hosts, x), Allocate(hosts, a.block, a.sum(x), a.mac(x)), EntryOf(hosts, a.mac(x));
            && (plan.Full? <==> ip.None?) && (!plan.Full? ==> plan.ip == ip.value)
            && (plan.Keep? <==> ip.Some? && entry.Some? && entry.value.ip == ip.value)
            && (plan.Add? <==> ip.Some? && entry.None?)
  {
    if Allocate(hosts, a.block, a.sum(x), a.mac(x)).Some? && HasMac(hosts, a.mac(x)) {
      FoldPlain(EntryOf(hosts, a.mac(x)).value.ip, Allocate(hosts, a.block, a.sum(x), a.mac(x)).value);
    }
  }

  /** When a reservation answers an address, and the entry it writes when its update takes effect. */
  lemma ReserveWrites(a: Addressing, hosts: seq<HostEntry>, x: string, f: NetFaults)
    ensures var plan, r := PlanHostUpdate(a, hosts, x), Reserve(a, hosts, x, f);
            && r.ip == (if f.read && !plan.Full? && (plan.Keep? || f.update.Done?) then Some(plan.ip) else None)
            && (if f.read && (plan.Add? || plan.Modify?) && f.update.Took()
                then EntryOf(r.hosts, a.mac(x)) == Some(HostEntry(a.mac(x), x, plan.ip))
                else r.hosts == hosts)
  {
    var plan := PlanHostUpdate(a, hosts, x);
    if plan.Add? { FindMacAppend(hosts, HostEntry(a.mac(x), x, plan.ip), a.mac(x)); }
    if plan.Modify? {
      var i := FindMac(hosts, a.mac(x));
      var hosts' := hosts[i := HostEntry(a.mac(x), x, plan.ip)];
      assert EqualFold(hosts'[i].mac, a.mac(x)) && forall j :: 0 <= j < i ==> hosts'[j] == hosts[j];
      assert FindMac(hosts', a.mac(x)) == i;
    }
  }

  /** When a release reports success, and when it changes the table. */
  lemma ReleaseReports(a: Addressing, hosts: seq<HostEntry>, x: string, f: NetFaults)
    ensures var r := Release(a, hosts, x, f);
            && (r.ok <==> f.read && (HasMac(hosts, a.mac(x)) ==> f.update.Done?))
            && (r.hosts != hosts <==> f.read && HasMac(hosts, a.mac(x)) && f.update.Took())
  {
  }

  /** Reserving again, right after a reservation that took hold, changes nothing and answers the same address. */
  lemma ReserveIdempotent(a: Addressing, hosts: seq<HostEntry>, x: string, f: NetFaults, g: NetFaults)
    requires GoodBlock(a.block) && Sane(hosts) && g.read
    requires var r := Reserve(a, hosts, x, f); r.hosts != hosts || r.ip.Some?
    ensures var r := Reserve(a, hosts, x, f);
            Reserve(a, r.hosts, x, g) == Reserved(r.hosts, Some(PlanHostUpdate(a, hosts, x).ip))
  {
    var r := Reserve(a, hosts, x, f);
    ReserveOwn(a, hosts, x, f);
    KeepIffSettled(a, r.hosts, x);
    var plan := PlanHostUpdate(a, hosts, x);
    if plan.Add? { AddSettles(a, hosts, x); }
    if plan.Modify? { ModifySettles(a, hosts, x); }
    if plan.Keep? { KeepIffSettled(a, hosts, x); }
  }

  // ---- runs of reservations ----

  ghost predicate DistinctMachines(a: Addressing, ms: set<string>) {
    forall x, y :: x in ms && y in ms && x != y ==> !EqualFold(a.mac(x), a.mac(y))
  }

  ghost predicate AllSettled(a: Addressing, ms: set<string>, hosts: seq<HostEntry>) {
    forall x :: x in ms ==> Settled(a, hosts, x)
  }

  lemma AppendKeepsSettled(a: Addressing, hosts: seq<HostEntry>, e: HostEntry, y: string)
    requires Settled(a, hosts, y) && !EqualFold(e.mac, a.mac(y))
    ensures Settled(a, hosts + [e], y)
  {
    FindMacAppend(hosts, e, a.mac(y));
    if HasMac(hosts, a.mac(y)) {
      var ip := EntryOf(hosts, a.mac(y)).value.ip;
      var d: nat :| ChainAt(a, hosts, y, ip, d);
      forall j | 0 <= j < d ensures TakenByOther(hosts + [e], SlotIP(a.block, a.sum(y), j), a.mac(y)) {
        TakenMonotone(hosts, e, SlotIP(a.block, a.sum(y), j), a.mac(y));
      }
      assert EntryOf(hosts + [e], a.mac(y)).value.ip == ip;
      assert ChainAt(a, hosts + [e], y, ip, d);
    }
  }

  /** Among settled machines a reservation only ever appends. */
  lemma ReserveAppends(a: Addressing, ms: set<string>, hosts: seq<HostEntry>, x: string, f: NetFaults)
    requires GoodBlock(a.block) && DistinctMachines(a, ms) && x in ms
    requires Sane(hosts) && AllSettled(a, ms, hosts)
    ensures var hosts' := Reserve(a, hosts, x, f).hosts;
            hosts <= hosts' && Sane(hosts') && AllSettled(a, ms, hosts')
  {
    var r := Reserve(a, hosts, x, f);
    ReserveOwn(a, hosts, x, f);
    if r.hosts != hosts {
      if HasMac(hosts, a.mac(x)) { KeepIffSettled(a, hosts, x); }
      var e := HostEntry(a.mac(x), x, PlanHostUpdate(a, hosts, x).ip);
      assert r.hosts == hosts + [e];
      forall y | y in ms ensures Settled(a, r.hosts, y) {
        if y != x { AppendKeepsSettled(a, hosts, e, y); }
      }
    }
  }

  datatype ReserveCall = ReserveCall(x: string, f: NetFaults)

  function AfterReserves(a: Addressing, hosts: seq<HostEntry>, calls: seq<ReserveCall>): seq<HostEntry>
    decreases |calls|
  {
    if calls == [] then hosts
    else AfterReserves(a, Reserve(a, hosts, calls[0].x, calls[0].f).hosts, calls[1..])
  }

  /**
   In every run of reservations, with any failures, the table only grows at its end: no address of
   any machine ever moves. At the end every machine's probe chain is intact.
   */
  lemma {:induction false} ReservesNeverMove(a: Addressing, ms: set<string>, hosts: seq<HostEntry>, calls: seq<ReserveCall>)
    requires GoodBlock(a.block) && DistinctMachines(a, ms) && forall c :: c in calls ==> c.x in ms
    requires Sane(hosts) && AllSettled(a, ms, hosts)
    ensures var end := AfterReserves(a, hosts, calls);
            hosts <= end && Sane(end) && AllSettled(a, ms, end)
    decreases |calls|
  {
    if calls != [] {
      ReserveAppends(a, ms, hosts, calls[0].x, calls[0].f);
      ReservesNeverMove(a, ms, Reserve(a, hosts, calls[0].x, calls[0].f).hosts, calls[1..]);
    }
  }

  /** At any point of such a run, a machine that has an entry plans no update and is answered that entry's address. */
  lemma RepeatedReserveIsNoop(a: Addressing, ms: set<string>, hosts: seq<HostEntry>, calls: seq<ReserveCall>,
                              x: string, f: NetFaults)
    requires GoodBlock(a.block) && DistinctMachines(a, ms) && forall c :: c in calls ==> c.x in ms
    requires Sane(hosts) && AllSettled(a, ms, hosts) && x in ms && f.read
    requires HasMac(AfterReserves(a, hosts, calls), a.mac(x))
    ensures var end := AfterReserves(a, hosts, calls);
            Reserve(a, end, x, f) == Reserved(end, Some(EntryOf(end, a.mac(x)).value.ip))
  {
    ReservesNeverMove(a, ms, hosts, calls);
    KeepIffSettled(a, AfterReserves(a, hosts, calls), x);
  }
}
