/** The host table over whole lifecycles: every event is at most one reservation or release of its own machine. */
module Tables {
  import opened Candidates
  import opened Dhcp
  import opened Naming
  import opened Reservation
  import opened Ledger
  import opened Host
  import opened HostFacts
  import opened Controller
  import opened Lifecycle
  import opened Leaks
  import opened Identity

  ghost function NamesOf(g: Setting, ks: set<Key>): set<string> {
    set k | k in ks :: g.name(k)
  }

  /** A pass changes the table by one release, when the machine is being deleted, or by one reservation. */
  lemma PassIsTableOp(g: Setting, h: Host, k: Key, m: Machine, p: Pass)
    ensures var hosts', n := Reconciled(g, h, k, m, p).host.hosts, g.name(k);
            hosts' in {h.hosts, if m.deleting then Release(g.site.a, h.hosts, n, p.delete.net).hosts
                                else Reserve(g.site.a, h.hosts, n, p.create.net).hosts}
  {
    if Reconciled(g, h, k, m, p).host != h {
      if m.deleting {
        DeleteHasShape(g.site, h, g.name(k), p.delete);
      } else if p.bootstrap.Data? {
        CreateLeftovers(g.site, h, ConfigOf(g, k, m, p.bootstrap.userData), p.create);
      }
    }
  }

  lemma EventIsTableOp(g: Setting, w: World, e: Event) returns (ops: seq<TableOp>)
    ensures Next(g, w, e).host.hosts == ApplyOps(g.site.a, w.host.hosts, ops)
    ensures ops != [] ==> e.Reconciles? && forall o :: o in ops ==> o.x == g.name(e.k)
  {
    ops := [];
    if e.Reconciles? && e.k in w.objects && Next(g, w, e).host.hosts != w.host.hosts {
      var m, n := w.objects[e.k], g.name(e.k);
      PassIsTableOp(g, w.host, e.k, m, e.p);
      ops := [if m.deleting then ReleaseOp(n, e.p.delete.net) else ReserveOp(n, e.p.create.net)];
      assert ApplyOps(g.site.a, w.host.hosts, ops) == ApplyOp(g.site.a, w.host.hosts, ops[0]);
    }
  }

  lemma {:induction false} ApplyOpsConcat(a: Addressing, hosts: seq<HostEntry>, s: seq<TableOp>, t: seq<TableOp>)
    ensures ApplyOps(a, hosts, s + t) == ApplyOps(a, ApplyOps(a, hosts, s), t)
    decreases |s|
  {
    if s == [] {
      assert s + t == t;
    } else {
      assert (s + t)[1..] == s[1..] + t;
      ApplyOpsConcat(a, ApplyOp(a, hosts, s[0]), s[1..], t);
    }
  }

  lemma {:induction false} RunIsTableRun(g: Setting, ks: set<Key>, w: World, es: seq<Event>) returns (ops: seq<TableOp>)
    requires forall e :: e in es ==> KeyOf(e, ks)
    ensures Exec(g, w, es).host.hosts == ApplyOps(g.site.a, w.host.hosts, ops)
    ensures forall o :: o in ops ==> o.x in NamesOf(g, ks)
    decreases |es|
  {
    if es == [] {
      ops := [];
    } else {
      var first := EventIsTableOp(g, w, es[0]);
      assert KeyOf(es[0], ks);
      forall o | o in first ensures o.x in NamesOf(g, ks) { assert es[0].k in ks; }
      var rest := RunIsTableRun(g, ks, Next(g, w, es[0]), es[1..]);
      ops := first + rest;
      ApplyOpsConcat(g.site.a, w.host.hosts, first, rest);
    }
  }

  /**
   In every lifecycle of any machines that share no names, from a host whose table is sane and holds
   nothing of theirs: the foreign entries stay exactly as they were, and beside them there is one
   entry, with its own address of the block, for each machine that is bound.
   */
  lemma LifecycleConservesTable(g: Setting, ks: set<Key>, before: Host, es: seq<Event>)
    requires GoodBlock(g.site.a.block) && Sane(before.hosts) && Disjoint(g, ks) && forall e :: e in es ==> KeyOf(e, ks)
    requires forall k :: k in ks ==> !HasMac(before.hosts, g.site.a.mac(g.name(k)))
    ensures var end, ms := Exec(g, World(map[], before), es).host.hosts, NamesOf(g, ks);
            && TableInv(g.site.a, ms, end) && Foreign(g.site.a, ms, end) == before.hosts
            && |end| == |before.hosts| + |Bound(g.site.a, ms, end)|
  {
    var ms := NamesOf(g, ks);
    forall x, y | x in ms && y in ms && x != y ensures !EqualFold(g.site.a.mac(x), g.site.a.mac(y)) {
      var j :| j in ks && g.name(j) == x;
      var k :| k in ks && g.name(k) == y;
      ApartIff(g, j, k);
    }
    var ops := RunIsTableRun(g, ks, World(map[], before), es);
    TableConserved(g.site.a, ms, before.hosts, ops);
  }

  lemma {:induction false} OthersLength(hosts: seq<HostEntry>, mac: string)
    ensures |Others(hosts, mac)| + (if HasMac(hosts, mac) then 1 else 0) <= |hosts|
  {
    if hosts != [] { OthersLength(hosts[1..], mac); }
  }

  /**
   If the block has a slot for every foreign entry and every machine, then in every lifecycle of those
   machines, at any time, each of them can be given an address.
   */
  lemma AddressesNeverRunOut(g: Setting, ks: set<Key>, before: Host, es: seq<Event>, k: Key)
    requires GoodBlock(g.site.a.block) && Sane(before.hosts) && Disjoint(g, ks) && forall e :: e in es ==> KeyOf(e, ks)
    requires forall j :: j in ks ==> !HasMac(before.hosts, g.site.a.mac(g.name(j)))
    requires |before.hosts| + |NamesOf(g, ks)| <= |g.site.a.block| && k in ks
    ensures |Others(Exec(g, World(map[], before), es).host.hosts, g.site.a.mac(g.name(k)))| < |g.site.a.block|
    ensures !PlanHostUpdate(g.site.a, Exec(g, World(map[], before), es).host.hosts, g.name(k)).Full?
  {
    LifecycleConservesTable(g, ks, before, es);
    var a, x := g.site.a, g.name(k);
    var end := Exec(g, World(map[], before), es).host.hosts;
    RoomLeft(a, NamesOf(g, ks), end, x, |before.hosts|);
    AllocateSucceeds(end, a.block, a.sum(x), a.mac(x));
  }

  lemma RoomLeft(a: Addressing, ms: set<string>, hosts: seq<HostEntry>, x: string, foreign: nat)
    requires x in ms && |hosts| == foreign + |Bound(a, ms, hosts)| && foreign + |ms| <= |a.block|
    ensures |Others(hosts, a.mac(x))| < |a.block|
  {
    var bound := Bound(a, ms, hosts).Keys;
    OthersLength(hosts, a.mac(x));
    if HasMac(hosts, a.mac(x)) {
      SubsetSize(bound, ms);
    } else {
      SubsetSize(bound, ms - {x});
    }
  }

  // ---- no address twice ----

  lemma {:induction false} AttentiveKeys(g: Setting, ks: set<Key>, w: World, es: seq<Event>)
    requires AlwaysAttentive(g, ks, w, es)
    ensures forall e :: e in es ==> KeyOf(e, ks)
    decreases |es|
  {
    if es != [] { AttentiveKeys(g, ks, Next(g, w, es[0]), es[1..]); }
  }

  /**
   In every run, a machine that has a domain holds an address of the block, and no other MAC has that
   address in the table: neither another machine's nor a foreign one.
   */
  lemma AddressIsExclusive(g: Setting, ks: set<Key>, before: Host, es: seq<Event>, k: Key, mac: string)
    requires GoodBlock(g.site.a.block) && Sane(before.hosts) && Disjoint(g, ks) && k in ks
    requires forall j :: j in ks ==> g.name(j) !in before.domains && !HasMac(before.hosts, g.site.a.mac(g.name(j)))
    requires AlwaysAttentive(g, ks, World(map[], before), es)
    requires g.name(k) in Exec(g, World(map[], before), es).host.domains
    ensures var hosts, own := Exec(g, World(map[], before), es).host.hosts, g.site.a.mac(g.name(k));
            && HasMac(hosts, own) && EntryOf(hosts, own).value.ip in g.site.a.block
            && (HasMac(hosts, mac) && !EqualFold(mac, own) ==> EntryOf(hosts, mac).value.ip != EntryOf(hosts, own).value.ip)
  {
    AttentiveKeys(g, ks, World(map[], before), es);
    DomainsAreBacked(g, ks, before, es, k);
    LifecycleConservesTable(g, ks, before, es);
    var hosts := Exec(g, World(map[], before), es).host.hosts;
    if HasMac(hosts, mac) && !EqualFold(mac, g.site.a.mac(g.name(k))) {
      assert g.name(k) in Bound(g.site.a, NamesOf(g, ks), hosts);
      BindingsInjective(g.site.a, NamesOf(g, ks), hosts, g.name(k), mac);
    }
  }

  /** In every run, two machines that both have domains hold different addresses. */
  lemma LiveAddressesDiffer(g: Setting, ks: set<Key>, before: Host, es: seq<Event>, j: Key, k: Key)
    requires GoodBlock(g.site.a.block) && Sane(before.hosts) && Disjoint(g, ks) && j in ks && k in ks && j != k
    requires forall i :: i in ks ==> g.name(i) !in before.domains && !HasMac(before.hosts, g.site.a.mac(g.name(i)))
    requires AlwaysAttentive(g, ks, World(map[], before), es)
    requires var h := Exec(g, World(map[], before), es).host; g.name(j) in h.domains && g.name(k) in h.domains
    ensures var hosts, mac := Exec(g, World(map[], before), es).host.hosts, x => g.site.a.mac(g.name(x));
            && HasMac(hosts, mac(j)) && HasMac(hosts, mac(k))
            && EntryOf(hosts, mac(j)).value.ip != EntryOf(hosts, mac(k)).value.ip
  {
    ApartIff(g, j, k);
    AddressIsExclusive(g, ks, before, es, j, g.site.a.mac(g.name(k)));
    AddressIsExclusive(g, ks, before, es, k, g.site.a.mac(g.name(j)));
  }

  // ---- the setting of a real deployment ----

  function SettingOf(sha: string -> Digest, fnv: string -> nat, images: set<string>, ips: seq<NetworkIP>): Setting {
    Setting(Site(images, AddressingOf(ips, fnv)), k => DomainName(sha, k))
  }

  /** In a deployment the block is always well formed, and two machines are apart iff 24 bits of their names' sums differ. */
  lemma DeployedApart(sha: string -> Digest, fnv: string -> nat, images: set<string>, ips: seq<NetworkIP>, j: Key, k: Key)
    ensures var g := SettingOf(sha, fnv, images, ips);
            && GoodBlock(g.site.a.block)
            && (Apart(g, j, k) <==> fnv(DomainName(sha, j)) % 0x100_0000 != fnv(DomainName(sha, k)) % 0x100_0000)
  {
    BlockIsGood(ips);
    ApartIff(SettingOf(sha, fnv, images, ips), j, k);
    MacsAgree(fnv(DomainName(sha, j)), fnv(DomainName(sha, k)));
  }
}
