/** The identity of a machine: provider ID, domain UUID and cloud-init instance ID agree, and a domain has what it needs. */
module Identity {
  import opened Dhcp
  import opened Naming
  import opened Reservation
  import opened Ledger
  import opened Host
  import opened HostFacts
  import opened Controller
  import opened Lifecycle
  import opened Leaks
  import opened Status

  /**
   What the host holds under the machine's names is that machine's: a domain with the UUID, the MAC and
   the volumes of c, a root disk on its image, and a cloud-init image that is empty or carries its identity.
   */
  predicate Agrees(s: Site, h: Host, c: Config) {
    && (c.name in h.domains ==>
          var d := h.domains[c.name];
          d.uuid == c.uuid && d.mac == s.a.mac(c.name) && d.disk == DiskName(c.name) && d.iso == IsoName(c.name))
    && (DiskName(c.name) in h.volumes ==> h.volumes[DiskName(c.name)] == RootDisk(c.image, c.DiskSize()))
    && (IsoName(c.name) in h.volumes ==>
          var v := h.volumes[IsoName(c.name)];
          v.CloudInit? && (v.seed.Some? ==> v.seed.value.instanceID == c.InstanceID() && v.seed.value.hostname == c.Hostname()))
  }

  /** A domain that is defined has its two volumes and an address of the block. */
  predicate Backed(s: Site, h: Host, name: string) {
    name in h.domains ==>
      && DiskName(name) in h.volumes && IsoName(name) in h.volumes
      && HasMac(h.hosts, s.a.mac(name)) && EntryOf(h.hosts, s.a.mac(name)).value.ip in s.a.block
  }

  /** The machine as the host should know it, but for the user data. */
  function Portrait(g: Setting, k: Key, m: Machine): Config {
    ConfigOf(g, k, m, [])
  }

  predicate FormedID(m: Machine) {
    m.providerID.Some? ==> m.providerID.value == PROVIDER_PREFIX + DomainUUID(m)
  }

  ghost predicate KeyInv(g: Setting, w: World, k: Key) {
    && (!Holds(w, k) ==> Gone(g.site, w.host, g.name(k)))
    && (k in w.objects ==> FormedID(w.objects[k]) && Agrees(g.site, w.host, Portrait(g, k, w.objects[k])))
  }

  /** The machines of a run share neither domain names nor MACs. */
  ghost predicate Disjoint(g: Setting, ks: set<Key>) {
    forall j, k :: j in ks && k in ks && j != k ==> Apart(g, j, k)
  }

  ghost predicate IdentityInv(g: Setting, ks: set<Key>, w: World) {
    && GoodBlock(g.site.a.block) && Sane(w.host.hosts) && Disjoint(g, ks)
    && (forall k :: k in w.objects ==> k in ks)
    && (forall k :: k in ks ==> KeyInv(g, w, k))
  }

  /** A move gives a new UID, so it must wait until the provider ID is stored or nothing on the host bears the old one. */
  predicate MoveIsSafe(g: Setting, w: World, e: Event) {
    e.Moved? && e.k in w.objects ==>
      || w.objects[e.k].providerID.Some?
      || (g.name(e.k) !in w.host.domains && !Seeded(w.host, g.name(e.k)))
  }

  /** A cloud-init image with content is on the host. */
  predicate Seeded(h: Host, name: string) {
    IsoName(name) in h.volumes && h.volumes[IsoName(name)].CloudInit? && h.volumes[IsoName(name)].seed.Some?
  }

  predicate KeyOf(e: Event, ks: set<Key>) {
    !e.DomainLost? && !e.DomainRuns? ==> e.k in ks
  }

  // ---- passes of k itself ----

  /** A completed preparation has made or found both volumes and reserved an address. */
  lemma PreparedIsBacked(s: Site, h: Host, c: Config, f: CreateFaults)
    requires GoodBlock(s.a.block) && Sane(h.hosts) && Prepare(s, h, c, f).ok
    ensures var h' := Prepare(s, h, c, f).host;
            && DiskName(c.name) in h'.volumes && IsoName(c.name) in h'.volumes
            && HasMac(h'.hosts, s.a.mac(c.name)) && EntryOf(h'.hosts, s.a.mac(c.name)).value.ip in s.a.block
  {
    ReserveOwn(s.a, h.hosts, c.name, f.net);
  }

  lemma IsoAgrees(s: Site, h: Host, c: Config, f: CreateFaults)
    requires Agrees(s, h, c)
    ensures Agrees(s, CreateMachine(s, h, c, f).host.(domains := map[]), c)
  {
    VolumeNamesDiffer(c.name, c.name);
    CreateLeftovers(s, h, c, f);
  }

  lemma CreateAgrees(s: Site, h: Host, c: Config, f: CreateFaults)
    requires c.name !in h.domains && Agrees(s, h, c)
    ensures Agrees(s, CreateMachine(s, h, c, f).host, c)
  {
    IsoAgrees(s, h, c, f);
    PrepareTouches(s, h.(log := h.log + [CreateCalled(c.name)]), c, f);
  }

  lemma CreateBacks(s: Site, h: Host, c: Config, f: CreateFaults)
    requires GoodBlock(s.a.block) && Sane(h.hosts) && c.name !in h.domains
    ensures Backed(s, CreateMachine(s, h, c, f).host, c.name)
  {
    var h0 := h.(log := h.log + [CreateCalled(c.name)]);
    PrepareTouches(s, h0, c, f);
    if Prepare(s, h0, c, f).ok { PreparedIsBacked(s, h0, c, f); }
  }

  lemma StartAgrees(s: Site, h: Host, c: Config, f: StartFaults)
    requires Agrees(s, h, c)
    ensures Agrees(s, StartMachine(h, c.name, f).host, c)
  {
  }

  lemma DomainKeepsFace(h: Host, name: string, f: DeleteFaults)
    requires name in DeleteDomain(h, name, f).host.domains
    ensures name in h.domains
    ensures var d, d' := h.domains[name], DeleteDomain(h, name, f).host.domains[name];
            d'.uuid == d.uuid && d'.mac == d.mac && d'.disk == d.disk && d'.iso == d.iso && d'.autostart == d.autostart
  {
  }

  lemma DeleteAgrees(s: Site, h: Host, h': Host, c: Config, f: DeleteFaults)
    requires DeleteShape(s, h, h', c.name, f) && Agrees(s, h, c)
    ensures Agrees(s, h', c)
  {
    if f.connect && c.name in h'.domains { DomainKeepsFace(h, c.name, f); }
  }

  /** When the domain step of a deletion reports success, libvirt had said whether a running domain is active. */
  predicate Watched(h: Host, name: string, f: DeleteFaults) {
    f.connect && DeleteDomain(h, name, f).ok && name in h.domains && h.domains[name].run.Active() ==> f.isActive
  }

  /** A domain that survives a deletion attempt keeps its volumes and its address. */
  lemma DeleteBacks(s: Site, h: Host, h': Host, name: string, f: DeleteFaults)
    requires DeleteShape(s, h, h', name, f) && Backed(s, h, name) && Watched(h, name, f)
    ensures Backed(s, h', name)
  {
    if f.connect {
      if DeleteDomain(h, name, f).ok { DeleteDomainLeaves(h, name, f); }
      if name in h'.domains { DomainKeepsFace(h, name, f); }
    }
  }

  lemma DeleteKeepsSane(s: Site, h: Host, h': Host, name: string, f: DeleteFaults)
    requires DeleteShape(s, h, h', name, f) && Sane(h.hosts)
    ensures Sane(h'.hosts)
  {
    if h'.hosts != h.hosts { ReleaseOwn(s.a, h.hosts, name, f.net); }
  }

  /** No event brings duplicates into the host table. */
  lemma NextKeepsSane(g: Setting, w: World, e: Event)
    requires GoodBlock(g.site.a.block) && Sane(w.host.hosts)
    ensures Sane(Next(g, w, e).host.hosts)
  {
    var h, h' := w.host, Next(g, w, e).host;
    if h'.hosts != h.hosts {
      var m, n := w.objects[e.k], g.name(e.k);
      if m.deleting {
        DeleteHasShape(g.site, h, n, e.p.delete);
        DeleteKeepsSane(g.site, h, h', n, e.p.delete);
      } else {
        CreateKeepsSane(g.site, h, ConfigOf(g, e.k, m, e.p.bootstrap.userData), e.p.create);
      }
    }
  }

  lemma OwnPass(g: Setting, w: World, k: Key, p: Pass)
    requires DistinctMacs(w.host.hosts) && k in w.objects && KeyInv(g, w, k)
    requires Careful(g, w, Reconciles(k, p))
    ensures KeyInv(g, ReconcilePass(g, w, k, p), k)
  {
    var m, n := w.objects[k], g.name(k);
    var w' := ReconcilePass(g, w, k, p);
    PassKeepsUUID(g, w.host, k, m, p);
    OwnPassAgrees(g, w, k, p);
    if !Holds(w', k) && Holds(w, k) {
      FinalizerDropped(g, w, k, p);
      FinalizerGoesLast(g, w, k, p);
    } else if !Holds(w', k) && w'.host != w.host {
      DeleteShrinks(g.site, w.host, n, p.delete);
    }
  }

  lemma OwnPassAgrees(g: Setting, w: World, k: Key, p: Pass)
    requires k in w.objects && KeyInv(g, w, k)
    ensures Agrees(g.site, ReconcilePass(g, w, k, p).host, Portrait(g, k, w.objects[k]))
  {
    var m, n, h := w.objects[k], g.name(k), w.host;
    if ReconcilePass(g, w, k, p).host != h {
      if m.deleting {
        DeleteHasShape(g.site, h, n, p.delete);
        DeleteAgrees(g.site, h, DeleteMachine(g.site, h, n, p.delete).host, Portrait(g, k, m), p.delete);
      } else if StateOf(h, n).NotFound? {
        CreateAgrees(g.site, h, ConfigOf(g, k, m, p.bootstrap.userData), p.create);
      } else {
        StartAgrees(g.site, h, Portrait(g, k, m), p.start);
      }
    }
  }

  // ---- passes of other machines ----

  /** What a change confined to j's name leaves of a machine k that is apart from j: all of it. */
  lemma LeftAsIs(g: Setting, h: Host, h': Host, j: Key, k: Key)
    requires Apart(g, j, k) && OnlyTouches(g.site, h, h', g.name(j))
    ensures var n := g.name(k);
            && (n in h.domains <==> n in h'.domains) && (n in h.domains ==> h'.domains[n] == h.domains[n])
            && (DiskName(n) in h.volumes <==> DiskName(n) in h'.volumes)
            && (DiskName(n) in h.volumes ==> h'.volumes[DiskName(n)] == h.volumes[DiskName(n)])
            && (IsoName(n) in h.volumes <==> IsoName(n) in h'.volumes)
            && (IsoName(n) in h.volumes ==> h'.volumes[IsoName(n)] == h.volumes[IsoName(n)])
            && EntryOf(h'.hosts, g.site.a.mac(n)) == EntryOf(h.hosts, g.site.a.mac(n))
  {
    var n, o := g.name(j), g.name(k);
    ApartIff(g, j, k);
    SameDomain(h.domains, h'.domains, {n}, o);
    VolumeNamesDiffer(n, o);
    VolumeNamesDiffer(o, n);
    SameDomain(h.volumes, h'.volumes, {DiskName(n), IsoName(n)}, DiskName(o));
    SameDomain(h.volumes, h'.volumes, {DiskName(n), IsoName(n)}, IsoName(o));
    EntryAmongOthers(h.hosts, g.site.a.mac(n), g.site.a.mac(o));
    EntryAmongOthers(h'.hosts, g.site.a.mac(n), g.site.a.mac(o));
  }

  lemma StepAside(g: Setting, w: World, w': World, j: Key, k: Key)
    requires Apart(g, j, k) && OnlyTouches(g.site, w.host, w'.host, g.name(j)) && KeyInv(g, w, k)
    requires k in w.objects <==> k in w'.objects
    requires k in w.objects ==> w'.objects[k] == w.objects[k]
    ensures KeyInv(g, w', k)
  {
    LeftAsIs(g, w.host, w'.host, j, k);
  }

  lemma SameDomain<V>(m: map<string, V>, m': map<string, V>, ks: set<string>, x: string)
    requires m - ks == m' - ks && x !in ks
    ensures x in m <==> x in m'
    ensures x in m ==> m[x] == m'[x]
  {
    assert x in m <==> x in m - ks;
    assert x in m' <==> x in m' - ks;
    if x in m { assert (m - ks)[x] == (m' - ks)[x]; }
  }

  // ---- every event ----

  lemma OtherPassKeepsKey(g: Setting, w: World, j: Key, p: Pass, k: Key)
    requires DistinctMacs(w.host.hosts) && j in w.objects && j != k && Apart(g, j, k) && KeyInv(g, w, k)
    ensures KeyInv(g, ReconcilePass(g, w, j, p), k)
  {
    PassTouches(g, w.host, j, w.objects[j], p);
    StepAside(g, w, ReconcilePass(g, w, j, p), j, k);
  }

  lemma PassKeepsIdentity(g: Setting, ks: set<Key>, w: World, w': World, j: Key, p: Pass)
    requires IdentityInv(g, ks, w) && j in ks && Careful(g, w, Reconciles(j, p)) && w' == Next(g, w, Reconciles(j, p))
    ensures IdentityInv(g, ks, w')
  {
    NextKeepsSane(g, w, Reconciles(j, p));
    forall k | k in ks ensures KeyInv(g, w', k) {
      if j in w.objects {
        if k == j { OwnPass(g, w, j, p); } else { OtherPassKeepsKey(g, w, j, p, k); }
      }
    }
    assert forall k :: k in w'.objects ==> k in w.objects;
  }

  /** Events of users, the API server and the host, apart from passes. */
  lemma OtherKeepsKey(g: Setting, w: World, e: Event, k: Key)
    requires !e.Reconciles? && KeyInv(g, w, k) && MoveIsSafe(g, w, e)
    ensures KeyInv(g, Next(g, w, e), k)
  {
    var w' := Next(g, w, e);
    if !e.DomainLost? && !e.DomainRuns? {
      if e.k != k { assert k in w.objects ==> w'.objects[k] == w.objects[k]; }
    }
  }

  lemma NextKeepsIdentity(g: Setting, ks: set<Key>, w: World, e: Event)
    requires IdentityInv(g, ks, w) && KeyOf(e, ks) && Careful(g, w, e) && MoveIsSafe(g, w, e)
    ensures IdentityInv(g, ks, Next(g, w, e))
  {
    if e.Reconciles? {
      PassKeepsIdentity(g, ks, w, Next(g, w, e), e.k, e.p);
    } else {
      forall k | k in ks ensures KeyInv(g, Next(g, w, e), k) {
        OtherKeepsKey(g, w, e, k);
      }
    }
  }

  ghost predicate Orderly(g: Setting, ks: set<Key>, w: World, es: seq<Event>)
    decreases |es|
  {
    es == [] || (KeyOf(es[0], ks) && Careful(g, w, es[0]) && MoveIsSafe(g, w, es[0]) && Orderly(g, ks, Next(g, w, es[0]), es[1..]))
  }

  lemma {:induction false} RunKeepsIdentity(g: Setting, ks: set<Key>, w: World, es: seq<Event>)
    requires IdentityInv(g, ks, w) && Orderly(g, ks, w, es)
    ensures IdentityInv(g, ks, Exec(g, w, es))
    decreases |es|
  {
    if es != [] {
      NextKeepsIdentity(g, ks, w, es[0]);
      RunKeepsIdentity(g, ks, Next(g, w, es[0]), es[1..]);
    }
  }

  /**
   In every run, with any failures of calls and patches, for every machine with a domain: the stored
   provider ID is "libvirt://" and the UUID of that domain; the domain refers to the machine's own MAC
   and volumes; a disk there sits on the machine's image; and a cloud-init image there is empty or
   carries the same UUID as instance ID.
   */
  lemma IdentitiesAgree(g: Setting, ks: set<Key>, before: Host, es: seq<Event>, k: Key)
    requires GoodBlock(g.site.a.block) && Sane(before.hosts) && Disjoint(g, ks)
    requires forall j :: j in ks ==> Gone(g.site, before, g.name(j))
    requires Orderly(g, ks, World(map[], before), es) && k in ks
    requires var w := Exec(g, World(map[], before), es);
             k in w.objects && g.name(k) in w.host.domains
    ensures var w, n := Exec(g, World(map[], before), es), g.name(k);
            var m, d := w.objects[k], w.host.domains[n];
            && (m.providerID.Some? ==> m.providerID.value == PROVIDER_PREFIX + d.uuid)
            && d.mac == g.site.a.mac(n) && d.disk == DiskName(n) && d.iso == IsoName(n)
            && (d.disk in w.host.volumes ==> w.host.volumes[d.disk].RootDisk? && w.host.volumes[d.disk].image == m.image)
            && (d.iso in w.host.volumes ==>
                  var v := w.host.volumes[d.iso];
                  v.CloudInit? && (v.seed.Some? && d.uuid != "" ==> v.seed.value.instanceID == d.uuid))
  {
    RunKeepsIdentity(g, ks, World(map[], before), es);
    assert KeyInv(g, Exec(g, World(map[], before), es), k);
  }

  // ---- a domain has what it needs ----

  ghost predicate AllBacked(g: Setting, ks: set<Key>, w: World) {
    && GoodBlock(g.site.a.block) && Sane(w.host.hosts) && Disjoint(g, ks)
    && (forall k :: k in w.objects ==> k in ks)
    && (forall k :: k in ks ==> Backed(g.site, w.host, g.name(k)))
  }

  ghost predicate Attentive(g: Setting, w: World, e: Event) {
    e.Reconciles? && e.k in w.objects && w.objects[e.k].deleting && e.p.resolved ==> Watched(w.host, g.name(e.k), e.p.delete)
  }

  lemma OwnPassBacks(g: Setting, w: World, k: Key, p: Pass)
    requires GoodBlock(g.site.a.block) && Sane(w.host.hosts) && k in w.objects && Backed(g.site, w.host, g.name(k))
    requires Attentive(g, w, Reconciles(k, p))
    ensures Backed(g.site, ReconcilePass(g, w, k, p).host, g.name(k))
  {
    var m, n, h := w.objects[k], g.name(k), w.host;
    if ReconcilePass(g, w, k, p).host != h {
      if m.deleting {
        DeleteHasShape(g.site, h, n, p.delete);
        DeleteBacks(g.site, h, DeleteMachine(g.site, h, n, p.delete).host, n, p.delete);
      } else if StateOf(h, n).NotFound? {
        CreateBacks(g.site, h, ConfigOf(g, k, m, p.bootstrap.userData), p.create);
      }
    }
  }

  lemma NextKeepsBacked(g: Setting, ks: set<Key>, w: World, e: Event)
    requires AllBacked(g, ks, w) && KeyOf(e, ks) && Attentive(g, w, e)
    ensures AllBacked(g, ks, Next(g, w, e))
  {
    var w' := Next(g, w, e);
    NextKeepsSane(g, w, e);
    if e.Reconciles? && e.k in w.objects {
      OwnPassBacks(g, w, e.k, e.p);
      PassTouches(g, w.host, e.k, w.objects[e.k], e.p);
      forall k | k in ks && k != e.k ensures Backed(g.site, w'.host, g.name(k)) {
        LeftAsIs(g, w.host, w'.host, e.k, k);
      }
    }
  }

  ghost predicate AlwaysAttentive(g: Setting, ks: set<Key>, w: World, es: seq<Event>)
    decreases |es|
  {
    es == [] || (KeyOf(es[0], ks) && Attentive(g, w, es[0]) && AlwaysAttentive(g, ks, Next(g, w, es[0]), es[1..]))
  }

  lemma {:induction false} RunKeepsBacked(g: Setting, ks: set<Key>, w: World, es: seq<Event>)
    requires AllBacked(g, ks, w) && AlwaysAttentive(g, ks, w, es)
    ensures AllBacked(g, ks, Exec(g, w, es))
    decreases |es|
  {
    if es != [] {
      NextKeepsBacked(g, ks, w, es[0]);
      RunKeepsBacked(g, ks, Next(g, w, es[0]), es[1..]);
    }
  }

  /**
   In every run, with any failures of calls and patches, every domain of a machine has its root disk,
   its cloud-init image and an address of the block: volumes and reservation come before it and go after it.
   */
  lemma DomainsAreBacked(g: Setting, ks: set<Key>, before: Host, es: seq<Event>, k: Key)
    requires GoodBlock(g.site.a.block) && Sane(before.hosts) && Disjoint(g, ks)
    requires forall j :: j in ks ==> g.name(j) !in before.domains
    requires AlwaysAttentive(g, ks, World(map[], before), es) && k in ks
    ensures Backed(g.site, Exec(g, World(map[], before), es).host, g.name(k))
  {
    RunKeepsBacked(g, ks, World(map[], before), es);
  }

  // ---- moves ----

  /** A move to another UID keeps everything on the host the machine's own exactly when it is safe. */
  lemma MoveAgreesIff(g: Setting, w: World, k: Key, uid: string)
    requires k in w.objects && KeyInv(g, w, k)
    requires uid != "" && w.objects[k].uid != "" && uid != w.objects[k].uid
    ensures var w' := Next(g, w, Moved(k, uid));
            Agrees(g.site, w'.host, Portrait(g, k, w'.objects[k])) <==> MoveIsSafe(g, w, Moved(k, uid))
  {
  }

  /** The failing side occurs: with only an image of the old UID there, the next creation gives the domain another identity than its image. */
  lemma MovedTooEarly(g: Setting, w: World, k: Key, uid: string, p: Pass)
    requires k in w.objects && KeyInv(g, w, k) && uid != "" && w.objects[k].uid != "" && uid != w.objects[k].uid
    requires w.objects[k].finalizer && !w.objects[k].deleting && w.objects[k].providerID.None?
    requires g.name(k) !in w.host.domains && Seeded(w.host, g.name(k))
    requires p.resolved && !p.paused && p.infraReady && p.stateKnown && p.bootstrap.Data?
    requires var w1, c := Next(g, w, Moved(k, uid)), ConfigOf(g, k, w.objects[k].(uid := uid), p.bootstrap.userData);
             CreateMachine(g.site, w1.host, c, p.create).ok
    ensures var w2, n := ReconcilePass(g, Next(g, w, Moved(k, uid)), k, p), g.name(k);
            && n in w2.host.domains && w2.host.domains[n].uuid == uid
            && IsoName(n) in w2.host.volumes && w2.host.volumes[IsoName(n)].CloudInit?
            && w2.host.volumes[IsoName(n)].seed.Some? && w2.host.volumes[IsoName(n)].seed.value.instanceID != uid
  {
    var c := ConfigOf(g, k, w.objects[k].(uid := uid), p.bootstrap.userData);
    VolumeStays(g.site, w.host, c, p.create, IsoName(g.name(k)));
    PrepareTouches(g.site, w.host.(log := w.host.log + [CreateCalled(c.name)]), c, p.create);
  }
}
