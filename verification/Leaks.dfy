/** Leak freedom: nothing stays on the host without a stored object that will still clean it up. */
module Leaks {
  import opened Dhcp
  import opened Naming
  import opened Ledger
  import opened Host
  import opened HostFacts
  import opened Controller
  import opened Lifecycle

  datatype Resource = ADomain(name: string) | AVolume(vol: string) | AReservation(mac: string)

  predicate On(h: Host, r: Resource) {
    match r
    case ADomain(name) => name in h.domains
    case AVolume(vol) => vol in h.volumes
    case AReservation(mac) => HasMac(h.hosts, mac)
  }

  /** r is the domain, one of the volumes or the reservation of machine k. */
  predicate Belongs(g: Setting, k: Key, r: Resource) {
    match r
    case ADomain(name) => name == g.name(k)
    case AVolume(vol) => vol == DiskName(g.name(k)) || vol == IsoName(g.name(k))
    case AReservation(mac) => EqualFold(mac, g.site.a.mac(g.name(k)))
  }

  /** The stored object still carries the controller's finalizer. */
  predicate Holds(w: World, k: Key) {
    k in w.objects && w.objects[k].finalizer
  }

  ghost predicate Covered(g: Setting, w: World, r: Resource) {
    exists k :: Holds(w, k) && Belongs(g, k, r)
  }

  /** Everything on the host was there before the controller, or belongs to an object that holds the finalizer. */
  ghost predicate LeakFree(g: Setting, before: Host, w: World) {
    forall r :: On(w.host, r) ==> On(before, r) || Covered(g, w, r)
  }

  /** A change confined to k's name leaves every resource that is not k's where it was. */
  lemma ElsewhereUnchanged(g: Setting, h: Host, h': Host, k: Key, r: Resource)
    requires OnlyTouches(g.site, h, h', g.name(k)) && !Belongs(g, k, r)
    ensures On(h, r) <==> On(h', r)
  {
    var n := g.name(k);
    match r
    case ADomain(name) =>
      assert name in h.domains <==> name in h.domains - {n};
      assert name in h'.domains <==> name in h'.domains - {n};
    case AVolume(vol) =>
      var ks := {DiskName(n), IsoName(n)};
      assert vol in h.volumes <==> vol in h.volumes - ks;
      assert vol in h'.volumes <==> vol in h'.volumes - ks;
    case AReservation(mac) =>
      EntryAmongOthers(h.hosts, g.site.a.mac(n), mac);
      EntryAmongOthers(h'.hosts, g.site.a.mac(n), mac);
  }

  lemma GoneMeansNone(g: Setting, h: Host, k: Key, r: Resource)
    requires Belongs(g, k, r)
    ensures Gone(g.site, h, g.name(k)) ==> !On(h, r)
  {
    if r.AReservation? { SameFind(h.hosts, r.mac, g.site.a.mac(g.name(k))); }
  }

  /** Without the finalizer a pass only ever removes. */
  lemma UnheldPassShrinks(g: Setting, h: Host, k: Key, m: Machine, p: Pass, r: Resource)
    requires DistinctMacs(h.hosts) && !m.finalizer && On(Reconciled(g, h, k, m, p).host, r)
    ensures On(h, r)
  {
    var h' := Reconciled(g, h, k, m, p).host;
    if h' != h {
      DeleteShrinks(g.site, h, g.name(k), p.delete);
      if !Belongs(g, k, r) {
        ElsewhereUnchanged(g, h, h', k, r);
      } else if r.AReservation? {
        SameFind(h'.hosts, r.mac, g.site.a.mac(g.name(k)));
      }
    }
  }

  /** When a deletion reports success, libvirt had answered what it depends on, see DeleteIsComplete. */
  ghost predicate Careful(g: Setting, w: World, e: Event) {
    e.Reconciles? && e.k in w.objects && w.objects[e.k].deleting && e.p.resolved
    && DeleteMachine(g.site, w.host, g.name(e.k), e.p.delete).ok
    ==> Answered(g.site, w.host, g.name(e.k), e.p.delete)
  }

  lemma FinalizerDropped(g: Setting, w: World, k: Key, p: Pass)
    requires Holds(w, k) && !Holds(ReconcilePass(g, w, k, p), k)
    ensures w.objects[k].deleting && p.resolved && DeleteMachine(g.site, w.host, g.name(k), p.delete).ok
    ensures ReconcilePass(g, w, k, p).host == DeleteMachine(g.site, w.host, g.name(k), p.delete).host
  {
  }

  /** A pass gives up the finalizer with the machine's resources gone exactly when libvirt answered. */
  lemma FinalizerGoesLast(g: Setting, w: World, k: Key, p: Pass)
    requires DistinctMacs(w.host.hosts) && Holds(w, k) && !Holds(ReconcilePass(g, w, k, p), k)
    ensures Gone(g.site, ReconcilePass(g, w, k, p).host, g.name(k)) <==> Answered(g.site, w.host, g.name(k), p.delete)
  {
    FinalizerDropped(g, w, k, p);
    DeleteIsComplete(g.site, w.host, g.name(k), p.delete);
  }

  lemma HoldersElsewhere(g: Setting, w: World, e: Event, k: Key)
    requires e.Reconciles? ==> e.k != k
    requires Holds(w, k)
    ensures Holds(Next(g, w, e), k)
  {
  }

  /** A resource found after k's pass is covered by k, or it was there before and k did not cover it. */
  lemma PassResource(g: Setting, w: World, k: Key, p: Pass, r: Resource)
    requires DistinctMacs(w.host.hosts) && Careful(g, w, Reconciles(k, p)) && k in w.objects
    requires On(ReconcilePass(g, w, k, p).host, r)
    ensures (Holds(ReconcilePass(g, w, k, p), k) && Belongs(g, k, r)) || (On(w.host, r) && !(Holds(w, k) && Belongs(g, k, r)))
  {
    var m, h' := w.objects[k], ReconcilePass(g, w, k, p).host;
    if !Belongs(g, k, r) {
      PassTouches(g, w.host, k, m, p);
      ElsewhereUnchanged(g, w.host, h', k, r);
    } else if !Holds(w, k) {
      UnheldPassShrinks(g, w.host, k, m, p, r);
    } else if !Holds(ReconcilePass(g, w, k, p), k) {
      FinalizerDropped(g, w, k, p);
      FinalizerGoesLast(g, w, k, p);
      GoneMeansNone(g, h', k, r);
    }
  }

  lemma PassKeepsLeakFree(g: Setting, before: Host, w: World, w': World, k: Key, p: Pass, r: Resource)
    requires DistinctMacs(w.host.hosts) && LeakFree(g, before, w) && Careful(g, w, Reconciles(k, p))
    requires w' == Next(g, w, Reconciles(k, p)) && On(w'.host, r)
    ensures On(before, r) || Covered(g, w', r)
  {
    if k in w.objects { PassResource(g, w, k, p, r); }
    if !(Holds(w', k) && Belongs(g, k, r)) && !On(before, r) {
      var o :| Holds(w, o) && Belongs(g, o, r);
      HoldersElsewhere(g, w, Reconciles(k, p), o);
    }
  }

  lemma NextKeepsLeakFree(g: Setting, before: Host, w: World, e: Event)
    requires DistinctMacs(w.host.hosts) && LeakFree(g, before, w) && Careful(g, w, e)
    ensures LeakFree(g, before, Next(g, w, e))
  {
    var w' := Next(g, w, e);
    forall r | On(w'.host, r) ensures On(before, r) || Covered(g, w', r) {
      if e.Reconciles? {
        PassKeepsLeakFree(g, before, w, w', e.k, e.p, r);
      } else {
        assert On(w.host, r);
        if !On(before, r) {
          var o :| Holds(w, o) && Belongs(g, o, r);
          HoldersElsewhere(g, w, e, o);
        }
      }
    }
  }

  ghost predicate AlwaysCareful(g: Setting, w: World, es: seq<Event>)
    decreases |es|
  {
    es == [] || (Careful(g, w, es[0]) && AlwaysCareful(g, Next(g, w, es[0]), es[1..]))
  }

  lemma {:induction false} RunKeepsLeakFree(g: Setting, before: Host, w: World, es: seq<Event>)
    requires DistinctMacs(w.host.hosts) && LeakFree(g, before, w) && AlwaysCareful(g, w, es)
    ensures LeakFree(g, before, Exec(g, w, es)) && DistinctMacs(Exec(g, w, es).host.hosts)
    decreases |es|
  {
    if es != [] {
      NextKeepsLeakFree(g, before, w, es[0]);
      NextKeepsDistinct(g, w, es[0]);
      RunKeepsLeakFree(g, before, Next(g, w, es[0]), es[1..]);
    }
  }

  /**
   In every run from an empty store, with any number of machines and any failures of provider calls
   and patches, every domain, volume and reservation on the host was there from the start or belongs
   to an object that still holds the finalizer. The one condition is on deletions that report success;
   none is on names or MACs.
   */
  lemma NothingLeaks(g: Setting, before: Host, es: seq<Event>)
    requires DistinctMacs(before.hosts) && AlwaysCareful(g, World(map[], before), es)
    ensures LeakFree(g, before, Exec(g, World(map[], before), es))
  {
    RunKeepsLeakFree(g, before, World(map[], before), es);
  }

  /** Machine j owns nothing of machine k. */
  ghost predicate Apart(g: Setting, j: Key, k: Key) {
    forall r :: Belongs(g, j, r) ==> !Belongs(g, k, r)
  }

  /** Machines apart are those whose domain names differ and whose MACs differ. */
  lemma ApartIff(g: Setting, j: Key, k: Key)
    ensures Apart(g, j, k) <==> g.name(j) != g.name(k) && !EqualFold(g.site.a.mac(g.name(j)), g.site.a.mac(g.name(k)))
  {
    var n, o := g.name(j), g.name(k);
    if Apart(g, j, k) {
      assert Belongs(g, j, ADomain(n)) && Belongs(g, j, AReservation(g.site.a.mac(n)));
    } else {
      VolumeNamesDiffer(n, o);
      VolumeNamesDiffer(o, n);
    }
  }

  /** Once k's object is gone or without finalizer, and k shares no name with a live machine, the host holds nothing of k. */
  lemma GoneObjectLeavesNothing(g: Setting, before: Host, es: seq<Event>, k: Key, r: Resource)
    requires DistinctMacs(before.hosts) && AlwaysCareful(g, World(map[], before), es)
    requires var w := Exec(g, World(map[], before), es); !Holds(w, k) && forall j :: Holds(w, j) ==> Apart(g, j, k)
    requires Belongs(g, k, r) && !On(before, r)
    ensures !On(Exec(g, World(map[], before), es).host, r)
  {
    NothingLeaks(g, before, es);
    assert !Covered(g, Exec(g, World(map[], before), es), r);
  }
}
