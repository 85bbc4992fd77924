/** Progress: undisturbed passes bring a machine up, keep it up, and take it down. */
module Progress {
  import opened Base
  import opened Dhcp
  import opened Naming
  import opened Reservation
  import opened Host
  import opened HostFacts
  import opened Controller
  import opened Lifecycle
  import opened Leaks
  import opened Identity
  import opened Lifetime
  import opened Tables

  /** The object of k exists and is not being deleted. */
  predicate Alive(w: World, k: Key) {
    k in w.objects && !w.objects[k].deleting
  }

  /** A pass in which everything that it needs in the present state is in place, answered and saved. */
  predicate Smooth(g: Setting, w: World, k: Key, p: Pass) {
    && k in w.objects && p.resolved && !p.paused && p.specSaved
    && (w.objects[k].finalizer ==>
          && p.infraReady && p.stateKnown && p.statusSaved
          && match StateOf(w.host, g.name(k))
             case NotFound => w.objects[k].providerID.None? ==> p.bootstrap.Data? && p.create == NO_FAULTS
             case Stopped => p.start == StartFaults(true, true, Done)
             case _ => true)
  }

  /** A pass that stores that the machine is paused or that its infrastructure is not ready. */
  predicate HoldsBack(p: Pass) {
    p.resolved && p.statusSaved && (p.paused || !p.infraReady)
  }

  /**
   Alive, and the domain is running or inactive, or it was never there and its disk can be made. Left
   out are a lost domain and one that is active without running: among these is a domain that is
   shutting down, although it counts as stopped.
   */
  predicate Startable(g: Setting, w: World, k: Key) {
    && Alive(w, k)
    && if g.name(k) in w.host.domains then w.host.domains[g.name(k)].run.Running? || !w.host.domains[g.name(k)].run.Active()
       else w.objects[k].providerID.None? && HasBase(g.site, ConfigOf(g, k, w.objects[k], []), w.host.volumes)
  }

  /** Startable, and with a free slot if the machine is still to be created. */
  predicate Workable(g: Setting, w: World, k: Key) {
    Startable(g, w, k) && (g.name(k) in w.host.domains || !PlanHostUpdate(g.site.a, w.host.hosts, g.name(k)).Full?)
  }

  predicate Up(g: Setting, w: World, k: Key) {
    && k in w.objects && w.objects[k].finalizer && w.objects[k].ready && w.objects[k].provisioned && w.objects[k].providerID.Some?
    && g.name(k) in w.host.domains && w.host.domains[g.name(k)].run == Running
  }

  function Rank(g: Setting, w: World, k: Key): nat
    requires k in w.objects
  {
    if Up(g, w, k) then 0 else if !w.objects[k].finalizer then 2 else 1
  }

  // ---- one pass ----

  /** A fault-free creation of a missing domain succeeds exactly when there is a base and a free slot. */
  lemma FaultFreeCreate(s: Site, h: Host, c: Config)
    requires c.name !in h.domains
    ensures var out := CreateMachine(s, h, c, NO_FAULTS);
            && (out.ok <==> HasBase(s, c, h.volumes) && !PlanHostUpdate(s.a, h.hosts, c.name).Full?)
            && (c.name in out.host.domains <==> out.ok) && (out.ok ==> out.host.domains[c.name].run == Running)
  {
    CreateSucceedsIff(s, h, c, NO_FAULTS);
  }

  /** For a machine that is not up, a smooth pass lowers the rank exactly when it has no finalizer yet or is workable. */
  lemma SmoothPassProgressesIff(g: Setting, w: World, k: Key, p: Pass)
    requires Alive(w, k) && Smooth(g, w, k, p) && !Up(g, w, k)
    ensures var w' := ReconcilePass(g, w, k, p);
            Alive(w', k) && (Rank(g, w', k) < Rank(g, w, k) <==> !w.objects[k].finalizer || Workable(g, w, k))
  {
    var m := w.objects[k];
    if m.finalizer && m.providerID.None? && g.name(k) !in w.host.domains {
      var c := ConfigOf(g, k, m, p.bootstrap.userData);
      assert HasBase(g.site, c, w.host.volumes) == HasBase(g.site, ConfigOf(g, k, m, []), w.host.volumes);
      FaultFreeCreate(g.site, w.host, c);
    }
  }

  lemma SmoothPassProgresses(g: Setting, w: World, k: Key, p: Pass)
    requires Workable(g, w, k) && Smooth(g, w, k, p) && !Up(g, w, k)
    ensures var w' := ReconcilePass(g, w, k, p); Workable(g, w', k) && Rank(g, w', k) < Rank(g, w, k)
  {
    SmoothPassProgressesIff(g, w, k, p);
  }

  /** The failing side occurs: a domain that is shutting down is called stopped, but no pass can start it. */
  lemma ShuttingDownStays(g: Setting, w: World, k: Key, p: Pass)
    requires Alive(w, k) && w.objects[k].finalizer && Smooth(g, w, k, p)
    requires g.name(k) in w.host.domains && w.host.domains[g.name(k)].run == ShuttingDown
    ensures var w' := ReconcilePass(g, w, k, p);
            && StateOf(w.host, g.name(k)).Stopped? && w'.host == w.host
            && k in w'.objects && !w'.objects[k].ready && Rank(g, w', k) == Rank(g, w, k)
  {
    assert !Workable(g, w, k) && !Up(g, w, k);
    SmoothPassProgressesIff(g, w, k, p);
  }

  /**
   A machine that is up stays up through every pass but one that holds it back, whatever else fails, and
   such a pass changes neither host nor object, save for a newly observed address.
   */
  lemma UpIsFixpoint(g: Setting, w: World, k: Key, p: Pass)
    requires Up(g, w, k) && Alive(w, k)
    ensures var w' := ReconcilePass(g, w, k, p);
            && w'.host == w.host && Alive(w', k) && (Up(g, w', k) <==> !HoldsBack(p))
            && (!HoldsBack(p) ==>
                  && w'.objects[k].(addresses := []) == w.objects[k].(addresses := [])
                  && (p.lease == None || p.lease == Some("") || w.objects[k].addresses == [p.lease.value] ==> w' == w))
  {
  }

  /** What a creation attempt leaves of a domain that was missing. */
  lemma CreatedIsStartable(s: Site, h: Host, c: Config, f: CreateFaults)
    requires c.name !in h.domains
    ensures var out := CreateMachine(s, h, c, f);
            && (c.name in out.host.domains ==> HasBase(s, c, h.volumes) && out.host.domains[c.name].run in {Running, Shutoff})
            && (HasBase(s, c, out.host.volumes) <==> HasBase(s, c, h.volumes))
            && (out.ok ==> c.name in out.host.domains)
  {
    var h0 := h.(log := h.log + [CreateCalled(c.name)]);
    PrepareTouches(s, h0, c, f);
    CreateLeftovers(s, h, c, f);
    VolumeNamesDiffer(c.name, c.name);
  }

  /** No pass of a live machine, whatever fails in it, makes it startable or ends that. */
  lemma PassKeepsStartable(g: Setting, w: World, k: Key, p: Pass)
    requires Alive(w, k)
    ensures var w' := ReconcilePass(g, w, k, p); Alive(w', k) && (Startable(g, w', k) <==> Startable(g, w, k))
  {
    var m := w.objects[k];
    if g.name(k) !in w.host.domains && ReconcilePass(g, w, k, p).host != w.host {
      var c := ConfigOf(g, k, m, p.bootstrap.userData);
      CreatedIsStartable(g.site, w.host, c, p.create);
      assert forall v :: HasBase(g.site, c, v) == HasBase(g.site, ConfigOf(g, k, m, []), v);
    }
  }

  lemma RankNeverGrows(g: Setting, w: World, k: Key, p: Pass)
    requires Alive(w, k) && (Up(g, w, k) ==> !HoldsBack(p))
    ensures var w' := ReconcilePass(g, w, k, p); Alive(w', k) && Rank(g, w', k) <= Rank(g, w, k)
  {
    if Up(g, w, k) { UpIsFixpoint(g, w, k, p); }
  }

  // ---- runs ----

  /** An event that is no pass of k and leaves k's object and names alone; other machines may do and fail as they like. */
  ghost predicate Aloof(g: Setting, e: Event, k: Key) {
    match e
    case Reconciles(j, _) => j != k && Apart(g, j, k)
    case DomainLost(name) => name != g.name(k)
    case DomainRuns(name, _) => name != g.name(k)
    case _ => e.k != k
  }

  function OwnPasses(es: seq<Event>, k: Key): nat {
    if es == [] then 0 else (if es[0].Reconciles? && es[0].k == k then 1 else 0) + OwnPasses(es[1..], k)
  }

  /** Nobody but the controller touches k, and no pass holds k back once it is up. Passes of k may fail in any way. */
  ghost predicate LeftAlone(g: Setting, w: World, es: seq<Event>, k: Key)
    decreases |es|
  {
    es == [] || (Spares(g, w, es[0], k) && LeftAlone(g, Next(g, w, es[0]), es[1..], k))
  }

  ghost predicate Spares(g: Setting, w: World, e: Event, k: Key) {
    if e.Reconciles? && e.k == k then Up(g, w, k) ==> !HoldsBack(e.p) else Aloof(g, e, k)
  }

  predicate IsSmooth(g: Setting, w: World, e: Event, k: Key) {
    e.Reconciles? && e.k == k && Smooth(g, w, k, e.p)
  }

  function SmoothPasses(g: Setting, w: World, es: seq<Event>, k: Key): nat
    decreases |es|
  {
    if es == [] then 0 else (if IsSmooth(g, w, es[0], k) then 1 else 0) + SmoothPasses(g, Next(g, w, es[0]), es[1..], k)
  }

  /** What other machines do changes neither k's object nor anything of k on the host. */
  lemma OtherEvent(g: Setting, w: World, e: Event, k: Key)
    requires DistinctMacs(w.host.hosts) && Aloof(g, e, k)
    ensures var w', n := Next(g, w, e), g.name(k);
            && (k in w.objects <==> k in w'.objects) && (k in w.objects ==> w'.objects[k] == w.objects[k])
            && (n in w.host.domains <==> n in w'.host.domains)
            && (n in w.host.domains ==> w'.host.domains[n] == w.host.domains[n])
            && (DiskName(n) in w.host.volumes <==> DiskName(n) in w'.host.volumes)
            && (Gone(g.site, w.host, n) <==> Gone(g.site, w'.host, n))
  {
    if e.Reconciles? && e.k in w.objects {
      PassTouches(g, w.host, e.k, w.objects[e.k], e.p);
      LeftAsIs(g, w.host, Next(g, w, e).host, e.k, k);
    }
  }

  lemma StepTowardsUp(g: Setting, w: World, e: Event, k: Key)
    requires DistinctMacs(w.host.hosts) && Alive(w, k) && Spares(g, w, e, k)
    ensures var w' := Next(g, w, e);
            && Alive(w', k) && (Startable(g, w', k) <==> Startable(g, w, k)) && Rank(g, w', k) <= Rank(g, w, k)
            && (IsSmooth(g, w, e, k) && Workable(g, w, k) ==> Rank(g, w', k) == 0 || Rank(g, w', k) < Rank(g, w, k))
  {
    if e.Reconciles? && e.k == k {
      PassKeepsStartable(g, w, k, e.p);
      RankNeverGrows(g, w, k, e.p);
      if Smooth(g, w, k, e.p) && !Up(g, w, k) { SmoothPassProgressesIff(g, w, k, e.p); }
    } else {
      OtherEvent(g, w, e, k);
    }
  }

  /** The machines of a run are apart, start from a clean host, and the block has a slot for each of them and each foreign entry. */
  ghost predicate EnoughSlots(g: Setting, ks: set<Key>, before: Host) {
    && GoodBlock(g.site.a.block) && Sane(before.hosts) && Disjoint(g, ks)
    && (forall j :: j in ks ==> !HasMac(before.hosts, g.site.a.mac(g.name(j))))
    && |before.hosts| + |NamesOf(g, ks)| <= |g.site.a.block|
  }

  /** In every reachable state the startable machines are exactly the workable ones: there is always an address. */
  lemma ReachableIsWorkable(g: Setting, ks: set<Key>, before: Host, es: seq<Event>, k: Key)
    requires EnoughSlots(g, ks, before) && k in ks && forall e :: e in es ==> KeyOf(e, ks)
    ensures var w := Exec(g, World(map[], before), es);
            DistinctMacs(w.host.hosts) && (Workable(g, w, k) <==> Startable(g, w, k))
  {
    AddressesNeverRunOut(g, ks, before, es, k);
    LifecycleConservesTable(g, ks, before, es);
  }

  lemma {:induction false} RankRunsOut(g: Setting, ks: set<Key>, before: Host, done: seq<Event>, es: seq<Event>, k: Key)
    requires EnoughSlots(g, ks, before) && k in ks
    requires (forall e :: e in done ==> KeyOf(e, ks)) && forall e :: e in es ==> KeyOf(e, ks)
    requires var w := Exec(g, World(map[], before), done);
             && Startable(g, w, k) && LeftAlone(g, w, es, k) && Rank(g, w, k) <= SmoothPasses(g, w, es, k)
    ensures Up(g, Exec(g, Exec(g, World(map[], before), done), es), k)
    decreases |es|
  {
    var w := Exec(g, World(map[], before), done);
    if es != [] {
      assert KeyOf(es[0], ks);
      ReachableIsWorkable(g, ks, before, done, k);
      StepTowardsUp(g, w, es[0], k);
      ExecOne(g, World(map[], before), done, es[0]);
      RankRunsOut(g, ks, before, done + [es[0]], es[1..], k);
    }
  }

  lemma {:induction false} StuckStays(g: Setting, w: World, es: seq<Event>, k: Key)
    requires DistinctMacs(w.host.hosts) && Alive(w, k) && !Startable(g, w, k) && LeftAlone(g, w, es, k)
    ensures !Up(g, Exec(g, w, es), k)
    decreases |es|
  {
    if es != [] {
      StepTowardsUp(g, w, es[0], k);
      NextKeepsDistinct(g, w, es[0]);
      StuckStays(g, Next(g, w, es[0]), es[1..], k);
    }
  }

  /**
   From every reachable state of a live machine, two smooth passes of it bring it up and it stays up,
   however other machines come, go, take addresses and fail and whatever its other passes do, if and
   only if it is startable.
   */
  lemma TwoPassesBringUp(g: Setting, ks: set<Key>, before: Host, done: seq<Event>, es: seq<Event>, k: Key)
    requires EnoughSlots(g, ks, before) && k in ks
    requires (forall e :: e in done ==> KeyOf(e, ks)) && forall e :: e in es ==> KeyOf(e, ks)
    requires var w := Exec(g, World(map[], before), done);
             Alive(w, k) && LeftAlone(g, w, es, k) && 2 <= SmoothPasses(g, w, es, k)
    ensures var w := Exec(g, World(map[], before), done);
            Up(g, Exec(g, w, es), k) <==> Startable(g, w, k)
  {
    var w := Exec(g, World(map[], before), done);
    ReachableIsWorkable(g, ks, before, done, k);
    if Startable(g, w, k) {
      RankRunsOut(g, ks, before, done, es, k);
    } else {
      StuckStays(g, w, es, k);
    }
  }

  /** The budget of DefinedAtMostOnce is exact: a smooth pass defines the domain, again if need be, whenever it may and can create. */
  lemma SmoothPassDefinesIff(g: Setting, w: World, k: Key, p: Pass)
    requires Smooth(g, w, k, p) && w.objects[k].finalizer
    ensures var w', n := ReconcilePass(g, w, k, p), g.name(k);
            Definitions(w'.host.log, n) == Definitions(w.host.log, n) + (if MayCreate(g, w, k) && Workable(g, w, k) then 1 else 0)
  {
    var m := w.objects[k];
    if MayCreate(g, w, k) {
      var c := ConfigOf(g, k, m, p.bootstrap.userData);
      assert HasBase(g.site, c, w.host.volumes) == HasBase(g.site, ConfigOf(g, k, m, []), w.host.volumes);
      FaultFreeCreate(g.site, w.host, c);
      CreateLogs(g.site, w.host, c, NO_FAULTS, g.name(k));
    } else {
      QuietPass(g, w.host, k, m, p);
    }
  }

  // ---- taking a machine down ----

  const NO_DELETE_FAULTS := DeleteFaults(true, true, true, Done, Done,
                                         VolumeFaults(Found, true, Done), VolumeFaults(Found, true, Done),
                                         Found, NetFaults(true, Done))

  predicate SmoothDelete(p: Pass) {
    p.resolved && p.delete == NO_DELETE_FAULTS && p.specSaved
  }

  lemma SmoothDeleteOut(s: Site, h: Host, name: string)
    ensures var out := DeleteMachine(s, h, name, NO_DELETE_FAULTS);
            && (out.ok <==> !(name in h.domains && h.domains[name].run.Active() && !h.domains[name].persistent))
            && (!out.ok ==> name !in out.host.domains)
  {
    DeleteDomainTouches(s, h, name, NO_DELETE_FAULTS);
  }

  /** The finalizer is given up and nothing of k is left. */
  predicate Down(g: Setting, w: World, k: Key) {
    !Holds(w, k) && Gone(g.site, w.host, g.name(k)) && (k in w.objects ==> w.objects[k].deleting)
  }

  predicate RunsUndefined(h: Host, name: string) {
    name in h.domains && h.domains[name].run.Active() && !h.domains[name].persistent
  }

  /** Passes still needed: a domain that runs without persistent definition takes one more. */
  function DownRank(g: Setting, w: World, k: Key): nat {
    if Down(g, w, k) then 0 else if RunsUndefined(w.host, g.name(k)) then 2 else 1
  }

  predicate Leaving(g: Setting, w: World, k: Key) {
    Down(g, w, k) || (Holds(w, k) && w.objects[k].deleting)
  }

  ghost predicate LetsGo(g: Setting, e: Event, k: Key) {
    if e.Reconciles? && e.k == k then SmoothDelete(e.p) else Aloof(g, e, k)
  }

  lemma StaysGone(g: Setting, w: World, k: Key, p: Pass)
    requires DistinctMacs(w.host.hosts) && Down(g, w, k)
    ensures Down(g, ReconcilePass(g, w, k, p), k)
  {
    if k in w.objects && p.resolved {
      DeleteShrinks(g.site, w.host, g.name(k), p.delete);
    }
  }

  lemma SmoothDeleteProgresses(g: Setting, w: World, k: Key, p: Pass)
    requires DistinctMacs(w.host.hosts) && Holds(w, k) && w.objects[k].deleting && SmoothDelete(p)
    ensures var w' := ReconcilePass(g, w, k, p);
            Leaving(g, w', k) && (if RunsUndefined(w.host, g.name(k)) then DownRank(g, w', k) <= 1 else Down(g, w', k))
  {
    SmoothDeleteOut(g.site, w.host, g.name(k));
    var w' := ReconcilePass(g, w, k, p);
    if !Holds(w', k) { FinalizerGoesLast(g, w, k, p); }
  }

  lemma StepTowardsDown(g: Setting, w: World, e: Event, k: Key)
    requires DistinctMacs(w.host.hosts) && Leaving(g, w, k) && LetsGo(g, e, k)
    ensures Leaving(g, Next(g, w, e), k) && DownRank(g, Next(g, w, e), k) <= DownRank(g, w, k)
    ensures e.Reconciles? && e.k == k ==> Down(g, Next(g, w, e), k) || DownRank(g, Next(g, w, e), k) < DownRank(g, w, k)
  {
    if !(e.Reconciles? && e.k == k) {
      OtherEvent(g, w, e, k);
    } else if Down(g, w, k) {
      StaysGone(g, w, k, e.p);
    } else {
      SmoothDeleteProgresses(g, w, k, e.p);
    }
  }

  lemma {:induction false} DownRankRunsOut(g: Setting, w: World, es: seq<Event>, k: Key)
    requires DistinctMacs(w.host.hosts) && Leaving(g, w, k) && forall e :: e in es ==> LetsGo(g, e, k)
    requires DownRank(g, w, k) <= OwnPasses(es, k)
    ensures Down(g, Exec(g, w, es), k)
    decreases |es|
  {
    if es != [] {
      assert LetsGo(g, es[0], k);
      StepTowardsDown(g, w, es[0], k);
      NextKeepsDistinct(g, w, es[0]);
      DownRankRunsOut(g, Next(g, w, es[0]), es[1..], k);
    }
  }

  /**
   Two undisturbed passes of a machine being deleted release it with nothing of it left on the host,
   however other machines interleave and fail; one is enough unless its domain runs without persistent
   definition.
   */
  lemma TwoPassesTakeDown(g: Setting, w: World, es: seq<Event>, k: Key)
    requires DistinctMacs(w.host.hosts) && Holds(w, k) && w.objects[k].deleting && forall e :: e in es ==> LetsGo(g, e, k)
    requires (if RunsUndefined(w.host, g.name(k)) then 2 else 1) <= OwnPasses(es, k)
    ensures !Holds(Exec(g, w, es), k) && Gone(g.site, Exec(g, w, es).host, g.name(k))
  {
    DownRankRunsOut(g, w, es, k);
  }
}
