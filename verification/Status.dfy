/** What a stored object may claim, and that its provider ID is set once. */
module Status {
  import opened Base
  import opened Naming
  import opened Host
  import opened Controller
  import opened Lifecycle

  /** A machine that claims to be ready is provisioned, has its provider ID and will be cleaned up. */
  predicate Honest(m: Machine) {
    !m.deleting && m.ready ==> m.provisioned && m.providerID.Some? && m.finalizer
  }

  ghost predicate AllHonest(w: World) {
    forall k :: k in w.objects ==> Honest(w.objects[k])
  }

  /** The pass gets as far as setting Ready: the domain runs, is started, or is created. */
  predicate Announces(g: Setting, h: Host, k: Key, m: Machine, p: Pass) {
    && p.resolved && !p.paused && m.finalizer && p.infraReady && p.stateKnown
    && match StateOf(h, g.name(k))
       case IsRunning => true
       case Stopped => StartMachine(h, g.name(k), p.start).ok
       case NotFound =>
         m.providerID.None? && p.bootstrap.Data? && CreateMachine(g.site, h, ConfigOf(g, k, m, p.bootstrap.userData), p.create).ok
       case Unknown => false
  }

  /** The status patch is saved and the spec patch lost when the pass announces a machine whose provider ID is not stored. */
  predicate ClaimsTooMuch(g: Setting, h: Host, k: Key, m: Machine, p: Pass) {
    p.statusSaved && !p.specSaved && m.providerID.None? && Announces(g, h, k, m, p)
  }

  /** From an honest object a pass leads to an honest one unless it claims too much. */
  lemma PassHonestIff(g: Setting, h: Host, k: Key, m: Machine, p: Pass)
    requires Honest(m) && !m.deleting
    ensures var r := Patched(m, Reconciled(g, h, k, m, p).machine, p);
            r.Some? && (Honest(r.value) <==> !ClaimsTooMuch(g, h, k, m, p))
  {
  }

  /** The failing side occurs: a domain runs, the provider ID is not stored, and only the status patch is saved. */
  lemma StatusAloneOverclaims(g: Setting, h: Host, k: Key, m: Machine, p: Pass)
    requires Honest(m) && !m.deleting && m.finalizer && m.providerID.None? && StateOf(h, g.name(k)).IsRunning?
    requires p.resolved && !p.paused && p.infraReady && p.stateKnown && p.statusSaved && !p.specSaved
    ensures var r := Patched(m, Reconciled(g, h, k, m, p).machine, p);
            r.Some? && r.value.ready && r.value.providerID.None? && !Honest(r.value)
  {
  }

  predicate Modest(g: Setting, w: World, e: Event) {
    e.Reconciles? && e.k in w.objects && !w.objects[e.k].deleting ==> !ClaimsTooMuch(g, w.host, e.k, w.objects[e.k], e.p)
  }

  /** One event keeps every object honest exactly when it is not a pass that claims too much. */
  lemma NextHonestIff(g: Setting, w: World, e: Event)
    requires AllHonest(w)
    ensures AllHonest(Next(g, w, e)) <==> Modest(g, w, e)
  {
    if e.Reconciles? && e.k in w.objects && !w.objects[e.k].deleting {
      PassHonestIff(g, w.host, e.k, w.objects[e.k], e.p);
      if ClaimsTooMuch(g, w.host, e.k, w.objects[e.k], e.p) {
        assert e.k in Next(g, w, e).objects && !Honest(Next(g, w, e).objects[e.k]);
      }
    }
  }

  ghost predicate AlwaysModest(g: Setting, w: World, es: seq<Event>)
    decreases |es|
  {
    es == [] || (Modest(g, w, es[0]) && AlwaysModest(g, Next(g, w, es[0]), es[1..]))
  }

  ghost predicate AlwaysHonest(g: Setting, w: World, es: seq<Event>)
    decreases |es|
  {
    AllHonest(w) && (es == [] || AlwaysHonest(g, Next(g, w, es[0]), es[1..]))
  }

  /**
   For any machines and failures: every object is honest in every stored state of a run exactly when no
   pass of it claims too much.
   */
  lemma {:induction false} RunHonestIff(g: Setting, w: World, es: seq<Event>)
    requires AllHonest(w)
    ensures AlwaysHonest(g, w, es) <==> AlwaysModest(g, w, es)
    decreases |es|
  {
    if es != [] {
      NextHonestIff(g, w, es[0]);
      if Modest(g, w, es[0]) {
        RunHonestIff(g, Next(g, w, es[0]), es[1..]);
      }
    }
  }

  /** The status patch is only saved together with the one that carries the provider ID. */
  predicate PatchesTogether(e: Event) {
    e.Reconciles? && e.p.statusSaved ==> e.p.specSaved
  }

  lemma {:induction false} TogetherIsModest(g: Setting, w: World, es: seq<Event>)
    requires forall e :: e in es ==> PatchesTogether(e)
    ensures AlwaysModest(g, w, es)
    decreases |es|
  {
    if es != [] {
      assert PatchesTogether(es[0]);
      TogetherIsModest(g, Next(g, w, es[0]), es[1..]);
    }
  }

  /** In particular, with all-or-nothing patches readiness is never claimed too early. */
  lemma RunKeepsHonest(g: Setting, w: World, es: seq<Event>)
    requires AllHonest(w) && forall e :: e in es ==> PatchesTogether(e)
    ensures AlwaysHonest(g, w, es)
  {
    TogetherIsModest(g, w, es);
    RunHonestIff(g, w, es);
  }

  /** The pass learned the domain's state, or did not get as far as asking for it. */
  predicate Informed(m: Machine, p: Pass) {
    p.resolved && (p.paused || !m.finalizer || !p.infraReady || p.stateKnown)
  }

  /** The domain runs on this host. */
  predicate Runs(h: Host, name: string) {
    name in h.domains && h.domains[name].run == Running
  }

  /** An informed pass announces readiness exactly when it reports success and leaves the domain running. */
  lemma ReadyMeansRunning(g: Setting, h: Host, k: Key, m: Machine, p: Pass)
    requires !m.deleting && Informed(m, p)
    ensures var r := Reconciled(g, h, k, m, p);
            r.machine.ready <==> !p.paused && m.finalizer && p.infraReady && r.ok && Runs(r.host, g.name(k))
  {
    if !p.paused && m.finalizer && p.infraReady {
      match StateOf(h, g.name(k)) {
        case NotFound =>
          if p.bootstrap.Data? { CreatedRuns(g.site, h, ConfigOf(g, k, m, p.bootstrap.userData), p.create); }
        case Stopped =>
          assert !Runs(h, g.name(k));
        case IsRunning =>
          assert Runs(h, g.name(k));
        case Unknown =>
          assert !Runs(h, g.name(k));
      }
    }
  }

  lemma CreatedRuns(s: Site, h: Host, c: Config, f: CreateFaults)
    ensures CreateMachine(s, h, c, f).ok ==> Runs(CreateMachine(s, h, c, f).host, c.name)
  {
  }

  // ---- what a pass stores ----

  /** The pass may act on the domain and learned its state. */
  predicate Acts(m: Machine, p: Pass) {
    p.resolved && !m.deleting && !p.paused && m.finalizer && p.infraReady && p.stateKnown
  }

  /** The pass finds the domain running and sees its address. */
  predicate Observes(g: Setting, h: Host, k: Key, m: Machine, p: Pass) {
    && Acts(m, p) && g.name(k) in h.domains && h.domains[g.name(k)].run == Running
    && p.lease.Some? && p.lease.value != ""
  }

  /** The pass finds the domain gone although the provider ID is stored. */
  predicate FindsLost(g: Setting, h: Host, k: Key, m: Machine, p: Pass) {
    Acts(m, p) && g.name(k) !in h.domains && m.providerID.Some?
  }

  /** The pass tries to start the domain and fails. */
  predicate FailsToStart(g: Setting, h: Host, k: Key, m: Machine, p: Pass) {
    && Acts(m, p) && g.name(k) in h.domains && h.domains[g.name(k)].run in {Shutoff, ShuttingDown, Crashed}
    && (h.domains[g.name(k)].run == ShuttingDown || !p.start.connect || !p.start.lookup || !p.start.start.Done?)
  }

  /** Nothing of the status is written: the patch is lost, or the pass ends before it decides anything. */
  predicate KeepsStatus(m: Machine, p: Pass) {
    !p.statusSaved || !p.resolved || m.deleting || (!p.paused && m.finalizer && p.infraReady && !p.stateKnown)
  }

  /** The addresses an object has after a pass: the one observed, none if its domain is lost, or those it had. */
  lemma StoredAddresses(g: Setting, w: World, k: Key, p: Pass)
    requires k in w.objects && k in ReconcilePass(g, w, k, p).objects
    ensures var m, m' := w.objects[k], ReconcilePass(g, w, k, p).objects[k];
            m'.addresses == if p.statusSaved && Observes(g, w.host, k, m, p) then [p.lease.value]
                            else if p.statusSaved && FindsLost(g, w.host, k, m, p) then []
                            else m.addresses
  {
  }

  /** Readiness is stored by a pass that announces the machine and withdrawn by every other that writes the status. */
  lemma StoredReady(g: Setting, w: World, k: Key, p: Pass)
    requires k in w.objects && k in ReconcilePass(g, w, k, p).objects
    ensures var m, m' := w.objects[k], ReconcilePass(g, w, k, p).objects[k];
            m'.ready <==> if KeepsStatus(m, p) then m.ready else Announces(g, w.host, k, m, p)
  {
  }

  /** Provisioned is withdrawn in the same way, except that a lost domain and a failed start leave it. */
  lemma StoredProvisioned(g: Setting, w: World, k: Key, p: Pass)
    requires k in w.objects && k in ReconcilePass(g, w, k, p).objects
    ensures var m, m' := w.objects[k], ReconcilePass(g, w, k, p).objects[k];
            m'.provisioned <==>
              if KeepsStatus(m, p) || FindsLost(g, w.host, k, m, p) || FailsToStart(g, w.host, k, m, p) then m.provisioned
              else Announces(g, w.host, k, m, p)
  {
  }

  /** Finalizer and provider ID after a pass, and that the object disappears exactly with its last finalizer. */
  lemma StoredSpec(g: Setting, w: World, k: Key, p: Pass)
    requires k in w.objects
    ensures var m, w' := w.objects[k], ReconcilePass(g, w, k, p);
            var released := p.specSaved && p.resolved && m.deleting && DeleteMachine(g.site, w.host, g.name(k), p.delete).ok;
            && (k in w'.objects <==> !m.deleting || m.others || (m.finalizer && !released))
            && (k in w'.objects ==>
                  var m' := w'.objects[k];
                  && (m'.finalizer <==> (m.finalizer && !released) || (p.specSaved && p.resolved && !m.deleting && !p.paused))
                  && m'.providerID == (if p.specSaved && !m.deleting && m.providerID.None? && Announces(g, w.host, k, m, p)
                                       then Some("libvirt://" + m.uid) else m.providerID)
                  && m'.uid == m.uid && m'.image == m.image && m'.diskGiB == m.diskGiB
                  && m'.others == m.others && m'.deleting == m.deleting)
  {
  }

  /** When a pass that found its cluster and credentials ends without error. */
  lemma PassSucceedsIff(g: Setting, h: Host, k: Key, m: Machine, p: Pass)
    requires p.resolved
    ensures Reconciled(g, h, k, m, p).ok <==>
              if m.deleting then DeleteMachine(g.site, h, g.name(k), p.delete).ok && m.finalizer
              else
                || p.paused || !m.finalizer || !p.infraReady
                || (p.stateKnown
                    && (|| Announces(g, h, k, m, p) || FindsLost(g, h, k, m, p) || StateOf(h, g.name(k)).Unknown?
                        || (StateOf(h, g.name(k)).NotFound? && p.bootstrap.NotNamed?)))
  {
  }

  // ---- observed addresses over runs ----

  predicate IsObservation(g: Setting, w: World, e: Event, k: Key, a: string) {
    && e.Reconciles? && e.k == k && k in w.objects && e.p.statusSaved
    && Observes(g, w.host, k, w.objects[k], e.p) && e.p.lease == Some(a)
  }

  /** Some pass of k in the run found its domain running and saw a lease for address a. */
  ghost predicate Observed(g: Setting, w: World, es: seq<Event>, k: Key, a: string)
    decreases |es|
  {
    es != [] && (IsObservation(g, w, es[0], k, a) || Observed(g, Next(g, w, es[0]), es[1..], k, a))
  }

  predicate Shows(w: World, k: Key, a: string) {
    k in w.objects && a in w.objects[k].addresses
  }

  lemma NextShows(g: Setting, w: World, e: Event, k: Key, a: string)
    ensures Shows(Next(g, w, e), k, a) ==> Shows(w, k, a) || IsObservation(g, w, e, k, a)
  {
    if e.Reconciles? && e.k == k && k in w.objects && k in Next(g, w, e).objects {
      StoredAddresses(g, w, k, e.p);
    }
  }

  lemma {:induction false} RunShows(g: Setting, w: World, es: seq<Event>, k: Key, a: string)
    ensures Shows(Exec(g, w, es), k, a) ==> Shows(w, k, a) || Observed(g, w, es, k, a)
    decreases |es|
  {
    if es != [] {
      RunShows(g, Next(g, w, es[0]), es[1..], k, a);
      NextShows(g, w, es[0], k, a);
    }
  }

  /** In every run, an address an object shows was seen as a lease by a pass of that machine while its domain was running. */
  lemma AddressesWereObserved(g: Setting, before: Host, es: seq<Event>, k: Key, a: string)
    requires var w := Exec(g, World(map[], before), es); k in w.objects && a in w.objects[k].addresses
    ensures Observed(g, World(map[], before), es, k, a)
  {
    RunShows(g, World(map[], before), es, k, a);
  }

  // ---- the provider ID ----

  lemma TrimUndoes(u: string)
    ensures TrimPrefix(PROVIDER_PREFIX + u) == u
  {
  }

  /** Whatever a pass does and however little of it is saved, it never changes the domain UUID the object stands for. */
  lemma PassKeepsUUID(g: Setting, h: Host, k: Key, m: Machine, p: Pass)
    ensures var r := Patched(m, Reconciled(g, h, k, m, p).machine, p);
            r.Some? ==>
              && DomainUUID(r.value) == DomainUUID(m)
              && (r.value.providerID == m.providerID || (m.providerID.None? && r.value.providerID == Some(PROVIDER_PREFIX + m.uid)))
              && r.value.deleting == m.deleting && r.value.uid == m.uid
  {
    TrimUndoes(m.uid);
    var m' := Reconciled(g, h, k, m, p).machine;
    assert m'.providerID == m.providerID || m'.providerID == WithProviderID(m).providerID;
  }

  /** The object of k exists after each event of the run. */
  ghost predicate Persists(g: Setting, w: World, es: seq<Event>, k: Key)
    decreases |es|
  {
    k in w.objects && (es == [] || Persists(g, Next(g, w, es[0]), es[1..], k))
  }

  lemma NextKeepsProviderID(g: Setting, w: World, e: Event, k: Key)
    requires k in w.objects && k in Next(g, w, e).objects && w.objects[k].providerID.Some?
    ensures Next(g, w, e).objects[k].providerID == w.objects[k].providerID
  {
    if e.Reconciles? && e.k == k {
      PassKeepsUUID(g, w.host, k, w.objects[k], e.p);
    }
  }

  /** Once stored, a provider ID stays for the life of the object, across failures and moves. */
  lemma {:induction false} ProviderIDIsForever(g: Setting, w: World, es: seq<Event>, k: Key)
    requires Persists(g, w, es, k) && w.objects[k].providerID.Some?
    ensures k in Exec(g, w, es).objects && Exec(g, w, es).objects[k].providerID == w.objects[k].providerID
    decreases |es|
  {
    if es != [] {
      NextKeepsProviderID(g, w, es[0], k);
      ProviderIDIsForever(g, Next(g, w, es[0]), es[1..], k);
    }
  }
}
