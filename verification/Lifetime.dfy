/** What happens at most once in a machine's life, and what stays fixed while its domain lives. */
module Lifetime {
  import opened Base
  import opened Dhcp
  import opened Naming
  import opened Ledger
  import opened Host
  import opened HostFacts
  import opened Controller
  import opened Lifecycle
  import opened Leaks
  import opened Status
  import opened Identity

  /** How often a definition of this domain name has taken effect. */
  function Definitions(log: seq<LogEntry>, name: string): nat {
    if log == [] then 0
    else Definitions(log[..|log| - 1], name) + (if log[|log| - 1].Defined? && log[|log| - 1].name == name then 1 else 0)
  }

  /** How often CreateMachine was called for this domain name. */
  function Creations(log: seq<LogEntry>, name: string): nat {
    if log == [] then 0
    else Creations(log[..|log| - 1], name) + (if log[|log| - 1].CreateCalled? && log[|log| - 1].name == name then 1 else 0)
  }

  lemma LogPush(log: seq<LogEntry>, x: LogEntry, name: string)
    ensures Definitions(log + [x], name) == Definitions(log, name) + if x.Defined? && x.name == name then 1 else 0
    ensures Creations(log + [x], name) == Creations(log, name) + if x.CreateCalled? && x.name == name then 1 else 0
  {
    assert (log + [x])[..|log|] == log;
  }

  /** A pass could still call CreateMachine for k. */
  predicate MayCreate(g: Setting, w: World, k: Key) {
    k in w.objects && !w.objects[k].deleting && w.objects[k].providerID.None? && g.name(k) !in w.host.domains
  }

  /** One creation attempt defines its own domain at most once, exactly when the domain appears, and no other. */
  lemma CreateLogs(s: Site, h: Host, c: Config, f: CreateFaults, n: string)
    requires c.name !in h.domains
    ensures var h' := CreateMachine(s, h, c, f).host;
            && Definitions(h'.log, n) == Definitions(h.log, n) + (if n == c.name && n in h'.domains then 1 else 0)
            && Creations(h'.log, n) == Creations(h.log, n) + (if n == c.name then 1 else 0)
  {
    var h0 := h.(log := h.log + [CreateCalled(c.name)]);
    PrepareTouches(s, h0, c, f);
    LogPush(h.log, CreateCalled(c.name), n);
    LogPush(h0.log, Defined(c.name, c.uuid), n);
  }

  lemma StartIsQuiet(h: Host, name: string, f: StartFaults)
    ensures var h' := StartMachine(h, name, f).host;
            h'.log == h.log && h'.hosts == h.hosts && h'.volumes == h.volumes && h'.domains.Keys == h.domains.Keys
  {
  }

  /** Only a pass that may create touches the log; without creating or deleting it leaves table and volumes alone. */
  lemma QuietPass(g: Setting, h: Host, k: Key, m: Machine, p: Pass)
    requires m.deleting || m.providerID.Some? || g.name(k) in h.domains
    ensures var h' := Reconciled(g, h, k, m, p).host;
            && h'.log == h.log
            && (!m.deleting ==> h'.hosts == h.hosts && h'.volumes == h.volumes && h'.domains.Keys == h.domains.Keys)
  {
    if m.deleting {
      DeleteHasShape(g.site, h, g.name(k), p.delete);
    } else if StateOf(h, g.name(k)).Stopped? {
      StartIsQuiet(h, g.name(k), p.start);
    }
  }

  /** Somebody else removes k's domain, or it stops while it has no persistent definition. */
  predicate LosesDomain(g: Setting, w: World, e: Event, k: Key) {
    g.name(k) in w.host.domains &&
    match e
    case DomainLost(name) => name == g.name(k)
    case DomainRuns(name, run) => name == g.name(k) && !w.host.domains[name].persistent && !run.Active()
    case _ => false
  }

  /** Other machines' passes use other names than k's. */
  ghost predicate MindsOwn(g: Setting, e: Event, k: Key) {
    e.Reconciles? && e.k != k ==> Apart(g, e.k, k)
  }

  lemma OtherPass(g: Setting, w: World, j: Key, p: Pass, k: Key)
    requires j in w.objects && j != k && Apart(g, j, k) && DistinctMacs(w.host.hosts)
    ensures var w', n := ReconcilePass(g, w, j, p), g.name(k);
            && Definitions(w'.host.log, n) == Definitions(w.host.log, n) && Creations(w'.host.log, n) == Creations(w.host.log, n)
            && (n in w.host.domains <==> n in w'.host.domains)
            && EntryOf(w'.host.hosts, g.site.a.mac(n)) == EntryOf(w.host.hosts, g.site.a.mac(n))
  {
    var m, h, n := w.objects[j], w.host, g.name(k);
    ApartIff(g, j, k);
    PassTouches(g, h, j, m, p);
    var h' := ReconcilePass(g, w, j, p).host;
    SameDomain(h.domains, h'.domains, {g.name(j)}, n);
    EntryAmongOthers(h.hosts, g.site.a.mac(g.name(j)), g.site.a.mac(n));
    EntryAmongOthers(h'.hosts, g.site.a.mac(g.name(j)), g.site.a.mac(n));
    if m.deleting || m.providerID.Some? || g.name(j) in h.domains {
      QuietPass(g, h, j, m, p);
    } else if h' != h {
      CreateLogs(g.site, h, ConfigOf(g, j, m, p.bootstrap.userData), p.create, n);
    }
  }

  /** While k's object lives, definitions made plus definitions still possible never grow. */
  lemma DefinitionBudget(g: Setting, w: World, e: Event, k: Key)
    requires DistinctMacs(w.host.hosts) && k in w.objects && k in Next(g, w, e).objects
    requires MindsOwn(g, e, k) && !LosesDomain(g, w, e, k)
    ensures var w', n := Next(g, w, e), g.name(k);
            Definitions(w'.host.log, n) + (if MayCreate(g, w', k) then 1 else 0)
            <= Definitions(w.host.log, n) + (if MayCreate(g, w, k) then 1 else 0)
  {
    if e.Reconciles? && e.k in w.objects {
      if e.k != k {
        OtherPass(g, w, e.k, e.p, k);
      } else {
        var m := w.objects[k];
        PassKeepsUUID(g, w.host, k, m, e.p);
        if !MayCreate(g, w, k) {
          QuietPass(g, w.host, k, m, e.p);
        } else if Next(g, w, e).host != w.host {
          CreateLogs(g.site, w.host, ConfigOf(g, k, m, e.p.bootstrap.userData), e.p.create, g.name(k));
        }
      }
    }
  }

  /** The object of k lives through the run, other passes mind their own names, and nobody else removes k's domain. */
  ghost predicate LivesUndisturbed(g: Setting, w: World, es: seq<Event>, k: Key)
    decreases |es|
  {
    && k in w.objects
    && (es != [] ==>
          MindsOwn(g, es[0], k) && !LosesDomain(g, w, es[0], k) && LivesUndisturbed(g, Next(g, w, es[0]), es[1..], k))
  }

  lemma {:induction false} RunWithinBudget(g: Setting, w: World, es: seq<Event>, k: Key)
    requires DistinctMacs(w.host.hosts) && LivesUndisturbed(g, w, es, k)
    ensures Definitions(Exec(g, w, es).host.log, g.name(k))
            <= Definitions(w.host.log, g.name(k)) + (if MayCreate(g, w, k) then 1 else 0)
    decreases |es|
  {
    if es != [] {
      DefinitionBudget(g, w, es[0], k);
      NextKeepsDistinct(g, w, es[0]);
      RunWithinBudget(g, Next(g, w, es[0]), es[1..], k);
    }
  }

  /**
   From the creation of a machine's object on, for as long as that object lives, its domain is defined
   at most once, whatever provider calls and patches fail, unless somebody else removes the domain.
   */
  lemma DefinedAtMostOnce(g: Setting, w: World, created: Event, es: seq<Event>)
    requires DistinctMacs(w.host.hosts) && created.ObjectCreated? && created.k !in w.objects
    requires LivesUndisturbed(g, Next(g, w, created), es, created.k)
    ensures Definitions(Exec(g, w, [created] + es).host.log, g.name(created.k)) <= Definitions(w.host.log, g.name(created.k)) + 1
  {
    assert ([created] + es)[1..] == es;
    RunWithinBudget(g, Next(g, w, created), es, created.k);
  }

  // ---- after the provider ID is stored ----

  ghost predicate AllMindOwn(g: Setting, es: seq<Event>, k: Key) {
    forall i :: 0 <= i < |es| ==> MindsOwn(g, es[i], k)
  }

  lemma NextNeverCreates(g: Setting, w: World, e: Event, k: Key)
    requires DistinctMacs(w.host.hosts) && k in w.objects && k in Next(g, w, e).objects && MindsOwn(g, e, k)
    requires w.objects[k].providerID.Some?
    ensures Next(g, w, e).objects[k].providerID == w.objects[k].providerID
    ensures Creations(Next(g, w, e).host.log, g.name(k)) == Creations(w.host.log, g.name(k))
    ensures Definitions(Next(g, w, e).host.log, g.name(k)) == Definitions(w.host.log, g.name(k))
  {
    NextKeepsProviderID(g, w, e, k);
    if e.Reconciles? && e.k in w.objects {
      if e.k == k { QuietPass(g, w.host, k, w.objects[k], e.p); } else { OtherPass(g, w, e.k, e.p, k); }
    }
  }

  /** Once the provider ID is stored, CreateMachine is never called again, even when the domain is removed from outside. */
  lemma {:induction false} NeverCreatedAgain(g: Setting, w: World, es: seq<Event>, k: Key)
    requires DistinctMacs(w.host.hosts) && Persists(g, w, es, k) && AllMindOwn(g, es, k)
    requires w.objects[k].providerID.Some?
    ensures Creations(Exec(g, w, es).host.log, g.name(k)) == Creations(w.host.log, g.name(k))
    ensures Definitions(Exec(g, w, es).host.log, g.name(k)) == Definitions(w.host.log, g.name(k))
    decreases |es|
  {
    if es != [] {
      NextNeverCreates(g, w, es[0], k);
      NextKeepsDistinct(g, w, es[0]);
      NeverCreatedAgain(g, Next(g, w, es[0]), es[1..], k);
    }
  }

  // ---- the address of a live machine ----

  /** k's domain exists, or it did and the provider ID remembers it. */
  predicate Anchored(g: Setting, w: World, k: Key) {
    k in w.objects && (w.objects[k].providerID.Some? || g.name(k) in w.host.domains)
  }

  predicate DeletesOwn(w: World, e: Event, k: Key) {
    e.Reconciles? && e.k == k && k in w.objects && w.objects[k].deleting
  }

  /** No event but the machine's own deletion changes the reservation of an anchored machine. */
  lemma AddressStays(g: Setting, w: World, e: Event, k: Key)
    requires DistinctMacs(w.host.hosts) && Anchored(g, w, k) && MindsOwn(g, e, k) && !DeletesOwn(w, e, k)
    ensures EntryOf(Next(g, w, e).host.hosts, g.site.a.mac(g.name(k))) == EntryOf(w.host.hosts, g.site.a.mac(g.name(k)))
  {
    if e.Reconciles? && e.k in w.objects {
      if e.k == k { QuietPass(g, w.host, k, w.objects[k], e.p); } else { OtherPass(g, w, e.k, e.p, k); }
    }
  }

  /** An anchored machine stays anchored through every event, unless its domain is removed before the provider ID is stored. */
  lemma AnchorHolds(g: Setting, w: World, e: Event, k: Key)
    requires DistinctMacs(w.host.hosts) && Anchored(g, w, k) && MindsOwn(g, e, k) && !DeletesOwn(w, e, k)
    requires k in Next(g, w, e).objects
    ensures Anchored(g, Next(g, w, e), k) <==> !(LosesDomain(g, w, e, k) && w.objects[k].providerID.None?)
  {
    if w.objects[k].providerID.Some? { NextKeepsProviderID(g, w, e, k); }
    if e.Reconciles? && e.k in w.objects {
      if e.k == k { QuietPass(g, w.host, k, w.objects[k], e.p); } else { OtherPass(g, w, e.k, e.p, k); }
    }
  }

  /** The object of k lives through the run, is not finalized, and its domain is not removed before the provider ID is stored. */
  ghost predicate LivesOn(g: Setting, w: World, es: seq<Event>, k: Key)
    decreases |es|
  {
    && k in w.objects
    && (es != [] ==>
          && MindsOwn(g, es[0], k) && !DeletesOwn(w, es[0], k) && !(LosesDomain(g, w, es[0], k) && w.objects[k].providerID.None?)
          && LivesOn(g, Next(g, w, es[0]), es[1..], k))
  }

  /**
   From the definition of its domain to its own deletion a machine keeps its address, whatever other
   machines reserve and release meanwhile, although a fresh reservation could move it (ReleaseCanMove).
   */
  lemma {:induction false} LiveAddressIsFixed(g: Setting, w: World, es: seq<Event>, k: Key)
    requires DistinctMacs(w.host.hosts) && Anchored(g, w, k) && LivesOn(g, w, es, k)
    ensures Anchored(g, Exec(g, w, es), k)
    ensures EntryOf(Exec(g, w, es).host.hosts, g.site.a.mac(g.name(k))) == EntryOf(w.host.hosts, g.site.a.mac(g.name(k)))
    decreases |es|
  {
    if es != [] {
      AddressStays(g, w, es[0], k);
      AnchorHolds(g, w, es[0], k);
      NextKeepsDistinct(g, w, es[0]);
      LiveAddressIsFixed(g, Next(g, w, es[0]), es[1..], k);
    }
  }

  // ---- autostart ----

  /** A new domain starts with the host exactly when the call that asks for it took effect in the defining attempt. */
  lemma AutostartAtBirth(s: Site, h: Host, c: Config, f: CreateFaults)
    requires c.name !in h.domains && c.name in CreateMachine(s, h, c, f).host.domains
    ensures CreateMachine(s, h, c, f).host.domains[c.name].autostart <==> f.define.Done? && f.autostart.Took()
  {
    PrepareTouches(s, h.(log := h.log + [CreateCalled(c.name)]), c, f);
  }

  /** The failing side occurs: defined but refused autostart, then started on the next pass, it runs without autostart. */
  lemma RefusedAutostartStays(s: Site, h: Host, c: Config)
    requires GoodBlock(s.a.block) && HasBase(s, c, h.volumes) && c.name !in h.domains
    requires |Others(h.hosts, s.a.mac(c.name))| < |s.a.block|
    ensures var h1 := CreateMachine(s, h, c, NO_FAULTS.(autostart := Refused)).host;
            var out := StartMachine(h1, c.name, StartFaults(true, true, Done));
            && StateOf(h1, c.name).Stopped? && out.ok
            && out.host.domains[c.name].run == Running && !out.host.domains[c.name].autostart
  {
    var h0 := h.(log := h.log + [CreateCalled(c.name)]);
    var f := NO_FAULTS.(autostart := Refused);
    assert Prepare(s, h0, c, f) == Prepare(s, h0, c, NO_FAULTS);
    GoodPrepare(s, h0, c);
    PrepareTouches(s, h0, c, f);
    AllocateSucceeds(h.hosts, s.a.block, s.a.sum(c.name), s.a.mac(c.name));
  }

  lemma OwnPassKeepsAutostart(g: Setting, h: Host, k: Key, m: Machine, p: Pass)
    requires g.name(k) in h.domains && g.name(k) in Reconciled(g, h, k, m, p).host.domains
    ensures Reconciled(g, h, k, m, p).host.domains[g.name(k)].autostart == h.domains[g.name(k)].autostart
  {
    if p.resolved && m.deleting {
      DeleteHasShape(g.site, h, g.name(k), p.delete);
      if p.delete.connect { DomainKeepsFace(h, g.name(k), p.delete); }
    }
  }

  lemma AutostartStays(g: Setting, w: World, e: Event, k: Key)
    requires DistinctMacs(w.host.hosts) && MindsOwn(g, e, k)
    requires g.name(k) in w.host.domains && g.name(k) in Next(g, w, e).host.domains
    ensures Next(g, w, e).host.domains[g.name(k)].autostart == w.host.domains[g.name(k)].autostart
  {
    if e.Reconciles? && e.k in w.objects {
      if e.k == k {
        OwnPassKeepsAutostart(g, w.host, k, w.objects[k], e.p);
      } else {
        ApartIff(g, e.k, k);
        PassTouches(g, w.host, e.k, w.objects[e.k], e.p);
        SameDomain(w.host.domains, Next(g, w, e).host.domains, {g.name(e.k)}, g.name(k));
      }
    }
  }

  ghost predicate DomainStays(g: Setting, w: World, es: seq<Event>, k: Key)
    decreases |es|
  {
    g.name(k) in w.host.domains && (es == [] || DomainStays(g, Next(g, w, es[0]), es[1..], k))
  }

  /** Nothing repairs a missing autostart later: as long as the domain exists no run changes the flag. */
  lemma {:induction false} AutostartNeverRepaired(g: Setting, w: World, es: seq<Event>, k: Key)
    requires DistinctMacs(w.host.hosts) && DomainStays(g, w, es, k) && AllMindOwn(g, es, k)
    ensures g.name(k) in Exec(g, w, es).host.domains
    ensures Exec(g, w, es).host.domains[g.name(k)].autostart == w.host.domains[g.name(k)].autostart
    decreases |es|
  {
    if es != [] {
      AutostartStays(g, w, es[0], k);
      NextKeepsDistinct(g, w, es[0]);
      AutostartNeverRepaired(g, Next(g, w, es[0]), es[1..], k);
    }
  }
}
