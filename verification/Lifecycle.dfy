/** Runs: reconcile passes of any number of machines, interleaved with users, the API server and the host's own events. */
module Lifecycle {
  import opened Base
  import opened Dhcp
  import opened Naming
  import opened Reservation
  import opened Host
  import opened HostFacts
  import opened Controller

  datatype Event =
    | ObjectCreated(k: Key, uid: string, image: string, diskGiB: nat, others: bool)
    | DeleteRequested(k: Key)
    | OtherFinalizersDone(k: Key)
    | Moved(k: Key, uid: string)                 // clusterctl move: same spec and finalizers, new UID, no status
    | Reconciles(k: Key, p: Pass)
    | DomainLost(name: string)                   // somebody removes the domain on the host
    | DomainRuns(name: string, run: RunState)    // the domain's run state changes on the host

  function Next(g: Setting, w: World, e: Event): World {
    match e
    case ObjectCreated(k, uid, image, diskGiB, others) =>
      if k in w.objects then w
      else w.(objects := w.objects[k := Machine(uid, None, image, diskGiB, false, others, false, false, false, [])])
    case DeleteRequested(k) =>
      if k !in w.objects then w
      else w.(objects := Store(w.objects, k, Remaining(w.objects[k].(deleting := true))))
    case OtherFinalizersDone(k) =>
      if k !in w.objects then w
      else w.(objects := Store(w.objects, k, Remaining(w.objects[k].(others := false))))
    case Moved(k, uid) =>
      if k !in w.objects then w
      else w.(objects := w.objects[k := w.objects[k].(uid := uid, ready := false, provisioned := false, addresses := [])])
    case Reconciles(k, p) => ReconcilePass(g, w, k, p)
    case DomainLost(name) => w.(host := w.host.(domains := w.host.domains - {name}))
    case DomainRuns(name, run) => w.(host := RunChanged(w.host, name, run))
  }

  /** The API server drops a deleted object once its last finalizer is gone. */
  function Remaining(m: Machine): Option<Machine> {
    if m.deleting && !m.finalizer && !m.others then None else Some(m)
  }

  function RunChanged(h: Host, name: string, run: RunState): Host {
    if name !in h.domains then h
    else if !h.domains[name].persistent && !run.Active() then h.(domains := h.domains - {name})
    else h.(domains := h.domains[name := h.domains[name].(run := run)])
  }

  function Exec(g: Setting, w: World, es: seq<Event>): World
    decreases |es|
  {
    if es == [] then w else Exec(g, Next(g, w, es[0]), es[1..])
  }

  lemma {:induction false} ExecOne(g: Setting, w: World, es: seq<Event>, e: Event)
    ensures Exec(g, w, es + [e]) == Next(g, Exec(g, w, es), e)
    decreases |es|
  {
    if es != [] {
      assert (es + [e])[1..] == es[1..] + [e];
      ExecOne(g, Next(g, w, es[0]), es[1..], e);
    }
  }

  // ---- what one pass can touch ----

  lemma ReserveKeepsDistinct(a: Addressing, hosts: seq<HostEntry>, x: string, f: NetFaults)
    requires DistinctMacs(hosts)
    ensures DistinctMacs(Reserve(a, hosts, x, f).hosts)
  {
  }

  lemma PassTouches(g: Setting, h: Host, k: Key, m: Machine, p: Pass)
    requires DistinctMacs(h.hosts)
    ensures var h' := Reconciled(g, h, k, m, p).host;
            OnlyTouches(g.site, h, h', g.name(k)) && DistinctMacs(h'.hosts)
  {
    var n := g.name(k);
    var h' := Reconciled(g, h, k, m, p).host;
    if h' != h {
      if m.deleting {
        DeleteShrinks(g.site, h, n, p.delete);
      } else if StateOf(h, n).NotFound? {
        var c := ConfigOf(g, k, m, p.bootstrap.userData);
        CreateTouches(g.site, h, c, p.create);
        CreateLeftovers(g.site, h, c, p.create);
        ReserveKeepsDistinct(g.site.a, h.hosts, n, p.create.net);
      } else {
        StartTouches(g.site, h, n, p.start);
      }
    }
  }

  /** No event merges two MACs in the host table. */
  lemma NextKeepsDistinct(g: Setting, w: World, e: Event)
    requires DistinctMacs(w.host.hosts)
    ensures DistinctMacs(Next(g, w, e).host.hosts)
  {
    if e.Reconciles? && e.k in w.objects {
      PassTouches(g, w.host, e.k, w.objects[e.k], e.p);
    }
  }
}
