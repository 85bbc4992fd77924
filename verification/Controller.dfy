/**
 The LibvirtMachine reconciler: one pass reads the stored object, changes an in-memory copy and the
 host, and finally patches the store. The functions give the result of a pass, the class Reconciler
 performs it in the order of the Go code.
 */
module Controller {
  import opened Base
  import opened IPv4
  import opened Naming
  import opened Host

  /** A LibvirtMachine. `others` says that a finalizer other than the controller's is set. */
  datatype Machine = Machine(
    uid: string, providerID: Option<string>, image: string, diskGiB: nat,
    finalizer: bool, others: bool, deleting: bool,
    ready: bool, provisioned: bool, addresses: seq<string>)

  /** The API server's machines and the libvirt host. */
  datatype World = World(objects: map<Key, Machine>, host: Host)

  /** The host's fixed part and the domain name of every machine. */
  datatype Setting = Setting(site: Site, name: Key -> string)

  const PROVIDER_PREFIX: string := "libvirt://"

  function TrimPrefix(s: string): string {
    if PROVIDER_PREFIX <= s then s[|PROVIDER_PREFIX|..] else s
  }

  function DomainUUID(m: Machine): string {
    if m.providerID.None? then m.uid else TrimPrefix(m.providerID.value)
  }

  function WithProviderID(m: Machine): Machine {
    if m.providerID.Some? then m else m.(providerID := Some(PROVIDER_PREFIX + DomainUUID(m)))
  }

  function ConfigOf(g: Setting, k: Key, m: Machine, userData: seq<byte>): Config {
    Config(g.name(k), DomainUUID(m), k.name, m.image, m.diskGiB, userData)
  }

  datatype Bootstrap = NotNamed | Unreadable | Data(userData: seq<byte>)

  /** Everything one pass meets: what it reads, how its calls end, and which of its two patches are saved. */
  datatype Pass = Pass(
    resolved: bool,  // owner, cluster, infrastructure cluster and credentials were found
    paused: bool, infraReady: bool, stateKnown: bool, bootstrap: Bootstrap,
    create: CreateFaults, start: StartFaults, delete: DeleteFaults,
    lease: Option<string>,  // None when the lookup failed, empty when there is no lease yet
    specSaved: bool, statusSaved: bool)

  /** The in-memory object and the host after a pass, before the deferred patch. */
  datatype Outcome = Outcome(machine: Machine, host: Host, ok: bool)

  function ReconcileNormal(g: Setting, h: Host, k: Key, m: Machine, p: Pass): Outcome {
    var off := m.(ready := false, provisioned := false);
    if p.paused then Outcome(off, h, true)
    else if !m.finalizer then Outcome(off.(finalizer := true), h, true)
    else if !p.infraReady then Outcome(off, h, true)
    else if !p.stateKnown then Outcome(m, h, false)
    else
      match StateOf(h, g.name(k))
      case NotFound =>
        if m.providerID.Some? then Outcome(m.(ready := false, addresses := []), h, true)
        else if !p.bootstrap.Data? then Outcome(off, h, p.bootstrap.NotNamed?)
        else
          var out := CreateMachine(g.site, h, ConfigOf(g, k, m, p.bootstrap.userData), p.create);
          Outcome(if out.ok then WithProviderID(m).(ready := true, provisioned := true) else off, out.host, out.ok)
      case Stopped =>
        var out := StartMachine(h, g.name(k), p.start);
        Outcome(if out.ok then WithProviderID(m).(ready := true, provisioned := true) else m.(ready := false), out.host, out.ok)
      case IsRunning =>
        var up := WithProviderID(m).(ready := true, provisioned := true);
        Outcome(if p.lease.Some? && p.lease.value != "" then up.(addresses := [p.lease.value]) else up, h, true)
      case Unknown => Outcome(off, h, true)
  }

  function ReconcileDelete(g: Setting, h: Host, k: Key, m: Machine, p: Pass): Outcome {
    var out := DeleteMachine(g.site, h, g.name(k), p.delete);
    Outcome(if out.ok then m.(finalizer := false) else m, out.host, out.ok && m.finalizer)
  }

  function Reconciled(g: Setting, h: Host, k: Key, m: Machine, p: Pass): Outcome {
    if !p.resolved then Outcome(m, h, false)
    else if m.deleting then ReconcileDelete(g, h, k, m, p)
    else ReconcileNormal(g, h, k, m, p)
  }

  /** The stored object after the patches; a deleted object without finalizers disappears. */
  function Patched(m: Machine, m': Machine, p: Pass): Option<Machine> {
    var spec := if p.specSaved then m' else m;
    var status := if p.statusSaved then m' else m;
    var r := m.(providerID := spec.providerID, finalizer := spec.finalizer,
                ready := status.ready, provisioned := status.provisioned, addresses := status.addresses);
    if r.deleting && !r.finalizer && !r.others then None else Some(r)
  }

  function Store(objects: map<Key, Machine>, k: Key, m: Option<Machine>): map<Key, Machine> {
    if m.Some? then objects[k := m.value] else objects - {k}
  }

  function ReconcilePass(g: Setting, w: World, k: Key, p: Pass): World {
    if k !in w.objects then w
    else
      var m := w.objects[k];
      var r := Reconciled(g, w.host, k, m, p);
      World(Store(w.objects, k, Patched(m, r.machine, p)), r.host)
  }

  // ---- the reconciler ----

  /** The in-memory copy a pass works on. */
  class LibvirtMachine {
    const stored: Machine
    var providerID: Option<string>
    var finalizer: bool
    var ready: bool
    var provisioned: bool
    var addresses: seq<string>

    constructor (m: Machine)
      ensures stored == m && View() == m
    {
      stored := m;
      providerID, finalizer, ready, provisioned, addresses := m.providerID, m.finalizer, m.ready, m.provisioned, m.addresses;
    }

    function View(): Machine
      reads this
    {
      stored.(providerID := providerID, finalizer := finalizer, ready := ready, provisioned := provisioned, addresses := addresses)
    }

    method SetProviderID()
      modifies this`providerID
      ensures View() == WithProviderID(old(View()))
    {
      if providerID.Some? {
        return;
      }
      providerID := Some(PROVIDER_PREFIX + DomainUUID(View()));
    }
  }

  class Reconciler {
    const nameOf: Key -> string
    const host: LibvirtHost
    var store: map<Key, Machine>

    constructor (nameOf: Key -> string, host: LibvirtHost)
      ensures this.nameOf == nameOf && this.host == host && store == map[]
    {
      this.nameOf, this.host, this.store := nameOf, host, map[];
    }

    ghost function View(): World
      reads this, host, host.network
    {
      World(store, host.View())
    }

    ghost function Around(): Setting { Setting(host.Place(), nameOf) }

    method Reconcile(k: Key, p: Pass)
      requires host.network.Converges()
      modifies this, host, host.network
      ensures View() == ReconcilePass(Around(), old(View()), k, p)
    {
      if k !in store {
        return;
      }
      var m := new LibvirtMachine(store[k]);
      if p.resolved {
        if m.stored.deleting {
          var _ := Delete(k, m, p);
        } else {
          var _ := Normal(k, m, p);
        }
      }
      // The deferred patch: metadata and spec in one request, status in another.
      var saved := Patched(m.stored, m.View(), p);
      store := if saved.Some? then store[k := saved.value] else store - {k};
    }

    method Normal(k: Key, m: LibvirtMachine, p: Pass) returns (ok: bool)
      requires host.network.Converges()
      modifies m, host, host.network
      ensures Outcome(m.View(), host.View(), ok) == ReconcileNormal(Around(), old(host.View()), k, old(m.View()), p)
    {
      if p.paused {
        m.ready, m.provisioned := false, false;
        return true;
      }
      if !m.finalizer {
        m.finalizer := true;
        m.ready, m.provisioned := false, false;
        return true;
      }
      if !p.infraReady {
        m.ready, m.provisioned := false, false;
        return true;
      }
      if !p.stateKnown {
        return false;
      }
      var name := nameOf(k);
      var state := if name in host.domains then Classify(host.domains[name].run) else NotFound;
      match state
      case NotFound =>
        if m.providerID.Some? {
          m.ready, m.addresses := false, [];
          return true;
        }
        var cfg := Config(name, DomainUUID(m.View()), k.name, m.stored.image, m.stored.diskGiB, []);
        m.ready, m.provisioned := false, false;
        if !p.bootstrap.Data? {
          return p.bootstrap.NotNamed?;
        }
        ok := host.Create(cfg.(userData := p.bootstrap.userData), p.create);
        if !ok {
          return;
        }
        m.SetProviderID();
        m.ready, m.provisioned := true, true;
      case Stopped =>
        m.ready := false;
        ok := host.Start(name, p.start);
        if !ok {
          return;
        }
        m.SetProviderID();
        m.ready, m.provisioned := true, true;
      case IsRunning =>
        m.SetProviderID();
        m.ready, m.provisioned := true, true;
        if p.lease.Some? && p.lease.value != "" {
          m.addresses := [p.lease.value];
        }
        ok := true;
      case Unknown =>
        m.ready, m.provisioned := false, false;
        ok := true;
    }

    method Delete(k: Key, m: LibvirtMachine, p: Pass) returns (ok: bool)
      modifies m, host, host.network
      ensures Outcome(m.View(), host.View(), ok) == ReconcileDelete(Around(), old(host.View()), k, old(m.View()), p)
    {
      ok := host.Delete(nameOf(k), p.delete);
      if !ok {
        return;
      }
      if !m.finalizer {
        return false;
      }
      m.finalizer := false;
    }
  }
}
