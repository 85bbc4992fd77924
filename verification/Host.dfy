/**
 The libvirt host: its domains, volumes and DHCP host table, and the provider calls that change them.
 Every call to libvirt has an outcome of its own; the outcomes of one provider call are its faults.
 The functions give the resulting host, the class LibvirtHost performs the same calls step by step.
 */
module Host {
  import opened Base
  import opened IPv4
  import opened Dhcp
  import opened Naming
  import opened Reservation

  datatype RunState = Running | Blocked | Paused | ShuttingDown | Shutoff | Crashed | Suspended | NoState {
    /** libvirt keeps a hypervisor process for the domain. */
    predicate Active() { !Shutoff? && !Crashed? }
  }

  datatype DomainState = NotFound | IsRunning | Stopped | Unknown

  /** The state switch of getDomainState. */
  function Classify(r: RunState): DomainState {
    match r
    case Running => IsRunning
    case Shutoff | ShuttingDown | Crashed => Stopped
    case Paused | Blocked | Suspended => Unknown
    case NoState => Unknown
  }

  /** A domain; one that is undefined while active lives on without persistent definition. */
  datatype Domain = Domain(uuid: string, mac: string, disk: string, iso: string, autostart: bool, persistent: bool, run: RunState)

  /** The content of a cloud-init image. */
  datatype Seed = Seed(instanceID: string, hostname: string, userData: seq<byte>)

  /** A volume of the domain pool; a cloud-init image without seed was created but not completely uploaded. */
  datatype Volume = RootDisk(image: string, sizeGiB: nat) | CloudInit(seed: Option<Seed>)

  datatype Config = Config(name: string, uuid: string, hostname: string, image: string, diskGiB: nat, userData: seq<byte>) {
    function InstanceID(): string { if uuid == "" then name else uuid }
    function Hostname(): string { if hostname == "" then name else hostname }
    function DiskSize(): nat { if diskGiB == 0 then 20 else diskGiB }
  }

  /** A history of what was asked of the host and of the definitions that took effect there. */
  datatype LogEntry = CreateCalled(name: string) | Defined(name: string, uuid: string)

  datatype Host = Host(domains: map<string, Domain>, volumes: map<string, Volume>, hosts: seq<HostEntry>, log: seq<LogEntry>)

  /** What no provider call changes: the base images and the addressing of the network. */
  datatype Site = Site(images: set<string>, a: Addressing)

  /** A host after a call, and whether the call reported success. */
  datatype Out = Out(host: Host, ok: bool)

  // ---- creating a machine ----

  /** Outcomes of the calls of one CreateMachine, in the order of the Go code. */
  datatype CreateFaults = CreateFaults(
    connect: bool, domainPool: bool, basePool: bool,
    diskLookup: bool, imageLookup: bool, diskCreate: Effect,
    isoLookup: bool, isoBuild: bool, isoCreate: Effect, isoReopen: bool, isoUpload: Effect,
    network: bool, net: NetFaults,
    define: Effect, autostart: Effect, start: Effect)

  const NO_FAULTS := CreateFaults(true, true, true, true, true, Done, true, true, Done, true, Done,
                                  true, NetFaults(true, Done), Done, Done, Done)

  function CreateRootDisk(s: Site, h: Host, c: Config, f: CreateFaults): Out {
    var vol := DiskName(c.name);
    if !f.diskLookup then Out(h, false)
    else if vol in h.volumes then Out(h, true)
    else if !f.imageLookup || c.image !in s.images || f.diskCreate.Refused? then Out(h, false)
    else Out(h.(volumes := h.volumes[vol := RootDisk(c.image, c.DiskSize())]), f.diskCreate.Done?)
  }

  function SeedOf(c: Config): Seed {
    Seed(c.InstanceID(), c.Hostname(), c.userData)
  }

  function CreateIsoDisk(h: Host, c: Config, f: CreateFaults): Out {
    var vol := IsoName(c.name);
    if !f.isoLookup then Out(h, false)
    else if vol in h.volumes then Out(h, true)
    else if !f.isoBuild || f.isoCreate.Refused? then Out(h, false)
    else
      var uploaded := f.isoCreate.Done? && f.isoReopen && f.isoUpload.Took();
      Out(h.(volumes := h.volumes[vol := CloudInit(if uploaded then Some(SeedOf(c)) else None)]),
          uploaded && f.isoUpload.Done?)
  }

  function ReserveAddress(s: Site, h: Host, c: Config, f: CreateFaults): Out {
    var r := Reserve(s.a, h.hosts, c.name, f.net);
    if !f.network then Out(h, false) else Out(h.(hosts := r.hosts), r.ip.Some?)
  }

  /** Defining a name that exists replaces its definition if the UUID is the same, and is refused otherwise. */
  function DefineAndStart(s: Site, h: Host, c: Config, f: CreateFaults): Out {
    var known := c.name in h.domains;
    if f.define.Refused? || (known && h.domains[c.name].uuid != c.uuid) then Out(h, false)
    else
      var auto := known && h.domains[c.name].autostart;
      var run := if known then h.domains[c.name].run else Shutoff;
      var auto' := auto || (f.define.Done? && f.autostart.Took());
      var started := f.define.Done? && f.autostart.Done? && !run.Active() && f.start.Took();
      var dom := Domain(c.uuid, s.a.mac(c.name), DiskName(c.name), IsoName(c.name), auto', true, if started then Running else run);
      Out(h.(domains := h.domains[c.name := dom], log := h.log + [Defined(c.name, c.uuid)]), started && f.start.Done?)
  }

  /** createDomain up to the reservation: every step reuses what an earlier attempt left behind. */
  function Prepare(s: Site, h: Host, c: Config, f: CreateFaults): Out {
    if !f.connect || !f.domainPool || !f.basePool then Out(h, false)
    else
      var disk := CreateRootDisk(s, h, c, f);
      if !disk.ok then disk
      else
        var iso := CreateIsoDisk(disk.host, c, f);
        if !iso.ok then iso else ReserveAddress(s, iso.host, c, f)
  }

  function CreateMachine(s: Site, h: Host, c: Config, f: CreateFaults): Out {
    var p := Prepare(s, h.(log := h.log + [CreateCalled(c.name)]), c, f);
    if !p.ok then p else DefineAndStart(s, p.host, c, f)
  }

  // ---- starting, observing ----

  datatype StartFaults = StartFaults(connect: bool, lookup: bool, start: Effect)

  function StartMachine(h: Host, name: string, f: StartFaults): Out {
    if !f.connect || !f.lookup || name !in h.domains || h.domains[name].run.Active() || f.start.Refused? then Out(h, false)
    else Out(h.(domains := h.domains[name := h.domains[name].(run := Running)]), f.start.Done?)
  }

  function StateOf(h: Host, name: string): DomainState {
    if name in h.domains then Classify(h.domains[name].run) else NotFound
  }

  // ---- deleting a machine ----

  datatype VolumeFaults = VolumeFaults(pool: Lookup, lookup: bool, delete: Effect)

  datatype DeleteFaults = DeleteFaults(
    connect: bool, lookup: bool, isActive: bool, destroy: Effect, undefine: Effect,
    disk: VolumeFaults, iso: VolumeFaults, network: Lookup, net: NetFaults)

  /** Destroying stops a domain; one without persistent definition is gone then. */
  function Destroyed(h: Host, name: string): Host
    requires name in h.domains
  {
    h.(domains := if h.domains[name].persistent then h.domains[name := h.domains[name].(run := Shutoff)]
                  else h.domains - {name})
  }

  /** Undefining removes an inactive domain; an active one lives on without persistent definition. */
  function Undefined(h: Host, name: string): Host
    requires name in h.domains
  {
    h.(domains := if h.domains[name].run.Active() then h.domains[name := h.domains[name].(persistent := false)]
                  else h.domains - {name})
  }

  function DeleteDomain(h: Host, name: string, f: DeleteFaults): Out {
    if !f.lookup then Out(h, false)
    else if name !in h.domains then Out(h, true)
    else
      var destroying := f.isActive && h.domains[name].run.Active();
      var h1 := if destroying && f.destroy.Took() then Destroyed(h, name) else h;
      if destroying && !f.destroy.Done? then Out(h1, false)
      else if name !in h1.domains then Out(h1, false)
      else Out(if f.undefine.Took() then Undefined(h1, name) else h1, f.undefine.Done?)
  }

  function DeleteVolume(h: Host, vol: string, f: VolumeFaults): Out {
    if f.pool.Unavailable? then Out(h, false)
    else if f.pool.Absent? then Out(h, true)
    else if !f.lookup then Out(h, false)
    else if vol !in h.volumes then Out(h, true)
    else Out(if f.delete.Took() then h.(volumes := h.volumes - {vol}) else h, f.delete.Done?)
  }

  function ReleaseReservation(s: Site, h: Host, name: string, f: DeleteFaults): Out {
    var r := Release(s.a, h.hosts, name, f.net);
    if f.network.Unavailable? then Out(h, false)
    else if f.network.Absent? then Out(h, true)
    else Out(h.(hosts := r.hosts), r.ok)
  }

  function DeleteMachine(s: Site, h: Host, name: string, f: DeleteFaults): Out {
    if !f.connect then Out(h, false)
    else
      var dom := DeleteDomain(h, name, f);
      if !dom.ok then dom
      else
        var disk := DeleteVolume(dom.host, DiskName(name), f.disk);
        if !disk.ok then disk
        else
          var iso := DeleteVolume(disk.host, IsoName(name), f.iso);
          if !iso.ok then iso else ReleaseReservation(s, iso.host, name, f)
  }

  // ---- the host as the provider drives it ----

  class LibvirtHost {
    const images: set<string>
    const network: DhcpNetwork
    var domains: map<string, Domain>
    var volumes: map<string, Volume>
    var log: seq<LogEntry>

    constructor (images: set<string>, network: DhcpNetwork, domains: map<string, Domain>, volumes: map<string, Volume>)
      ensures this.images == images && this.network == network
      ensures View() == Host(domains, volumes, network.hosts, [])
    {
      this.images, this.network := images, network;
      this.domains, this.volumes, this.log := domains, volumes, [];
    }

    ghost function View(): Host
      reads this, network
    {
      Host(domains, volumes, network.hosts, log)
    }

    ghost function Place(): Site { Site(images, network.Scheme()) }

    method RootDisk(c: Config, f: CreateFaults) returns (ok: bool)
      modifies this`volumes
      ensures Out(View(), ok) == CreateRootDisk(Place(), old(View()), c, f)
    {
      var vol := DiskName(c.name);
      if !f.diskLookup {
        return false;
      }
      if vol in volumes {
        return true;
      }
      if !f.imageLookup || c.image !in images {
        return false;
      }
      if f.diskCreate.Took() {
        volumes := volumes[vol := Volume.RootDisk(c.image, c.DiskSize())];
      }
      return f.diskCreate.Done?;
    }

    method IsoDisk(c: Config, f: CreateFaults) returns (ok: bool)
      modifies this`volumes
      ensures Out(View(), ok) == CreateIsoDisk(old(View()), c, f)
    {
      var vol := IsoName(c.name);
      if !f.isoLookup {
        return false;
      }
      if vol in volumes {
        return true;
      }
      if !f.isoBuild {
        return false;
      }
      if f.isoCreate.Took() {
        volumes := volumes[vol := CloudInit(None)];
      }
      if !f.isoCreate.Done? || !f.isoReopen {
        return false;
      }
      if f.isoUpload.Took() {
        volumes := volumes[vol := CloudInit(Some(SeedOf(c)))];
        assert volumes == old(volumes)[vol := CloudInit(Some(SeedOf(c)))];
      }
      return f.isoUpload.Done?;
    }

    method Create(c: Config, f: CreateFaults) returns (ok: bool)
      requires network.Converges()
      modifies this, network
      ensures Out(View(), ok) == CreateMachine(Place(), old(View()), c, f)
    {
      log := log + [CreateCalled(c.name)];
      if !f.connect || !f.domainPool || !f.basePool {
        return false;
      }
      ok := RootDisk(c, f);
      if !ok {
        return;
      }
      ok := IsoDisk(c, f);
      if !ok {
        return;
      }
      if !f.network {
        return false;
      }
      var ip := network.ReserveMachineIP(c.name, f.net);
      if ip.None? {
        return false;
      }
      ok := Define(c, f);
    }

    method Define(c: Config, f: CreateFaults) returns (ok: bool)
      modifies this`domains, this`log
      ensures Out(View(), ok) == DefineAndStart(Place(), old(View()), c, f)
    {
      var dom := Domain(c.uuid, DeriveMac(network.fnv(c.name)), DiskName(c.name), IsoName(c.name), false, true, Shutoff);
      if c.name in domains {
        if domains[c.name].uuid != c.uuid {
          return false;
        }
        dom := dom.(autostart := domains[c.name].autostart, run := domains[c.name].run);
      }
      if f.define.Took() {
        domains := domains[c.name := dom];
        log := log + [Defined(c.name, c.uuid)];
      }
      if !f.define.Done? {
        return false;
      }
      if f.autostart.Took() {
        dom := dom.(autostart := true);
        domains := domains[c.name := dom];
      }
      assert domains == old(domains)[c.name := dom];
      if !f.autostart.Done? || dom.run.Active() {
        return false;
      }
      if f.start.Took() {
        dom := dom.(run := Running);
        domains := domains[c.name := dom];
      }
      assert domains == old(domains)[c.name := dom];
      return f.start.Done?;
    }

    method Start(name: string, f: StartFaults) returns (ok: bool)
      modifies this`domains
      ensures Out(View(), ok) == StartMachine(old(View()), name, f)
    {
      if !f.connect || !f.lookup || name !in domains || domains[name].run.Active() {
        return false;
      }
      if f.start.Took() {
        domains := domains[name := domains[name].(run := Running)];
      }
      return f.start.Done?;
    }

    method RemoveDomain(name: string, f: DeleteFaults) returns (ok: bool)
      modifies this`domains
      ensures Out(View(), ok) == DeleteDomain(old(View()), name, f)
    {
      if !f.lookup {
        return false;
      }
      if name !in domains {
        return true;
      }
      if f.isActive && domains[name].run.Active() {
        if f.destroy.Took() {
          domains := if domains[name].persistent then domains[name := domains[name].(run := Shutoff)] else domains - {name};
        }
        if !f.destroy.Done? {
          return false;
        }
      }
      if name !in domains {
        return false;
      }
      if f.undefine.Took() {
        domains := if domains[name].run.Active() then domains[name := domains[name].(persistent := false)] else domains - {name};
      }
      return f.undefine.Done?;
    }

    method RemoveVolume(vol: string, f: VolumeFaults) returns (ok: bool)
      modifies this`volumes
      ensures Out(View(), ok) == DeleteVolume(old(View()), vol, f)
    {
      if f.pool.Unavailable? {
        return false;
      }
      if f.pool.Absent? {
        return true;
      }
      if !f.lookup {
        return false;
      }
      if vol !in volumes {
        return true;
      }
      if f.delete.Took() {
        volumes := volumes - {vol};
      }
      return f.delete.Done?;
    }

    method Delete(name: string, f: DeleteFaults) returns (ok: bool)
      modifies this, network
      ensures Out(View(), ok) == DeleteMachine(Place(), old(View()), name, f)
    {
      if !f.connect {
        return false;
      }
      ok := RemoveDomain(name, f);
      if !ok {
        return;
      }
      ok := RemoveVolume(DiskName(name), f.disk);
      if !ok {
        return;
      }
      ok := RemoveVolume(IsoName(name), f.iso);
      if !ok {
        return;
      }
      if f.network.Unavailable? {
        return false;
      }
      if f.network.Absent? {
        return true;
      }
      ok := network.ReleaseMachineIP(name, f.net);
    }
  }
}
