/** What the provider calls do to the host: frames, complete deletion, and retried creation. */
module HostFacts {
  import opened Base
  import opened Dhcp
  import opened Naming
  import opened Reservation
  import opened Ledger
  import opened Host

  // ---- frames ----

  /** Only the domain, the two volumes and the reservation of `name` may differ. */
  ghost predicate OnlyTouches(s: Site, h: Host, h': Host, name: string) {
    && h.domains - {name} == h'.domains - {name}
    && h.volumes - {DiskName(name), IsoName(name)} == h'.volumes - {DiskName(name), IsoName(name)}
    && Others(h.hosts, s.a.mac(name)) == Others(h'.hosts, s.a.mac(name))
  }

  lemma WithoutUpdated<V>(m: map<string, V>, ks: set<string>, k: string, v: V)
    requires k in ks
    ensures m[k := v] - ks == m - ks && (m - {k}) - ks == m - ks
  {
    assert m[k := v] - ks == m - ks;
    assert (m - {k}) - ks == m - ks;
  }

  /** Making the disk or the image changes nothing but that volume. */
  lemma VolumesMade(s: Site, h: Host, c: Config, f: CreateFaults)
    ensures var ks := {DiskName(c.name), IsoName(c.name)};
            var disk, iso := CreateRootDisk(s, h, c, f).host, CreateIsoDisk(h, c, f).host;
            && disk.volumes - ks == h.volumes - ks && disk == h.(volumes := disk.volumes)
            && iso.volumes - ks == h.volumes - ks && iso == h.(volumes := iso.volumes)
  {
    var ks := {DiskName(c.name), IsoName(c.name)};
    WithoutUpdated(h.volumes, ks, DiskName(c.name), RootDisk(c.image, c.DiskSize()));
    WithoutUpdated(h.volumes, ks, IsoName(c.name), CloudInit(Some(SeedOf(c))));
    WithoutUpdated(h.volumes, ks, IsoName(c.name), CloudInit(None));
  }

  lemma PrepareTouches(s: Site, h: Host, c: Config, f: CreateFaults)
    ensures OnlyTouches(s, h, Prepare(s, h, c, f).host, c.name)
    ensures Prepare(s, h, c, f).host.domains == h.domains && Prepare(s, h, c, f).host.log == h.log
  {
    VolumesMade(s, h, c, f);
    VolumesMade(s, CreateRootDisk(s, h, c, f).host, c, f);
    OthersUntouched(s.a, h.hosts, c.name, f.net, s.a.mac(c.name));
  }

  lemma CreateTouches(s: Site, h: Host, c: Config, f: CreateFaults)
    ensures OnlyTouches(s, h, CreateMachine(s, h, c, f).host, c.name)
  {
    var h0 := h.(log := h.log + [CreateCalled(c.name)]);
    PrepareTouches(s, h0, c, f);
    var p := Prepare(s, h0, c, f).host;
    var out := CreateMachine(s, h, c, f).host;
    if out.domains != p.domains {
      WithoutUpdated(p.domains, {c.name}, c.name, out.domains[c.name]);
    }
  }

  lemma StartTouches(s: Site, h: Host, name: string, f: StartFaults)
    ensures OnlyTouches(s, h, StartMachine(h, name, f).host, name)
  {
    if name in h.domains {
      WithoutUpdated(h.domains, {name}, name, h.domains[name].(run := Running));
    }
  }

  lemma DeleteDomainTouches(s: Site, h: Host, name: string, f: DeleteFaults)
    ensures OnlyTouches(s, h, DeleteDomain(h, name, f).host, name)
    ensures DeleteDomain(h, name, f).host.domains.Keys <= h.domains.Keys
    ensures var h' := DeleteDomain(h, name, f).host; h'.volumes == h.volumes && h'.hosts == h.hosts && h'.log == h.log
  {
    if name in h.domains {
      var d := h.domains[name];
      WithoutUpdated(h.domains, {name}, name, d.(run := Shutoff));
      WithoutUpdated(h.domains, {name}, name, d.(persistent := false));
      var h1 := Destroyed(h, name);
      if name in h1.domains {
        WithoutUpdated(h1.domains, {name}, name, h1.domains[name].(persistent := false));
      }
    }
  }

  /** What a deletion attempt can leave, whatever fails: volumes and reservation go only after the domain. */
  ghost predicate DeleteShape(s: Site, h: Host, h': Host, name: string, f: DeleteFaults) {
    var v, disk, iso := h.volumes, DiskName(name), IsoName(name);
    && h'.domains == (if f.connect then DeleteDomain(h, name, f).host.domains else h.domains)
    && h'.volumes in {v, v - {disk}, v - {iso}, v - {disk} - {iso}}
    && h'.hosts in {h.hosts, Release(s.a, h.hosts, name, f.net).hosts}
    && h'.log == h.log
    && (h'.volumes != v || h'.hosts != h.hosts ==> f.connect && DeleteDomain(h, name, f).ok)
  }

  lemma VolumeShape(h: Host, vol: string, f: VolumeFaults)
    ensures DeleteVolume(h, vol, f).host in {h, h.(volumes := h.volumes - {vol})}
  {
  }

  lemma DeleteHasShape(s: Site, h: Host, name: string, f: DeleteFaults)
    ensures DeleteShape(s, h, DeleteMachine(s, h, name, f).host, name, f)
  {
    var h1 := DeleteDomain(h, name, f).host;
    assert h1 == h.(domains := h1.domains) by { DeleteDomainTouches(s, h, name, f); }
    VolumeShape(h1, DiskName(name), f.disk);
    var h2 := DeleteVolume(h1, DiskName(name), f.disk).host;
    VolumeShape(h2, IsoName(name), f.iso);
    var h3 := DeleteVolume(h2, IsoName(name), f.iso).host;
    assert ReleaseReservation(s, h3, name, f).host in {h3, h3.(hosts := Release(s.a, h.hosts, name, f.net).hosts)};
  }

  lemma WithoutVolumes(v: map<string, Volume>, v': map<string, Volume>, disk: string, iso: string)
    requires v' in {v, v - {disk}, v - {iso}, v - {disk} - {iso}}
    ensures v' - {disk, iso} == v - {disk, iso} && v'.Keys <= v.Keys
  {
  }

  lemma ShapeShrinks(s: Site, h: Host, h': Host, name: string, f: DeleteFaults)
    requires DistinctMacs(h.hosts) && DeleteShape(s, h, h', name, f)
    ensures OnlyTouches(s, h, h', name)
    ensures h'.domains.Keys <= h.domains.Keys && h'.volumes.Keys <= h.volumes.Keys
    ensures (HasMac(h'.hosts, s.a.mac(name)) ==> h'.hosts == h.hosts) && DistinctMacs(h'.hosts)
  {
    DeleteDomainTouches(s, h, name, f);
    WithoutVolumes(h.volumes, h'.volumes, DiskName(name), IsoName(name));
    ReleaseOwn(s.a, h.hosts, name, f.net);
    OthersUntouched(s.a, h.hosts, name, f.net, s.a.mac(name));
  }

  /** Whatever fails, deletion touches nothing of other machines and adds nothing: what is left only shrinks. */
  lemma DeleteShrinks(s: Site, h: Host, name: string, f: DeleteFaults)
    requires DistinctMacs(h.hosts)
    ensures var h' := DeleteMachine(s, h, name, f).host;
            && OnlyTouches(s, h, h', name)
            && h'.domains.Keys <= h.domains.Keys && h'.volumes.Keys <= h.volumes.Keys
            && (HasMac(h'.hosts, s.a.mac(name)) ==> h'.hosts == h.hosts)
            && DistinctMacs(h'.hosts) && h'.log == h.log
  {
    DeleteHasShape(s, h, name, f);
    ShapeShrinks(s, h, DeleteMachine(s, h, name, f).host, name, f);
  }

  // ---- complete deletion ----

  /** Nothing of the machine is on the host. */
  predicate Gone(s: Site, h: Host, name: string) {
    name !in h.domains && DiskName(name) !in h.volumes && IsoName(name) !in h.volumes && !HasMac(h.hosts, s.a.mac(name))
  }

  /** libvirt said whether a running domain is active, and denied no pool or network that holds something. */
  predicate Answered(s: Site, h: Host, name: string, f: DeleteFaults) {
    && (name in h.domains && h.domains[name].run.Active() ==> f.isActive)
    && (DiskName(name) in h.volumes ==> !f.disk.pool.Absent?)
    && (IsoName(name) in h.volumes ==> !f.iso.pool.Absent?)
    && (HasMac(h.hosts, s.a.mac(name)) ==> !f.network.Absent?)
  }

  lemma DeleteDomainLeaves(h: Host, name: string, f: DeleteFaults)
    requires DeleteDomain(h, name, f).ok
    ensures name in DeleteDomain(h, name, f).host.domains <==> name in h.domains && h.domains[name].run.Active() && !f.isActive
  {
  }

  lemma DeleteVolumeLeaves(h: Host, vol: string, f: VolumeFaults)
    requires DeleteVolume(h, vol, f).ok
    ensures vol in DeleteVolume(h, vol, f).host.volumes <==> vol in h.volumes && f.pool.Absent?
    ensures DeleteVolume(h, vol, f).host.volumes - {vol} == h.volumes - {vol}
  {
  }

  lemma ReleaseLeaves(s: Site, h: Host, name: string, f: DeleteFaults)
    requires DistinctMacs(h.hosts) && ReleaseReservation(s, h, name, f).ok
    ensures HasMac(ReleaseReservation(s, h, name, f).host.hosts, s.a.mac(name))
            <==> HasMac(h.hosts, s.a.mac(name)) && f.network.Absent?
  {
    ReleaseOwn(s.a, h.hosts, name, f.net);
  }

  /** A deletion that reports success has removed everything exactly when libvirt gave those answers. */
  lemma DeleteIsComplete(s: Site, h: Host, name: string, f: DeleteFaults)
    requires DistinctMacs(h.hosts)
    requires DeleteMachine(s, h, name, f).ok
    ensures Gone(s, DeleteMachine(s, h, name, f).host, name) <==> Answered(s, h, name, f)
  {
    var disk, iso := DiskName(name), IsoName(name);
    assert disk != iso by { VolumeNamesDiffer(name, name); }
    var h1 := DeleteDomain(h, name, f).host;
    DeleteDomainTouches(s, h, name, f);
    DeleteDomainLeaves(h, name, f);
    var h2 := DeleteVolume(h1, disk, f.disk).host;
    DeleteVolumeLeaves(h1, disk, f.disk);
    var h3 := DeleteVolume(h2, iso, f.iso).host;
    DeleteVolumeLeaves(h2, iso, f.iso);
    assert iso in h2.volumes <==> iso in (h1.volumes - {disk});
    assert disk in h3.volumes <==> disk in (h2.volumes - {iso});
    ReleaseLeaves(s, h3, name, f);
  }

  /** The failing side occurs: with the question unanswered a deletion succeeds and leaves the domain running. */
  lemma UnansweredDeleteLeaves(s: Site, h: Host, name: string, f: DeleteFaults)
    requires name in h.domains && h.domains[name].run == Running
    requires f.connect && f.lookup && !f.isActive && f.undefine.Done?
    requires f.disk == VolumeFaults(Found, true, Done) && f.iso == VolumeFaults(Found, true, Done)
    requires f.network.Found? && f.net == NetFaults(true, Done)
    ensures var out := DeleteMachine(s, h, name, f);
            out.ok && name in out.host.domains && out.host.domains[name].run == Running
  {
    assert DeleteDomain(h, name, f) == Out(Undefined(h, name), true);
    DeleteHasShape(s, h, name, f);
  }

  /** The step for a volume reports success: the pool is denied, or the volume is gone or is deleted. */
  predicate VolumeGoes(h: Host, vol: string, f: VolumeFaults) {
    f.pool.Absent? || (f.pool.Found? && f.lookup && (vol in h.volumes ==> f.delete.Done?))
  }

  /**
   When a deletion reports success. A missing domain, pool, volume, network or reservation is no error,
   but an active domain without persistent definition is: destroying it leaves nothing to undefine.
   */
  lemma DeleteSucceedsIff(s: Site, h: Host, name: string, f: DeleteFaults)
    ensures DeleteMachine(s, h, name, f).ok <==>
              && f.connect && f.lookup
              && (name in h.domains ==>
                    && f.undefine.Done?
                    && (f.isActive && h.domains[name].run.Active() ==> f.destroy.Done? && h.domains[name].persistent))
              && VolumeGoes(h, DiskName(name), f.disk) && VolumeGoes(h, IsoName(name), f.iso)
              && (f.network.Absent? || (f.network.Found? && f.net.read && (HasMac(h.hosts, s.a.mac(name)) ==> f.net.update.Done?)))
  {
    var disk, iso := DiskName(name), IsoName(name);
    assert disk != iso by { VolumeNamesDiffer(name, name); }
    DeleteDomainTouches(s, h, name, f);
    var h1 := DeleteDomain(h, name, f).host;
    VolumeShape(h1, disk, f.disk);
    var h2 := DeleteVolume(h1, disk, f.disk).host;
    assert iso in h2.volumes <==> iso in h.volumes;
    VolumeShape(h2, iso, f.iso);
  }

  // ---- what a creation makes ----

  /**
   A creation that reports success has made what was missing, from the configuration: a disk on the
   image with the asked size, a cloud-init image with identity, host name and bootstrap data, and a
   running domain that starts with the host and uses these two. What was there is kept.
   */
  lemma CreateMakes(s: Site, h: Host, c: Config, f: CreateFaults)
    requires CreateMachine(s, h, c, f).ok
    ensures var h', disk, iso := CreateMachine(s, h, c, f).host, c.name + ".qcow2", "cloudinit-" + c.name + ".iso";
            && c.name in h'.domains && h'.domains[c.name] == Domain(c.uuid, s.a.mac(c.name), disk, iso, true, true, Running)
            && disk in h'.volumes && iso in h'.volumes
            && h'.volumes[disk] == (if disk in h.volumes then h.volumes[disk] else RootDisk(c.image, if c.diskGiB == 0 then 20 else c.diskGiB))
            && h'.volumes[iso] == (if iso in h.volumes then h.volumes[iso]
                                   else CloudInit(Some(Seed(if c.uuid == "" then c.name else c.uuid,
                                                            if c.hostname == "" then c.name else c.hostname, c.userData))))
  {
    VolumeNamesDiffer(c.name, c.name);
  }

  /** The steps up to the reservation come through. */
  predicate PrepareGoes(s: Site, h: Host, c: Config, f: CreateFaults) {
    var plan := PlanHostUpdate(s.a, h.hosts, c.name);
    && ReachesIso(s, h, c, f)
    && f.isoLookup && (IsoName(c.name) in h.volumes || (f.isoBuild && f.isoCreate.Done? && f.isoReopen && f.isoUpload.Done?))
    && f.network && f.net.read && !plan.Full? && (plan.Keep? || f.net.update.Done?)
  }

  lemma PrepareSucceedsIff(s: Site, h: Host, c: Config, f: CreateFaults)
    ensures Prepare(s, h, c, f).ok <==> PrepareGoes(s, h, c, f)
  {
    VolumeNamesDiffer(c.name, c.name);
  }

  /** When a creation of a missing domain reports success, and what becomes of the domain when it does not. */
  lemma CreateSucceedsIff(s: Site, h: Host, c: Config, f: CreateFaults)
    requires c.name !in h.domains
    ensures var out, ready := CreateMachine(s, h, c, f), PrepareGoes(s, h, c, f);
            && (out.ok <==> ready && f.define.Done? && f.autostart.Done? && f.start.Done?)
            && (c.name in out.host.domains <==> ready && f.define.Took())
            && (c.name in out.host.domains ==>
                  (out.host.domains[c.name].run == if f.define.Done? && f.autostart.Done? && f.start.Took() then Running else Shutoff))
  {
    var h0 := h.(log := h.log + [CreateCalled(c.name)]);
    PrepareSucceedsIff(s, h0, c, f);
    PrepareTouches(s, h0, c, f);
  }

  /** Which volumes an attempt leaves, whatever it reports: a call whose answer is lost has had its effect. */
  lemma CreateLeaves(s: Site, h: Host, c: Config, f: CreateFaults)
    ensures var v, disk, iso := CreateMachine(s, h, c, f).host.volumes, DiskName(c.name), IsoName(c.name);
            var begun := f.connect && f.domainPool && f.basePool && f.diskLookup;
            var made := ReachesIso(s, h, c, f) && f.isoLookup && f.isoBuild && f.isoCreate.Took();
            && (disk in v <==> disk in h.volumes || (begun && f.imageLookup && c.image in s.images && f.diskCreate.Took()))
            && (iso in v <==> iso in h.volumes || made)
            && (iso !in h.volumes && made ==>
                  v[iso] == CloudInit(if f.isoCreate.Done? && f.isoReopen && f.isoUpload.Took() then Some(SeedOf(c)) else None))
  {
    VolumeNamesDiffer(c.name, c.name);
  }

  /** A start takes effect on an inactive domain only, also when its answer is lost. */
  lemma StartMeans(h: Host, name: string, f: StartFaults)
    ensures var out := StartMachine(h, name, f);
            var starts := f.connect && f.lookup && name in h.domains && !h.domains[name].run.Active();
            && (out.ok <==> starts && f.start.Done?)
            && (out.host != h <==> starts && f.start.Took())
            && (out.host != h ==> name in out.host.domains && out.host.domains[name] == h.domains[name].(run := Running))
  {
    if name in h.domains && !h.domains[name].run.Active() {
      assert StartMachine(h, name, f).host != h ==> StartMachine(h, name, f).host.domains[name].run == Running;
    }
  }

  /** What a deletion attempt makes of the domain, whatever it reports. */
  lemma DeleteMakesOfDomain(s: Site, h: Host, name: string, f: DeleteFaults)
    requires name in h.domains
    ensures var d, after := h.domains[name], DeleteMachine(s, h, name, f).host.domains;
            var destroys := f.connect && f.lookup && f.isActive && d.run.Active();
            var stopped := destroys && f.destroy.Took();
            var undefines := f.connect && f.lookup && (destroys ==> f.destroy.Done? && d.persistent) && f.undefine.Took();
            && (name in after <==> !(stopped && !d.persistent) && !(undefines && (stopped || !d.run.Active())))
            && (name in after ==>
                  after[name] == d.(run := if stopped then Shutoff else d.run, persistent := d.persistent && !undefines))
  {
    DeleteHasShape(s, h, name, f);
  }

  lemma VolumeMeans(h: Host, vol: string, f: VolumeFaults)
    ensures var out := DeleteVolume(h, vol, f);
            && (out.ok <==> VolumeGoes(h, vol, f))
            && out.host == h.(volumes := if f.pool.Found? && f.lookup && f.delete.Took() then h.volumes - {vol} else h.volumes)
  {
    if vol !in h.volumes { assert h.volumes - {vol} == h.volumes; }
  }

  lemma ReleaseMeans(a: Addressing, hosts: seq<HostEntry>, x: string, f: NetFaults)
    requires DistinctMacs(hosts)
    ensures HasMac(Release(a, hosts, x, f).hosts, a.mac(x)) <==> HasMac(hosts, a.mac(x)) && !(f.read && f.update.Took())
  {
    ReleaseOwn(a, hosts, x, f);
    ReleaseReports(a, hosts, x, f);
  }

  /** The steps of a deletion attempt: each is reached when the earlier ones report success. */
  lemma DeleteStages(s: Site, h: Host, name: string, f: DeleteFaults)
    ensures var h', h1 := DeleteMachine(s, h, name, f).host, DeleteDomain(h, name, f).host;
            var disk := DeleteVolume(h1, DiskName(name), f.disk);
            var iso := DeleteVolume(disk.host, IsoName(name), f.iso);
            var first := f.connect && DeleteDomain(h, name, f).ok;
            && h'.volumes == (if !first then h.volumes else if !disk.ok then disk.host.volumes else iso.host.volumes)
            && h'.hosts == (if first && disk.ok && iso.ok && f.network.Found? then Release(s.a, h.hosts, name, f.net).hosts else h.hosts)
  {
    DeleteDomainTouches(s, h, name, f);
    var h1 := DeleteDomain(h, name, f).host;
    VolumeMeans(h1, DiskName(name), f.disk);
    VolumeMeans(DeleteVolume(h1, DiskName(name), f.disk).host, IsoName(name), f.iso);
  }

  /** What two volume deletions in a row, the second only after success of the first, leave of their volumes. */
  lemma TwoVolumes(h: Host, disk: string, iso: string, f: VolumeFaults, g: VolumeFaults)
    requires disk != iso
    ensures var first := DeleteVolume(h, disk, f);
            var second := DeleteVolume(first.host, iso, g);
            var v := if first.ok then second.host.volumes else first.host.volumes;
            && (first.ok <==> VolumeGoes(h, disk, f)) && (second.ok <==> VolumeGoes(h, iso, g))
            && (disk in v <==> disk in h.volumes && !(f.pool.Found? && f.lookup && f.delete.Took()))
            && (iso in v <==> iso in h.volumes && !(VolumeGoes(h, disk, f) && g.pool.Found? && g.lookup && g.delete.Took()))
  {
    VolumeMeans(h, disk, f);
    VolumeMeans(DeleteVolume(h, disk, f).host, iso, g);
  }

  /**
   Which volumes a deletion attempt leaves, and whether the reservation, whatever it reports; a call whose
   answer is lost has had its effect.
   */
  lemma DeleteLeaves(s: Site, h: Host, name: string, f: DeleteFaults)
    requires DistinctMacs(h.hosts)
    ensures var h', disk, iso, mac := DeleteMachine(s, h, name, f).host, DiskName(name), IsoName(name), s.a.mac(name);
            var first := f.connect && DeleteDomain(h, name, f).ok;
            var second := first && VolumeGoes(h, disk, f.disk);
            var third := second && VolumeGoes(h, iso, f.iso);
            && (disk in h'.volumes <==> disk in h.volumes && !(first && f.disk.pool.Found? && f.disk.lookup && f.disk.delete.Took()))
            && (iso in h'.volumes <==> iso in h.volumes && !(second && f.iso.pool.Found? && f.iso.lookup && f.iso.delete.Took()))
            && (HasMac(h'.hosts, mac) <==> HasMac(h.hosts, mac) && !(third && f.network.Found? && f.net.read && f.net.update.Took()))
  {
    assert DiskName(name) != IsoName(name) by { VolumeNamesDiffer(name, name); }
    DeleteDomainTouches(s, h, name, f);
    DeleteStages(s, h, name, f);
    TwoVolumes(DeleteDomain(h, name, f).host, DiskName(name), IsoName(name), f.disk, f.iso);
    ReleaseMeans(s.a, h.hosts, name, f.net);
  }

  /** Another machine's definition under the name is not replaced, and a domain that is active is not started again. */
  lemma CreateRespects(s: Site, h: Host, c: Config, f: CreateFaults)
    requires c.name in h.domains && (h.domains[c.name].uuid != c.uuid || h.domains[c.name].run.Active())
    ensures var out := CreateMachine(s, h, c, f);
            && !out.ok && c.name in out.host.domains && out.host.domains[c.name].run == h.domains[c.name].run
            && (h.domains[c.name].uuid != c.uuid ==> out.host.domains == h.domains)
  {
    PrepareTouches(s, h.(log := h.log + [CreateCalled(c.name)]), c, f);
  }

  // ---- retried creation ----

  /** The same domains, volumes and reservations; the history may differ. */
  predicate SameStock(h: Host, h': Host) {
    h.domains == h'.domains && h.volumes == h'.volumes && h.hosts == h'.hosts
  }

  /** The connection, the pools and the root disk come through. */
  predicate ReachesIso(s: Site, h: Host, c: Config, f: CreateFaults) {
    && f.connect && f.domainPool && f.basePool && f.diskLookup
    && (DiskName(c.name) in h.volumes || (f.imageLookup && c.image in s.images && f.diskCreate.Done?))
  }

  /** The attempt creates the cloud-init image but does not get its content onto it. */
  predicate Tears(s: Site, h: Host, c: Config, f: CreateFaults) {
    && IsoName(c.name) !in h.volumes && ReachesIso(s, h, c, f) && f.isoLookup && f.isoBuild && f.isoCreate.Took()
    && !(f.isoCreate.Done? && f.isoReopen && f.isoUpload.Took())
  }

  /** Those guards decide: an image that was not there is there without content afterwards. */
  lemma TearsMeans(s: Site, h: Host, c: Config, f: CreateFaults)
    ensures var iso, v := IsoName(c.name), CreateMachine(s, h, c, f).host.volumes;
            Tears(s, h, c, f) <==> iso !in h.volumes && iso in v && v[iso] == CloudInit(None)
  {
    VolumeNamesDiffer(c.name, c.name);
  }

  function WithDisk(c: Config, v: map<string, Volume>): map<string, Volume> {
    if DiskName(c.name) in v then v else v[DiskName(c.name) := RootDisk(c.image, c.DiskSize())]
  }

  function WithIso(c: Config, v: map<string, Volume>): map<string, Volume> {
    if IsoName(c.name) in v then v else v[IsoName(c.name) := CloudInit(Some(SeedOf(c)))]
  }

  /** The root disk exists or can be made. */
  predicate HasBase(s: Site, c: Config, v: map<string, Volume>) {
    DiskName(c.name) in v || c.image in s.images
  }

  /** What a fault-free preparation leaves. */
  lemma GoodPrepare(s: Site, h: Host, c: Config)
    ensures var r := Reserve(s.a, h.hosts, c.name, NO_FAULTS.net);
            Prepare(s, h, c, NO_FAULTS) ==
              if HasBase(s, c, h.volumes) then Out(h.(volumes := WithIso(c, WithDisk(c, h.volumes)), hosts := r.hosts), r.ip.Some?)
              else Out(h, false)
  {
  }

  /** The possible leftovers of a preparation that did not tear the image. */
  lemma Leftovers(s: Site, h: Host, c: Config, f: CreateFaults)
    ensures var h', v := Prepare(s, h, c, f).host, h.volumes;
            var full := WithIso(c, WithDisk(c, v));
            && (h'.volumes in {v, WithDisk(c, v), full}
                || (IsoName(c.name) !in v && h'.volumes == WithDisk(c, v)[IsoName(c.name) := CloudInit(None)]))
            && h'.hosts in {h.hosts, Reserve(s.a, h.hosts, c.name, f.net).hosts}
            && (h'.volumes != v || h'.hosts != h.hosts ==> HasBase(s, c, v))
  {
    VolumeNamesDiffer(c.name, c.name);
  }

  lemma StockIdempotent(c: Config, v: map<string, Volume>)
    ensures var full := WithIso(c, WithDisk(c, v));
            WithIso(c, WithDisk(c, WithDisk(c, v))) == full && WithIso(c, WithDisk(c, full)) == full
  {
    VolumeNamesDiffer(c.name, c.name);
  }

  lemma ReserveRetried(a: Addressing, hosts: seq<HostEntry>, x: string, f: NetFaults)
    requires GoodBlock(a.block) && Sane(hosts)
    ensures Reserve(a, Reserve(a, hosts, x, f).hosts, x, NO_FAULTS.net) == Reserve(a, hosts, x, NO_FAULTS.net)
  {
    if Reserve(a, hosts, x, f).hosts != hosts {
      ReserveIdempotent(a, hosts, x, f, NO_FAULTS.net);
    }
  }

  /** A fault-free preparation and definition only depend on the stock they find. */
  lemma GoodFromStock(s: Site, h: Host, h': Host, c: Config)
    requires h'.domains == h.domains
    requires HasBase(s, c, h'.volumes) == HasBase(s, c, h.volumes)
    requires HasBase(s, c, h.volumes) ==>
               && WithIso(c, WithDisk(c, h'.volumes)) == WithIso(c, WithDisk(c, h.volumes))
               && Reserve(s.a, h'.hosts, c.name, NO_FAULTS.net) == Reserve(s.a, h.hosts, c.name, NO_FAULTS.net)
    requires !HasBase(s, c, h.volumes) ==> SameStock(h, h')
    ensures SameStock(CreateMachine(s, h, c, NO_FAULTS).host, CreateMachine(s, h', c, NO_FAULTS).host)
  {
    GoodPrepare(s, h.(log := h.log + [CreateCalled(c.name)]), c);
    GoodPrepare(s, h'.(log := h'.log + [CreateCalled(c.name)]), c);
  }

  lemma BaseStays(s: Site, c: Config, v: map<string, Volume>)
    requires HasBase(s, c, v)
    ensures HasBase(s, c, WithDisk(c, v)) && HasBase(s, c, WithIso(c, WithDisk(c, v)))
  {
  }

  /** A failed attempt that did not define the domain is invisible to a later fault-free one, unless it tore the image. */
  lemma RetryStep(s: Site, h: Host, c: Config, f: CreateFaults)
    requires GoodBlock(s.a.block) && Sane(h.hosts)
    requires CreateMachine(s, h, c, f).host.domains == h.domains && !Tears(s, h, c, f)
    ensures SameStock(CreateMachine(s, h, c, NO_FAULTS).host, CreateMachine(s, CreateMachine(s, h, c, f).host, c, NO_FAULTS).host)
  {
    var h' := CreateMachine(s, h, c, f).host;
    var v := h.volumes;
    TearsMeans(s, h, c, f);
    CreateLeftovers(s, h, c, f);
    assert h'.volumes in {v, WithDisk(c, v), WithIso(c, WithDisk(c, v))};
    StockIdempotent(c, v);
    ReserveRetried(s.a, h.hosts, c.name, f.net);
    if HasBase(s, c, v) { BaseStays(s, c, v); }
    GoodFromStock(s, h, h', c);
  }

  lemma CreateLeftovers(s: Site, h: Host, c: Config, f: CreateFaults)
    ensures var h', v := CreateMachine(s, h, c, f).host, h.volumes;
            && (h'.volumes in {v, WithDisk(c, v), WithIso(c, WithDisk(c, v))}
                || (IsoName(c.name) !in v && h'.volumes == WithDisk(c, v)[IsoName(c.name) := CloudInit(None)]))
            && h'.hosts in {h.hosts, Reserve(s.a, h.hosts, c.name, f.net).hosts}
            && (h'.volumes != v || h'.hosts != h.hosts ==> HasBase(s, c, v))
  {
    Leftovers(s, h.(log := h.log + [CreateCalled(c.name)]), c, f);
  }

  function Attempts(s: Site, h: Host, c: Config, fs: seq<CreateFaults>): Host
    decreases |fs|
  {
    if fs == [] then h else Attempts(s, CreateMachine(s, h, c, fs[0]).host, c, fs[1..])
  }

  /** No attempt gets as far as defining the domain. */
  predicate NeverDefines(s: Site, h: Host, c: Config, fs: seq<CreateFaults>)
    decreases |fs|
  {
    fs == [] || (CreateMachine(s, h, c, fs[0]).host.domains == h.domains
                 && NeverDefines(s, CreateMachine(s, h, c, fs[0]).host, c, fs[1..]))
  }

  predicate SomeTears(s: Site, h: Host, c: Config, fs: seq<CreateFaults>)
    decreases |fs|
  {
    fs != [] && (Tears(s, h, c, fs[0]) || SomeTears(s, CreateMachine(s, h, c, fs[0]).host, c, fs[1..]))
  }

  lemma VolumeStays(s: Site, h: Host, c: Config, f: CreateFaults, vol: string)
    requires vol in h.volumes
    ensures var v := CreateMachine(s, h, c, f).host.volumes; vol in v && v[vol] == h.volumes[vol]
  {
    CreateLeftovers(s, h, c, f);
  }

  lemma {:induction false} TornStays(s: Site, h: Host, c: Config, fs: seq<CreateFaults>)
    requires IsoName(c.name) in h.volumes && h.volumes[IsoName(c.name)] == CloudInit(None)
    ensures var v := CreateMachine(s, Attempts(s, h, c, fs), c, NO_FAULTS).host.volumes;
            IsoName(c.name) in v && v[IsoName(c.name)] == CloudInit(None)
    decreases |fs|
  {
    if fs == [] {
      VolumeStays(s, h, c, NO_FAULTS, IsoName(c.name));
    } else {
      VolumeStays(s, h, c, fs[0], IsoName(c.name));
      TornStays(s, CreateMachine(s, h, c, fs[0]).host, c, fs[1..]);
    }
  }

  lemma OneShotIso(s: Site, h: Host, c: Config, f: CreateFaults)
    requires Tears(s, h, c, f)
    ensures var v := CreateMachine(s, h, c, NO_FAULTS).host.volumes;
            IsoName(c.name) in v && v[IsoName(c.name)] == CloudInit(Some(SeedOf(c)))
  {
    TearsMeans(s, h, c, f);
    CreateLeftovers(s, h, c, f);
    VolumeNamesDiffer(c.name, c.name);
    GoodPrepare(s, h.(log := h.log + [CreateCalled(c.name)]), c);
  }

  lemma CreateKeepsSane(s: Site, h: Host, c: Config, f: CreateFaults)
    requires GoodBlock(s.a.block) && Sane(h.hosts)
    ensures Sane(CreateMachine(s, h, c, f).host.hosts)
  {
    CreateLeftovers(s, h, c, f);
    var hosts' := CreateMachine(s, h, c, f).host.hosts;
    if hosts' != h.hosts { ReserveOwn(s.a, h.hosts, c.name, f.net); }
  }

  /**
   Retrying refines one shot: however many attempts fail wherever they like before the definition,
   a fault-free attempt afterwards leaves the same domains, volumes and reservations as one on the
   original host, exactly when no attempt created the cloud-init image without its content.
   */
  lemma {:induction false} RetryRefinesOneShot(s: Site, h: Host, c: Config, fs: seq<CreateFaults>)
    requires GoodBlock(s.a.block) && Sane(h.hosts) && NeverDefines(s, h, c, fs)
    ensures SameStock(CreateMachine(s, h, c, NO_FAULTS).host, CreateMachine(s, Attempts(s, h, c, fs), c, NO_FAULTS).host)
            <==> !SomeTears(s, h, c, fs)
    decreases |fs|
  {
    if fs != [] {
      var h1 := CreateMachine(s, h, c, fs[0]).host;
      TearsMeans(s, h, c, fs[0]);
      if Tears(s, h, c, fs[0]) {
        TornStays(s, h1, c, fs[1..]);
        OneShotIso(s, h, c, fs[0]);
      } else {
        CreateKeepsSane(s, h, c, fs[0]);
        RetryStep(s, h, c, fs[0]);
        RetryRefinesOneShot(s, h1, c, fs[1..]);
      }
    }
  }

  const FAILED_UPLOAD := NO_FAULTS.(isoUpload := Refused)

  /** The failing side occurs: after a failed upload a fault-free attempt brings up a machine whose image is empty. */
  lemma FailedUploadStays(s: Site, h: Host, c: Config)
    requires c.image in s.images && IsoName(c.name) !in h.volumes
    ensures var h1 := CreateMachine(s, h, c, FAILED_UPLOAD).host;
            var v := CreateMachine(s, h1, c, NO_FAULTS).host.volumes;
            && NeverDefines(s, h, c, [FAILED_UPLOAD]) && SomeTears(s, h, c, [FAILED_UPLOAD])
            && IsoName(c.name) in v && v[IsoName(c.name)] == CloudInit(None)
  {
    TearsMeans(s, h, c, FAILED_UPLOAD);
    var h1 := CreateMachine(s, h, c, FAILED_UPLOAD).host;
    assert h1.domains == h.domains;
    TornStays(s, h1, c, []);
  }
}
