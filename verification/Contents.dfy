/** What gets onto the host for a machine, in terms of its object and of the bootstrap data its passes read. */
module Contents {
  import opened Base
  import opened Naming
  import opened Host
  import opened HostFacts
  import opened Controller
  import opened Lifecycle
  import opened Status

  /**
   A pass that creates a machine: the domain has the UID of the object as UUID, a new disk its image and
   size, and a new cloud-init image the UID, the name of the object and the bootstrap data of the pass;
   the provider ID, when it is saved, names the same UID. Volumes that were there are kept.
   */
  lemma CreatingPassMakes(g: Setting, w: World, k: Key, p: Pass)
    requires k in w.objects && !w.objects[k].deleting && g.name(k) !in w.host.domains && Announces(g, w.host, k, w.objects[k], p)
    ensures var m, w', n := w.objects[k], ReconcilePass(g, w, k, p), g.name(k);
            var v, v' := w.host.volumes, w'.host.volumes;
            && k in w'.objects && (p.specSaved ==> w'.objects[k].providerID == Some("libvirt://" + m.uid))
            && n in w'.host.domains && w'.host.domains[n].uuid == m.uid && p.bootstrap.Data?
            && DiskName(n) in v'
            && v'[DiskName(n)] == (if DiskName(n) in v then v[DiskName(n)] else RootDisk(m.image, if m.diskGiB == 0 then 20 else m.diskGiB))
            && IsoName(n) in v'
            && v'[IsoName(n)] == (if IsoName(n) in v then v[IsoName(n)]
                                  else CloudInit(Some(Seed(if m.uid == "" then n else m.uid, if k.name == "" then n else k.name,
                                                           p.bootstrap.userData))))
  {
    CreateMakes(g.site, w.host, ConfigOf(g, k, w.objects[k], p.bootstrap.userData), p.create);
  }

  /** The cloud-init image of domain n is on the host with this content. */
  predicate Carries(h: Host, n: string, seed: Seed) {
    IsoName(n) in h.volumes && h.volumes[IsoName(n)] == CloudInit(Some(seed))
  }

  /** A pass of a machine with domain name n that read the user data of the seed and gives its host name. */
  predicate Feeds(g: Setting, e: Event, n: string, seed: Seed) {
    && e.Reconciles? && g.name(e.k) == n && e.p.bootstrap == Data(seed.userData)
    && seed.hostname == (if e.k.name == "" then n else e.k.name)
  }

  lemma CreateCarries(s: Site, h: Host, c: Config, f: CreateFaults, n: string, seed: Seed)
    requires Carries(CreateMachine(s, h, c, f).host, n, seed) && !Carries(h, n, seed)
    ensures c.name == n && seed.userData == c.userData && seed.hostname == (if c.hostname == "" then n else c.hostname)
  {
    CreateLeftovers(s, h, c, f);
    VolumeNamesDiffer(n, c.name);
    VolumeNamesDiffer(c.name, n);
  }

  lemma NextCarries(g: Setting, w: World, e: Event, n: string, seed: Seed)
    requires Carries(Next(g, w, e).host, n, seed) && !Carries(w.host, n, seed)
    ensures Feeds(g, e, n, seed)
  {
    var m := w.objects[e.k];
    if m.deleting {
      DeleteHasShape(g.site, w.host, g.name(e.k), e.p.delete);
    } else {
      CreateCarries(g.site, w.host, ConfigOf(g, e.k, m, e.p.bootstrap.userData), e.p.create, n, seed);
    }
  }

  lemma {:induction false} RunCarries(g: Setting, w: World, es: seq<Event>, n: string, seed: Seed)
    requires Carries(Exec(g, w, es).host, n, seed) && !Carries(w.host, n, seed)
    ensures exists e :: e in es && Feeds(g, e, n, seed)
    decreases |es|
  {
    if Carries(Next(g, w, es[0]).host, n, seed) {
      NextCarries(g, w, es[0], n, seed);
      assert es[0] in es;
    } else {
      RunCarries(g, Next(g, w, es[0]), es[1..], n, seed);
      var e :| e in es[1..] && Feeds(g, e, n, seed);
      assert e in es;
    }
  }

  /**
   In every run, with any failures: the user data and the host name on a cloud-init image that was not
   there before are those of one pass of a machine of that domain name.
   */
  lemma SeedsComeFromBootstrap(g: Setting, before: Host, es: seq<Event>, n: string, seed: Seed)
    requires IsoName(n) !in before.volumes && Carries(Exec(g, World(map[], before), es).host, n, seed)
    ensures exists e :: e in es && Feeds(g, e, n, seed)
  {
    RunCarries(g, World(map[], before), es, n, seed);
  }
}
