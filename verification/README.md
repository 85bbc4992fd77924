# Verification of the libvirt infrastructure provider

This project models the part of the Cluster API provider for libvirt that changes things: the
reservation of one fixed DHCP address per machine, the calls that create, start and delete a machine
on a libvirt host, and the LibvirtMachine reconciler that drives them. It states what every run of
that system keeps and proves it with Dafny 4.11. `dafny verify dfyconfig.toml` checks everything.

## How the model is laid out

| file | content |
|---|---|
| `Base`, `IPv4`, `Candidates` | 32-bit numbers, dotted-decimal text, masks and the block of candidate addresses |
| `Dhcp`, `Reservation`, `Ledger` | the DHCP host table, the cyclic probe, planning, reserving, releasing, and runs of them |
| `Naming` | domain names, MAC addresses, volume names |
| `Host`, `HostFacts`, `Upload` | the libvirt host, CreateMachine, StartMachine and DeleteMachine call by call, the image upload |
| `Controller` | one reconcile pass, as a function and as the class `Reconciler` |
| `Lifecycle`, `Leaks`, `Status`, `Contents`, `Identity`, `Lifetime`, `Progress`, `Tables` | runs of any number of machines and what they keep |
| `Credentials` | loading credentials and noticing changed Secrets |

Code that changes things in place is written as classes and methods (`DhcpNetwork`, `LibvirtHost`,
`LibvirtMachine`, `Reconciler`, `Source`, and the loops of the allocator). Each method is proved equal
to a function on values, and the theorems about runs are about those functions.

Every call to libvirt and to the API server has an outcome of its own, passed in as a parameter. A call
that changes something may be done, refused, or lost: it took effect but reported an error. The two
requests behind the deferred patch (metadata and spec, status) are saved or lost independently. A run is
any sequence of events: objects created, deleted and moved, passes of any machine with any outcomes,
domains removed or changing state on the host.

Assumptions, where a theorem needs them, are named predicates in its `requires` clause:

- `Careful` / `Answered`: when a deletion reports success, libvirt had said whether a running domain is
  active and had not denied a pool or network that held something of the machine. `DeleteIsComplete` and
  `FinalizerGoesLast` show that this is exactly what complete deletion depends on. Deletions that fail are
  not restricted.
- `Attentive` / `Watched` (for `DomainsAreBacked`, `AddressIsExclusive` and `LiveAddressesDiffer`): the same
  for the activity of the domain, as soon as the domain step reports success.
- `Apart` / `Disjoint`: the machines concerned share neither domain name nor MAC. `DeployedApart` shows
  that this is one condition on 24 bits of a hash. `NothingLeaks` does not need it.
- `MoveIsSafe`: `clusterctl move` happens after the provider ID is stored, or while neither a domain nor an
  uploaded image with the old UID is on the host. `MoveAgreesIff` shows that this guard is exact.
- Patches: `RunHonestIff` says exactly which lost spec patches break the status; `RunKeepsHonest` draws the
  conclusion for patches saved together.
- `EnoughSlots` (for progress): the block has a slot for every foreign entry and every machine of the run.
- `LeftAlone` (for progress): nobody but the controller touches the machine, and no pass stores that it is
  paused or its infrastructure not ready once it is up; its passes may fail otherwise as they like.
- A pass reads the object as it was last stored, not a stale copy from a cache.
- libvirt keeps a process for a domain in every run state but shut off and crashed: these two are inactive
  and can be started, while one that is shutting down is still active.
- An object is created without provider ID. The API admits one at creation; the controller documents the
  field as its own.
- Hashes (FNV-1a, SHA-256) are arbitrary functions. Passes are atomic with respect to each other and to
  host events. Pools, network and URI do not change. libvirt's `Network.Update` appends, rewrites or
  removes the entry of the given MAC. Undefining an active domain leaves it running without definition,
  and destroying such a domain removes it.

Where the code and its documentation differ, the model follows the code: the documentation promises
that autostart is turned on, but a failed call is never repaired (`AutostartAtBirth`,
`RefusedAutostartStays`, `AutostartNeverRepaired`); a cloud-init image whose upload failed is reused as it
is (`RetryRefinesOneShot`, `FailedUploadStays`); a DHCP range that ends at 255.255.255.255 makes the candidate loop run forever
(`RangeLoopExits`); the comment on the block size speaks of the highest addresses of the DHCP range,
but a range is used whole (`AllocationCandidates`); the documentation calls domain names unique on the
host, which holds up to coinciding short hashes and prefixes (`DomainNamesAgree`), and names that differ in
a dot and a dash share their prefix (`DotAndDashShare`).

Not every live machine is brought up (`TwoPassesBringUp` says exactly which). A domain that is shutting down
counts as stopped, but it is still active: every pass tries to start it and fails until it is off
(`ShuttingDownStays`). A domain that is paused, blocked, suspended or in no known state is waited for. A domain
that is lost after the provider ID was stored is not created again; the machine must be replaced.

## Model

| member | source | states |
|---|---|---|
| IPv4.ParseFormat | internal/libvirtclient/machine_network.go:353-357 | parsing a formatted address gives back the number, for every uint32 |
| IPv4.ParseIsFormatInverse | internal/libvirtclient/machine_network.go:267-283 | a text parses to n if and only if it is the text formatting n writes, so text and number determine each other |
| IPv4.ParseQuad | internal/libvirtclient/machine_network.go:274-279 | the decimal text of four octets reads as the number they make, the first octet being the most significant |
| Candidates.RangeLoopExits | internal/libvirtclient/machine_network.go:290-293 | the wrapping counter ever passes the end of the range if and only if the end is below the largest uint32 |
| Candidates.RangeCandidates | internal/libvirtclient/machine_network.go:285-296 | an inverted range is an error, any other gives exactly the numbers from start to end, ascending |
| Candidates.IntervalMembers | internal/libvirtclient/machine_network.go:290-293 | a number is in the ascending block if and only if it lies between its two ends |
| Candidates.AndContiguous | internal/libvirtclient/machine_network.go:339-342 | a contiguous mask clears exactly the low bits: masking subtracts the remainder by the host count |
| Candidates.SubnetTailCandidates | internal/libvirtclient/machine_network.go:298-323 | for every masked subnet and any mask the loop, computing in wrapping uint32 arithmetic, gives the top of the subnet or the error that unbounded arithmetic gives |
| Candidates.TailOfPrefix | internal/libvirtclient/machine_network.go:298-343 | for /1 to /30 the block is ascending and holds exactly the min(size, usable) highest addresses strictly between network and broadcast address; the network's own address is a candidate whenever it lies there |
| Candidates.TailStartsAtFirstHost | pkg/utils/ip.go:70-90 | the block starts at FirstHostAndPrefix's address if and only if the subnet has at most 200 usable hosts |
| Candidates.FirstHostIff | pkg/utils/ip.go:79-88 | there is a first host if and only if the prefix is at most /30, and it is the address behind the network address |
| Candidates.AllocationCandidates | internal/libvirtclient/machine_network.go:239-263 | the branches of allocationCandidates give the function whose meaning TailOfNetwork, RangeOfNetwork and NoCandidates state |
| Candidates.TailOfNetwork | internal/libvirtclient/machine_network.go:239-343 | when the first IPv4 element has no readable DHCP range, the candidates are exactly the 200 highest numbers, or all there are, strictly between network and broadcast address of the subnet that its own address and /1 to /30 netmask make |
| Candidates.RangeOfNetwork | internal/libvirtclient/machine_network.go:239-296 | the first readable range of the first IPv4 element decides: exactly the numbers from its start to its end, or the error when it is inverted |
| Candidates.NoCandidates | internal/libvirtclient/machine_network.go:247-254 | without an IPv4 element, or when the address or the netmask of the first one cannot be read, there are no candidates |
| Candidates.CandidatesAscend | internal/libvirtclient/machine_network.go:239-263 | whatever the network, candidates are never empty and never repeat |
| Dhcp.HostEntryInNetwork | internal/libvirtclient/machine_network.go:71-85 | the first entry whose MAC matches up to letter case, or none |
| Dhcp.FoldMeans | internal/libvirtclient/machine_network.go:78-78 | two texts match if and only if they agree in every place up to the case of an ASCII letter |
| Dhcp.HostIPSet | internal/libvirtclient/machine_network.go:88-104 | the loop builds the address map in which later entries win and entries without address are skipped |
| Dhcp.OwnersSound | internal/libvirtclient/machine_network.go:88-104 | the address map has exactly the non-empty addresses of the table, each with the MAC of the last entry for it |
| Dhcp.StringLookupIsNumeric | internal/libvirtclient/machine_network.go:222-231 | the string-keyed lookup of a candidate answers as a table of numbers would: only entries that read as that number count |
| Dhcp.SlotOnce | internal/libvirtclient/machine_network.go:223-225 | each candidate is probed at exactly one distance from the home slot |
| Dhcp.AllocateMachineIPIn | internal/libvirtclient/machine_network.go:213-234 | the probe loop, with its modulo arithmetic on candidate numbers, computes the cyclic search over address texts |
| Dhcp.AllocateIsFirstUsable | internal/libvirtclient/machine_network.go:210-234 | the result is the first slot, from place sum modulo the block size to the end and then from the beginning, that is free or bound to the MAC; there is none if and only if no slot at all is usable |
| Dhcp.AllocateAt | internal/libvirtclient/machine_network.go:223-231 | the answer is slot (sum + d) modulo the block size for the least distance d whose slot no other MAC holds |
| Dhcp.AllocateHome | internal/libvirtclient/machine_network.go:223-231 | a machine whose home slot, its hash sum modulo the block size, is free gets that slot |
| Dhcp.AllocateSucceeds | internal/libvirtclient/machine_network.go:213-234 | pigeonhole: allocation succeeds whenever other MACs have fewer entries than there are candidates |
| Naming.MacsAgree | internal/libvirtclient/machine_network.go:49-62 | two derived MACs match up to letter case if and only if the low 24 bits of the hash sums agree |
| Naming.MacReads | internal/libvirtclient/machine_network.go:49-62 | the MAC is 52:54:00 and, in hexadecimal, the three low bytes of the sum, the lowest first |
| Naming.DomainNameIsLabel | internal/controller/libvirtmachine_controller.go:490-503 | every namespace label and subdomain name give a domain name that is a host label of at most 63 octets |
| Naming.PrefixReads | internal/controller/libvirtmachine_controller.go:494-500 | the prefix is "namespace-name" with dashes for dots; beyond 56 characters it is cut there and freed of dashes at its end |
| Naming.ShortHashReads | internal/controller/libvirtmachine_controller.go:491-492 | the short hash is the first three bytes, in hexadecimal, of the digest of "namespace/name" |
| Naming.HashedTextsDiffer | internal/controller/libvirtmachine_controller.go:491-491 | different machines are hashed on different texts, as no namespace has a slash |
| Naming.DomainNamesAgree | internal/controller/libvirtmachine_controller.go:490-503 | two machines share a domain name if and only if their short hashes and their prefixes both coincide |
| Naming.DotsMerge | internal/controller/libvirtmachine_controller.go:490-503 | in every namespace, a name with dots and the same name with dashes instead have the same prefix |
| Naming.DotAndDashShare | internal/controller/libvirtmachine_controller.go:490-503 | machines b.c and b-c of one namespace share a domain name if and only if their short hashes coincide |
| Naming.VolumeNamesDiffer | internal/libvirtclient/config.go:99-105 | disks and cloud-init images of different domains never share a name, nor does any disk with any image |
| Reservation.BlockIsGood | internal/libvirtclient/machine_network.go:213-263 | the slots of every network are distinct, non-empty and free of letters |
| Reservation.DhcpNetwork.PlanUpdate | internal/libvirtclient/machine_network.go:122-146 | the plan: no room, keep, add or modify |
| Reservation.PlanMeans | internal/libvirtclient/machine_network.go:122-146 | full if and only if nothing can be allocated, no update if and only if the entry has the allocated address, an added entry if and only if there is none yet |
| Reservation.DhcpNetwork.ReserveMachineIP | internal/libvirtclient/machine_network.go:151-171 | new table and answer for every outcome of reading and updating the network |
| Reservation.ReserveWrites | internal/libvirtclient/machine_network.go:151-171 | exactly when an address is answered, and that an update which takes effect, reported or not, leaves an entry of the machine's MAC, name and planned address, while otherwise the table stays |
| Reservation.DhcpNetwork.ReleaseMachineIP | internal/libvirtclient/machine_network.go:176-197 | new table and answer for every outcome; a missing entry is success |
| Reservation.ReleaseReports | internal/libvirtclient/machine_network.go:176-197 | exactly when a release succeeds and when it changes the table |
| Reservation.KeepIffSettled | internal/libvirtclient/machine_network.go:128-132 | a machine that has an entry plans no update if and only if every slot between its home and its own slot is held by others |
| Reservation.ReserveOwn | internal/libvirtclient/machine_network.go:148-171 | whatever fails, the table stays free of duplicates, and a reservation that took hold sits in the block with its probe chain intact and is the address answered |
| Reservation.ReserveIdempotent | internal/libvirtclient/machine_network.go:148-171 | reserving again after a reservation took hold changes nothing and answers the planned address |
| Reservation.ReserveAppends | internal/libvirtclient/machine_network.go:122-171 | among machines with intact chains a reservation only appends and keeps every chain |
| Reservation.ReservesNeverMove | internal/libvirtclient/machine_network.go:122-171 | in every run of reservations with any failures the old table is a prefix of the new one: no address ever moves |
| Reservation.RepeatedReserveIsNoop | internal/libvirtclient/machine_network.go:122-171 | at any point of such a run a machine with an entry plans no update and is answered its own address |
| Ledger.OthersUntouched | internal/libvirtclient/machine_network.go:148-197 | reserving and releasing leave the entries of every other MAC alone, contents and order |
| Ledger.ReleaseOwn | internal/libvirtclient/machine_network.go:176-197 | a release that reports success leaves no entry of the machine, and removes one entry at most |
| Ledger.OpStep | internal/libvirtclient/machine_network.go:122-197 | one operation changes only its own machine's binding, and the table's length exactly with it |
| Ledger.TableConserved | internal/libvirtclient/machine_network.go:71-197 | after every run of reservations and releases the table is the initial foreign entries in order plus exactly one entry, inside the block, per bound machine |
| Ledger.BindingsInjective | internal/libvirtclient/machine_network.go:71-104 | no bound machine shares its address with any other entry |
| Ledger.ReleaseCanMove | internal/libvirtclient/machine_network.go:176-234 | for any two machines with the same home slot and different MACs, the second is kept while the first is there, and once the first is released a re-plan moves it home |
| Ledger.SharersExist | internal/libvirtclient/machine_network.go:49-68 | on every network with two candidates there are hash sums with the same home slot and different MACs, so such machines exist |
| Ledger.ReleaseMoves | internal/libvirtclient/machine_network.go:176-263 | on any network with a DHCP range of two addresses this move takes place |
| Host.LibvirtHost.RootDisk | internal/libvirtclient/volume.go:13-44 | an existing disk is reused; otherwise the base image must exist |
| Host.LibvirtHost.IsoDisk | internal/libvirtclient/volume.go:46-85 | an existing image is reused, complete or not; a failure after creation leaves it without content |
| Host.LibvirtHost.Create | internal/libvirtclient/domain.go:35-100 | the whole host after CreateMachine for every combination of call outcomes |
| HostFacts.CreateMakes | internal/libvirtclient/domain.go:48-99 | a creation that succeeds has a running domain with autostart and the configured UUID, and made the missing volumes: a disk on the image with the asked size or 20 GiB, a cloud-init image with instance ID, host name and the bootstrap data |
| HostFacts.CreateSucceedsIff | internal/libvirtclient/domain.go:35-100 | which outcomes of the calls make a creation succeed, and whether the domain is defined and running when it does not |
| HostFacts.CreateLeaves | internal/libvirtclient/volume.go:13-85 | which volumes an attempt leaves, and with what content, for every combination of outcomes |
| HostFacts.CreateRespects | internal/libvirtclient/domain.go:85-97 | a definition with another UUID under the name is not replaced, and an active domain is not started |
| Host.LibvirtHost.Start | internal/libvirtclient/provider.go:63-80 | the host after StartMachine; an unknown or active domain is an error |
| HostFacts.StartMeans | internal/libvirtclient/provider.go:63-80 | a start takes effect if and only if the domain is known and inactive and the call is not refused, and succeeds if and only if it is also reported |
| Host.LibvirtHost.RemoveDomain | internal/libvirtclient/domain.go:102-124 | the host after deleteDomain, including the unanswered question whether the domain is active |
| Host.LibvirtHost.RemoveVolume | internal/libvirtclient/volume.go:166-190 | the host after deleteVolume; a missing pool or volume is success |
| Host.LibvirtHost.Delete | internal/libvirtclient/provider.go:99-155 | the whole host after DeleteMachine for every combination of call outcomes |
| HostFacts.DeleteSucceedsIff | internal/libvirtclient/provider.go:99-155 | which outcomes make a deletion succeed: nothing that is missing is an error, a refused or unanswered step is, and so is destroying a domain without persistent definition |
| HostFacts.DeleteMakesOfDomain | internal/libvirtclient/domain.go:102-124 | what an attempt makes of the domain, for every combination of outcomes |
| HostFacts.DeleteLeaves | internal/libvirtclient/provider.go:99-155 | which volumes an attempt leaves and whether the reservation, step after step, for every combination of outcomes |
| HostFacts.CreateTouches | internal/libvirtclient/domain.go:35-100 | creation touches only the domain, the two volumes and the reservation of its own name |
| HostFacts.DeleteShrinks | internal/libvirtclient/provider.go:99-123 | whatever fails, deletion touches nothing else and what is left of the machine only shrinks |
| HostFacts.DeleteIsComplete | internal/libvirtclient/provider.go:99-155 | a deletion that reports success left nothing of the machine if and only if libvirt said whether a running domain is active and denied no pool or network that held something |
| HostFacts.UnansweredDeleteLeaves | internal/libvirtclient/domain.go:112-123 | with that question unanswered a deletion reports success and leaves the domain running |
| HostFacts.RetryStep | internal/libvirtclient/domain.go:35-85 | a failed attempt that did not define the domain and did not tear the image is invisible to a later fault-free one |
| HostFacts.TearsMeans | internal/libvirtclient/volume.go:46-85 | the guards of an attempt that creates the image without completing its upload, if and only if the image is new and empty afterwards |
| HostFacts.RetryRefinesOneShot | internal/libvirtclient/domain.go:35-100 | after any failed attempts a fault-free one leaves the same domains, volumes and reservations as one on the original host, if and only if no attempt created the image without completing its upload |
| HostFacts.FailedUploadStays | internal/libvirtclient/volume.go:51-53 | after one failed upload a fault-free attempt leaves the image empty |
| Upload.SendAll | internal/libvirtclient/volume.go:98-116 | the bytes sent for any sequence of request sizes |
| Upload.EverythingArrivesIff | internal/libvirtclient/volume.go:100-113 | the whole buffer arrives, in order and nothing more, if and only if no zero-size request comes before the requests add up to its length |
| Upload.EverythingArrives | internal/libvirtclient/volume.go:100-113 | positive request sizes always deliver the whole buffer |
| Controller.LibvirtMachine.SetProviderID | internal/controller/libvirtmachine_controller.go:506-522 | the provider ID is set from the domain UUID once and otherwise kept |
| Controller.Reconciler.Normal | internal/controller/libvirtmachine_controller.go:209-425 | object and host after reconcileNormal, in every branch and for every call outcome |
| Controller.Reconciler.Delete | internal/controller/libvirtmachine_controller.go:427-448 | object and host after reconcileDelete |
| Controller.Reconciler.Reconcile | internal/controller/libvirtmachine_controller.go:93-185 | store and host after a pass, whichever of its patches are saved |
| Leaks.FinalizerGoesLast | internal/controller/libvirtmachine_controller.go:427-448 | a pass that gives up the finalizer left nothing of the machine on the host if and only if libvirt answered |
| Leaks.NothingLeaks | internal/controller/libvirtmachine_controller.go:224-231 | in every run, every domain, volume and reservation was on the host from the start or belongs to an object that holds the finalizer, for any failures, given only that deletions which report success were answered; nothing is assumed on names |
| Leaks.ApartIff | internal/libvirtclient/config.go:99-105 | two machines own nothing in common if and only if their domain names and their MACs differ |
| Leaks.GoneObjectLeavesNothing | internal/controller/libvirtmachine_controller.go:427-448 | once the object is gone or without finalizer the host holds nothing of the machine |
| Status.PassHonestIff | internal/controller/libvirtmachine_controller.go:209-379 | a pass keeps "ready implies provisioned, provider ID and finalizer" if and only if it does not save the status alone in a branch that announces a machine without stored provider ID |
| Status.StatusAloneOverclaims | internal/controller/libvirtmachine_controller.go:354-368 | a running domain whose first pass saves only the status ends ready without provider ID |
| Status.RunHonestIff | internal/controller/libvirtmachine_controller.go:209-425 | that implication holds for every object in every stored state of a run if and only if no pass of the run is of that kind |
| Status.RunKeepsHonest | internal/controller/libvirtmachine_controller.go:109-122 | with all-or-nothing patches it holds in every stored state of every run |
| Status.ReadyMeansRunning | internal/controller/libvirtmachine_controller.go:264-376 | a pass that learned the state announces readiness if and only if it succeeds, is not held back, and leaves the domain running |
| Status.StoredAddresses | internal/controller/libvirtmachine_controller.go:384-425 | after a pass the stored addresses are the lease it observed on a running domain, none if it found the domain lost, and otherwise what they were |
| Status.AddressesWereObserved | internal/controller/libvirtmachine_controller.go:381-406 | in every run, an address an object shows was seen as a lease by a saved pass of that machine while its domain was running |
| Status.StoredReady | internal/controller/libvirtmachine_controller.go:209-425 | after a pass readiness is as before if the pass wrote no status, and otherwise holds if and only if the pass announces the machine |
| Status.StoredProvisioned | internal/controller/libvirtmachine_controller.go:209-425 | the same for provisioned, except that a lost domain and a failed start leave it as it was |
| Status.StoredSpec | internal/controller/libvirtmachine_controller.go:93-185 | finalizer and provider ID after a pass, and that the object goes if and only if its last finalizer does |
| Status.PassSucceedsIff | internal/controller/libvirtmachine_controller.go:209-448 | exactly when a pass ends without error |
| Contents.CreatingPassMakes | internal/controller/libvirtmachine_controller.go:264-323 | a pass that creates a machine gives the domain the UID, a new disk the image and size of the object, and a new cloud-init image UID, object name and the bootstrap data it read; a saved provider ID is "libvirt://" and the UID |
| Contents.SeedsComeFromBootstrap | internal/controller/libvirtmachine_controller.go:275-299 | in every run, user data and host name on a cloud-init image that was not there before are those of one pass of a machine of that domain name |
| Status.PassKeepsUUID | internal/controller/libvirtmachine_controller.go:506-522 | however little of a pass is saved, the domain UUID an object stands for never changes |
| Status.ProviderIDIsForever | internal/controller/libvirtmachine_controller.go:505-513 | a stored provider ID never changes while the object lives, across failures and moves |
| Identity.IdentitiesAgree | internal/controller/libvirtmachine_controller.go:506-522 | in every run, for every machine with a domain: the stored provider ID is "libvirt://" plus the domain's UUID, the domain refers to the machine's own MAC and volumes, its disk is on the machine's image, and its cloud-init image is empty or carries the UUID as instance ID |
| Identity.DomainsAreBacked | internal/libvirtclient/provider.go:99-123 | in every run a domain that exists has its root disk, its cloud-init image and an address of the block: they are made before it and removed after it |
| Identity.MoveAgreesIff | internal/controller/libvirtmachine_controller.go:505-522 | a move to a new UID keeps domain and cloud-init image in agreement with the object if and only if the provider ID was stored, or neither a domain nor an uploaded image was there |
| Identity.MovedTooEarly | internal/controller/libvirtmachine_controller.go:505-522 | after a move with only an uploaded image there, the next creation gives the domain another UUID than the image's instance ID |
| Lifetime.DefinedAtMostOnce | internal/controller/libvirtmachine_controller.go:264-323 | while an object lives and nobody else removes its domain, the definition takes effect at most once, whatever fails |
| Lifetime.NeverCreatedAgain | internal/controller/libvirtmachine_controller.go:408-425 | once the provider ID is stored CreateMachine is never called again, even if the domain is removed from outside |
| Lifetime.LiveAddressIsFixed | internal/controller/libvirtmachine_controller.go:264-299 | in every run in which the object lives, is not finalized and does not lose its domain before the provider ID is stored, a machine with a domain keeps its reservation, whatever others reserve and release |
| Lifetime.AnchorHolds | internal/controller/libvirtmachine_controller.go:264-379 | a machine stays in that protected phase unless its domain is removed before the provider ID is stored, and only then |
| Lifetime.AutostartAtBirth | internal/libvirtclient/domain.go:85-97 | a new domain has autostart if and only if the call took effect in the attempt that defined it |
| Lifetime.RefusedAutostartStays | internal/libvirtclient/domain.go:91-93 | defined with autostart refused and started by the next pass, a machine runs without autostart |
| Lifetime.AutostartNeverRepaired | internal/libvirtclient/domain.go:91-93 | no later event changes the autostart flag of an existing domain |
| Progress.SmoothPassProgressesIff | internal/controller/libvirtmachine_controller.go:209-379 | for a live machine that is not up, a pass that finds what its state needs lowers the rank if and only if the finalizer is missing, or the domain is running or inactive, or it was never created and has a base image and a free address; not if it is lost or active without running, as when shutting down |
| Progress.SmoothPassProgresses | internal/controller/libvirtmachine_controller.go:209-379 | in those states with a finalizer or without, the rank falls and the machine remains in one of them |
| Progress.ShuttingDownStays | internal/libvirtclient/domain.go:146-149 | a domain that is shutting down is classified as stopped, but a pass leaves the host as it is and the machine not ready |
| Progress.PassKeepsStartable | internal/controller/libvirtmachine_controller.go:209-425 | whatever fails, no pass of a live machine brings it into those states or out of them |
| Progress.UpIsFixpoint | internal/controller/libvirtmachine_controller.go:354-406 | a machine that is up stays up through a pass, whatever fails, if and only if the pass does not store that it is paused or its infrastructure not ready; it then changes nothing but a newly observed address |
| Progress.TwoPassesBringUp | internal/controller/libvirtmachine_controller.go:209-379 | from every reachable state of a live machine, two passes that find what they need bring it up and it stays up, however other machines come, go, take addresses and fail and its own other passes fail, if and only if its domain is running or inactive, or was never created and has a base image; so neither if it is lost nor if it is active without running: shutting down, paused, blocked, suspended or in no known state |
| Progress.ReachableIsWorkable | internal/libvirtclient/machine_network.go:213-234 | with enough slots, a machine in any reachable state that can be created finds a free address |
| Progress.SmoothPassDefinesIff | internal/controller/libvirtmachine_controller.go:264-299 | a pass that finds what it needs defines the domain if and only if it is missing, no provider ID is stored, and there are a base image and a free address, so the bound on definitions is exact |
| Progress.TwoPassesTakeDown | internal/controller/libvirtmachine_controller.go:427-448 | two undisturbed passes of a machine being deleted release it with nothing left on the host, however other machines interleave and fail; one suffices unless its domain runs without persistent definition |
| Tables.LifecycleConservesTable | internal/libvirtclient/machine_network.go:122-197 | over whole lifecycles the foreign entries stay as they were and each bound machine has exactly one entry with its own address of the block |
| Tables.AddressesNeverRunOut | internal/libvirtclient/machine_network.go:213-234 | if the block has a slot for every foreign entry and every machine, no machine ever fails to get an address at any time of any lifecycle |
| Tables.AddressIsExclusive | internal/libvirtclient/machine_network.go:122-234 | in every run a machine that has a domain holds an address of the block that no other MAC has in the table, be it a machine's or a foreign one |
| Tables.LiveAddressesDiffer | internal/libvirtclient/machine_network.go:122-234 | in every run two machines that both have domains hold different addresses |
| Tables.DeployedApart | internal/libvirtclient/machine_network.go:45-68 | in a deployment two machines are apart if and only if 24 bits of the hash sums of their domain names differ |
| Credentials.HasAnyKey | internal/controller/credentials.go:130-138 | true if and only if some key has a non-empty value |
| Credentials.MissingKeys | internal/controller/credentials.go:140-153 | exactly the keys without value, none if and only if all are set |
| Credentials.CredentialsFromSecret | internal/controller/credentials.go:99-128 | the Go branches over the two key groups give the function whose meaning SecretReads states |
| Credentials.SecretReads | internal/controller/credentials.go:98-128 | an error if and only if a key group is set in part, no credentials if and only if no key is set, and otherwise each of the five fields is the value of its own key |
| Credentials.Loader.LoadReads | internal/controller/credentials.go:47-91 | a referenced Secret that is missing or without keys is an error, a missing or empty default Secret is a plain connection |
| Credentials.Loader.SecretToLibvirtClusters | internal/controller/credentials.go:166-186 | the requests are the keys of the selected clusters in list order; none when the list fails |
| Credentials.Loader.RequestsAre | internal/controller/credentials.go:156-186 | a key is requested if and only if a listed cluster with that key references the Secret, or the Secret is the default |
| Credentials.Loader.RequestsInOrder | internal/controller/credentials.go:180-185 | the requests follow the list |
| Credentials.Loader.OnlyReadersRequested | internal/controller/credentials.go:166-178 | a Secret other than the default one requests a key if and only if a listed cluster with that key reads it |
| Credentials.Loader.DefaultRequestsAll | internal/controller/credentials.go:171-173 | the default Secret requests every listed cluster |
| Credentials.Loader.AltersIff | internal/controller/credentials.go:48-91 | some change of a Secret alters what a cluster loads if and only if it is the Secret that cluster reads |
| Credentials.Loader.ChangeIsNoticed | internal/controller/credentials.go:165-186 | whenever changing one Secret changes what a listed cluster loads, that cluster is among the requests |

## Left out

- RangeCandidates: requires an end below 255.255.255.255 (or an inverted range), because the Go code does not return otherwise; RangeLoopExits proves that this is the exact limit.
- DeleteIsComplete: complete deletion is stated under the answers it depends on, because the Go code treats an unknown pool or network as success.
- Connections, credential files, URI rewriting and ISO building: foreign libraries and file I/O.
- The LibvirtCluster controller and the check of pools and network: a straight-line status check.
- Conditions, log lines, requeue intervals and whether Reconcile returns an error: no branch reads them.
- Memory, CPU count and device settings of a domain: values copied into XML.
- Several `<ip>` elements with host entries of their own: the table is their concatenation, and `Update` acts on it as one list, selecting by MAC only.
- IPv6 and IPv4-mapped addresses in network definitions: only dotted-decimal text parses.
- Unicode case folding: `EqualFold` folds ASCII letters.
- A base pool that is also the domain pool: base images are a separate, fixed set.
- DHCP leases: the observed address is an input of the pass.
- Parsing of CIDR text: FirstHostAndPrefix starts from the parsed address and prefix length.
