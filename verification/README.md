# A verified model of cirrinad

cirrinad is a daemon that runs bhyve virtual machines on FreeBSD: it takes requests over
gRPC, queues the slow ones in an SQLite table, and drives `ifconfig`, `ngctl` and `zfs`.
This project models the parts of it that carry state or arithmetic across several functions
and proves, for all inputs and all runs, what those parts keep. `dafny verify dfyconfig.toml`
checks everything.

* **Requests** (`RequestTable`, `RequestProtocol`, `RequestSafety`, `RequestLifecycle`,
  `LostWrites`, `RequestVms`, `RequestSpelling`, `Workers`). gRPC handlers look their object
  up, check for pending requests and insert, in three steps; one dispatcher marks rows started and spawns workers;
  each worker looks its object up, re-checks and acts. One action of `RequestProtocol` is one
  access to shared state, so a sequence of actions is an interleaving, crashes and restarts
  included. `Workers` holds the goroutine bodies, with anything the others do let in between
  any two accesses.
* **Schema migration** (`CommaList`, `Migration`, `MigrationCrash`, `MigrationMeaning`,
  `MigrationCode`, over `Sifting`). Migrations are sequences of SQL statements; a crash may
  fall between any two of them. `MigrationCode` runs them as loops over rows and logs the statements.
* **Virtual network** (`HostState`, `NicWiring`, `NicRoundTrip`, `NicStarts`, `Kernel`,
  `BridgeIf`, `NicCode`, `NetDevice`, `NetDeviceNames`, `VmNetwork`, `Switches`, `NgBridge`,
  `NgSwitches`, `SwitchMembers`, `SwitchRuns`, `SwitchName`, `GroupSweep`, `CleanUp`,
  `CrashSafety`). The host is a set of interfaces, some made by the daemon and some with a hardware address, a membership table of IF
  bridges, epairs and pipes; NG bridges are hook tables. `Kernel.Machine` and
  `NgBridge.Netgraph` run commands; any command may fail unless they are `reliable`.
  Statements below that hold "while commands work" are about reliable ones, all others hold
  whatever fails. A `Machine` keeps the states it has been in, one for each command, so that
  `CrashSafety` can speak of a daemon that died after any of them.
* **Command line and resources** (`PciSlots`, `Ports`, `FreeName`, `Decimal`).
* **Attachment** (`DiskAttach`, `NicAttach`): ids are validated by parsing and compared as
  text. Canonical text is that of RFC 9562, section 4.
* **Sizes** (`VolumeSize`, `DiskSize`), in 64-bit arithmetic.

## What turned out not to hold

The code is modelled as it is. Where a property one would expect fails, a lemma shows it and
another says when it holds.

* `FailAllPending` completes requests that were never started, but `GetUnStarted` looks only
  at the start time. A request left over at a restart is therefore still dispatched, and
  being complete it is invisible to the re-check of the next one: two workers can act on one
  VM. `ExclusionExactlyWithoutLeftovers` gives the exact condition.
* `deleteVM` reports success before it drops the VM from the list, so a start worker can be
  at work on a VM that is gone (`WorkerCanOutliveItsVm`); `WorkerKeepsVmExactly` says when
  it cannot, leftover requests included.
* `StopVM` and `DeleteVM` queue the id as it was sent, not as it parses. A request with
  another spelling of the id is abandoned by its worker (`MisspelledIsAbandoned`,
  `LookupSucceedsExactly`). It then bars calls with its own spelling and no others
  (`BarsExactlyItsSpelling`, `CanonicalStillEnters`).
* The query for the interfaces of the host drops its error, so a search that gets no answer
  can find a name of the host itself, and the next stop or clean-up destroys that interface
  (`BlindNamingTakesHostsOwn`); `NameNics` and `DieAnywhere` say exactly when nothing is lost.
  A VM whose NICs cannot be read is skipped, and its device can be given away a second time
  (`UnreadVmSharesDevice`); `SearchIsRightExactly` is the condition for both.
* Nobody looks at the error of `Start`. A lost write hands the request to another worker
  (`SpawnsAtMostLostMarks`, `EveryLostMarkCounts`), which gets in beside the first
  (`SecondWorkerEnters`).
* A creation of an NG bridge that fails between `mkpeer` and `name` leaves a bridge whose
  members cannot be shown. Until its dummy interface is gone no NG switch can be created or
  given an uplink, and those brought up at start-up get none (`PlugNg`, `BuildNgSwitch`).
* A VM is started even when its NICs could not all be named. A NIC left with an old device
  name that is by now on the host loses that interface to the next stop
  (`StaleDeviceIsLost`); `VmNetwork.StartThenStop` has the exact condition.
* A cloned NIC carries the saved epair and dummy bridge of a running original. With its own
  limit off, its stop takes them away (`CloneTakesGear`); `StartThenStopRestoresExactly` says
  for arbitrary records when nothing is lost.
* A validated disk list is attached whole exactly when every id is canonical
  (`AllOrNothingExactlyForCanonicalIds`); other spellings cut the list short. `AttachDisks`
  locks one VM only, so two calls can attach one disk twice
  (`OverlappingAttachBreaksExclusive`), exactly when both look it up
  (`OverlappingAttachExactly`). `SetNics` locks one VM only too; a NIC asked for by two calls
  is left to the last save (`OverlappingSetNicsExactly`).
* Removing an uplink from an NG bridge undoes adding it, and the check against other bridges
  sees it, exactly when the interface name has no dot (`AddThenRemove`,
  `SeenExactlyWithoutDot`).
* An NG switch can be created over an NG bridge of its name that was there; deleting it
  destroys that bridge (`CreateThenDelete`).
* Nothing keeps the sound device off the slot of the LPC bridge (`SoundCanCollide`);
  `CollidesExactly` and `CollidesExactlyAfterFailedNaming` say when a line collides.
* The port search goes on for ever when all 65536 ports are taken
  (`SearchEndsExactlyWhenFree`).
* Migration 2024063003 records the number of 2024062703. This only makes a later start-up
  repeat work (`GatesInOrder`).
* A switch without an uplink cannot be created: the empty name is not an interface, so
  `Create` refuses it.

## Model

| member | source | states |
|---|---|---|
| RequestTable.Table.CreateVmReq | cirrinad/requests/requests.go:139-175 | A row is added exactly for a non-empty, parsable VM id and one of the three VM request types when the INSERT succeeds; the new row is unstarted and incomplete and no other row changes |
| RequestTable.Table.CreateDiskReq | cirrinad/requests/requests.go:177-214 | The same for disk requests, whose only type is DISKWIPE |
| RequestTable.Table.CreateNicCloneReq | cirrinad/requests/requests.go:99-136 | A row of kind NICCLONE with the object id and the new name, unstarted and incomplete, is added exactly for a non-empty, parsable NIC id and a valid name when the INSERT succeeds; no other row changes |
| RequestTable.Table.GetUnstarted | cirrinad/requests/requests.go:239-245 | Some row without a start time, complete or not; none exactly when every row is started |
| RequestTable.Table.PendingReqExists | cirrinad/requests/requests.go:248-302 | The ids of the incomplete requests of a known type about the object, all of them and each once |
| RequestTable.Table.FailAllPending | cirrinad/requests/requests.go:305-314 | Completes every row, started or not, and reports how many were incomplete |
| RequestTable.MarksAndReaders | cirrinad/requests/requests.go:305-351 | Starting a request takes it, and no other, away from the dispatcher and no pending check can tell; succeeding or failing it takes it, and no other, out of every pending check and the dispatcher cannot tell, and only succeeding sets successful; failing all pending ones empties every check and leaves the dispatcher all it had |
| RequestSafety.EnterOnlyByCheck | cirrinad/vmops.go:34-42 | The only way into a critical section is a worker re-check that found no other pending request for the object |
| RequestSafety.InvStep | cirrinad/vmops.go:12-53 | Every step of every handler, dispatcher and worker keeps the protocol invariant, mutual exclusion included |
| RequestSafety.InvAlways | cirrinad/vmops.go:12-143 | The invariant holds after every interleaving of one daemon life |
| RequestSafety.MutualExclusionInOneLife | cirrinad/rpc_vm.go:1039-1048 | From any state whose unstarted requests are incomplete, at most one worker per object id is between its re-check and its report, over every interleaving, although handlers look up, check and insert in three steps |
| RequestSafety.RestartIsJustBooted | cirrinad/cleanup.go:106-108 | A restart leaves every row complete and every unstarted row still unstarted, with nothing in flight |
| RequestSafety.LeftoverBreaksExclusion | cirrinad/requests/requests.go:239-245 | One unstarted row left over at boot on an existing object gives a concrete run with two workers inside for the same object |
| RequestSafety.ExclusionExactlyWithoutLeftovers | cirrinad/requests/requests.go:305-314 | After a boot, exclusion holds over every interleaving if and only if every request still waiting for the dispatcher names an object that is gone |
| RequestLifecycle.DispatchedAtMostOnce | cirrinad/reqproc.go:9-31 | Over any run with any crashes and restarts a request is handed to a worker at most once, and never once it has been started and released, given that its start is written |
| RequestLifecycle.RowsMoveForward | cirrinad/requests/requests.go:324-351 | Over any run Successful implies Complete, and started, complete, successful, type and payload never go back |
| RequestLifecycle.RowAfterRun | cirrinad/requests/requests.go:305-351 | After any run a row is started exactly if it was or was marked, complete exactly if it was or was reported, refused or swept up at a restart, and successful exactly if it was or was reported a success |
| RequestLifecycle.GetsInExactly | cirrinad/vmops.go:12-42 | A worker gets in exactly when its object is in the list of its kind and no other incomplete request of a known type names it |
| LostWrites.SpawnsAtMostLostMarks | cirrinad/requests/requests.go:324-330 | With status writes lost anywhere, from any state in which the dispatcher does not hold it a request is handed to a worker at most once more than its Start is lost, over any run with crashes and restarts |
| LostWrites.EveryLostMarkCounts | cirrinad/requests/requests.go:239-245 | The bound is met: for every n there is a run with n lost writes of Start and n + 1 workers for the request |
| LostWrites.SecondWorkerEnters | cirrinad/diskops.go:97-106 | The run: one lost Start puts two workers of one request into the critical section, as the re-check passes over the request itself |
| LostWrites.LostReportAbandons | cirrinad/requests/requests.go:332-351 | A report that is lost abandons the request if and only if it was not complete and no drop of the VM is still to come |
| RequestLifecycle.AbandoningExits | cirrinad/vmops.go:17-32 | While the daemon is up, a worker step leaves a request started but never to be completed exactly when a VM worker cannot find its VM or a wipe cannot size its disk |
| RequestLifecycle.AbandonedBars | cirrinad/diskops.go:61-77 | Once a request is abandoned no further worker for its object enters a critical section until the restart |
| RequestLifecycle.WorkerCanOutliveItsVm | cirrinad/vmops.go:126-142 | From any quiet state with a VM there is a run in which a start worker is inside its critical section for a VM that is gone, because a deletion reports before it drops the VM |
| RequestVms.BookedAlways | cirrinad/vmops.go:100-143 | The bookkeeping the next row asks for, kept by every run whatever requests it began with, crashes and restarts included: workers have started requests, one worker at a time has the list lock, and only a deletion has it |
| RequestVms.WorkerKeepsVmExactly | cirrinad/vmops.go:100-143 | Also after a boot with leftovers, a worker inside its critical section, its request not complete and its VM listed, keeps the VM for as long as it stays inside, over every interleaving, if and only if no deletion of the VM has reported success without having dropped it, and no other deletion of it is inside, or this worker is itself a deletion holding the list lock |
| RequestVms.OnlyReportedDeletionsCount | cirrinad/vmops.go:126-142 | Where exclusion holds, as without leftovers, only the first of these conditions is left |
| RequestSpelling.LookupSucceedsExactly | cirrinad/vmops.go:55-80 | The worker of a queued VM request reaches its re-check if and only if the request is a start or the id was sent in canonical form; otherwise it abandons the request |
| RequestSpelling.MisspelledIsAbandoned | cirrinad/rpc_vm.go:1056-1088 | The run: a checked stop or delete with another spelling is queued, dispatched and abandoned, and changes nothing else |
| RequestSpelling.BarsExactlyItsSpelling | cirrinad/requests/requests.go:248-302 | When nothing else is pending for its text, a call passes the handler check if and only if its text is not that of the abandoned request |
| RequestSpelling.CanonicalStillEnters | cirrinad/rpc_vm.go:1022-1054 | After it a start with the canonical spelling passes its check, is queued, and its worker gets in |
| Workers.ProcessOneRequest | cirrinad/reqproc.go:9-31 | One dispatcher turn is the actions pick, mark, spawn on an unstarted row, or nothing when there is none |
| Workers.HasOtherPending | cirrinad/diskops.go:97-106 | True exactly when another incomplete request names the object |
| Workers.Admit | cirrinad/nicops.go:13-51 | With anything the other goroutines do in between, lookup and re-check are a run of the protocol in which the worker takes exactly the listed steps; a VM worker waits only while the list is locked, others never; alone, a worker gets in exactly when its object exists and no other request is pending |
| Workers.RunOperation | cirrinad/vmops.go:12-98 | startVM, stopVM and nicClone under any interference are runs of the protocol whose own part is lookup, re-check and one report of the outcome of the operation, or one of the early exits; the row ends successful exactly if it was or the worker got in and the operation worked, and, alone, complete exactly if it was or the request was refused or carried out; a body stops short only while the list is locked |
| Workers.DeleteVm | cirrinad/vmops.go:100-143 | The same for deleteVM: take the list lock, report, drop the VM; the row ends successful exactly if the lock was had and the deletion worked; it stops short only while another worker has the lock; alone, the VM leaves the list exactly when the worker was admitted and the deletion succeeded |
| Workers.WipeDisk | cirrinad/diskops.go:11-94 | The same for diskWipe, which never waits for the list; the row ends successful exactly if the worker got in and the disk could be sized; a disk that cannot be sized leaves the request neither failed nor succeeded |
| CommaList.JoinOfSplit | cirrinad/db/migrate.go:331-331 | Splitting at commas loses nothing: joining the pieces gives back the column |
| MigrationCode.Database.SetSchemaVersion | cirrinad/db/migrate.go:98-119 | Delete, then create, as two statements with a crash possible between them |
| MigrationCode.Database.CopyLists | cirrinad/db/migrate.go:315-361 | The loops over configurations and pieces issue exactly one INSERT per non-empty piece, with the position it has among all pieces, in order; which rows those are is ListedExactly |
| MigrationMeaning.ListedExactly | cirrinad/db/migrate.go:315-361 | The rows inserted into vm_isos are those of the is_os column, and those inserted into vm_disks those of the disks column: one for each non-empty piece of each configuration that is not deleted, at the position of the piece |
| MigrationCode.BuildRows | cirrinad/db/migrate.go:331-347 | The inner loop builds the positioned rows of one list; empty pieces advance the position and get no row |
| MigrationCode.Database.MigrateOne | cirrinad/db/migrate.go:286-470 | One migration issues exactly its planned statements: none when the gate is passed, else its body if the schema still needs it, then the version it records |
| MigrationCode.Database.CustomMigrate | cirrinad/db/migrate.go:121-168 | The statements of all steps, gated on the version read once at the start, in order |
| MigrationCrash.OldDatabasesAreHonest | cirrinad/db/migrate.go:286-288 | Every database recorded as older than 2024062701 satisfies the starting condition of the crash theorems |
| MigrationCrash.SoundPrefix | cirrinad/db/migrate.go:98-119 | After any prefix of the statements no listed row is lost and the recorded version does not claim undone work |
| MigrationCrash.GatesInOrder | cirrinad/db/migrate.go:456-470 | No migration records a version at or above the gate of a later one, 2024063003 with its lower number included |
| MigrationCrash.MigrateSettles | cirrinad/db/migrate.go:121-168 | An uninterrupted run ends with both columns gone and each join table holding its old rows plus everything the column listed |
| MigrationMeaning.MigratedTables | cirrinad/db/migrate.go:286-470 | After an uninterrupted run vm_isos holds its old rows and exactly the pieces of the is_os column, vm_disks its old rows and exactly those of the disks column, and both columns are gone |
| MigrationMeaning.RecordedVersion | cirrinad/db/migrate.go:456-470 | The version on record afterwards is 2024062703, or, from 2024063003 on, nothing is done |
| MigrationMeaning.WrittenVersions | cirrinad/db/migrate.go:121-168 | The versions written on the way are those of the migrations newer than the one recorded at the start, with 2024062703 for the last |
| MigrationCrash.CrashesKeepMeaning | cirrinad/db/migrate.go:98-119 | Any number of start-ups, each dying between any two statements, keeps what both lists stand for |
| MigrationCrash.CrashesConverge | cirrinad/db/migrate.go:286-470 | Any number of crashed start-ups and then one that completes give exactly the database of one undisturbed start-up, recorded version included |
| MigrationMeaning.GetListForVm | cirrinad/vm/db.go:243-371 | An error for an empty VM id or a failing query; otherwise the items of exactly the rows that can be scanned and whose object exists, as often as they occur, in row order |
| MigrationMeaning.PieceRowsExactly | cirrinad/db/migrate.go:331-347 | The rows of a list are exactly its non-empty pieces at their positions, positions increasing |
| MigrationMeaning.SameElementsSameOrder | cirrinad/vm/db.go:252-262 | A table read in position order comes back in one order only |
| MigrationMeaning.MigrationKeepsIsos | cirrinad/vm/db.go:243-306 | After the migrations the reader of vm_isos gets, in order and with repetitions, exactly the non-empty pieces of the old is_os column that name existing objects |
| MigrationMeaning.MigrationKeepsDisks | cirrinad/vm/db.go:308-371 | And the reader of vm_disks those of the old disks column |
| MigrationMeaning.CrashedMigrationKeepsIsos | cirrinad/vm/db.go:243-306 | The same after any number of start-ups that died between two statements |
| MigrationMeaning.CrashedMigrationKeepsDisks | cirrinad/vm/db.go:308-371 | The same for the disks |
| BridgeIf.CreateIfSwitch | cirrinad/switch/bridge_if.go:55-105 | Creates an empty bridge exactly under a new name with the bridge prefix when commands work; an error changes nothing |
| BridgeIf.MemberAddedSound | cirrinad/switch/bridge_if.go:354-392 | Adding a member keeps every interface in one bridge when the member is in no other bridge |
| BridgeIf.IfAddMember | cirrinad/switch/bridge_if.go:354-392 | Success means bridge and member existed and the member is now in; an error changes nothing; succeeds whenever both exist and commands work |
| BridgeIf.IfDeleteMember | cirrinad/switch/bridge_if.go:125-157 | The member leaves that bridge and nothing else changes; an absent bridge or member is not an error |
| BridgeIf.CountDown | cirrinad/switch/bridge_if.go:215-234 | The name with the highest free number from 32767 down to 1, or the empty name exactly when all are taken |
| BridgeIf.GetDummyBridgeName | cirrinad/switch/bridge_if.go:215-234 | The countdown over the bridges the host lists, or the empty name when the host cannot be asked |
| BridgeIf.GetDummyEpairName | cirrinad/epair/epair.go:55-74 | The same countdown over the epairs |
| BridgeIf.MemberUsed | cirrinad/switch/bridge_if.go:236-258 | When the host answers: true exactly when some bridge has the member; a failed query counts as used |
| BridgeIf.DeleteAllMembers | cirrinad/switch/bridge_if.go:107-123 | Touches no other bridge and nothing but memberships; while commands work the bridge ends without members |
| BridgeIf.DestroyIfSwitch | cirrinad/switch/bridge_if.go:394-431 | While commands work exactly the named bridge goes, with or without member cleanup, and only a name without the prefix is an error; otherwise other bridges lose at most it as a member |
| BridgeIf.CreateWithMembers | cirrinad/switch/bridge_if.go:195-213 | The new bridge holds exactly the members added before the first failure, other bridges stay as they are, and an error after creation leaves it behind |
| NicCode.CreateEpair | cirrinad/epair/epair.go:76-127 | The pair is created, both ends in the group of the daemon, or nothing is; success is exactly possibility when commands work, and a late failure leaves the pair, perhaps with one end outside the group |
| NicCode.SetRateLimit | cirrinad/epair/epair.go:152-252 | Only pipes change; success means one on each end, and while commands work it succeeds exactly when neither name is taken |
| NicCode.MakeEpair | cirrinad/switch/bridge_if.go:433-457 | The first half of the rate limit: a new pair, recorded as soon as it is there, with its pipes; no bridge changes |
| NicCode.MakeDummyBridge | cirrinad/switch/bridge_if.go:459-475 | The dummy bridge under the highest free number with its two members; no other interface gets into a bridge |
| NicCode.SetupRateLimit | cirrinad/switch/bridge_if.go:433-489 | While commands work, host, saved record and result are those of the rate-limit specification; always every interface stays in one bridge, and the far end of an epair that was recorded is in none, on failure too |
| NicCode.JoinByDummyBridge | cirrinad/switch/bridge_if.go:459-489 | The dummy bridge gets the near end of the epair and the device; its name is recorded only when both are in |
| NicCode.UnsetRateLimit | cirrinad/switch/bridge_if.go:491-538 | Whatever commands fail the record ends blank; while they work the dummy bridge, the pipes and the epair are gone |
| NicCode.ConnectNic | cirrinad/switch/switch.go:645-668 | connectIfNic behind the type test: success on an IF switch means the device, or the far end of the recorded epair with its pipes and dummy bridge, is a member of it; a NIC without rate limit is connected exactly when the bridge is there (while commands work) |
| NicCode.DisconnectNic | cirrinad/switch/switch.go:670-691 | disconnectIfNic behind the type test: takes the member out and then the contraption apart, driven by the saved record |
| NicCode.Build | cirrinad/vmnic/vm_nics.go:467-500 | Success creates a device that was not on the host and so is in no bridge; failure changes nothing; NETGRAPH builds nothing |
| NicCode.Demolish | cirrinad/vmnic/vm_nics.go:502-538 | Destroys the device if it is there, and leaves NETGRAPH NICs alone |
| NicCode.NetStart | cirrinad/vm/nic.go:13-62 | A failing query changes nothing and is the only error; otherwise the NICs of the configuration are started, each once in the order read, errors on one not stopping the next, and while commands work host and saved rows are those of the specification: every NIC with a new device on an IF switch that is up ends as a member of it, or the far end of its saved epair does, behind pipes and a dummy bridge that holds just its near end and the device |
| NicCode.NetStop | cirrinad/vm/nic.go:150-184 | The same for stopping, where a failing query is no error; while commands work exactly the saved devices, and the saved dummy bridges and epairs of NICs that are on an IF switch, are gone, out of every bridge, and nothing else |
| NicRoundTrip.StartAccounted | cirrinad/vm/nic.go:21-59 | For any record: whatever starting one NIC added, with a device that is new, already there or unnamed, also when names run out or the switch is missing, is claimed by its saved record and can be removed through it; the inst fields name what they named before or what is new |
| NicRoundTrip.StopRemoves | cirrinad/vm/nic.go:158-183 | Stopping a NIC removes exactly what its record claims, present or not, and blanks the inst fields exactly when it gets as far as taking the contraption apart |
| NicRoundTrip.StartAllAccounted | cirrinad/vm/nic.go:13-62 | Starting a list adds only what the saved records claim, also when two records claim the same |
| NicStarts.StartAllPlugs | cirrinad/switch/bridge_if.go:540-572 | In a list started in turn, a NIC with a device that is new and no other NIC has, on an IF switch of its type that is up, ends on it and stays there to the end, with or without rate limit, as long as there are dummy names for the list |
| NicStarts.ConnectedPlugs | cirrinad/switch/bridge_if.go:540-572 | Whatever there was room for, a connection that succeeds has the NIC on its switch |
| NicRoundTrip.StopAllRemoves | cirrinad/vm/nic.go:150-184 | Stopping a list removes exactly the union of what its records claim |
| NicRoundTrip.StartThenStopLeaves | cirrinad/vm/nic.go:13-184 | For any well-formed host and any records, inst fields set or not, start then stop, in whatever order the records are read back, gives interfaces, memberships, epairs and pipes as they were, less exactly what the saved records claim of them |
| NicRoundTrip.StartThenStopRestoresExactly | cirrinad/vm/nic.go:13-184 | The host is restored if and only if no saved record claims anything that was on it before |
| NicRoundTrip.OnlyDevicesMatter | cirrinad/vm/nic.go:13-184 | Where the inst fields name nothing on the host, what is missing afterwards is exactly the interfaces that already carried the name of a saved device |
| NicRoundTrip.BlankAgain | cirrinad/switch/bridge_if.go:491-538 | Inst fields that are empty before a start are empty after the stop |
| NicRoundTrip.CloneTakesGear | cirrinad/nicops.go:74-94 | The input: the clone of a running rate-limited NIC, with the limit switched off and a device of its own, takes the bridge and the epair of the original away when its VM is started and stopped |
| VmNetwork.StartThenStop | cirrinad/vm/vm.go:510-521 | generateCommandLine, netStart and NetStop on a host that carries commands out, naming failed or not, its queries answered or not, whatever the inst fields held: the host is left less what the saved records claim, and restored if and only if they claim nothing of it; where no inst field named anything on it, if and only if no stale device of a NIC left unnamed and no device found blindly is on it; empty inst fields end empty; naming succeeds exactly when every NIC can be named and saved |
| VmNetwork.RecordsAfterNaming | cirrinad/vm/args.go:495-552 | After naming, failed or not, the only saved devices that can be on the host are the stale ones of NICs that were not named and those found blindly |
| VmNetwork.StaleDeviceIsLost | cirrinad/vm/args.go:520-525 | The input: a NETGRAPH NIC that cannot be named before a TAP NIC whose old tap0 is on the host; stopping takes that interface away |
| FreeName.Pigeonhole | cirrinad/vm/args.go:555-579 | n numbered names need a set of at least n: the searches cannot go on for ever |
| FreeName.LeastFree | cirrinad/vm/args.go:555-579 | The least number whose name is free, at most the number of names taken |
| NetDevice.FreeDevice | cirrinad/vm/args.go:555-606 | The searches of getTapDev and getVmnetDev end with the smallest number whose name is neither listed by the host nor seen in use; an unanswered interface query lists nothing, a VM whose NICs cannot be read is skipped |
| NetDevice.FindDevice | cirrinad/vm/args.go:463-493 | tap or vmnet with the least number that is not taken; for NETGRAPH the node, a comma and the link, or failure |
| NetDevice.NicTable.GetNics | cirrinad/vmnic/vm_nics.go:137-148 | The rows of the configuration, all of them and each once |
| NetDevice.NicTable.GetNetArgs | cirrinad/vm/args.go:507-552 | Devices are searched for and saved NIC by NIC; an unknown NIC type gives back the slot the call began with, a failing device or save the slot reached |
| NetDeviceNames.AssignedDevicesAreOwn | cirrinad/vm/args.go:495-606 | After one successful call every TAP or VMNET NIC has a numbered device, which is not on the host if that listed its interfaces for the NIC, and which, if every read of the NICs of VMs went through, no other NIC of a VM in use holds |
| NetDeviceNames.BlindNamesExactly | cirrinad/vm/args.go:555-606 | The devices a call saves that are on the host already are exactly those found while it did not list its interfaces |
| NetDeviceNames.BlindNameOfOne | cirrinad/vm/args.go:555-606 | For one NIC that is the least number whose name is not seen in use |
| NetDeviceNames.SearchIsRightExactly | cirrinad/vm/args.go:555-606 | Whatever queries fail, the device found for a NIC is new to the host and to all VMs in use if and only if it is the one found with all of them answered |
| NetDeviceNames.UnreadVmSharesDevice | cirrinad/vm/util.go:268-292 | The input: the NICs of a running VM that has tap0 cannot be read, and another NIC gets tap0 too |
| NetDeviceNames.AssignedTouchesOnlyDevices | cirrinad/vm/args.go:495-552 | Nothing but the devices of the listed NICs changes, on success or failure |
| NetDeviceNames.NamingStopsAtFirstUnnameable | cirrinad/vm/args.go:507-537 | A call names and saves exactly the NICs before the first that cannot be named, and succeeds exactly when there is none |
| NetDeviceNames.AllNamedExactly | cirrinad/vm/args.go:507-537 | There is none exactly when all types are known, all records can be saved and every NETGRAPH answer is present |
| NetDeviceNames.AssignedSlots | cirrinad/vm/args.go:495-552 | One slot per NIC, consecutively from the start; a failed call keeps no argument and never moves the counter back |
| NetDeviceNames.FailedCallSlot | cirrinad/vm/args.go:495-552 | A call that fails gives back the slot it began with when it stops at a NIC type other than VIRTIONET and E1000, else the slot it has reached |
| NetDeviceNames.OneNamedExactly | cirrinad/vm/args.go:439-493 | A NIC can be named exactly when its type is one of these two, its record can be saved, and for NETGRAPH the switch answers |
| Switches.SwitchObject.UnsetUplink | cirrinad/switch/switch.go:479-516 | Takes the uplink off and records that; an error leaves the record and the IF bridges as they were |
| Switches.SwitchObject.SetUplink | cirrinad/switch/switch.go:518-527 | Adds and records an uplink that was in no bridge of its kind; while commands work it succeeds exactly when switch and uplink are there, the uplink is free and, for NG, no netgraph bridge is without a name |
| Switches.PlugIf | cirrinad/switch/bridge_if.go:305-328 | The IF half: success means the uplink was in no bridge and is now in this one; an error changes nothing; it succeeds whenever bridge and uplink exist and the uplink is free |
| Switches.PlugNg | cirrinad/switch/bridge_ng.go:463-488 | The NG half: while commands work it succeeds exactly when the bridge exists, no netgraph bridge is without a name, none leads to the uplink, its node is there and both its hooks are free; while one is without a name nothing can be plugged in at all; a name without a dot never ends up on two bridges; hooks may lead to sockets of VMs |
| Switches.NgMemberUsed | cirrinad/switch/bridge_ng.go:415-446 | When it answers: true exactly when some netgraph bridge leads to the member; while a bridge has no name it never answers no |
| Switches.FindUsedElsewhere | cirrinad/rpc_switch.go:271-280 | True exactly when another switch of the same type records the uplink |
| Switches.ReplaceUplink | cirrinad/rpc_switch.go:202-231 | Unset then set, with the unset error ignored only when the uplink changes; while commands work it succeeds exactly when bridges of the kind can be asked and the new uplink can be plugged in after the old one is off, and then the bridge has lost the old and gained the new one and nothing else has changed |
| Switches.SetSwitchUplink | cirrinad/rpc_switch.go:165-233 | Whatever commands fail, every recorded IF uplink stays a member of its bridge, no interface gets into two bridges and no other row changes; success leaves no other switch of the type with the uplink; failure leaves the old uplink or none; while commands work success is characterised exactly, and after it the members of an IF bridge are those before without the old uplink and with the new, and the hooks of an NG bridge those before that do not lead to the old, a lower and an upper one to the new; other bridges are as before |
| Switches.CanPlugIfExactly | cirrinad/rpc_switch.go:202-231 | For an IF switch that is possible exactly when bridge and uplink are there and the uplink is in no bridge, or in this one as its present uplink |
| Switches.CanPlugNgExactly | cirrinad/rpc_switch.go:202-231 | For an NG switch exactly when bridge and node are there and no hook leads to the uplink or occupies its hooks, but for the hooks of this bridge to its present uplink |
| SwitchRuns.BuildIfSwitch | cirrinad/switch/bridge_if.go:260-303 | Members come from the uplink column only and no other bridge changes; while commands work they are exactly its non-empty pieces that are interfaces of the host not made by the daemon, with a hardware address, and in no bridge |
| SwitchRuns.CheckUplink | cirrinad/switch/switch.go:44-81 | Accepts only an interface the daemon did not make, with a hardware address, that is free among bridges of the kind, and none for NG while a netgraph bridge has no name; while commands work it accepts all of those |
| NgSwitches.CreateNgBridge | cirrinad/switch/bridge_ng.go:169-202 | Whatever fails, no other bridge of either kind changes, and what a failure leaves without a name hangs on a dummy of the daemon; while commands work and no other node has the name of bridge or dummy, the bridge is made without hooks and without trace on the host, exactly under a new name with the prefix when a dummy can be had |
| NgSwitches.ActuallyCreate | cirrinad/switch/bridge_ng.go:204-289 | The dummy, mkpeer, name, connect and setpersistent as commands that fail one by one, and the dummy gone again; a failure leaves what was made so far, between mkpeer and name a bridge without a name |
| NgSwitches.OnDummySwept | cirrinad/switch/bridge_ng.go:281-287 | When the dummy goes its hooks go with it and every other bridge is as it was all along |
| NgSwitches.DeleteAllPeers | cirrinad/switch/bridge_ng.go:337-353 | Only hooks of this bridge can go; a bridge without hooks stays as it is; where no hook is called like a peer, as for hooks the daemon makes, none goes and a bridge with hooks is an error |
| NgSwitches.CreateNgWithMembers | cirrinad/switch/bridge_ng.go:291-335 | While commands work the new bridge carries the members in turn, as far as each can be connected |
| NgSwitches.BuildNgSwitch | cirrinad/switch/bridge_ng.go:592-636 | Whatever fails no bridge that was there changes, and for a column without dots no peer gets onto two NG bridges; while commands work and the names are free, the switch is built exactly when it can be and the bridge carries the free pieces of the column as far as each can be connected, or none of them while some netgraph bridge has no name |
| NgSwitches.BuiltNgPeers | cirrinad/switch/bridge_ng.go:592-636 | A bridge built over a column without dots leads, by a lower and an upper hook, to exactly its non-empty pieces that are interfaces the daemon did not make, with a hardware address, and hang on no NG bridge |
| NgSwitches.FreeNgPiecesExactly | cirrinad/switch/bridge_ng.go:592-636 | These are the non-empty pieces that are host interfaces not made by the daemon, with a hardware address, that hang on no NG bridge |
| NgSwitches.JoinedPeers | cirrinad/switch/bridge_ng.go:291-335 | Members without dots that have a node and hang on no bridge end up on the new bridge, all of them and nothing else |
| NgSwitches.DestroyNgSwitch | cirrinad/switch/bridge_ng.go:561-590 | Success removes exactly the named bridge, an error nothing; while commands work it succeeds exactly for a bridge that is there under a name with the prefix |
| SwitchRuns.CreateSwitch | cirrinad/switch/switch.go:228-262 | The row is added exactly when no step fails; while commands work, and no other node has the name of an NG bridge or its dummy, that is exactly for a new valid name and an uplink among the host interfaces that is free, and for NG only while no netgraph bridge is without a name; a new IF bridge then has exactly the free pieces of the column as members, a single uplink among them; an error leaves the table as it was |
| SwitchRuns.DeleteSwitch | cirrinad/switch/switch.go:302-333 | Refused without any change exactly while a NIC names the switch; otherwise the row goes and, while commands work, exactly its bridge, with an error only for a name without the prefix or an NG bridge that is not there |
| SwitchRuns.CreateThenDelete | cirrinad/switch/switch.go:228-322 | Creating a switch and deleting it gives back host and table, and the NG bridges if and only if the switch did not take its name from an NG bridge that was there; creation succeeds exactly when its conditions hold (while commands work, all netgraph bridges have names and no other node has those needed) |
| SwitchRuns.CreateSwitches | cirrinad/switch/switch.go:264-300 | No bridge of either kind that was there changes, and success means every switch has its bridge; while commands work the members of each are free pieces of its own column, and every free piece of a column is on one of the switches, for IF and, with columns without dots, for NG |
| SwitchRuns.DestroySwitches | cirrinad/switch/switch.go:335-384 | While commands work exactly the bridges of the switches go, of both kinds, and the hooks that led to them |
| SwitchRuns.RunAll | cirrinad/switch/bridge_if.go:236-334 | Over every sequence of switch creation and deletion, start-up, shutdown, uplink changes, NIC starts and stops, and VM sockets coming and going, with commands failing anywhere, no interface is ever in two IF bridges, hooks on NG bridges stay distinct, switch names unique, and, for uplinks without dots, no peer ever hangs on two NG bridges |
| CleanUp.SweepGroup | cirrinad/cleanup.go:75-103 | Destroying what is in the group, epair ends taking their pairs along: while commands work the host is left without the group and everything that hung on it, and nothing else changes |
| CleanUp.StopAllVms | cirrinad/cleanup.go:53-66 | Stopping the NICs of every VM, running or not: while commands work exactly what the records of all of them claim goes |
| CleanUp.CleanUpNet | cirrinad/cleanup.go:50-104 | While commands work the host is left without the group, less what records and switches claim of the rest, and the netgraph bridges that failed creations left without a name are gone; whatever fails, what is left over on a host that was clean is in the group and goes with the next sweep |
| CleanUp.CleanUpRestoresExactly | cirrinad/cleanup.go:50-104 | On a host that the daemon has only added to, the clean-up gives back the host without the daemon if and only if records and switches claim nothing of that |
| CrashSafety.DieAnywhere | cirrinad/cleanup.go:50-104 | Over every sequence of switch creations and deletions, start-ups, shutdowns, uplink changes, namings, NIC starts and stops, and clean-ups, with commands and interface queries failing anywhere: cleaning up from the host as it was after any one command and the NIC records as they were after any one save gives exactly the host without the daemon, if and only if no naming found a name of the host itself while that did not list its interfaces, as is always so when every such query is answered; host states and saves are never forgotten, and switch names stay proper |
| CrashSafety.Recover | cirrinad/cleanup.go:50-104 | Run on any such host with any such records by a daemon whose commands work, cleanupNet does give that host, and afterwards no netgraph bridge is left without a name |
| CrashSafety.NameNics | cirrinad/vm/args.go:495-606 | One naming, its interface queries answered or not NIC by NIC: the records stay harmless if and only if none of the names found blindly is a name of the host itself |
| CrashSafety.BlindNamingTakesHostsOwn | cirrinad/vm/args.go:555-579 | The input: a host with its own tap0 and a new TAP NIC named while the interfaces cannot be listed; tap0 is saved and the clean-up destroys the interface of the host |
| GroupSweep.SweepCommutes | cirrinad/cleanup.go:75-103 | Sweeping the group and taking whole gear away can be exchanged |
| SwitchName.NameValidExactly | cirrinad/switch/switch.go:152-226 | Valid names are exactly the prefix of the type and the canonical decimal of a 32-bit signed integer, negative ones included, each name for one number |
| SwitchName.NumbersAreNamed | cirrinad/switch/switch.go:152-226 | Every 32-bit signed integer has a valid name |
| SwitchName.TypesDoNotShareNames | cirrinad/switch/switch.go:152-226 | No name is valid for both types |
| NgBridge.FindNextLink | cirrinad/switch/bridge_ng.go:146-167 | The least unused link, in at most one try more than there are peers |
| NgBridge.NgNameExactlyWithoutDot | cirrinad/switch/bridge_ng.go:521-521 | The name used on adding is the interface name exactly when that has no dot |
| NgBridge.NgAddMember | cirrinad/switch/bridge_ng.go:515-559 | Two hooks, lower and upper, each on the least free link as it then is; an error leaves what was connected; while commands work exactly as many connects are made as node and hooks allow |
| NgBridge.NgRemoveUplink | cirrinad/switch/bridge_ng.go:374-396 | Success removes exactly the hooks that lead to the peer; other bridges never change; hooks stay distinct |
| NgBridge.RemovedAt | cirrinad/switch/bridge_ng.go:374-396 | With distinct hooks, removing one hook removes exactly one peer |
| NgBridge.AddThenRemove | cirrinad/switch/bridge_ng.go:515-559 | Adding a member the bridge lacks and removing it by its name restores the hook table if and only if the name has no dot |
| NgBridge.SeenExactlyWithoutDot | cirrinad/switch/bridge_ng.go:415-446 | The check for a member on other bridges sees one that was added if and only if its name has no dot |
| PciSlots.GetDiskArg | cirrinad/vm/args.go:142-190 | Consecutive slots for exactly the kept disks, in list order |
| PciSlots.KeptDisksExactly | cirrinad/vm/args.go:142-190 | A disk is kept exactly when it was found with its backing and a known type and the AHCI disks up to it, backed or not, are within the limit |
| PciSlots.KeptDisksInOrder | cirrinad/vm/args.go:142-190 | Disks keep their order and none appears twice |
| PciSlots.GetCdArg | cirrinad/vm/args.go:42-72 | Drives for exactly the first min(n, max(0, 31 - slot)) of the n non-nil ISOs, in list order and at consecutive slots, all below slot 31 |
| PciSlots.LiveIsosExactly | cirrinad/vm/args.go:42-72 | An ISO is among the drives to seat exactly when its entry is not nil |
| PciSlots.GetSlotArgs | cirrinad/vm/args.go:719-731 | The counter goes through the generators in order, and the LPC bridge sits at 31; each device is on the line exactly when the configuration asks for it and it can be had, at its slot |
| PciSlots.LineIs | cirrinad/vm/args.go:719-731 | What is on the line, device by device, in terms of the configuration: host bridge, frame buffer with a screen and a port, tablet with a screen, network devices, kept disks, ISOs with room, and sound when a path exists |
| PciSlots.NetResultHolds | cirrinad/vm/args.go:495-552 | What getNetArgs returns has the shape the slot theorems ask for, on success and failure |
| PciSlots.SlotsDistinct | cirrinad/vm/args.go:719-731 | For every configuration the device slots are strictly increasing along the line, each below the final counter |
| PciSlots.CollisionExactlyPast31 | cirrinad/vm/args.go:380-382 | The device slots reach the LPC bridge only when the counter leaving getSoundArg is past 31, and if getNetArgs succeeded always then |
| PciSlots.CollidesExactly | cirrinad/vm/args.go:719-731 | If getNetArgs succeeded, the line collides if and only if the counter after the disks is past 31, or there is a sound device and the ISOs fill up to 31 |
| PciSlots.CollidesExactlyAfterFailedNaming | cirrinad/vm/args.go:719-731 | If it failed, handing back slot n, the line collides if and only if n is at most 31 and either the counter after the disks is past 31, or there is a sound device and the ISOs fill up to 31 |
| PciSlots.SoundCanCollide | cirrinad/vm/args.go:320-362 | A configuration of 31 ISOs and a sound device does collide |
| Ports.GetFreeTcpPort | cirrinad/util/util.go:360-388 | After any number of probes: still searching exactly if all ports probed so far are listening or used, else the first in cyclic order that is neither |
| Ports.SearchEndsExactlyWhenFree | cirrinad/util/util.go:368-385 | The wrapping search ends if and only if one of the 65536 ports is free, and then within 65536 probes |
| DiskAttach.Registry.ValidateDisks | cirrinad/vm/disk.go:32-70 | Accepts exactly lists whose ids parse to existing named disks, do not repeat as text and are on no other VM as text |
| DiskAttach.Registry.AttachedToAnother | cirrinad/vm/disk.go:73-88 | True exactly when another VM lists the disk |
| DiskAttach.Registry.AttachDisks | cirrinad/vm/disk.go:90-123 | After validation the list becomes the ids before the first that cannot be looked up as written, also on error; before it nothing changes |
| DiskAttach.Registry.GetDiskVm | cirrinad/rpc_disk.go:496-525 | The owner, or none exactly when there is none; an error exactly when the disk is in two places |
| DiskAttach.Registry.LockDisks | cirrinad/vm/disk.go:12-20 | Each mutex once and in the end all of them, or stuck exactly when the list holds a disk twice, which exclusive lists do not |
| DiskAttach.AttachKeepsExclusive | cirrinad/vm/disk.go:90-123 | For arbitrary id strings, on success or error, no disk occurs twice across all lists after an attach |
| DiskAttach.AllOrNothingExactlyForCanonicalIds | cirrinad/vm/disk.go:103-114 | Once validated, the whole list is attached if and only if every id was sent in canonical form |
| DiskAttach.OverlappingAttachExactly | cirrinad/vm/disk.go:90-123 | Two calls that both validate before either attaches keep disks exclusive if and only if no id is looked up successfully by both |
| DiskAttach.OverlappingAttachBreaksExclusive | cirrinad/vm/disk.go:90-123 | The input: one disk validated by two overlapping calls ends up in two lists if and only if it was sent in the form in which it is listed |
| NicAttach.UnbindAll | cirrinad/vm/nic.go:127-147 | Success clears exactly the owner of the NICs of the VM; other NICs never change |
| NicAttach.ValidateNics | cirrinad/vm/nic.go:65-101 | Acceptance means every id passes; while the database works refusal means one does not |
| NicAttach.AttachedToNoOther | cirrinad/vm/nic.go:104-124 | Passes only NICs bound to no other VM, and while the database works all of them |
| NicAttach.SetNics | cirrinad/vm/nic.go:187-226 | Success binds exactly the requested NICs and touches no others; a rejected request leaves the VM with none; on every outcome the NICs of other VMs are unchanged; while the database works each error has exactly its cause |
| NicAttach.OverlappingSetNicsExactly | cirrinad/vm/nic.go:187-226 | Two calls that both validate before either binds: in any interleaving of their saves both VMs end with exactly what was asked for if and only if no id is in both requests |
| NicAttach.BothValidate | cirrinad/vm/nic.go:104-124 | A NIC that no VM has and that passes for one VM passes for the other |
| VolumeSize.Volume.SetSize | cirrinad/disk/zfs.go:62-119 | An applied size is never below the current one, and on an aligned volume is the least multiple of the block size at or above the request; there shrinkage is reported exactly for requests that round up below the current size or past 64 bits |
| VolumeSize.RoundedIs | cirrinad/disk/zfs.go:92-101 | The rounded value is the least multiple at or above the request, or, exactly when that does not fit, a value below one block |
| VolumeSize.ShrinksExactly | cirrinad/disk/zfs.go:103-109 | On an aligned volume the one comparison refuses exactly requests that round up too small or wrap |
| DiskSize.OverflowTestExact | cirrinad/util/util.go:758-766 | The division test is true exactly when the product is at least 2^64 |
| DiskSize.SuffixesMean | cirrinad/util/util.go:120-162 | The suffix letters are b, k, m, g and t in either case, for 1 and then 1024 times the one before |
| DiskSize.AcceptsExactly | cirrinad/util/util.go:708-732 | A text is accepted with a size exactly when it is decimal digits and at most one suffix letter denoting that size, between 512 bytes and 128 TiB |
| DiskSize.PrintThenParse | cirrinad/util/util.go:120-162 | Printing n with a suffix and parsing gives n times the multiplier |
| Decimal.ValueOfFormat | cirrinad/util/util.go:714-714 | Reading a printed number gives it back |
| Decimal.FormatOfValue | cirrinad/switch/switch.go:170-226 | Printing the value of canonical text gives the text back |

## Left out

- `VM.Start`, `VM.Stop`, `VM.Delete` and `VM.Save` are outcomes given to the workers, not modelled bodies.
- `AutoStartVMs` and `StopAll` bypass the request queue and are not part of the protocol.
- The VM state checks of the handlers appear only as the possibility that a handler refuses.
- The endless dispatcher loop and its sleeping appear as one turn, `Workers.ProcessOneRequest`, undisturbed; repeating and interleaving its three actions is the business of the protocol.
- Status writes to the request table that fail are lost in `LostWrites` only, where a second worker of a request takes the place of the first in the phases; the other request theorems take them as written. Rows dropped by hand are not modelled.
- Workers.RunOperation: the record copied by a NIC clone and the effect of starting or stopping are not part of the contract; only what the request table shows is.
- UUID parsing is a parameter; only that lookups use the text and validation the parsed form is modelled.
- Workers.WipeDisk: removing and recreating the backing is not modelled, because its errors are only logged and the request succeeds either way.
- Migration: 2024022401 to 2024022403 count as complete and only record their versions, and 2024110601 and later are not modelled; their statements are not re-runnable.
- MigrationMeaning.GetListForVm: LIKE is equality up to ASCII case, because ids hold no wildcards.
- SQLite enforces no foreign keys, as the daemon opens it; an INSERT that repeats a primary key is dropped, as the code drops its error.
- Failing database writes while NICs are wired and uplinks set are not modelled; they are for attaching NICs and disks.
- HostState: the netgraph wiring inside a pipe and its configured rates are not modelled, only that a named pipe sits on an epair end.
- NetDevice.NicTable.GetNetArgs: a failing read of its own NICs is not a case of its own; it has the effect of no record being savable. The answers of queries are parameters, one for each NIC and name tried.
- NicCode.SetRateLimit: the configured rates and the wiring inside a pipe are left out.
- CleanUp.CleanUpNet: marking VMs stopped and the clean-up of requests are not part of it, and NG bridges, which have no group, are swept only by `DestroySwitches`.
- CrashSafety.DieAnywhere: switch and NIC records edited by other means, such as a device name typed in by hand or a NIC cloned between deeds, are not among the deeds; the theorem begins with records that claim nothing of the host.
- NicCode.NetStart: what exactly a failing command leaves behind is not stated beyond every interface staying in one bridge, because the code stops half-way by design.
- Kernel.Machine.AddM: the kernel's own refusal to put an interface in two bridges is not assumed; the checks proved sufficient are the daemon's.
- Parsing the output of `ifconfig`, `ngctl`, `zfs` and `netstat` is left out; queries return the abstract state or fail.
- NgBridge: node names differ from interface names in the first dot only, as the daemon assumes; sockets of VMs come and go as plugs of `SwitchRuns.RunAll`, one hook each.
- NgSwitches.CreateNgBridge: what is left when another node, such as a socket, has the name of the bridge or its dummy is stated only as what holds whatever fails.
- NetDevice.FindDevice: the link `GetNgDev` returns is a parameter; it reads only live peers, so two NETGRAPH NICs of one VM can get the same one.
- CheckAll, descriptions, MAC addresses and switch validation messages only add plumbing.
- PciSlots: the text of the arguments beyond slot and device is not modelled, and VNC, debug and COM ports enter only through `Ports`.
- Ports.GetFreeTcpPort: the search is watched for a number of probes, because with no free port the code does not return; when it does is a lemma of its own.
- DiskAttach.Registry.AttachDisks: one call is one step; the lemma beside it shows what overlapping calls do.
- NicAttach.SetNics: `Validate` is a parameter, and overlapping calls are followed through their binding loops only.
- ISO attachment, VM creation, serial consoles, the CLI, TUI, web interface, metrics and configuration files hold no state worth a theorem.
