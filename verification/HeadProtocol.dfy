/**
  * Replicas that race to publish domain heads and the domain catalog through
  * conditional PUTs. A request may be applied after its sender stopped waiting,
  * its response may be lost, and every sender may load again and retry. Each
  * event is one atomic action of the object store or of one replica.
  */
module HeadProtocol {
  import opened Basics
  import opened DomainHead

  type Ref = nat

  type WorkerId = nat

  datatype Stored = Stored(version: nat, head: Head)

  /** What loadHead returned. */
  datatype Snapshot = Missing | Loaded(version: nat, head: Head)

  /** The catalog names every domain that may hold values. Epoch zero means that it is not frozen. */
  datatype Catalog = Catalog(version: nat, entries: set<Ref>, freezeEpoch: nat)

  /** The head writes of the protocol. `at` is the clock when the outcome was looked up. */
  datatype Write =
    | Commit(m: Mutation, at: Time)
    | Fold(m: Mutation, now: Time, at: Time)
    | Compact(now: Time)
    | CreateInert
    | Activate
    | Freeze(epoch: nat)
    | Unfreeze(epoch: nat)

  datatype CatalogWrite = Enroll(ref: Ref) | FreezeCatalog(epoch: nat) | UnfreezeCatalog(epoch: nat)

  /** A conditional PUT under way; it can still take effect after its owner gave up. */
  datatype Flight =
    | HeadPut(owner: WorkerId, ref: Ref, snap: Snapshot, enrolled: bool, write: Write)
    | CatalogPut(owner: WorkerId, cat: Catalog, change: CatalogWrite)

  /** The head that a replica loaded last, and whether the catalog is known to name it. */
  datatype Io = NoIo | HasHead(ref: Ref, snap: Snapshot, enrolled: bool)

  datatype Job =
    | Client
    | FreezeStarted(epoch: nat)
    | Freezing(epoch: nat, entries: set<Ref>, done: set<Ref>)
    | FreezeReturned(epoch: nat)
    | Unfreezing(epoch: nat, done: set<Ref>)

  datatype Worker = Worker(io: Io, cat: Option<Catalog>, waiting: Option<Flight>, job: Job)

  /** One applied mutation. */
  datatype Record = Record(m: Mutation, fingerprint: Fingerprint)

  datatype Reply = Reply(ref: Ref, id: MutationId, outcome: Outcome)

  /** `history` and `replies` record what happened; no replica reads them. */
  datatype World = World(
    clock: Time, nextVersion: nat, heads: map<Ref, Stored>, catalog: Catalog, flights: set<Flight>,
    workers: map<WorkerId, Worker>, history: map<Ref, seq<Record>>, replies: set<Reply>)

  /** The actions of one replica. */
  datatype Action =
    | LoadHead(ref: Ref)
    | Send(write: Write)
    | Replay(m: Mutation, materialized: bool)
    | LoadCatalog
    | NoteEnrolled
    | SendCatalog(change: CatalogWrite)
    | GiveUp
    | StartFreeze(epoch: nat)
    | AdoptFreeze
    | NoteFrozen
    | ReturnFreeze
    | StartUnfreeze(epoch: nat)
    | NoteThawed
    | EndJob

  datatype Event =
    | Tick(to: Time)
    | Act(w: WorkerId, action: Action)
    | Arrive(flight: Flight, answered: bool)
    | Drop(flight: Flight)

  // ------------------------------------------------------------ head writes

  /** The checks that a replica makes on its snapshot before it sends a write. */
  ghost predicate Admissible(snap: Snapshot, enrolled: bool, write: Write) {
    match write
    case CreateInert => snap.Missing?
    case Activate => snap.Loaded? && !snap.head.registered && enrolled
    case Commit(m, at) =>
      && snap.Loaded? && (snap.head.registered || enrolled)
      && MutationAdmissible(snap.head, m, at)
    case Fold(m, now, at) =>
      && snap.Loaded? && snap.head.registered && now <= at && at < m.retainUntil
      && MutationAdmissible(snap.head, m, at)
    case Compact(now) =>
      snap.Loaded? && !snap.head.frozen && (snap.head.deltas != [] || snap.head.expiry != {})
    case Freeze(e) => snap.Loaded? && snap.head.registered && !snap.head.frozen && 0 < e
    case Unfreeze(e) => snap.Loaded? && snap.head.registered && snap.head.frozen && snap.head.freezeEpoch == e
  }

  ghost predicate MutationAdmissible(h: Head, m: Mutation, at: Time) {
    && Normalized(m)
    && Recorded(h, m.id, at) == None
    && (m.expectedRevision.Some? ==> m.expectedRevision.value == h.revision)
    && !h.frozen
    && Satisfied(Values(h), m.requests)
  }

  function Effect(h: Head, write: Write): Head {
    match write
    case CreateInert => INERT
    case Activate => h.(registered := true)
    case Commit(m, _) => Mutated(h, m, FingerprintOf(m, false))
    case Fold(m, now, _) => Compacted(Mutated(h, m, FingerprintOf(m, true)), now)
    case Compact(now) => Compacted(h, now)
    case Freeze(e) => h.(frozen := true, freezeEpoch := e)
    case Unfreeze(_) => h.(frozen := false, freezeEpoch := 0)
  }

  function Records(write: Write): seq<Record> {
    match write
    case Commit(m, _) => [Record(m, FingerprintOf(m, false))]
    case Fold(m, _, _) => [Record(m, FingerprintOf(m, true))]
    case _ => []
  }

  function SnapshotHead(snap: Snapshot): Head {
    if snap.Loaded? then snap.head else INERT
  }

  /** The precondition of the PUT: create-only for a missing head, else the loaded version. */
  predicate Matches(w: World, ref: Ref, snap: Snapshot) {
    if snap.Missing? then ref !in w.heads else ref in w.heads && w.heads[ref].version == snap.version
  }

  predicate WriteTimesPast(write: Write, clock: Time) {
    match write
    case Commit(_, at) => at <= clock
    case Fold(_, now, at) => now <= at <= clock
    case Compact(now) => now <= clock
    case _ => true
  }

  function CatalogEffect(c: Catalog, change: CatalogWrite, version: nat): Catalog {
    match change
    case Enroll(r) => Catalog(version, c.entries + {r}, c.freezeEpoch)
    case FreezeCatalog(e) => Catalog(version, c.entries, e)
    case UnfreezeCatalog(_) => Catalog(version, c.entries, 0)
  }

  predicate CatalogAdmissible(c: Catalog, change: CatalogWrite) {
    match change
    case Enroll(r) => c.freezeEpoch == 0 && r !in c.entries
    case FreezeCatalog(e) => c.freezeEpoch == 0 && 0 < e
    case UnfreezeCatalog(e) => c.freezeEpoch == e
  }

  // ---------------------------------------------------------------- steps

  function Hist(w: World, ref: Ref): seq<Record> {
    if ref in w.history then w.history[ref] else []
  }

  predicate WriteAllowed(job: Job, ref: Ref, write: Write) {
    match write
    case Freeze(e) => job.Freezing? && job.epoch == e && ref in job.entries
    case Unfreeze(e) => job.Unfreezing? && job.epoch == e
    case _ => true
  }

  predicate CatalogWriteAllowed(x: Worker, cat: Catalog, change: CatalogWrite) {
    match change
    case Enroll(r) => x.io.HasHead? && x.io.ref == r && x.io.snap.Loaded?
    case FreezeCatalog(e) => x.job == FreezeStarted(e)
    case UnfreezeCatalog(e) => x.job.Unfreezing? && x.job.epoch == e && cat.entries <= x.job.done
  }

  /**
    * Identifiers are not submitted again once their own outcome has expired.
    * This is an assumption about callers: HeadReuse.ReuseAfterExpiryForgets
    * shows what happens without it.
    */
  ghost predicate NotResubmitted(hist: seq<Record>, write: Write, clock: Time) {
    (write.Commit? || write.Fold?) ==>
      forall i :: 0 <= i < |hist| && hist[i].m.id == write.m.id ==> clock < hist[i].m.retainUntil
  }

  ghost predicate Enabled(w: World, ev: Event) {
    match ev
    case Tick(to) => w.clock <= to
    case Arrive(f, _) => f in w.flights && FlightMatches(w, f)
    case Drop(f) => f in w.flights
    case Act(id, action) => id in w.workers && CanAct(w, w.workers[id], action)
  }

  predicate FlightMatches(w: World, f: Flight) {
    match f
    case HeadPut(_, ref, snap, _, _) => Matches(w, ref, snap)
    case CatalogPut(_, cat, _) => cat.version == w.catalog.version
  }

  ghost predicate CanAct(w: World, x: Worker, action: Action) {
    match action
    case LoadHead(_) => true
    case Send(write) =>
      && x.io.HasHead? && WriteAllowed(x.job, x.io.ref, write)
      && Admissible(x.io.snap, x.io.enrolled, write)
      && WriteTimesPast(write, w.clock)
      && (write.Commit? || write.Fold? ==> write.at == w.clock)
      && NotResubmitted(Hist(w, x.io.ref), write, w.clock)
    case Replay(m, materialized) =>
      && x.io.HasHead? && x.io.snap.Loaded?
      && Recorded(x.io.snap.head, m.id, w.clock).Some?
      && Recorded(x.io.snap.head, m.id, w.clock).value.fingerprint == FingerprintOf(m, materialized)
    case LoadCatalog => true
    case NoteEnrolled => x.io.HasHead? && x.cat.Some? && x.io.ref in x.cat.value.entries
    case SendCatalog(change) =>
      && x.cat.Some? && CatalogWriteAllowed(x, x.cat.value, change)
      && CatalogAdmissible(x.cat.value, change)
    case GiveUp => true
    case StartFreeze(e) => x.job.Client? && 0 < e
    case AdoptFreeze => x.job.FreezeStarted? && x.cat.Some? && x.cat.value.freezeEpoch == x.job.epoch
    case NoteFrozen =>
      && x.job.Freezing? && x.io.HasHead? && x.io.snap.Loaded?
      && x.io.snap.head.frozen && x.io.snap.head.freezeEpoch == x.job.epoch
    case ReturnFreeze => x.job.Freezing? && x.job.entries <= x.job.done
    case StartUnfreeze(e) => x.job.Client? && 0 < e
    case NoteThawed => x.job.Unfreezing? && x.io.HasHead? && x.io.snap.Loaded? && !x.io.snap.head.frozen
    case EndJob => true
  }

  ghost function Next(w: World, ev: Event): World
    requires Enabled(w, ev)
  {
    match ev
    case Tick(to) => w.(clock := to)
    case Arrive(f, answered) =>
      var applied := if f.HeadPut? then ApplyHead(w, f) else ApplyCatalog(w, f);
      if answered && Listening(w, f) then Notify(applied, f) else applied
    case Drop(f) => w.(flights := w.flights - {f})
    case Act(id, action) =>
      var x := w.workers[id];
      w.(workers := w.workers[id := Acted(w, id, x, action)],
         flights := w.flights + Sent(id, x, action),
         replies := w.replies + Replayed(w, x, action))
  }

  function ApplyHead(w: World, f: Flight): World
    requires f.HeadPut?
  {
    w.(flights := w.flights - {f},
       nextVersion := w.nextVersion + 1,
       heads := w.heads[f.ref := Stored(w.nextVersion, Effect(SnapshotHead(f.snap), f.write))],
       history := w.history[f.ref := Hist(w, f.ref) + Records(f.write)])
  }

  function ApplyCatalog(w: World, f: Flight): World
    requires f.CatalogPut?
  {
    w.(flights := w.flights - {f},
       nextVersion := w.nextVersion + 1,
       catalog := CatalogEffect(f.cat, f.change, w.nextVersion))
  }

  predicate Listening(w: World, f: Flight) {
    f.owner in w.workers && w.workers[f.owner].waiting == Some(f)
  }

  function Notify(w: World, f: Flight): World
    requires f.owner in w.workers
  {
    w.(workers := w.workers[f.owner := Answered(w.workers[f.owner], f)], replies := w.replies + Answers(f))
  }

  /** What the sender knows once it hears that its PUT succeeded. */
  function Answered(x: Worker, f: Flight): Worker {
    var y := x.(waiting := None);
    if f.HeadPut? && f.write.Freeze? && x.job.Freezing? && x.job.epoch == f.write.epoch then
      y.(job := Freezing(x.job.epoch, x.job.entries, x.job.done + {f.ref}))
    else if f.HeadPut? && f.write.Unfreeze? && x.job.Unfreezing? && x.job.epoch == f.write.epoch then
      y.(job := Unfreezing(x.job.epoch, x.job.done + {f.ref}))
    else if f.CatalogPut? && f.change.FreezeCatalog? && x.job == FreezeStarted(f.change.epoch) then
      y.(job := Freezing(f.change.epoch, f.cat.entries, {}), io := NoIo)
    else if f.CatalogPut? && f.change.Enroll? && x.io.HasHead? && x.io.ref == f.change.ref then
      y.(io := x.io.(enrolled := true))
    else if f.CatalogPut? && f.change.UnfreezeCatalog? && x.job.Unfreezing? && x.job.epoch == f.change.epoch then
      y.(job := Client)
    else y
  }

  /** The outcome that a successful mutation returns. */
  function Answers(f: Flight): set<Reply> {
    if f.HeadPut? && Records(f.write) != [] then
      var r := Records(f.write)[0];
      {Reply(f.ref, r.m.id, OutcomeOf(DeltaOf(r.m, r.fingerprint, SnapshotHead(f.snap).revision + 1)))}
    else {}
  }

  function Observe(w: World, ref: Ref): Snapshot {
    if ref in w.heads then Loaded(w.heads[ref].version, w.heads[ref].head) else Missing
  }

  function HeadFlight(id: WorkerId, x: Worker, write: Write): Flight
    requires x.io.HasHead?
  {
    HeadPut(id, x.io.ref, x.io.snap, x.io.enrolled, write)
  }

  ghost function Sent(id: WorkerId, x: Worker, action: Action): set<Flight>
    requires action.Send? ==> x.io.HasHead?
    requires action.SendCatalog? ==> x.cat.Some?
  {
    match action
    case Send(write) => {HeadFlight(id, x, write)}
    case SendCatalog(change) => {CatalogPut(id, x.cat.value, change)}
    case _ => {}
  }

  ghost function Replayed(w: World, x: Worker, action: Action): set<Reply>
    requires CanAct(w, x, action)
  {
    match action
    case Replay(m, _) => {Reply(x.io.ref, m.id, Recorded(x.io.snap.head, m.id, w.clock).value)}
    case _ => {}
  }

  ghost function Acted(w: World, id: WorkerId, x: Worker, action: Action): Worker
    requires CanAct(w, x, action)
  {
    match action
    case LoadHead(ref) =>
      x.(io := HasHead(ref, Observe(w, ref), x.io.HasHead? && x.io.ref == ref && x.io.enrolled))
    case Send(write) => x.(io := NoIo, waiting := Some(HeadFlight(id, x, write)))
    case Replay(_, _) => x.(io := NoIo)
    case LoadCatalog => x.(cat := Some(w.catalog))
    case NoteEnrolled => x.(io := HasHead(x.io.ref, x.io.snap, true))
    case SendCatalog(change) => x.(waiting := Some(CatalogPut(id, x.cat.value, change)))
    case GiveUp => x.(io := NoIo, waiting := None)
    case StartFreeze(e) => Worker(NoIo, None, None, FreezeStarted(e))
    case AdoptFreeze => Worker(NoIo, None, None, Freezing(x.job.epoch, x.cat.value.entries, {}))
    case NoteFrozen => x.(io := NoIo, job := Freezing(x.job.epoch, x.job.entries, x.job.done + {x.io.ref}))
    case ReturnFreeze => x.(job := FreezeReturned(x.job.epoch))
    case StartUnfreeze(e) => Worker(NoIo, None, None, Unfreezing(e, {}))
    case NoteThawed => x.(io := NoIo, job := Unfreezing(x.job.epoch, x.job.done + {x.io.ref}))
    case EndJob => IDLE
  }

  // ----------------------------------------------------------------- runs

  const IDLE := Worker(NoIo, None, None, Client)

  predicate Initial(w: World) {
    && w.heads == map[] && w.history == map[] && w.flights == {} && w.replies == {}
    && w.catalog == Catalog(0, {}, 0) && w.nextVersion == 1
    && forall id :: id in w.workers ==> w.workers[id] == IDLE
  }

  ghost predicate IsRun(ws: seq<World>, evs: seq<Event>) {
    && |ws| == |evs| + 1
    && forall i :: 0 <= i < |evs| ==> Enabled(ws[i], evs[i]) && ws[i + 1] == Next(ws[i], evs[i])
  }
}
