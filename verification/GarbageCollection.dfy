/**
  * Garbage collection of checkpoints: fresh, resumed and stale workers that list,
  * check the write gate, delete by version and record their progress, while other
  * writers and checkpoints go on. Each event is one atomic action of the object
  * store or of one process. Native versions are fresh, and a checkpoint identifier
  * is not used again.
  */
module GarbageCollection {
  import opened Basics

  type Id = nat

  type WorkerId = nat

  datatype Mode = Open | Closing | Closed

  datatype Gate = Gate(mode: Mode, epoch: nat, checkpoint: Id)

  /** The durable outcome of a closed checkpoint: what it reaches, and the garbage to delete, page by page. */
  datatype Plan = Plan(epoch: nat, inventory: set<Key>, pages: seq<set<Key>>)

  datatype Session = Session(version: nat, index: nat)

  /** A conditional delete on behalf of a checkpoint. */
  datatype Deletion = Deletion(id: Id, epoch: nat, key: Key, version: nat)

  datatype Job =
    | Idle
    | Building(id: Id, epoch: nat, looked: set<Key>, versions: map<Key, nat>)
    | Listing(id: Id, page: nat, session: Option<nat>, looked: set<Key>, versions: map<Key, nat>)
    | Deleting(id: Id, page: nat, session: Option<nat>, pending: set<Deletion>)
    | Done(id: Id)

  /** A delete that took effect, and the gate at that moment. */
  datatype Removal = Removal(deletion: Deletion, gate: Gate)

  /**
    * `seen`, `removed` and `reopened` only record what happened: the incarnations
    * that existed while a checkpoint's gate was closed, the deletes that took
    * effect, and the next version when a checkpoint's gate was reopened.
    */
  datatype World = World(
    gate: Gate, nextVersion: nat, objects: map<Key, nat>, plans: map<Id, Plan>, sessions: map<Id, Session>,
    jobs: map<WorkerId, Job>, flights: set<(WorkerId, Deletion)>,
    seen: set<Deletion>, removed: set<Removal>, reopened: map<Id, nat>)

  datatype Event =
    | Put(key: Key)
    | Remove(key: Key)
    | BeginClose(id: Id)
    | CancelClose
    | FinishClose
    | Build(w: WorkerId)
    | Look(w: WorkerId, key: Key)
    | Record(w: WorkerId, inventory: set<Key>, pages: seq<set<Key>>)
    | Begin(w: WorkerId, id: Id)
    | Check(w: WorkerId)
    | Arrive(owner: WorkerId, deletion: Deletion, answered: bool)
    | Drop(owner: WorkerId, deletion: Deletion)
    | Publish(w: WorkerId, answered: bool)
    | Crash(w: WorkerId)
    | Reopen(w: WorkerId)

  predicate Disjoint(inventory: set<Key>, pages: seq<set<Key>>) {
    forall i :: 0 <= i < |pages| ==> pages[i] !! inventory
  }

  ghost predicate Enabled(w: World, ev: Event) {
    match ev
    case Put(_) => true
    case Remove(_) => true
    case BeginClose(id) => w.gate.mode == Open && id !in w.plans
    case CancelClose => w.gate.mode == Closing
    case FinishClose => w.gate.mode == Closing
    case Build(x) => x in w.jobs && w.jobs[x].Idle? && w.gate.mode == Closed
    case Look(x, k) =>
      && x in w.jobs && (w.jobs[x].Building? || w.jobs[x].Listing?)
      && (w.jobs[x].Listing? && w.jobs[x].id in w.plans && w.jobs[x].page < |w.plans[w.jobs[x].id].pages| ==>
            k in w.plans[w.jobs[x].id].pages[w.jobs[x].page])
    case Record(x, inventory, pages) =>
      && x in w.jobs && w.jobs[x].Building? && 0 < |pages| && Disjoint(inventory, pages)
      && (forall i :: 0 <= i < |pages| ==> pages[i] <= w.jobs[x].looked)
      && (w.jobs[x].id in w.plans ==>
            w.plans[w.jobs[x].id] == Plan(w.jobs[x].epoch, inventory, pages))
    case Begin(x, id) => x in w.jobs && w.jobs[x].Idle? && id in w.plans
    case Check(x) =>
      && x in w.jobs && w.jobs[x].Listing? && w.jobs[x].id in w.plans
      && w.jobs[x].page < |w.plans[w.jobs[x].id].pages|
      && w.plans[w.jobs[x].id].pages[w.jobs[x].page] <= w.jobs[x].looked
      && (w.plans[w.jobs[x].id].pages[w.jobs[x].page] != {} ==> ClosedFor(w, w.jobs[x].id))
    case Arrive(o, d, _) => (o, d) in w.flights
    case Drop(o, d) => (o, d) in w.flights
    case Publish(x, _) => x in w.jobs && w.jobs[x].Deleting? && w.jobs[x].pending == {} && w.jobs[x].id in w.plans
    case Crash(x) => x in w.jobs
    case Reopen(x) => x in w.jobs && w.jobs[x].Done? && w.gate.mode == Closed && w.gate.checkpoint == w.jobs[x].id
  }

  /** verifyCheckpointGarbageGate: closed, at the epoch of this checkpoint, and for it. */
  predicate ClosedFor(w: World, id: Id) {
    id in w.plans && w.gate == Gate(Closed, w.plans[id].epoch, id)
  }

  function Planned(p: Plan): set<Key> {
    set i, k | 0 <= i < |p.pages| && k in p.pages[i] :: k
  }

  ghost function Step(w: World, ev: Event): World
    requires Enabled(w, ev)
  {
    match ev
    case Put(k) => w.(objects := w.objects[k := w.nextVersion], nextVersion := w.nextVersion + 1)
    case Remove(k) => w.(objects := w.objects - {k})
    case BeginClose(id) => w.(gate := Gate(Closing, w.gate.epoch, id))
    case CancelClose => w.(gate := Gate(Open, w.gate.epoch, 0))
    case FinishClose => w.(gate := Gate(Closed, w.gate.epoch, w.gate.checkpoint))
    case Build(x) => SetJob(w, x, Building(w.gate.checkpoint, w.gate.epoch, {}, map[]))
    case Look(x, k) => SetJob(w, x, Looked(w, w.jobs[x], k))
    case Record(x, inventory, pages) => Recorded(w, x, w.jobs[x], Plan(w.jobs[x].epoch, inventory, pages))
    case Begin(x, id) => SetJob(w, x, Started(w, id))
    case Check(x) => Checked(w, x, w.jobs[x])
    case Arrive(o, d, answered) =>
      var applied := if d.key in w.objects && w.objects[d.key] == d.version then
                       w.(objects := w.objects - {d.key}, removed := w.removed + {Removal(d, w.gate)})
                     else w;
      var gone := applied.(flights := w.flights - {(o, d)});
      if answered && o in w.jobs && w.jobs[o].Deleting? then
        SetJob(gone, o, w.jobs[o].(pending := w.jobs[o].pending - {d}))
      else gone
    case Drop(o, d) => w.(flights := w.flights - {(o, d)})
    case Publish(x, answered) => Published(w, x, w.jobs[x], answered)
    case Crash(x) => SetJob(w, x, Idle)
    case Reopen(x) =>
      SetJob(w, x, Idle).(gate := Gate(Open, w.gate.epoch + 1, 0), reopened := w.reopened[w.jobs[x].id := w.nextVersion])
  }

  function SetJob(w: World, x: WorkerId, job: Job): World {
    w.(jobs := w.jobs[x := job])
  }

  /** One listed key: its current version, or nothing when it is absent. */
  function Looked(w: World, job: Job, k: Key): Job
    requires job.Building? || job.Listing?
  {
    var versions := if k in w.objects then job.versions[k := w.objects[k]] else job.versions - {k};
    if job.Building? then Building(job.id, job.epoch, job.looked + {k}, versions)
    else Listing(job.id, job.page, job.session, job.looked + {k}, versions)
  }

  /** A builder publishes the plan, or finds that exact plan; with a single page it sweeps with the versions it listed. */
  function Recorded(w: World, x: WorkerId, job: Job, plan: Plan): World
    requires job.Building? && 0 < |plan.pages|
  {
    var w' := if job.id in w.plans then w else w.(plans := w.plans[job.id := plan]);
    if |plan.pages| == 1 then
      SetJob(w', x, Listing(job.id, 0, None, plan.pages[0], map k | k in job.versions && k in plan.pages[0] :: job.versions[k]))
    else SetJob(w', x, Idle)
  }

  /** A worker that resumes: it starts at the recorded page, and has nothing to do when all pages are done. */
  function Started(w: World, id: Id): Job
    requires id in w.plans
  {
    if id !in w.sessions then Advance(w.plans[id], id, 0, None)
    else Advance(w.plans[id], id, w.sessions[id].index, Some(w.sessions[id].version))
  }

  function Advance(plan: Plan, id: Id, page: nat, session: Option<nat>): Job {
    if page < |plan.pages| then Listing(id, page, session, {}, map[]) else Done(id)
  }

  /** After the gate check the deletes of one page are sent, each bound to the listed version. */
  function Checked(w: World, x: WorkerId, job: Job): World
    requires job.Listing? && job.id in w.plans && job.page < |w.plans[job.id].pages|
  {
    var plan := w.plans[job.id];
    var ds := set k | k in job.versions && k in plan.pages[job.page] :: Deletion(job.id, plan.epoch, k, job.versions[k]);
    SetJob(w, x, Deleting(job.id, job.page, job.session, ds)).(flights := w.flights + set d | d in ds :: (x, d))
  }

  /** publishCheckpointGarbagePlanSession: create or compare-and-swap, or adopt a winner that is as far. */
  function Published(w: World, x: WorkerId, job: Job, answered: bool): World
    requires job.Deleting? && job.id in w.plans
  {
    var plan, next := w.plans[job.id], job.page + 1;
    var mine := w.nextVersion;
    var wrote := w.(sessions := w.sessions[job.id := Session(mine, next)], nextVersion := w.nextVersion + 1);
    if job.session.None? && job.id in w.sessions then
      if next <= w.sessions[job.id].index then SetJob(w, x, Advance(plan, job.id, next, Some(w.sessions[job.id].version)))
      else SetJob(w, x, Idle)
    else if job.session.None? || (job.id in w.sessions && w.sessions[job.id].version == job.session.value) then
      SetJob(wrote, x, if answered then Advance(plan, job.id, next, Some(mine)) else Idle)
    else SetJob(w, x, Idle)
  }

  /** The incarnations that exist while the gate is closed. */
  function Current(w: World): set<Deletion> {
    if w.gate.mode == Closed then
      set k | k in w.objects :: Deletion(w.gate.checkpoint, w.gate.epoch, k, w.objects[k])
    else {}
  }

  ghost function Next(w: World, ev: Event): World
    requires Enabled(w, ev)
  {
    Observed(Step(w, ev))
  }

  /** While the gate is closed every incarnation that exists is noted. */
  function Observed(w: World): World {
    w.(seen := w.seen + Current(w))
  }

  predicate Initial(w: World) {
    && w.gate.mode == Open && w.plans == map[] && w.sessions == map[] && w.flights == {} && w.seen == {} && w.removed == {}
    && w.reopened == map[] && (forall x :: x in w.jobs ==> w.jobs[x] == Idle)
    && (forall k :: k in w.objects ==> w.objects[k] < w.nextVersion)
  }

  ghost predicate IsRun(ws: seq<World>, evs: seq<Event>) {
    && |ws| == |evs| + 1 && Initial(ws[0])
    && forall i :: 0 <= i < |evs| ==> Enabled(ws[i], evs[i]) && ws[i + 1] == Next(ws[i], evs[i])
  }
}
