/** What garbage collection keeps, over every run of its workers, of writers and of checkpoints. */
module GarbageSafety {
  import opened Basics
  import opened GarbageCollection

  // ------------------------------------------------------------- invariant

  /** Once a checkpoint has closed the gate at an epoch, it stays closed for it until the epoch has passed. */
  predicate Covers(w: World, id: Id, epoch: nat) {
    epoch <= w.gate.epoch && (epoch == w.gate.epoch ==> w.gate == Gate(Closed, epoch, id))
  }

  ghost predicate PlanOk(w: World, id: Id)
    requires id in w.plans
  {
    && Covers(w, id, w.plans[id].epoch) && Disjoint(w.plans[id].inventory, w.plans[id].pages)
    && (w.gate.mode != Open && w.gate.checkpoint == id ==> w.gate == Gate(Closed, w.plans[id].epoch, id))
  }

  /** A delete names garbage of its checkpoint, in an incarnation that existed while the gate was closed. */
  ghost predicate DeletionOk(w: World, d: Deletion) {
    d.id in w.plans && d.epoch == w.plans[d.id].epoch && d.key in Planned(w.plans[d.id]) && d in w.seen
  }

  /** Listed versions existed while the gate was closed, unless it has been reopened since. */
  ghost predicate VersionsOk(w: World, id: Id, epoch: nat, versions: map<Key, nat>) {
    forall k :: k in versions ==> epoch < w.gate.epoch || Deletion(id, epoch, k, versions[k]) in w.seen
  }

  ghost predicate JobOk(w: World, job: Job) {
    match job
    case Idle => true
    case Building(id, epoch, looked, versions) =>
      && Covers(w, id, epoch) && (epoch < w.gate.epoch ==> id in w.plans)
      && (id in w.plans ==> w.plans[id].epoch == epoch)
      && VersionsOk(w, id, epoch, versions) && versions.Keys <= looked
    case Listing(id, page, _, looked, versions) =>
      && id in w.plans && page < |w.plans[id].pages| && looked <= w.plans[id].pages[page]
      && VersionsOk(w, id, w.plans[id].epoch, versions) && versions.Keys <= looked
    case Deleting(id, page, _, pending) =>
      && id in w.plans && page < |w.plans[id].pages|
      && forall d :: d in pending ==> DeletionOk(w, d) && d.id == id
    case Done(id) => id in w.plans
  }

  ghost predicate ReopenedOk(w: World, id: Id)
    requires id in w.reopened
  {
    id in w.plans && w.plans[id].epoch < w.gate.epoch && w.reopened[id] <= w.nextVersion
  }

  ghost predicate SeenOk(w: World, d: Deletion) {
    && d.version < w.nextVersion && (d.id in w.reopened ==> d.version < w.reopened[d.id])
    && (d.id in w.plans ==> d.epoch == w.plans[d.id].epoch) && Covers(w, d.id, d.epoch)
    && (d.epoch < w.gate.epoch ==> d.id in w.plans)
  }

  ghost predicate Inv(w: World) {
    && (forall id :: id in w.plans ==> PlanOk(w, id))
    && (forall id :: id in w.reopened ==> ReopenedOk(w, id))
    && (forall k :: k in w.objects ==> w.objects[k] < w.nextVersion)
    && (forall d :: d in w.seen ==> SeenOk(w, d))
    && Current(w) <= w.seen
    && (forall x :: x in w.jobs ==> JobOk(w, w.jobs[x]))
    && (forall f :: f in w.flights ==> DeletionOk(w, f.1))
    && (forall r :: r in w.removed ==> DeletionOk(w, r.deletion))
  }

  // -------------------------------------------------------------- stability

  /** How worlds follow one another: plans are permanent, the gate epoch rises, and closed periods do not resume. */
  ghost predicate Later(w: World, w': World) {
    && w.nextVersion <= w'.nextVersion && w.seen <= w'.seen && w.gate.epoch <= w'.gate.epoch
    && (forall id :: id in w.plans ==> id in w'.plans && w'.plans[id] == w.plans[id])
    && (forall id, e :: Covers(w, id, e) ==> Covers(w', id, e))
  }

  lemma {:induction false} DeletionStable(w: World, w': World, d: Deletion)
    requires DeletionOk(w, d) && Later(w, w')
    ensures DeletionOk(w', d)
  {
  }

  /** A job stays good when no plan was made for the checkpoint that it builds, other than at its own epoch. */
  lemma {:induction false} JobStable(w: World, w': World, job: Job)
    requires JobOk(w, job) && Later(w, w')
    requires job.Building? ==>
               && (job.epoch < w'.gate.epoch ==> job.id in w'.plans)
               && (job.id in w'.plans ==> w'.plans[job.id].epoch == job.epoch)
    ensures JobOk(w', job)
  {
    match job
    case Building(id, epoch, _, versions) => assert Covers(w', id, epoch);
    case Deleting(_, _, _, pending) =>
      forall d | d in pending ensures DeletionOk(w', d) { DeletionStable(w, w', d); }
    case _ =>
  }

  lemma {:induction false} InitialOk(w: World)
    requires Initial(w)
    ensures Inv(w)
  {
  }

  lemma {:induction false} SeenStable(w: World, w': World, d: Deletion)
    requires SeenOk(w, d) && Later(w, w')
    requires forall id :: id in w'.reopened ==> (id in w.reopened && w'.reopened[id] == w.reopened[id]) || w'.reopened[id] == w.nextVersion
    requires d.id in w'.plans ==> d.epoch == w'.plans[d.id].epoch
    requires d.epoch < w'.gate.epoch ==> d.id in w'.plans
    ensures SeenOk(w', d)
  {
    assert Covers(w', d.id, d.epoch);
  }

  lemma {:induction false} CurrentOk(w: World, d: Deletion)
    requires d in Current(w) && (forall k :: k in w.objects ==> w.objects[k] < w.nextVersion)
    requires d.id in w.plans ==> PlanOk(w, d.id)
    requires d.id in w.reopened ==> ReopenedOk(w, d.id)
    ensures SeenOk(w, d)
  {
  }

  /** Gate events need a reason why no builder or incarnation is left behind without a plan. */
  ghost predicate Bound(w: World, id: Id, epoch: nat) {
    (epoch < w.gate.epoch ==> id in w.plans) && (id in w.plans ==> w.plans[id].epoch == epoch)
  }

  /** The shared part of every preservation proof. */
  lemma {:induction false} Frame(w: World, w': World)
    requires Inv(w) && Later(w, w') && w'.seen == w.seen + Current(w')
    requires forall id :: id in w'.plans ==> PlanOk(w', id)
    requires forall id :: id in w'.reopened ==> ReopenedOk(w', id)
    requires forall id :: id in w'.reopened ==> (id in w.reopened && w'.reopened[id] == w.reopened[id]) || w'.reopened[id] == w.nextVersion
    requires forall k :: k in w'.objects ==> w'.objects[k] < w'.nextVersion
    requires forall d :: d in w.seen ==> Bound(w', d.id, d.epoch)
    requires forall x :: x in w.jobs && w.jobs[x].Building? ==> Bound(w', w.jobs[x].id, w.jobs[x].epoch)
    requires forall x :: x in w'.jobs ==> (x in w.jobs && w'.jobs[x] == w.jobs[x]) || JobOk(w', w'.jobs[x])
    requires forall f :: f in w'.flights ==> f in w.flights || DeletionOk(w', f.1)
    requires forall r :: r in w'.removed ==> r in w.removed || DeletionOk(w', r.deletion)
    ensures Inv(w')
  {
    hide JobOk, DeletionOk, SeenOk, PlanOk, ReopenedOk, Current, Later;
    forall d | d in w'.seen ensures SeenOk(w', d) {
      if d in w.seen { SeenStable(w, w', d); } else { CurrentOk(w', d); }
    }
    forall x | x in w'.jobs ensures JobOk(w', w'.jobs[x]) {
      if x in w.jobs && w'.jobs[x] == w.jobs[x] { JobStable(w, w', w.jobs[x]); }
    }
    forall f | f in w'.flights ensures DeletionOk(w', f.1) { if f in w.flights { DeletionStable(w, w', f.1); } }
    forall r | r in w'.removed ensures DeletionOk(w', r.deletion) { if r in w.removed { DeletionStable(w, w', r.deletion); } }
  }

  /** While the gate and the plans stay as they are, everything that was bound stays bound. */
  lemma {:induction false} SameGate(w: World, w': World)
    requires Inv(w) && w'.gate == w.gate && w'.plans == w.plans && w'.reopened == w.reopened
    requires w.nextVersion <= w'.nextVersion && w.seen <= w'.seen
    ensures Later(w, w')
    ensures forall id :: id in w'.plans ==> PlanOk(w', id)
    ensures forall id :: id in w'.reopened ==> ReopenedOk(w', id)
    ensures forall d :: d in w.seen ==> Bound(w', d.id, d.epoch)
    ensures forall x :: x in w.jobs && w.jobs[x].Building? ==> Bound(w', w.jobs[x].id, w.jobs[x].epoch)
  {
    forall id | id in w'.plans ensures PlanOk(w', id) { assert PlanOk(w, id); }
    forall id | id in w'.reopened ensures ReopenedOk(w', id) { assert ReopenedOk(w, id); }
    forall d | d in w.seen ensures Bound(w', d.id, d.epoch) { assert SeenOk(w, d); }
    forall x | x in w.jobs && w.jobs[x].Building? ensures Bound(w', w.jobs[x].id, w.jobs[x].epoch) { assert JobOk(w, w.jobs[x]); }
  }

  /** An event that leaves the gate and the plans alone and changes at most one job. */
  ghost predicate Local(w: World, w': World, x: WorkerId) {
    && w'.gate == w.gate && w'.plans == w.plans && w'.reopened == w.reopened && w.nextVersion <= w'.nextVersion
    && w'.seen == w.seen + Current(w')
    && (forall y :: y in w'.jobs && y != x ==> y in w.jobs && w'.jobs[y] == w.jobs[y])
    && (forall k :: k in w'.objects ==> k in w.objects && w'.objects[k] == w.objects[k])
  }

  lemma {:induction false} LocalKeeps(w: World, w': World, x: WorkerId)
    requires Inv(w) && Local(w, w', x) && (x in w'.jobs ==> JobOk(w', w'.jobs[x]) || (x in w.jobs && w'.jobs[x] == w.jobs[x]))
    requires forall f :: f in w'.flights ==> f in w.flights || DeletionOk(w', f.1)
    requires forall r :: r in w'.removed ==> r in w.removed || DeletionOk(w', r.deletion)
    ensures Inv(w') && Later(w, w')
  {
    hide Bound, PlanOk, ReopenedOk, SeenOk, JobOk, DeletionOk, Current;
    SameGate(w, w');
    Frame(w, w');
  }

  // ------------------------------------------------------------------ events

  lemma {:induction false} ObjectEventKeeps(w: World, ev: Event)
    requires Inv(w) && Enabled(w, ev) && (ev.Put? || ev.Remove? || ev.Drop? || ev.Crash?)
    ensures Inv(Next(w, ev)) && Later(w, Next(w, ev))
  {
    hide Bound, PlanOk, ReopenedOk, DeletionOk, SeenOk, Later;
    var w' := Next(w, ev);
    SameGate(w, w');
    Frame(w, w');
  }

  lemma {:induction false} AnsweredOk(w: World, w': World, job: Job, d: Deletion)
    requires JobOk(w, job) && job.Deleting? && Later(w, w')
    ensures JobOk(w', job.(pending := job.pending - {d}))
  {
    JobStable(w, w', job);
  }

  lemma {:induction false} ArriveShape(w: World, o: WorkerId, d: Deletion, answered: bool)
    requires Enabled(w, Arrive(o, d, answered))
    ensures var w' := Next(w, Arrive(o, d, answered));
            && Local(w, w', o) && w'.flights <= w.flights
            && (forall r :: r in w'.removed ==> r in w.removed || r.deletion == d)
            && (o in w'.jobs ==>
                  o in w.jobs && (w'.jobs[o] == w.jobs[o] ||
                                  (w.jobs[o].Deleting? && w'.jobs[o] == w.jobs[o].(pending := w.jobs[o].pending - {d}))))
  {
  }

  lemma {:induction false} SameGateLater(w: World, w': World)
    requires w'.gate == w.gate && w'.plans == w.plans && w.nextVersion <= w'.nextVersion && w.seen <= w'.seen
    ensures Later(w, w')
  {
  }

  lemma {:induction false} ArriveKeeps(w: World, o: WorkerId, d: Deletion, answered: bool)
    requires Inv(w) && Enabled(w, Arrive(o, d, answered))
    ensures Inv(Next(w, Arrive(o, d, answered))) && Later(w, Next(w, Arrive(o, d, answered)))
  {
    assert DeletionOk(w, (o, d).1);
    ArriveShape(w, o, d, answered);
    var w' := Next(w, Arrive(o, d, answered));
    hide Next, JobOk, DeletionOk, Later;
    SameGateLater(w, w');
    DeletionStable(w, w', d);
    if o in w'.jobs && w'.jobs[o] != w.jobs[o] { AnsweredOk(w, w', w.jobs[o], d); }
    LocalKeeps(w, w', o);
  }

  lemma {:induction false} GateEventKeeps(w: World, ev: Event)
    requires Inv(w) && Enabled(w, ev) && (ev.BeginClose? || ev.CancelClose? || ev.FinishClose?)
    ensures Inv(Next(w, ev)) && Later(w, Next(w, ev))
  {
    var w' := Next(w, ev);
    forall id, e | Covers(w, id, e) ensures Covers(w', id, e) { }
    forall id | id in w'.plans ensures PlanOk(w', id) { assert PlanOk(w, id); assert Covers(w', id, w.plans[id].epoch); }
    forall id | id in w'.reopened ensures ReopenedOk(w', id) { assert ReopenedOk(w, id); }
    forall d | d in w.seen ensures Bound(w', d.id, d.epoch) { assert SeenOk(w, d); }
    forall x | x in w.jobs && w.jobs[x].Building? ensures Bound(w', w.jobs[x].id, w.jobs[x].epoch) { assert JobOk(w, w.jobs[x]); }
    Frame(w, w');
  }

  lemma {:induction false} ReopenKeeps(w: World, x: WorkerId)
    requires Inv(w) && Enabled(w, Reopen(x))
    ensures Inv(Next(w, Reopen(x))) && Later(w, Next(w, Reopen(x)))
  {
    var w' := Next(w, Reopen(x));
    var id := w.jobs[x].id;
    assert JobOk(w, w.jobs[x]) && PlanOk(w, id);
    forall i, e | Covers(w, i, e) ensures Covers(w', i, e) { }
    forall i | i in w'.plans ensures PlanOk(w', i) { assert PlanOk(w, i); }
    forall i | i in w'.reopened ensures ReopenedOk(w', i) { if i != id { assert ReopenedOk(w, i); } }
    forall d | d in w.seen ensures Bound(w', d.id, d.epoch) { assert SeenOk(w, d); }
    forall y | y in w.jobs && w.jobs[y].Building? ensures Bound(w', w.jobs[y].id, w.jobs[y].epoch) { assert JobOk(w, w.jobs[y]); }
    Frame(w, w');
  }

  lemma {:induction false} LookedOk(w: World, w': World, job: Job, k: Key)
    requires Inv(w) && JobOk(w, job) && (job.Building? || job.Listing?) && Later(w, w')
    requires w'.gate == w.gate && w'.plans == w.plans && Current(w) <= w'.seen
    requires job.Listing? ==> k in w.plans[job.id].pages[job.page]
    ensures JobOk(w', Looked(w, job, k))
  {
    var epoch := if job.Building? then job.epoch else w.plans[job.id].epoch;
    assert Covers(w, job.id, epoch) by { if job.Listing? { assert PlanOk(w, job.id); } }
    var next := Looked(w, job, k).versions;
    forall j | j in next ensures epoch < w'.gate.epoch || Deletion(job.id, epoch, j, next[j]) in w'.seen {
      if j == k { assert epoch == w.gate.epoch ==> Deletion(job.id, epoch, k, w.objects[k]) in Current(w); }
      else { assert j in job.versions; }
    }
  }

  lemma {:induction false} ObservedCurrent(w: World)
    ensures Observed(w).seen == w.seen + Current(Observed(w))
  {
  }

  /** An event that only gives a worker another job. */
  lemma {:induction false} JobSetKeeps(w: World, x: WorkerId, job: Job)
    requires Inv(w) && JobOk(Observed(SetJob(w, x, job)), job)
    ensures var w' := Observed(SetJob(w, x, job)); Inv(w') && Later(w, w')
  {
    hide Inv, JobOk, Later, DeletionOk;
    LocalKeeps(w, Observed(SetJob(w, x, job)), x);
  }

  lemma {:induction false} BuildKeeps(w: World, x: WorkerId)
    requires Inv(w) && Enabled(w, Build(x))
    ensures Inv(Next(w, Build(x))) && Later(w, Next(w, Build(x)))
  {
    var job := Building(w.gate.checkpoint, w.gate.epoch, {}, map[]);
    assert Next(w, Build(x)) == Observed(SetJob(w, x, job));
    hide Next, Enabled, Later, DeletionOk, SeenOk, ReopenedOk, Current;
    if w.gate.checkpoint in w.plans { assert PlanOk(w, w.gate.checkpoint); }
    assert JobOk(Observed(SetJob(w, x, job)), job);
    hide Inv, JobOk;
    JobSetKeeps(w, x, job);
  }

  lemma {:induction false} LookIs(w: World, x: WorkerId, k: Key)
    requires Enabled(w, Look(x, k))
    ensures x in w.jobs && (w.jobs[x].Building? || w.jobs[x].Listing?)
    ensures Next(w, Look(x, k)) == Observed(SetJob(w, x, Looked(w, w.jobs[x], k)))
    ensures w.jobs[x].Listing? && w.jobs[x].id in w.plans && w.jobs[x].page < |w.plans[w.jobs[x].id].pages| ==>
              k in w.plans[w.jobs[x].id].pages[w.jobs[x].page]
  {
    hide Observed, SetJob, Looked;
  }

  lemma {:induction false} LookKeeps(w: World, x: WorkerId, k: Key)
    requires Inv(w) && Enabled(w, Look(x, k))
    ensures Inv(Next(w, Look(x, k))) && Later(w, Next(w, Look(x, k)))
  {
    hide Next, Enabled, Later, DeletionOk, SeenOk, ReopenedOk, PlanOk, Looked, Current;
    LookIs(w, x, k);
    var w' := Observed(SetJob(w, x, Looked(w, w.jobs[x], k)));
    assert JobOk(w, w.jobs[x]);
    SameGateLater(w, w');
    LookedOk(w, w', w.jobs[x], k);
    hide Inv, JobOk;
    JobSetKeeps(w, x, Looked(w, w.jobs[x], k));
  }

  lemma {:induction false} BeginIs(w: World, x: WorkerId, id: Id) returns (page: nat, session: Option<nat>)
    requires Enabled(w, Begin(x, id))
    ensures id in w.plans && x in w.jobs
    ensures Next(w, Begin(x, id)) == Observed(SetJob(w, x, Advance(w.plans[id], id, page, session)))
    ensures if id in w.sessions then page == w.sessions[id].index else page == 0
  {
    hide Observed, SetJob, Advance;
    page := if id in w.sessions then w.sessions[id].index else 0;
    session := if id in w.sessions then Some(w.sessions[id].version) else None;
  }

  lemma {:induction false} BeginKeeps(w: World, x: WorkerId, id: Id)
    requires Inv(w) && Enabled(w, Begin(x, id))
    ensures Inv(Next(w, Begin(x, id))) && Later(w, Next(w, Begin(x, id)))
  {
    hide Next, Enabled, Inv, JobOk, Later, Advance, Current;
    var page, session := BeginIs(w, x, id);
    var job := Advance(w.plans[id], id, page, session);
    AdvanceOk(Observed(SetJob(w, x, job)), id, page, session);
    JobSetKeeps(w, x, job);
  }

  lemma {:induction false} PlannedPage(p: Plan, i: nat, k: Key)
    requires i < |p.pages| && k in p.pages[i]
    ensures k in Planned(p)
  {
  }

  /** The gate check is what makes the listed versions those of the closed period. */
  lemma {:induction false} CheckKeeps(w: World, x: WorkerId)
    requires Inv(w) && Enabled(w, Check(x))
    ensures Inv(Next(w, Check(x))) && Later(w, Next(w, Check(x)))
  {
    var w' := Next(w, Check(x));
    SameGate(w, w');
    var job := w.jobs[x];
    var plan := w.plans[job.id];
    assert JobOk(w, job);
    forall d | d in w'.jobs[x].pending ensures DeletionOk(w', d) && d.id == job.id {
      PlannedPage(plan, job.page, d.key);
    }
    assert JobOk(w', w'.jobs[x]);
    Frame(w, w');
  }

  lemma {:induction false} AdvanceOk(w: World, id: Id, page: nat, session: Option<nat>)
    requires id in w.plans
    ensures JobOk(w, Advance(w.plans[id], id, page, session)) && JobOk(w, Idle)
  {
  }

  lemma {:induction false} PublishIs(w: World, x: WorkerId, answered: bool)
    requires Enabled(w, Publish(x, answered))
    ensures x in w.jobs && w.jobs[x].Deleting? && w.jobs[x].pending == {} && w.jobs[x].id in w.plans
    ensures Next(w, Publish(x, answered)) == Observed(Published(w, x, w.jobs[x], answered))
  {
    hide Observed, Published;
  }

  lemma {:induction false} PublishShape(w: World, x: WorkerId, answered: bool) returns (session: Option<nat>)
    requires Enabled(w, Publish(x, answered))
    ensures var w', job := Next(w, Publish(x, answered)), w.jobs[x];
            && Local(w, w', x) && w'.flights == w.flights && w'.removed == w.removed && x in w'.jobs
            && (forall id :: id in w'.sessions ==>
                  (id in w.sessions && w'.sessions[id] == w.sessions[id]) || (id == job.id && w'.sessions[id].index == job.page + 1))
            && (w'.jobs[x] == Idle || w'.jobs[x] == Advance(w.plans[job.id], job.id, job.page + 1, session))
  {
    hide Next, Enabled, Advance, Current;
    PublishIs(w, x, answered);
    var job := w.jobs[x];
    ObservedCurrent(Published(w, x, job, answered));
    session := if job.session.None? && job.id in w.sessions then Some(w.sessions[job.id].version) else Some(w.nextVersion);
  }

  lemma {:induction false} PublishKeeps(w: World, x: WorkerId, answered: bool)
    requires Inv(w) && Enabled(w, Publish(x, answered))
    ensures Inv(Next(w, Publish(x, answered))) && Later(w, Next(w, Publish(x, answered)))
  {
    var session := PublishShape(w, x, answered);
    var w', job := Next(w, Publish(x, answered)), w.jobs[x];
    hide Next, JobOk, DeletionOk, Later, Advance;
    AdvanceOk(w', job.id, job.page + 1, session);
    LocalKeeps(w, w', x);
  }

  /** A builder records its plan while the gate is still closed for it, unless the plan is there already. */
  lemma {:induction false} RecordPlans(w: World, w': World, x: WorkerId, plan: Plan)
    requires Inv(w) && x in w.jobs && w.jobs[x].Building? && plan.epoch == w.jobs[x].epoch && Disjoint(plan.inventory, plan.pages)
    requires w'.gate == w.gate && w'.reopened == w.reopened && w.nextVersion == w'.nextVersion && w.seen <= w'.seen
    requires w'.plans == if w.jobs[x].id in w.plans then w.plans else w.plans[w.jobs[x].id := plan]
    ensures Later(w, w')
    ensures forall id :: id in w'.plans ==> PlanOk(w', id)
    ensures forall id :: id in w'.reopened ==> ReopenedOk(w', id)
    ensures forall d :: d in w.seen ==> Bound(w', d.id, d.epoch)
    ensures forall y :: y in w.jobs && w.jobs[y].Building? ==> Bound(w', w.jobs[y].id, w.jobs[y].epoch)
  {
    assert JobOk(w, w.jobs[x]);
    forall id | id in w'.plans ensures PlanOk(w', id) { if id in w.plans { assert PlanOk(w, id); } }
    forall id | id in w'.reopened ensures ReopenedOk(w', id) { assert ReopenedOk(w, id); }
    forall d | d in w.seen ensures Bound(w', d.id, d.epoch) { assert SeenOk(w, d); }
    forall y | y in w.jobs && w.jobs[y].Building? ensures Bound(w', w.jobs[y].id, w.jobs[y].epoch) { assert JobOk(w, w.jobs[y]); }
  }

  lemma {:induction false} RecordedJobOk(w: World, w': World, job: Job, plan: Plan)
    requires JobOk(w, job) && job.Building? && Later(w, w') && w'.gate == w.gate && job.id in w'.plans
    requires w'.plans[job.id].epoch == job.epoch && w'.plans[job.id].pages == plan.pages && |plan.pages| == 1
    ensures JobOk(w', Listing(job.id, 0, None, plan.pages[0], map k | k in job.versions && k in plan.pages[0] :: job.versions[k]))
  {
  }

  lemma {:induction false} RecordShape(w: World, x: WorkerId, inventory: set<Key>, pages: seq<set<Key>>)
    requires Enabled(w, Record(x, inventory, pages))
    ensures var w', job, plan := Next(w, Record(x, inventory, pages)), w.jobs[x], Plan(w.jobs[x].epoch, inventory, pages);
            && w'.gate == w.gate && w'.reopened == w.reopened && w'.nextVersion == w.nextVersion && w'.objects == w.objects
            && w'.flights == w.flights && w'.removed == w.removed && w'.seen == w.seen + Current(w')
            && w'.plans == (if job.id in w.plans then w.plans else w.plans[job.id := plan]) && job.id in w'.plans && w'.plans[job.id] == plan
            && w'.jobs == w.jobs[x := w'.jobs[x]] && w'.sessions == w.sessions
            && w'.jobs[x] == if |pages| == 1 then Listing(job.id, 0, None, pages[0], map k | k in job.versions && k in pages[0] :: job.versions[k])
                             else Idle
  {
    hide Next, Enabled, Current, Disjoint;
    RecordIs(w, x, inventory, pages);
    ObservedCurrent(Recorded(w, x, w.jobs[x], Plan(w.jobs[x].epoch, inventory, pages)));
  }

  lemma {:induction false} RecordIs(w: World, x: WorkerId, inventory: set<Key>, pages: seq<set<Key>>)
    requires Enabled(w, Record(x, inventory, pages))
    ensures x in w.jobs && w.jobs[x].Building? && 0 < |pages|
    ensures Next(w, Record(x, inventory, pages)) == Observed(Recorded(w, x, w.jobs[x], Plan(w.jobs[x].epoch, inventory, pages)))
    ensures w.jobs[x].id in w.plans ==> w.plans[w.jobs[x].id] == Plan(w.jobs[x].epoch, inventory, pages)
  {
    hide Observed, Recorded, Disjoint;
  }

  lemma {:induction false} RecordKeeps(w: World, x: WorkerId, inventory: set<Key>, pages: seq<set<Key>>)
    requires Inv(w) && Enabled(w, Record(x, inventory, pages))
    ensures Inv(Next(w, Record(x, inventory, pages))) && Later(w, Next(w, Record(x, inventory, pages)))
  {
    RecordShape(w, x, inventory, pages);
    var w', job, plan := Next(w, Record(x, inventory, pages)), w.jobs[x], Plan(w.jobs[x].epoch, inventory, pages);
    assert JobOk(w, job);
    hide Next, Bound, PlanOk, ReopenedOk, SeenOk, Later, JobOk, DeletionOk, Current;
    RecordPlans(w, w', x, plan);
    if |pages| == 1 { RecordedJobOk(w, w', job, plan); }
    AdvanceOk(w', job.id, 0, None);
    Frame(w, w');
  }

  lemma {:induction false} StepKeeps(w: World, ev: Event)
    requires Inv(w) && Enabled(w, ev)
    ensures Inv(Next(w, ev)) && Later(w, Next(w, ev))
  {
    match ev
    case Record(x, inventory, pages) => RecordKeeps(w, x, inventory, pages);
    case Check(x) => CheckKeeps(w, x);
    case Publish(x, answered) => PublishKeeps(w, x, answered);
    case Reopen(x) => ReopenKeeps(w, x);
    case Build(x) => BuildKeeps(w, x);
    case Look(x, k) => LookKeeps(w, x, k);
    case Begin(x, id) => BeginKeeps(w, x, id);
    case BeginClose(_) => GateEventKeeps(w, ev);
    case CancelClose => GateEventKeeps(w, ev);
    case FinishClose => GateEventKeeps(w, ev);
    case Arrive(o, d, answered) => ArriveKeeps(w, o, d, answered);
    case _ => ObjectEventKeeps(w, ev);
  }

  // ---------------------------------------------------------------- theorems

  lemma {:induction false} RunKeeps(ws: seq<World>, evs: seq<Event>, n: nat)
    requires IsRun(ws, evs) && n < |ws|
    ensures Inv(ws[n])
  {
    if n == 0 {
      InitialOk(ws[0]);
    } else {
      RunKeeps(ws, evs, n - 1);
      StepKeeps(ws[n - 1], evs[n - 1]);
    }
  }

  /**
    * Whatever workers do, fresh, resumed or stale, a delete that takes effect removes
    * an object that its checkpoint does not reach, in an incarnation that existed
    * while that checkpoint's gate was closed. An object written after the gate was
    * reopened is never removed.
    */
  lemma {:induction false} OnlyClosedGarbageIsRemoved(ws: seq<World>, evs: seq<Event>, n: nat, r: Removal)
    requires IsRun(ws, evs) && n < |ws| && r in ws[n].removed
    ensures var w, d := ws[n], r.deletion;
            && d.id in w.plans && d.key in Planned(w.plans[d.id]) && d.key !in w.plans[d.id].inventory
            && d in w.seen && d.epoch == w.plans[d.id].epoch
            && (d.id in w.reopened ==> d.version < w.reopened[d.id])
  {
    RunKeeps(ws, evs, n);
    var w, d := ws[n], r.deletion;
    assert DeletionOk(w, d) && SeenOk(w, d) && PlanOk(w, d.id);
  }

  // ----------------------------------------------- the same, of objects alone

  /** An object that nobody writes or removes goes only when a delete bound to its version takes effect. */
  lemma {:induction false} StepObjects(w: World, ev: Event, k: Key)
    requires Enabled(w, ev) && k in w.objects && !(ev.Put? && ev.key == k) && !(ev.Remove? && ev.key == k)
    ensures var w' := Next(w, ev);
            if ev.Arrive? && ev.deletion.key == k && ev.deletion.version == w.objects[k] then
              k !in w'.objects && Removal(ev.deletion, w.gate) in w'.removed
            else k in w'.objects && w'.objects[k] == w.objects[k]
  {
    hide Current, Disjoint;
  }

  /** Every incarnation that was noted existed at some time while the gate was closed for its checkpoint. */
  lemma {:induction false} SeenIsPast(ws: seq<World>, evs: seq<Event>, n: nat, d: Deletion) returns (i: nat)
    requires IsRun(ws, evs) && n < |ws| && d in ws[n].seen
    ensures i <= n && ws[i].gate == Gate(Closed, d.epoch, d.id) && d.key in ws[i].objects && ws[i].objects[d.key] == d.version
    decreases n
  {
    hide Step, Enabled;
    i := n;
    if 0 < n && d in ws[n - 1].seen { i := SeenIsPast(ws, evs, n - 1, d); } else if 0 < n { SeenNow(ws[n - 1], evs[n - 1], d); }
  }

  lemma {:induction false} SeenNow(w: World, ev: Event, d: Deletion)
    requires Enabled(w, ev) && d in Next(w, ev).seen && d !in w.seen
    ensures d in Current(Next(w, ev))
  {
    hide Current, Disjoint;
    assert Step(w, ev).seen == w.seen;
    ObservedCurrent(Step(w, ev));
  }

  lemma {:induction false} RunLater(ws: seq<World>, evs: seq<Event>, i: nat, j: nat)
    requires IsRun(ws, evs) && i <= j < |ws|
    ensures ws[i].nextVersion <= ws[j].nextVersion && ws[i].gate.epoch <= ws[j].gate.epoch
    ensures forall id :: id in ws[i].plans ==> id in ws[j].plans && ws[j].plans[id] == ws[i].plans[id]
    decreases j
  {
    hide Inv, Next, Enabled, Initial;
    if i < j {
      RunLater(ws, evs, i, j - 1);
      RunKeeps(ws, evs, j - 1);
      StepKeeps(ws[j - 1], evs[j - 1]);
    }
  }

  /**
    * Whatever disappears without being written or removed was garbage of a checkpoint that
    * does not reach it, and that very incarnation existed while the gate was closed for
    * that checkpoint.
    */
  lemma {:induction false} OnlyClosedGarbageDisappears(ws: seq<World>, evs: seq<Event>, n: nat, k: Key) returns (d: Deletion, i: nat)
    requires IsRun(ws, evs) && n < |evs| && k in ws[n].objects && !(k in ws[n + 1].objects && ws[n + 1].objects[k] == ws[n].objects[k])
    requires evs[n] != Put(k) && evs[n] != Remove(k)
    ensures evs[n].Arrive? && evs[n].deletion == d && d.key == k && d.version == ws[n].objects[k]
    ensures d.id in ws[n].plans && k in Planned(ws[n].plans[d.id]) && k !in ws[n].plans[d.id].inventory
    ensures i <= n && ws[i].gate == Gate(Closed, ws[n].plans[d.id].epoch, d.id) && k in ws[i].objects && ws[i].objects[k] == ws[n].objects[k]
  {
    hide Next, Enabled, Initial;
    StepObjects(ws[n], evs[n], k);
    d := evs[n].deletion;
    RunKeeps(ws, evs, n);
    FlightIsOk(ws[n], evs[n]);
    i := SeenIsPast(ws, evs, n, d);
  }

  lemma {:induction false} FlightIsOk(w: World, ev: Event)
    requires Inv(w) && ev.Arrive? && Enabled(w, ev)
    ensures var d := ev.deletion; DeletionOk(w, d) && d.key !in w.plans[d.id].inventory
  {
    assert DeletionOk(w, (ev.owner, ev.deletion).1);
    assert PlanOk(w, ev.deletion.id);
  }

  /** A checkpoint's deletes never take an object that was written after its gate was reopened. */
  lemma {:induction false} NewObjectsSurvive(ws: seq<World>, evs: seq<Event>, m: nat, x: WorkerId, n: nat, k: Key)
    requires IsRun(ws, evs) && m < n < |evs| && evs[m] == Reopen(x)
    requires evs[n].Arrive? && evs[n].deletion.id == ws[m].jobs[x].id
    requires k in ws[n].objects && ws[m].nextVersion <= ws[n].objects[k]
    ensures k in ws[n + 1].objects && ws[n + 1].objects[k] == ws[n].objects[k]
  {
    hide Next, Enabled, Initial;
    StepObjects(ws[n], evs[n], k);
    if !(k in ws[n + 1].objects && ws[n + 1].objects[k] == ws[n].objects[k]) {
      var d, i := OnlyClosedGarbageDisappears(ws, evs, n, k);
      ReopenRaises(ws, evs, m, x);
      RunLater(ws, evs, m + 1, n);
      if i <= m {
        RunLater(ws, evs, i, m);
        RunKeeps(ws, evs, i);
      } else {
        RunLater(ws, evs, m + 1, i);
      }
      assert false;
    }
  }

  lemma {:induction false} ReopenRaises(ws: seq<World>, evs: seq<Event>, m: nat, x: WorkerId)
    requires IsRun(ws, evs) && m < |evs| && evs[m] == Reopen(x)
    ensures var id := ws[m].jobs[x].id;
            && x in ws[m].jobs && ws[m].jobs[x].Done? && id in ws[m].plans && id in ws[m + 1].plans
            && ws[m + 1].plans[id] == ws[m].plans[id] && ws[m].plans[id].epoch < ws[m + 1].gate.epoch
            && ws[m].nextVersion == ws[m + 1].nextVersion
  {
    RunKeeps(ws, evs, m);
    assert JobOk(ws[m], ws[m].jobs[x]) && PlanOk(ws[m], ws[m].jobs[x].id);
  }
}
