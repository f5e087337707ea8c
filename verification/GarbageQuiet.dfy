/**
  * When nobody writes while the gate is closed, which is what closing it is for,
  * the sweep is complete before the gate can reopen. So every delete that takes
  * effect does so while its own checkpoint's gate is closed, and a stale worker
  * removes nothing that a later checkpoint or an open gate can use.
  */
module GarbageQuiet {
  import opened Basics
  import opened GarbageCollection
  import opened GarbageSafety

  /** The first n pages of the garbage are gone. */
  ghost predicate Absent(w: World, id: Id, n: nat)
    requires id in w.plans
  {
    forall i, k :: 0 <= i < n && i < |w.plans[id].pages| && k in w.plans[id].pages[i] ==> k !in w.objects
  }

  /** What was listed is still current. */
  ghost predicate Accurate(w: World, looked: set<Key>, versions: map<Key, nat>) {
    forall k :: k in looked && k in w.objects ==> k in versions && versions[k] == w.objects[k]
  }

  ghost predicate JobSwept(w: World, job: Job) {
    match job
    case Idle => true
    case Building(id, epoch, looked, versions) => w.gate == Gate(Closed, epoch, id) ==> Accurate(w, looked, versions)
    case Listing(id, page, _, looked, versions) =>
      ClosedFor(w, id) ==> Absent(w, id, page) && Accurate(w, looked, versions)
    case Deleting(id, page, _, pending) =>
      ClosedFor(w, id) ==>
        && Absent(w, id, page)
        && forall k :: k in w.objects && page < |w.plans[id].pages| && k in w.plans[id].pages[page] ==>
             Deletion(id, w.plans[id].epoch, k, w.objects[k]) in pending
    case Done(id) => ClosedFor(w, id) ==> Absent(w, id, |w.plans[id].pages|)
  }

  ghost predicate SessionSwept(w: World, id: Id)
    requires id in w.sessions
  {
    id in w.plans && (ClosedFor(w, id) ==> Absent(w, id, w.sessions[id].index))
  }

  /** An incarnation of garbage does not outlive the closed period of its checkpoint. */
  ghost predicate Gone(w: World, d: Deletion) {
    d.id in w.plans && d.key in Planned(w.plans[d.id]) && w.plans[d.id].epoch < w.gate.epoch ==>
      !(d.key in w.objects && w.objects[d.key] == d.version)
  }

  ghost predicate Swept(w: World) {
    && (forall x :: x in w.jobs ==> JobSwept(w, w.jobs[x]))
    && (forall id :: id in w.sessions ==> SessionSwept(w, id))
    && (forall d :: d in w.seen ==> Gone(w, d))
    && (forall r :: r in w.removed ==> r.gate == Gate(Closed, r.deletion.epoch, r.deletion.id))
  }

  /** Objects only disappear, and gate and plans stay. */
  ghost predicate Shrinks(w: World, w': World) {
    && w'.gate == w.gate && w'.plans == w.plans
    && forall k :: k in w'.objects ==> k in w.objects && w'.objects[k] == w.objects[k]
  }

  lemma {:induction false} JobSweptShrinks(w: World, w': World, job: Job)
    requires JobSwept(w, job) && Shrinks(w, w')
    ensures JobSwept(w', job)
  {
    assert forall id :: ClosedFor(w', id) <==> ClosedFor(w, id);
  }

  /** No plan is closed for while the gate is not closed. */
  lemma {:induction false} JobSweptOpen(w: World, job: Job)
    requires w.gate.mode != Closed
    ensures JobSwept(w, job)
  {
  }

  lemma {:induction false} GoneShrinks(w: World, w': World, d: Deletion)
    requires Gone(w, d) && Shrinks(w, w')
    ensures Gone(w', d)
  {
  }

  /** Incarnations of the current closed period are not of a past one. */
  lemma {:induction false} CurrentNotPast(w: World, d: Deletion)
    requires d in Current(w) && (d.id in w.plans ==> PlanOk(w, d.id))
    ensures Gone(w, d)
  {
  }

  /** The shared part for events that only remove objects and touch one job. */
  lemma {:induction false} ShrinkFrame(w: World, w': World, x: WorkerId)
    requires Swept(w) && Inv(w') && Shrinks(w, w') && w'.seen == w.seen + Current(w')
    requires forall y :: y in w'.jobs && y != x ==> y in w.jobs && w'.jobs[y] == w.jobs[y]
    requires x in w'.jobs ==> (x in w.jobs && w'.jobs[x] == w.jobs[x]) || JobSwept(w', w'.jobs[x])
    requires forall id :: id in w'.sessions ==> (id in w.sessions && w'.sessions[id] == w.sessions[id]) || SessionSwept(w', id)
    requires forall r :: r in w'.removed ==> r in w.removed || r.gate == Gate(Closed, r.deletion.epoch, r.deletion.id)
    ensures Swept(w')
  {
    hide JobSwept, Gone, Inv, Current;
    forall y | y in w'.jobs ensures JobSwept(w', w'.jobs[y]) {
      if y in w.jobs && w'.jobs[y] == w.jobs[y] { JobSweptShrinks(w, w', w.jobs[y]); }
    }
    forall id | id in w'.sessions ensures SessionSwept(w', id) {
      if id in w.sessions && w'.sessions[id] == w.sessions[id] { SessionShrinks(w, w', id); }
    }
    forall d | d in w'.seen ensures Gone(w', d) {
      if d in w.seen { GoneShrinks(w, w', d); } else { PlanOf(w', d.id); CurrentNotPast(w', d); }
    }
  }

  lemma {:induction false} PlanOf(w: World, id: Id)
    requires Inv(w)
    ensures id in w.plans ==> PlanOk(w, id)
  {
  }

  lemma {:induction false} SessionShrinks(w: World, w': World, id: Id)
    requires id in w.sessions && id in w'.sessions && w'.sessions[id] == w.sessions[id] && SessionSwept(w, id) && Shrinks(w, w')
    ensures SessionSwept(w', id)
  {
    assert ClosedFor(w', id) <==> ClosedFor(w, id);
  }

  // ------------------------------------------------------------------ events

  /** A delete that takes effect does so in the closed period of its checkpoint. */
  lemma {:induction false} EffectIsTimely(w: World, d: Deletion)
    requires Inv(w) && Swept(w) && DeletionOk(w, d) && d.key in w.objects && w.objects[d.key] == d.version
    ensures w.gate == Gate(Closed, d.epoch, d.id)
  {
    assert Gone(w, d) && PlanOk(w, d.id);
  }

  lemma {:induction false} AnsweredSwept(w: World, w': World, job: Job, d: Deletion)
    requires JobSwept(w, job) && job.Deleting? && Shrinks(w, w')
    requires d.key in w'.objects ==> w'.objects[d.key] != d.version
    ensures JobSwept(w', job.(pending := job.pending - {d}))
  {
    JobSweptShrinks(w, w', job);
  }

  lemma {:induction false} FlightOf(w: World, o: WorkerId, d: Deletion)
    requires Inv(w) && (o, d) in w.flights
    ensures DeletionOk(w, d)
  {
    assert DeletionOk(w, (o, d).1);
  }

  lemma {:induction false} ArriveEffect(w: World, o: WorkerId, d: Deletion, answered: bool)
    requires Enabled(w, Arrive(o, d, answered))
    ensures var w' := Next(w, Arrive(o, d, answered));
            && (o, d) in w.flights && w'.sessions == w.sessions
            && (d.key in w'.objects ==> w'.objects[d.key] != d.version)
            && (forall r :: r in w'.removed ==> r in w.removed || r == Removal(d, w.gate))
            && (w'.removed == w.removed || (d.key in w.objects && w.objects[d.key] == d.version))
  {
    hide Current;
  }

  lemma {:induction false} ArriveSweeps(w: World, o: WorkerId, d: Deletion, answered: bool)
    requires Inv(w) && Swept(w) && Enabled(w, Arrive(o, d, answered))
    ensures Swept(Next(w, Arrive(o, d, answered)))
  {
    hide Next, Enabled, Inv, DeletionOk, JobSwept, Later, Current, Gone, SessionSwept;
    var w' := Next(w, Arrive(o, d, answered));
    ArriveKeeps(w, o, d, answered);
    ArriveShape(w, o, d, answered);
    ArriveEffect(w, o, d, answered);
    FlightOf(w, o, d);
    if d.key in w.objects && w.objects[d.key] == d.version { EffectIsTimely(w, d); }
    if o in w'.jobs && w'.jobs[o] != w.jobs[o] { AnsweredSwept(w, w', w.jobs[o], d); }
    ShrinkFrame(w, w', o);
  }

  lemma {:induction false} SimpleSweeps(w: World, ev: Event)
    requires Inv(w) && Swept(w) && Enabled(w, ev) && (ev.Remove? || ev.Drop? || ev.Crash? || ev.Build?)
    ensures Swept(Next(w, ev))
  {
    hide Inv, Later, Disjoint, Published, Checked, Recorded, Looked, Started, Gone, SessionSwept;
    var w' := Next(w, ev);
    StepKeeps(w, ev);
    ShrinkFrame(w, w', if ev.Crash? || ev.Build? then ev.w else 0);
  }

  lemma {:induction false} LookedSwept(w: World, w': World, job: Job, k: Key)
    requires JobSwept(w, job) && (job.Building? || job.Listing?) && Shrinks(w, w') && w'.objects == w.objects
    ensures JobSwept(w', Looked(w, job, k))
  {
    JobSweptShrinks(w, w', job);
  }

  lemma {:induction false} LookSweeps(w: World, x: WorkerId, k: Key)
    requires Inv(w) && Swept(w) && Enabled(w, Look(x, k))
    ensures Swept(Next(w, Look(x, k)))
  {
    hide Next, Enabled, Inv, Later, Current, Gone;
    LookIs(w, x, k);
    LookKeeps(w, x, k);
    var w', job := Next(w, Look(x, k)), w.jobs[x];
    ObservedCurrent(SetJob(w, x, Looked(w, job, k)));
    LookedSwept(w, w', job, k);
    hide JobSwept, Looked;
    ShrinkFrame(w, w', x);
  }

  lemma {:induction false} BeginSweeps(w: World, x: WorkerId, id: Id)
    requires Inv(w) && Swept(w) && Enabled(w, Begin(x, id))
    ensures Swept(Next(w, Begin(x, id)))
  {
    hide Next, Enabled, Inv, Later, Current, Gone, JobSwept, Advance;
    var page, session := BeginIs(w, x, id);
    BeginKeeps(w, x, id);
    var w' := Next(w, Begin(x, id));
    if id in w.sessions { assert SessionSwept(w, id); }
    assert ClosedFor(w', id) <==> ClosedFor(w, id);
    AdvanceSwept(w', id, page, session);
    ObservedCurrent(SetJob(w, x, Advance(w.plans[id], id, page, session)));
    ShrinkFrame(w, w', x);
  }

  lemma {:induction false} CheckIs(w: World, x: WorkerId)
    requires Enabled(w, Check(x))
    ensures x in w.jobs && w.jobs[x].Listing? && w.jobs[x].id in w.plans && w.jobs[x].page < |w.plans[w.jobs[x].id].pages|
    ensures w.plans[w.jobs[x].id].pages[w.jobs[x].page] <= w.jobs[x].looked
    ensures Next(w, Check(x)) == Observed(Checked(w, x, w.jobs[x]))
  {
    hide Observed, Checked, ClosedFor;
  }

  lemma {:induction false} CheckedSwept(w: World, w': World, x: WorkerId, job: Job)
    requires JobSwept(w, job) && job.Listing? && job.id in w.plans && job.page < |w.plans[job.id].pages|
    requires w.plans[job.id].pages[job.page] <= job.looked && Shrinks(w, w') && w'.objects == w.objects
    ensures x in Checked(w, x, job).jobs && JobSwept(w', Checked(w, x, job).jobs[x])
  {
    assert ClosedFor(w', job.id) <==> ClosedFor(w, job.id);
  }

  lemma {:induction false} CheckSweeps(w: World, x: WorkerId)
    requires Inv(w) && Swept(w) && Enabled(w, Check(x))
    ensures Swept(Next(w, Check(x)))
  {
    CheckIs(w, x);
    hide Next, Enabled, Inv, Later, Current, Gone;
    CheckKeeps(w, x);
    var w', job := Next(w, Check(x)), w.jobs[x];
    assert JobSwept(w, job);
    CheckedSwept(w, w', x, job);
    ObservedCurrent(Checked(w, x, job));
    hide JobSwept;
    ShrinkFrame(w, w', x);
  }

  /** With no delete of the page outstanding, the page is gone. */
  lemma {:induction false} PageGone(w: World, job: Job)
    requires JobSwept(w, job) && job.Deleting? && job.pending == {} && ClosedFor(w, job.id)
    ensures Absent(w, job.id, job.page + 1)
  {
  }

  lemma {:induction false} AdvanceSwept(w: World, id: Id, page: nat, session: Option<nat>)
    requires id in w.plans && (ClosedFor(w, id) ==> Absent(w, id, page))
    ensures JobSwept(w, Advance(w.plans[id], id, page, session)) && JobSwept(w, Idle)
  {
  }

  lemma {:induction false} PublishedPage(w: World, w': World, job: Job)
    requires JobSwept(w, job) && job.Deleting? && job.pending == {} && job.id in w.plans && Shrinks(w, w')
    ensures job.id in w'.plans && (ClosedFor(w', job.id) ==> Absent(w', job.id, job.page + 1))
  {
    if ClosedFor(w, job.id) { PageGone(w, job); }
  }

  lemma {:induction false} PublishSweeps(w: World, x: WorkerId, answered: bool)
    requires Inv(w) && Swept(w) && Enabled(w, Publish(x, answered))
    ensures Swept(Next(w, Publish(x, answered)))
  {
    hide Next, Enabled, Inv, JobSwept, Advance, Absent, Later, Current;
    PublishIs(w, x, answered);
    PublishKeeps(w, x, answered);
    var session := PublishShape(w, x, answered);
    assert JobSwept(w, w.jobs[x]);
    var w', job := Next(w, Publish(x, answered)), w.jobs[x];
    PublishedPage(w, w', job);
    AdvanceSwept(w', job.id, job.page + 1, session);
    ShrinkFrame(w, w', x);
  }

  lemma {:induction false} PutSweeps(w: World, k: Key)
    requires Inv(w) && Swept(w) && w.gate.mode != Closed
    ensures Swept(Next(w, Put(k)))
  {
    var w' := Next(w, Put(k));
    forall x | x in w'.jobs ensures JobSwept(w', w'.jobs[x]) { JobSweptOpen(w', w'.jobs[x]); }
    forall id | id in w'.sessions ensures SessionSwept(w', id) { assert SessionSwept(w, id); }
    forall d | d in w'.seen ensures Gone(w', d) { assert Gone(w, d) && SeenOk(w, d); }
  }

  lemma {:induction false} GateSweeps(w: World, ev: Event)
    requires Inv(w) && Swept(w) && Enabled(w, ev) && (ev.BeginClose? || ev.CancelClose?)
    ensures Swept(Next(w, ev))
  {
    var w' := Next(w, ev);
    forall x | x in w'.jobs ensures JobSwept(w', w'.jobs[x]) { JobSweptOpen(w', w'.jobs[x]); }
    forall id | id in w'.sessions ensures SessionSwept(w', id) { assert SessionSwept(w, id); }
    forall d | d in w'.seen ensures Gone(w', d) { assert Gone(w, d); }
  }

  /** When the gate closes it is for a checkpoint that nobody works for yet. */
  lemma {:induction false} CloseSweeps(w: World)
    requires Inv(w) && Swept(w) && Enabled(w, FinishClose)
    ensures Swept(Next(w, FinishClose))
  {
    var w' := Next(w, FinishClose);
    StepKeeps(w, FinishClose);
    forall id ensures !ClosedFor(w', id) { if id in w.plans { assert PlanOk(w, id); } }
    forall x | x in w'.jobs ensures JobSwept(w', w'.jobs[x]) { assert JobOk(w, w.jobs[x]); }
    forall id | id in w'.sessions ensures SessionSwept(w', id) { assert SessionSwept(w, id); }
    forall d | d in w'.seen ensures Gone(w', d) {
      if d in w.seen { assert Gone(w, d); } else { PlanOf(w', d.id); CurrentNotPast(w', d); }
    }
  }

  lemma {:induction false} AllAbsent(w: World, id: Id, k: Key)
    requires id in w.plans && Absent(w, id, |w.plans[id].pages|) && k in Planned(w.plans[id])
    ensures k !in w.objects
  {
    var i :| 0 <= i < |w.plans[id].pages| && k in w.plans[id].pages[i];
  }

  lemma {:induction false} ReopenSweeps(w: World, x: WorkerId)
    requires Inv(w) && Swept(w) && Enabled(w, Reopen(x))
    ensures Swept(Next(w, Reopen(x)))
  {
    var w', id := Next(w, Reopen(x)), w.jobs[x].id;
    assert JobOk(w, w.jobs[x]) && PlanOk(w, id) && JobSwept(w, w.jobs[x]);
    forall y | y in w'.jobs ensures JobSwept(w', w'.jobs[y]) { JobSweptOpen(w', w'.jobs[y]); }
    forall i | i in w'.sessions ensures SessionSwept(w', i) { assert SessionSwept(w, i); }
    forall d | d in w'.seen ensures Gone(w', d) {
      assert Gone(w, d);
      if d.id in w.plans && w.plans[d.id].epoch == w.gate.epoch && d.key in Planned(w.plans[d.id]) {
        assert PlanOk(w, d.id);
        AllAbsent(w, id, d.key);
      }
    }
  }

  /** Recording a plan leaves the objects, the gate and the other jobs alone. */
  lemma {:induction false} OtherJobSwept(w: World, w': World, job: Job)
    requires JobOk(w, job) && JobSwept(w, job) && w'.gate == w.gate && w'.objects == w.objects
    requires forall id :: id in w.plans ==> id in w'.plans && w'.plans[id] == w.plans[id]
    ensures JobSwept(w', job)
  {
  }

  lemma {:induction false} OtherSessionSwept(w: World, w': World, id: Id)
    requires id in w.sessions && SessionSwept(w, id) && w'.gate == w.gate && w'.objects == w.objects && w'.sessions == w.sessions
    requires forall i :: i in w.plans ==> i in w'.plans && w'.plans[i] == w.plans[i]
    ensures SessionSwept(w', id)
  {
  }

  lemma {:induction false} BuilderSwept(w: World, w': World, job: Job, pages: seq<set<Key>>)
    requires job.Building? && JobSwept(w, job) && w'.gate == w.gate && w'.objects == w.objects && |pages| == 1 && pages[0] <= job.looked
    requires job.id in w'.plans && w'.plans[job.id].epoch == job.epoch && w'.plans[job.id].pages == pages
    ensures JobSwept(w', Listing(job.id, 0, None, pages[0], map k | k in job.versions && k in pages[0] :: job.versions[k]))
  {
  }

  lemma {:induction false} GoneRecorded(w: World, w': World, d: Deletion)
    requires Gone(w, d) && SeenOk(w, d) && w'.gate == w.gate && w'.objects == w.objects
    requires forall id :: id in w.plans ==> id in w'.plans && w'.plans[id] == w.plans[id]
    requires d.id in w'.plans ==> d.epoch == w'.plans[d.id].epoch
    ensures Gone(w', d)
  {
  }

  lemma {:induction false} SeenOf(w: World, d: Deletion)
    requires Inv(w) && d in w.seen
    ensures SeenOk(w, d) && (d.id in w.plans ==> d.epoch == w.plans[d.id].epoch)
  {
  }

  lemma {:induction false} JobOf(w: World, x: WorkerId)
    requires Inv(w) && x in w.jobs
    ensures JobOk(w, w.jobs[x])
  {
  }

  lemma {:induction false} RecordSweeps(w: World, x: WorkerId, inventory: set<Key>, pages: seq<set<Key>>)
    requires Inv(w) && Swept(w) && Enabled(w, Record(x, inventory, pages))
    ensures Swept(Next(w, Record(x, inventory, pages)))
  {
    hide Next, Inv, JobSwept, JobOk, Gone, SeenOk, SessionSwept, Current, PlanOk, Later;
    RecordKeeps(w, x, inventory, pages);
    RecordShape(w, x, inventory, pages);
    var w', job := Next(w, Record(x, inventory, pages)), w.jobs[x];
    forall y | y in w'.jobs ensures JobSwept(w', w'.jobs[y]) {
      if y != x {
        JobOf(w, y);
        OtherJobSwept(w, w', w.jobs[y]);
      } else if |pages| == 1 {
        BuilderSwept(w, w', job, pages);
      } else {
        AdvanceSwept(w', job.id, 0, None);
      }
    }
    forall id | id in w'.sessions ensures SessionSwept(w', id) { OtherSessionSwept(w, w', id); }
    forall d | d in w'.seen ensures Gone(w', d) {
      if d in w.seen {
        SeenOf(w, d);
        SeenOf(w', d);
        GoneRecorded(w, w', d);
      } else {
        PlanOf(w', d.id);
        CurrentNotPast(w', d);
      }
    }
  }

  // ---------------------------------------------------------------- theorem

  /** Nobody writes while the gate is closed. */
  ghost predicate Quiet(ws: seq<World>, evs: seq<Event>) {
    IsRun(ws, evs) && forall i :: 0 <= i < |evs| && evs[i].Put? ==> ws[i].gate.mode != Closed
  }

  lemma {:induction false} StepSweeps(w: World, ev: Event)
    requires Inv(w) && Swept(w) && Enabled(w, ev) && (ev.Put? ==> w.gate.mode != Closed)
    ensures Swept(Next(w, ev))
  {
    match ev
    case Put(k) => PutSweeps(w, k);
    case BeginClose(_) => GateSweeps(w, ev);
    case CancelClose => GateSweeps(w, ev);
    case FinishClose => CloseSweeps(w);
    case Look(x, k) => LookSweeps(w, x, k);
    case Record(x, inventory, pages) => RecordSweeps(w, x, inventory, pages);
    case Begin(x, id) => BeginSweeps(w, x, id);
    case Check(x) => CheckSweeps(w, x);
    case Arrive(o, d, answered) => ArriveSweeps(w, o, d, answered);
    case Publish(x, answered) => PublishSweeps(w, x, answered);
    case Reopen(x) => ReopenSweeps(w, x);
    case _ => SimpleSweeps(w, ev);
  }

  lemma {:induction false} QuietRunSweeps(ws: seq<World>, evs: seq<Event>, n: nat)
    requires Quiet(ws, evs) && n < |ws|
    ensures Swept(ws[n])
  {
    if 0 < n {
      QuietRunSweeps(ws, evs, n - 1);
      RunKeeps(ws, evs, n - 1);
      StepSweeps(ws[n - 1], evs[n - 1]);
    }
  }

  /**
    * In every quiet run a delete takes effect only while the gate is closed for the
    * checkpoint that asked for it. In particular nothing is collected while the gate
    * is open or closing, nothing while it is closed for another checkpoint, and no
    * member of the inventory of the checkpoint that closed it.
    */
  lemma {:induction false} CollectedOnlyWhileClosed(ws: seq<World>, evs: seq<Event>, n: nat, r: Removal)
    requires Quiet(ws, evs) && n < |ws| && r in ws[n].removed
    ensures r.gate == Gate(Closed, r.deletion.epoch, r.deletion.id)
    ensures r.gate.checkpoint in ws[n].plans && r.deletion.key !in ws[n].plans[r.gate.checkpoint].inventory
  {
    QuietRunSweeps(ws, evs, n);
    OnlyClosedGarbageIsRemoved(ws, evs, n, r);
  }

  /** When the gate reopens, none of the planned garbage is left. */
  lemma {:induction false} ReopenedIsClean(ws: seq<World>, evs: seq<Event>, n: nat, x: WorkerId, k: Key)
    requires Quiet(ws, evs) && n < |evs| && evs[n] == Reopen(x) && ws[n].jobs[x].id in ws[n].plans
    requires k in Planned(ws[n].plans[ws[n].jobs[x].id])
    ensures k !in ws[n].objects
  {
    QuietRunSweeps(ws, evs, n);
    RunKeeps(ws, evs, n);
    var w := ws[n];
    assert JobSwept(w, w.jobs[x]) && PlanOk(w, w.jobs[x].id);
    AllAbsent(w, w.jobs[x].id, k);
  }

  /** What the progress record says is true: while the gate is closed for the checkpoint, the pages it covers are gone. */
  lemma {:induction false} RecordedIsGone(ws: seq<World>, evs: seq<Event>, n: nat, id: Id, i: nat, k: Key)
    requires Quiet(ws, evs) && n < |ws| && id in ws[n].sessions && id in ws[n].plans && ClosedFor(ws[n], id)
    requires i < ws[n].sessions[id].index && i < |ws[n].plans[id].pages| && k in ws[n].plans[id].pages[i]
    ensures k !in ws[n].objects
  {
    QuietRunSweeps(ws, evs, n);
    assert SessionSwept(ws[n], id);
  }
}
