/**
  * Administrators under optimistic transactions. An operation reads the actor, the
  * roles, the target and, when it removes an administrator, every listed account,
  * each at its own time; then one transaction, conditional on the versions of the
  * roles, the target and the actor, takes effect or fails.
  */
module AdminRoles {
  import opened Basics

  type User = nat

  type JobId = nat

  datatype Account = Account(enabled: bool, authEpoch: nat)

  datatype Read<T> = Read(version: nat, value: T)

  datatype Action = Disable | Enable | Grant | Revoke

  /** An operation under way, with what it has read so far. */
  datatype Job = Job(
    action: Action, actor: User, target: User,
    actorRead: Option<Read<Account>>, rolesRead: Option<Read<seq<User>>>, targetRead: Option<Read<Account>>,
    counted: nat, enabledAdmins: nat)

  datatype World = World(
    nextVersion: nat, accounts: map<User, Read<Account>>, roles: Read<seq<User>>, jobs: map<JobId, Option<Job>>)

  /**
    * `Rewrite` is any other writer of an account, which never disables one; `Register`
    * creates an account; `Restamp` is a transaction that rewrites the roles as they are.
    */
  datatype Event =
    | Rewrite(user: User, account: Account)
    | Register(user: User, account: Account)
    | Restamp
    | Start(id: JobId, action: Action, actor: User, target: User)
    | ReadActor(id: JobId)
    | ReadRoles(id: JobId)
    | ReadTarget(id: JobId)
    | CountNext(id: JobId)
    | Commit(id: JobId)
    | Retry(id: JobId)
    | Finish(id: JobId)

  /** The operation removes the target from the roles as it read them. */
  predicate Removes(job: Job) {
    job.rolesRead.Some? && job.target in job.rolesRead.value.value && (job.action == Disable || job.action == Revoke)
  }

  predicate Counted(job: Job) {
    job.rolesRead.Some? && job.counted == |job.rolesRead.value.value|
  }

  predicate Running(w: World, id: JobId) {
    id in w.jobs && w.jobs[id].Some?
  }

  /** The checks of each operation between its last read and its transaction. */
  predicate ReadyToCommit(job: Job) {
    && job.actorRead.Some? && job.rolesRead.Some? && job.targetRead.Some?
    && (Removes(job) ==> Counted(job) && 1 < job.enabledAdmins)
    && match job.action
       case Disable => job.targetRead.value.value.enabled || Removes(job)
       case Enable => !job.targetRead.value.value.enabled
       case Grant => job.targetRead.value.value.enabled && job.target !in job.rolesRead.value.value
       case Revoke => Removes(job)
  }

  predicate Enabled(w: World, ev: Event) {
    match ev
    case Rewrite(u, a) => u in w.accounts && (w.accounts[u].value.enabled ==> a.enabled)
    case Register(u, _) => u !in w.accounts
    case Restamp => true
    case Start(id, _, _, _) => id in w.jobs && w.jobs[id].None?
    case ReadActor(id) =>
      Running(w, id) && w.jobs[id].value.actor in w.accounts && w.accounts[w.jobs[id].value.actor].value.enabled
    case ReadRoles(id) => Running(w, id) && w.jobs[id].value.actorRead.Some? && w.jobs[id].value.actor in w.roles.value
    case ReadTarget(id) => Running(w, id) && w.jobs[id].value.rolesRead.Some? && w.jobs[id].value.target in w.accounts
    case CountNext(id) =>
      && Running(w, id) && w.jobs[id].value.rolesRead.Some?
      && w.jobs[id].value.counted < |w.jobs[id].value.rolesRead.value.value|
      && w.jobs[id].value.rolesRead.value.value[w.jobs[id].value.counted] in w.accounts
    case Commit(id) => Running(w, id) && ReadyToCommit(w.jobs[id].value)
    case Retry(id) => Running(w, id)
    case Finish(id) => Running(w, id)
  }

  function Without(users: seq<User>, target: User): seq<User> {
    if users == [] then []
    else
      var rest := Without(users[..|users| - 1], target);
      if users[|users| - 1] == target then rest else rest + [users[|users| - 1]]
  }

  /** withoutUserID */
  method RemoveUser(users: seq<User>, target: User) returns (updated: seq<User>)
    ensures updated == Without(users, target)
  {
    updated := [];
    for n := 0 to |users|
      invariant updated == Without(users[..n], target)
    {
      assert users[..n + 1][..n] == users[..n];
      if users[n] != target { updated := updated + [users[n]]; }
    }
    assert users[..|users|] == users;
  }

  function NewRoles(job: Job): seq<User>
    requires job.rolesRead.Some?
  {
    var roles := job.rolesRead.value.value;
    if Removes(job) then Without(roles, job.target) else if job.action == Grant then roles + [job.target] else roles
  }

  function Bumped(a: Account): Account {
    a.(authEpoch := (if a.authEpoch == 0 then 1 else a.authEpoch) + 1)
  }

  function NewTarget(job: Job): Account
    requires job.targetRead.Some?
  {
    var a := job.targetRead.value.value;
    match job.action
    case Disable => if a.enabled then Bumped(a.(enabled := false)) else a
    case Enable => a.(enabled := true)
    case Grant => Bumped(a)
    case Revoke => Bumped(a)
  }

  /** The transaction's precondition: roles, target and actor are the versions that were read. */
  predicate Current(w: World, job: Job)
    requires ReadyToCommit(job)
  {
    && w.roles.version == job.rolesRead.value.version
    && job.target in w.accounts && w.accounts[job.target].version == job.targetRead.value.version
    && (job.actor != job.target ==>
          job.actor in w.accounts && w.accounts[job.actor].version == job.actorRead.value.version)
  }

  /** The transaction rewrites the roles, the target and the actor, each with a version of its own. */
  function Committed(w: World, job: Job): World
    requires ReadyToCommit(job)
  {
    var accounts := w.accounts[job.target := Read(w.nextVersion + 1, NewTarget(job))];
    w.(nextVersion := w.nextVersion + 3,
       roles := Read(w.nextVersion, NewRoles(job)),
       accounts := if job.actor == job.target then accounts
                   else accounts[job.actor := Read(w.nextVersion + 2, job.actorRead.value.value)])
  }

  function Fresh(action: Action, actor: User, target: User): Job {
    Job(action, actor, target, None, None, None, 0, 0)
  }

  function SetJob(w: World, id: JobId, job: Option<Job>): World {
    w.(jobs := w.jobs[id := job])
  }

  function Next(w: World, ev: Event): World
    requires Enabled(w, ev)
  {
    match ev
    case Rewrite(u, a) => w.(nextVersion := w.nextVersion + 1, accounts := w.accounts[u := Read(w.nextVersion, a)])
    case Register(u, a) => w.(nextVersion := w.nextVersion + 1, accounts := w.accounts[u := Read(w.nextVersion, a)])
    case Restamp => w.(nextVersion := w.nextVersion + 1, roles := w.roles.(version := w.nextVersion))
    case Start(id, action, actor, target) => SetJob(w, id, Some(Fresh(action, actor, target)))
    case ReadActor(id) => SetJob(w, id, Some(w.jobs[id].value.(actorRead := Some(w.accounts[w.jobs[id].value.actor]))))
    case ReadRoles(id) => SetJob(w, id, Some(w.jobs[id].value.(rolesRead := Some(w.roles), counted := 0, enabledAdmins := 0)))
    case ReadTarget(id) => SetJob(w, id, Some(w.jobs[id].value.(targetRead := Some(w.accounts[w.jobs[id].value.target]))))
    case CountNext(id) =>
      var job := w.jobs[id].value;
      var counts := w.accounts[job.rolesRead.value.value[job.counted]].value.enabled;
      SetJob(w, id, Some(job.(counted := job.counted + 1, enabledAdmins := job.enabledAdmins + if counts then 1 else 0)))
    case Commit(id) =>
      var job := w.jobs[id].value;
      if Current(w, job) then SetJob(Committed(w, job), id, None)
      else SetJob(w, id, Some(Fresh(job.action, job.actor, job.target)))
    case Retry(id) => SetJob(w, id, Some(Fresh(w.jobs[id].value.action, w.jobs[id].value.actor, w.jobs[id].value.target)))
    case Finish(id) => SetJob(w, id, None)
  }

  // ------------------------------------------------------------- invariant

  predicate Distinct(users: seq<User>) {
    forall i, j :: 0 <= i < j < |users| ==> users[i] != users[j]
  }

  /** Every listed administrator is enabled, and there is at least one. */
  ghost predicate Governed(w: World) {
    && w.roles.value != [] && Distinct(w.roles.value)
    && forall u :: u in w.roles.value ==> u in w.accounts && w.accounts[u].value.enabled
  }

  /** A read is of the past: the value of its version, and the current value while that version stands. */
  ghost predicate AccountReadOk(w: World, u: User, r: Read<Account>) {
    r.version < w.nextVersion && (u in w.accounts && w.accounts[u].version == r.version ==> w.accounts[u] == r)
  }

  ghost predicate JobOk(w: World, job: Job) {
    && (job.actorRead.Some? ==> AccountReadOk(w, job.actor, job.actorRead.value) && job.actorRead.value.value.enabled)
    && (job.targetRead.Some? ==> AccountReadOk(w, job.target, job.targetRead.value))
    && (job.rolesRead.Some? ==>
          && job.rolesRead.value.version < w.nextVersion && job.actor in job.rolesRead.value.value
          && (w.roles.version == job.rolesRead.value.version ==> w.roles == job.rolesRead.value)
          && job.enabledAdmins <= job.counted <= |job.rolesRead.value.value|)
  }

  ghost predicate Inv(w: World) {
    && Governed(w) && w.roles.version < w.nextVersion
    && (forall u :: u in w.accounts ==> w.accounts[u].version < w.nextVersion)
    && (forall id :: Running(w, id) ==> JobOk(w, w.jobs[id].value))
  }

  lemma {:induction false} WithoutIs(users: seq<User>, target: User)
    ensures forall u :: u in Without(users, target) <==> u in users && u != target
    ensures Distinct(users) ==> Distinct(Without(users, target))
    ensures Distinct(users) && target in users ==> |Without(users, target)| == |users| - 1
    ensures target !in users ==> Without(users, target) == users
  {
    if users != [] {
      var n := |users| - 1;
      WithoutIs(users[..n], target);
      assert users == users[..n] + [users[n]];
      var rest := Without(users[..n], target);
      if Distinct(users) {
        assert forall i :: 0 <= i < |rest| ==> rest[i] in users[..n];
        assert users[n] !in users[..n];
      }
    }
  }

  /** Worlds follow one another with fresh versions for whatever changed. */
  ghost predicate Later(w: World, w': World) {
    && w.nextVersion <= w'.nextVersion
    && (w'.roles == w.roles || w.nextVersion <= w'.roles.version)
    && (forall u :: u in w'.accounts ==> (u in w.accounts && w'.accounts[u] == w.accounts[u]) || w.nextVersion <= w'.accounts[u].version)
  }

  lemma {:induction false} JobStable(w: World, w': World, job: Job)
    requires JobOk(w, job) && Later(w, w')
    ensures JobOk(w', job)
  {
  }

  lemma {:induction false} Frame(w: World, w': World, id: JobId)
    requires Inv(w) && Later(w, w') && Governed(w') && w'.roles.version < w'.nextVersion
    requires forall u :: u in w'.accounts ==> w'.accounts[u].version < w'.nextVersion
    requires forall i :: i in w'.jobs && i != id ==> i in w.jobs && w'.jobs[i] == w.jobs[i]
    requires Running(w', id) ==> JobOk(w', w'.jobs[id].value)
    ensures Inv(w')
  {
    hide JobOk, Later, Governed;
    forall i | Running(w', i) ensures JobOk(w', w'.jobs[i].value) {
      if i != id { assert Running(w, i); JobStable(w, w', w.jobs[i].value); }
    }
  }

  /**
    * A transaction that applies was asked for by an enabled administrator, as of the
    * moment it applies, and what it read of the roles and the target is current.
    */
  lemma {:induction false} CommitIsAuthorized(w: World, id: JobId)
    requires Inv(w) && Enabled(w, Commit(id)) && Current(w, w.jobs[id].value)
    ensures var job := w.jobs[id].value;
            && w.roles == job.rolesRead.value && w.accounts[job.target] == job.targetRead.value
            && job.actor in w.roles.value && job.actor in w.accounts && w.accounts[job.actor].value.enabled
            && (Removes(job) ==> 2 <= |w.roles.value|)
  {
    assert JobOk(w, w.jobs[id].value);
  }

  /** The transaction keeps every listed administrator enabled and at least one listed. */
  lemma {:induction false} CommitGoverns(w: World, id: JobId)
    requires Inv(w) && Enabled(w, Commit(id)) && Current(w, w.jobs[id].value)
    ensures Governed(Committed(w, w.jobs[id].value))
  {
    var job := w.jobs[id].value;
    CommitIsAuthorized(w, id);
    var w' := Committed(w, job);
    WithoutIs(w.roles.value, job.target);
    assert JobOk(w, job);
    forall u | u in w'.roles.value ensures u in w'.accounts && w'.accounts[u].value.enabled {
      assert u in w.roles.value || u == job.target;
    }
  }

  lemma {:induction false} CommitKeeps(w: World, id: JobId)
    requires Inv(w) && Enabled(w, Commit(id))
    ensures Inv(Next(w, Commit(id)))
  {
    var w', job := Next(w, Commit(id)), w.jobs[id].value;
    if Current(w, job) {
      CommitGoverns(w, id);
      hide JobOk, ReadyToCommit;
      Frame(w, w', id);
    } else {
      Frame(w, w', id);
    }
  }

  lemma {:induction false} ReadKeeps(w: World, ev: Event)
    requires Inv(w) && Enabled(w, ev) && (ev.ReadActor? || ev.ReadRoles? || ev.ReadTarget? || ev.CountNext?)
    ensures Inv(Next(w, ev))
  {
    var w' := Next(w, ev);
    assert JobOk(w, w.jobs[ev.id].value);
    Frame(w, w', ev.id);
  }

  lemma {:induction false} StepKeeps(w: World, ev: Event)
    requires Inv(w) && Enabled(w, ev)
    ensures Inv(Next(w, ev))
  {
    match ev
    case Commit(id) => CommitKeeps(w, id);
    case ReadActor(_) => ReadKeeps(w, ev);
    case ReadRoles(_) => ReadKeeps(w, ev);
    case ReadTarget(_) => ReadKeeps(w, ev);
    case CountNext(_) => ReadKeeps(w, ev);
    case Start(id, _, _, _) => Frame(w, Next(w, ev), id);
    case Retry(id) => Frame(w, Next(w, ev), id);
    case Finish(id) => Frame(w, Next(w, ev), id);
    case Rewrite(_, _) => WriterKeeps(w, ev);
    case Register(_, _) => WriterKeeps(w, ev);
    case Restamp => WriterKeeps(w, ev);
  }

  lemma {:induction false} WriterKeeps(w: World, ev: Event)
    requires Inv(w) && Enabled(w, ev) && (ev.Rewrite? || ev.Register? || ev.Restamp?)
    ensures Inv(Next(w, ev))
  {
    var w' := Next(w, ev);
    forall i | Running(w', i) ensures JobOk(w', w'.jobs[i].value) {
      assert Running(w, i);
      JobStable(w, w', w.jobs[i].value);
    }
  }

  // ---------------------------------------------------------------- theorem

  /** The committed bootstrap: one administrator, enabled, and nothing under way. */
  predicate Bootstrapped(w: World) {
    && |w.roles.value| == 1 && w.roles.version < w.nextVersion
    && w.roles.value[0] in w.accounts && w.accounts[w.roles.value[0]].value.enabled
    && (forall u :: u in w.accounts ==> w.accounts[u].version < w.nextVersion)
    && (forall id :: id in w.jobs ==> w.jobs[id].None?)
  }

  ghost predicate IsRun(ws: seq<World>, evs: seq<Event>) {
    && |ws| == |evs| + 1 && Bootstrapped(ws[0])
    && forall i :: 0 <= i < |evs| ==> Enabled(ws[i], evs[i]) && ws[i + 1] == Next(ws[i], evs[i])
  }

  lemma {:induction false} RunKeeps(ws: seq<World>, evs: seq<Event>, n: nat)
    requires IsRun(ws, evs) && n < |ws|
    ensures Inv(ws[n])
  {
    if 0 < n {
      RunKeeps(ws, evs, n - 1);
      StepKeeps(ws[n - 1], evs[n - 1]);
    }
  }

  /** In every interleaving, every listed administrator is enabled and at least one remains. */
  lemma {:induction false} AdministratorsRemain(ws: seq<World>, evs: seq<Event>, n: nat)
    requires IsRun(ws, evs) && n < |ws|
    ensures 0 < |ws[n].roles.value|
    ensures forall i :: 0 <= i < |ws[n].roles.value| ==>
              var u := ws[n].roles.value[i]; u in ws[n].accounts && ws[n].accounts[u].value.enabled
    ensures forall i, j :: 0 <= i < j < |ws[n].roles.value| ==> ws[n].roles.value[i] != ws[n].roles.value[j]
  {
    RunKeeps(ws, evs, n);
  }

  /**
    * What each applied operation does to the roles and to the target's status, that it ends
    * the target's sessions by the next authentication epoch or leaves the epoch as it is, and
    * that it leaves every other account alone.
    */
  ghost predicate Effected(w: World, w': World, action: Action, target: User) {
    && (forall u :: u in w'.roles.value <==>
          match action
          case Disable => u in w.roles.value && u != target
          case Enable => u in w.roles.value
          case Grant => u in w.roles.value || u == target
          case Revoke => u in w.roles.value && u != target)
    && target in w.accounts && target in w'.accounts
    && (var t, t' := w.accounts[target].value, w'.accounts[target].value;
        && t'.enabled == (action != Disable && (action == Enable || t.enabled))
        && t'.authEpoch == (if action == Enable || (action == Disable && !t.enabled) then t.authEpoch
                            else (if t.authEpoch == 0 then 1 else t.authEpoch) + 1))
    && (forall u :: u in w.accounts && u != target ==> u in w'.accounts && w'.accounts[u].value == w.accounts[u].value)
  }

  lemma {:induction false} CommitDoes(w: World, id: JobId)
    requires Inv(w) && Enabled(w, Commit(id)) && Current(w, w.jobs[id].value)
    ensures Effected(w, Next(w, Commit(id)), w.jobs[id].value.action, w.jobs[id].value.target)
  {
    var job := w.jobs[id].value;
    CommitIsAuthorized(w, id);
    WithoutIs(w.roles.value, job.target);
    assert JobOk(w, job);
  }

  /** However often it retried, an operation under way is the one that was last started under its identifier. */
  lemma {:induction false} JobIsAsStarted(ws: seq<World>, evs: seq<Event>, n: nat, id: JobId) returns (m: nat)
    requires IsRun(ws, evs) && n < |ws| && Running(ws[n], id)
    ensures m < n && evs[m] == Start(id, ws[n].jobs[id].value.action, ws[n].jobs[id].value.actor, ws[n].jobs[id].value.target)
    ensures forall k :: m < k < n ==> !(evs[k].Start? && evs[k].id == id)
    decreases n
  {
    m := 0;
    if 0 < n {
      StepKeepsJob(ws[n - 1], evs[n - 1], id);
      if evs[n - 1].Start? && evs[n - 1].id == id { m := n - 1; } else { m := JobIsAsStarted(ws, evs, n - 1, id); }
    }
  }

  lemma {:induction false} StepKeepsJob(w: World, ev: Event, id: JobId)
    requires Enabled(w, ev) && Running(Next(w, ev), id)
    ensures var job := Next(w, ev).jobs[id].value;
            if ev.Start? && ev.id == id then ev == Start(id, job.action, job.actor, job.target)
            else Running(w, id) && w.jobs[id].value.action == job.action && w.jobs[id].value.actor == job.actor
                 && w.jobs[id].value.target == job.target
  {
    hide ReadyToCommit, NewTarget, NewRoles;
  }

  /**
    * In every run a transaction that applies is the operation that was started under its
    * identifier, its actor is an enabled administrator, and it has the effect of that operation.
    */
  lemma {:induction false} CommitEffect(ws: seq<World>, evs: seq<Event>, n: nat, id: JobId) returns (m: nat)
    requires IsRun(ws, evs) && n < |evs| && evs[n] == Commit(id) && Current(ws[n], ws[n].jobs[id].value)
    ensures m < n && evs[m].Start? && evs[m].id == id && forall k :: m < k < n ==> !(evs[k].Start? && evs[k].id == id)
    ensures evs[m].actor in ws[n].roles.value && evs[m].actor in ws[n].accounts && ws[n].accounts[evs[m].actor].value.enabled
    ensures Effected(ws[n], ws[n + 1], evs[m].action, evs[m].target)
  {
    hide Effected;
    m := JobIsAsStarted(ws, evs, n, id);
    RunKeeps(ws, evs, n);
    CommitIsAuthorized(ws[n], id);
    CommitDoes(ws[n], id);
  }

  // ------------------------------------------------- operations left alone

  /** The events lead from one world to another. */
  ghost predicate Leads(w: World, evs: seq<Event>, w': World)
    decreases |evs|
  {
    if evs == [] then w' == w else Enabled(w, evs[0]) && Leads(Next(w, evs[0]), evs[1..], w')
  }

  lemma {:induction false} Step(w: World, evs: seq<Event>, w': World, ev: Event)
    requires Leads(w, evs, w') && Enabled(w', ev)
    ensures Leads(w, evs + [ev], Next(w', ev))
    decreases |evs|
  {
    if evs == [] {
      assert ([] + [ev])[1..] == [];
    } else {
      Step(Next(w, evs[0]), evs[1..], w', ev);
      assert (evs + [ev])[1..] == evs[1..] + [ev];
    }
  }

  /** What an operation has read when nobody else does anything, with the first k administrators counted. */
  function Undisturbed(w: World, action: Action, actor: User, target: User, k: nat): Job
    requires actor in w.accounts && target in w.accounts
  {
    Job(action, actor, target, Some(w.accounts[actor]), Some(w.roles), Some(w.accounts[target]), k, k)
  }

  lemma {:induction false} ReadsAlone(w: World, id: JobId, action: Action, actor: User, target: User, k: nat) returns (evs: seq<Event>)
    requires Governed(w) && id in w.jobs && w.jobs[id].None? && actor in w.roles.value && target in w.accounts && k <= |w.roles.value|
    ensures Leads(w, evs, SetJob(w, id, Some(Undisturbed(w, action, actor, target, k))))
    decreases k
  {
    hide Leads;
    if k == 0 {
      evs := ReadsFirst(w, id, action, actor, target);
    } else {
      evs := ReadsAlone(w, id, action, actor, target, k - 1);
      var w1 := SetJob(w, id, Some(Undisturbed(w, action, actor, target, k - 1)));
      assert w.roles.value[k - 1] in w.roles.value;
      Step(w, evs, w1, CountNext(id));
      assert Next(w1, CountNext(id)) == SetJob(w, id, Some(Undisturbed(w, action, actor, target, k)));
      evs := evs + [CountNext(id)];
    }
  }

  lemma {:induction false} ReadsFirst(w: World, id: JobId, action: Action, actor: User, target: User) returns (evs: seq<Event>)
    requires Governed(w) && id in w.jobs && w.jobs[id].None? && actor in w.roles.value && target in w.accounts
    ensures Leads(w, evs, SetJob(w, id, Some(Undisturbed(w, action, actor, target, 0))))
  {
    var start := Fresh(action, actor, target);
    var w1 := SetJob(w, id, Some(start));
    var w2 := SetJob(w, id, Some(start.(actorRead := Some(w.accounts[actor]))));
    var w3 := SetJob(w, id, Some(start.(actorRead := Some(w.accounts[actor]), rolesRead := Some(w.roles))));
    var a, b, c, d := Start(id, action, actor, target), ReadActor(id), ReadRoles(id), ReadTarget(id);
    Step(w, [], w, a);
    assert Next(w, a) == w1;
    Step(w, [] + [a], w1, b);
    assert Next(w1, b) == w2;
    Step(w, [] + [a] + [b], w2, c);
    assert Next(w2, c) == w3;
    Step(w, [] + [a] + [b] + [c], w3, d);
    assert Next(w3, d) == SetJob(w, id, Some(Undisturbed(w, action, actor, target, 0)));
    evs := [] + [a] + [b] + [c] + [d];
  }

  /** What the operation asks of the target, and that an administrator is not the last one when removed. */
  predicate Applicable(w: World, action: Action, target: User)
    requires target in w.accounts
  {
    && (match action
        case Disable => w.accounts[target].value.enabled || target in w.roles.value
        case Enable => !w.accounts[target].value.enabled
        case Grant => w.accounts[target].value.enabled && target !in w.roles.value
        case Revoke => target in w.roles.value)
    && (target in w.roles.value && (action == Disable || action == Revoke) ==> 1 < |w.roles.value|)
  }

  /**
    * An operation of an administrator that nobody disturbs gets to its transaction exactly
    * when it is applicable, and then the transaction applies and has its effect.
    */
  lemma {:induction false} AloneAppliesIff(w: World, id: JobId, action: Action, actor: User, target: User) returns (evs: seq<Event>, w1: World)
    requires Inv(w) && id in w.jobs && w.jobs[id].None? && actor in w.roles.value && target in w.accounts
    ensures Leads(w, evs, w1) && w1.roles == w.roles && w1.accounts == w.accounts
    ensures Enabled(w1, Commit(id)) <==> Applicable(w, action, target)
    ensures Applicable(w, action, target) ==>
              Leads(w, evs + [Commit(id)], Next(w1, Commit(id))) && Effected(w, Next(w1, Commit(id)), action, target)
  {
    var n := |w.roles.value|;
    evs := ReadsAlone(w, id, action, actor, target, n);
    var job := Undisturbed(w, action, actor, target, n);
    w1 := SetJob(w, id, Some(job));
    hide Leads, Effected;
    AloneIsOk(w, id, action, actor, target);
    if Applicable(w, action, target) {
      Step(w, evs, w1, Commit(id));
      CommitDoes(w1, id);
      SameEffect(w, w1, Next(w1, Commit(id)), action, target);
    }
  }

  lemma {:induction false} AloneIsOk(w: World, id: JobId, action: Action, actor: User, target: User)
    requires Inv(w) && id in w.jobs && actor in w.roles.value && target in w.accounts
    ensures Inv(SetJob(w, id, Some(Undisturbed(w, action, actor, target, |w.roles.value|))))
  {
    var w1 := SetJob(w, id, Some(Undisturbed(w, action, actor, target, |w.roles.value|)));
    Frame(w, w1, id);
  }

  lemma {:induction false} SameEffect(w: World, w1: World, w': World, action: Action, target: User)
    requires w1.roles == w.roles && w1.accounts == w.accounts && Effected(w1, w', action, target)
    ensures Effected(w, w', action, target)
  {
  }
}
