/**
 The provisioning pipeline of the installer. A deployment works through seven steps in a job of
 its own and reports into a shared table of runs, while requests cancel runs in that table. The job
 looks at the table and writes to it in separate sections of the lock.
 */
module Installer {
  import opened Wrappers

  datatype Step = Database | KvSessions | KvCache | FileStore | Queue | BackendService | FrontendSite

  const STEPS: seq<Step> := [Database, KvSessions, KvCache, FileStore, Queue, BackendService, FrontendSite]

  datatype Status = Running | Completed | Failed | Cancelled

  datatype Run = Run(
    project: string,
    status: Status,
    completedSteps: seq<Step>,
    currentStep: Option<Step>,
    resources: seq<Step>,
    progressPercent: nat)

  type Runs = map<nat, Run>

  // What earlier steps hand to later ones.
  datatype Context = Context(
    database: Option<string>,
    sessions: Option<string>,
    cache: Option<string>,
    bucket: Option<string>,
    queue: Option<string>)

  const NO_CONTEXT := Context(None, None, None, None, None)

  // The answer of the cloud service: a created object, with or without an id, or an error.
  // A refusal may leave something behind: a step can fail after its first request, or an answer can get lost.
  datatype Reply = Created(id: Option<string>) | Refused(leftover: bool)

  const REFUSAL := Refused(false)

  datatype Binding = D1(id: string) | Sessions(id: string) | Cache(id: string) | R2(name: string) | Jobs(name: string)

  datatype Missing = NoDatabase | NoSessions | NoCache | NoBucket | NoQueue

  datatype Bindings = Bound(bindings: seq<Binding>) | Lacking(part: Missing)

  function WorkerBindings(ctx: Context): Bindings {
    if ctx.database.None? then Lacking(NoDatabase)
    else if ctx.sessions.None? then Lacking(NoSessions)
    else if ctx.cache.None? then Lacking(NoCache)
    else if ctx.bucket.None? then Lacking(NoBucket)
    else if ctx.queue.None? then Lacking(NoQueue)
    else Bound([D1(ctx.database.value), Sessions(ctx.sessions.value), Cache(ctx.cache.value),
                R2(ctx.bucket.value), Jobs(ctx.queue.value)])
  }

  // The context after a step, or nothing if the step fails.
  function ProvisionStep(step: Step, project: string, ctx: Context, reply: Reply): Option<Context> {
    if reply.Refused? then None
    else match step
      case Database => Some(ctx.(database := reply.id))
      case KvSessions => Some(ctx.(sessions := reply.id))
      case KvCache => Some(ctx.(cache := reply.id))
      case FileStore => Some(ctx.(bucket := Some(project + "-files")))
      case Queue => Some(ctx.(queue := Some(project + "-queue")))
      case BackendService => if WorkerBindings(ctx).Bound? then Some(ctx) else None
      case FrontendSite => Some(ctx)
  }

  // When a step succeeds, and what it hands on.
  lemma ProvisionIsExact(step: Step, project: string, ctx: Context, reply: Reply)
    ensures ProvisionStep(step, project, ctx, reply).Some? <==>
              && reply.Created?
              && (step == BackendService ==>
                    && ctx.database.Some? && ctx.sessions.Some? && ctx.cache.Some?
                    && ctx.bucket.Some? && ctx.queue.Some?)
    ensures ProvisionStep(step, project, ctx, reply).Some? ==>
              var after := ProvisionStep(step, project, ctx, reply).value;
              && after.database == (if step == Database then reply.id else ctx.database)
              && after.sessions == (if step == KvSessions then reply.id else ctx.sessions)
              && after.cache == (if step == KvCache then reply.id else ctx.cache)
              && after.bucket == (if step == FileStore then Some(project + "-files") else ctx.bucket)
              && after.queue == (if step == Queue then Some(project + "-queue") else ctx.queue)
  {
  }

  function Percent(done: nat): nat {
    done * 100 / |STEPS|
  }

  function StepAt(i: nat): Option<Step> {
    if i < |STEPS| then Some(STEPS[i]) else None
  }

  function Started(project: string): Run {
    Run(project, Running, [], StepAt(0), [], 0)
  }

  function VerifyFailed(run: Run): Run {
    run.(status := Failed, currentStep := None)
  }

  function StepFailed(run: Run, completed: seq<Step>, resources: seq<Step>): Run {
    run.(status := Failed, currentStep := None, completedSteps := completed, resources := resources)
  }

  function StepWritten(run: Run, i: nat, completed: seq<Step>, resources: seq<Step>): Run {
    run.(completedSteps := completed, currentStep := StepAt(i + 1), resources := resources,
         progressPercent := Percent(i + 1))
  }

  function Finished(run: Run): Run {
    run.(status := Completed, currentStep := None)
  }

  predicate IsCancelled(run: Run) {
    run.status == Cancelled
  }

  function CancelledRun(run: Run): Run {
    run.(status := Cancelled, currentStep := None)
  }

  // ------------------------------------------------------------------ the installer object

  class RunTable {
    var runs: Runs

    constructor ()
      ensures runs == map[]
    {
      runs := map[];
    }

    method Start(id: nat, project: string)
      requires id !in runs
      modifies this
      ensures runs == old(runs)[id := Started(project)]
      ensures runs[id] == Run(project, Running, [], Some(Database), [], 0)
    {
      runs := runs[id := Run(project, Running, [], Some(STEPS[0]), [], 0)];
    }

    // `found` is the run the search by project name comes upon first.
    method Cancel(found: Option<nat>) returns (ok: bool)
      requires found.Some? ==> found.value in runs
      modifies this
      ensures ok <==> found.Some? && old(runs)[found.value].status == Running
      ensures runs == if ok then old(runs)[found.value := CancelledRun(old(runs)[found.value])] else old(runs)
      ensures ok ==> runs[found.value] == old(runs)[found.value].(status := Cancelled, currentStep := None)
    {
      if found.None? || runs[found.value].status != Running {
        return false;
      }
      var run := runs[found.value];
      run := run.(status := Cancelled);
      run := run.(currentStep := None);
      runs := runs[found.value := run];
      ok := true;
    }

    // The whole pipeline: `replies[i]` answers step `i`. The table is free between the sections of the job, so somebody
    // may cancel the run; if so, just before section `cancelAt`.
    method Pipeline(id: nat, project: string, verified: bool, replies: seq<Reply>, cancelAt: nat)
      requires id in runs && runs[id] == Started(project) && |replies| == |STEPS|
      modifies this
      ensures id in runs && runs == old(runs)[id := runs[id]]
      ensures var feed := Sections(verified, replies);
              && runs[id] == Disturbed(project, feed, |feed|, cancelAt).0
              && (cancelAt >= |feed| && !verified ==> runs[id] == Run(project, Failed, [], None, [], 0))
              && (cancelAt >= |feed| && verified ==> runs[id] == Result(project, replies))
    {
      var run := Work(project, verified, replies, cancelAt);
      UndisturbedResult(project, verified, replies, cancelAt);
      hide *;
      runs := runs[id := run];
    }
  }

  // The job of one run; `run` is its entry in the table.
  method Work(project: string, verified: bool, replies: seq<Reply>, cancelAt: nat) returns (run: Run)
    requires |replies| == |STEPS|
    ensures var feed := Sections(verified, replies); run == Disturbed(project, feed, |feed|, cancelAt).0
  {
    hide Disturbed;
    hide Sections;
    hide Moved;
    hide Touched;
    ghost var feed := Sections(verified, replies);
    SectionsAre(verified, replies);
    DisturbedAtFirst(project, feed, cancelAt);
    DisturbedNext(project, feed, 0, cancelAt);
    run := Touched(Started(project), 0, cancelAt);
    Verifies(run, START, feed[0]);
    if !verified {
      run := run.(status := Failed, currentStep := None);
      EndedStays(project, feed, 1, |feed|, cancelAt);
      return;
    }
    DisturbedNext(project, feed, 1, cancelAt);
    TouchedKeepsProject(Started(project), 0, cancelAt);
    TouchedKeepsProject(run, 1, cancelAt);
    run := Touched(run, 1, cancelAt);
    Looks(run, START.(pc := FirstCheck), feed[1]);
    if IsCancelled(run) {
      EndedStays(project, feed, 2, |feed|, cancelAt);
      return;
    }
    var ended, completed: seq<Step>, resources: seq<Step>, ctx := false, [], [], NO_CONTEXT;
    ghost var created: seq<Step> := [];
    var i := 0;
    while i < |STEPS|
      invariant 0 <= i <= |STEPS| && run.project == project
      invariant Disturbed(project, feed, 2 + 4 * i, cancelAt)
             == (run, Job(Looped(i), ctx, completed, resources, created))
    {
      run, ended, ctx, completed, resources, created :=
        WorkStep(project, feed, i, run, ctx, completed, resources, created, replies[i], cancelAt);
      if ended {
        return;
      }
      i := i + 1;
    }
    DisturbedNext(project, feed, 2 + 4 * |STEPS|, cancelAt);
    run := Touched(run, 2 + 4 * |STEPS|, cancelAt);
    Looks(run, Job(FinalCheck, ctx, completed, resources, created), feed[2 + 4 * |STEPS|]);
    if IsCancelled(run) {
      EndedStays(project, feed, 3 + 4 * |STEPS|, |feed|, cancelAt);
      return;
    }
    DisturbedNext(project, feed, 3 + 4 * |STEPS|, cancelAt);
    run := Touched(run, 3 + 4 * |STEPS|, cancelAt);
    Finishes(run, Job(FinalWrite, ctx, completed, resources, created), feed[3 + 4 * |STEPS|]);
    run := run.(status := Completed, currentStep := None);
  }

  // One round of the loop over the steps; `ended` when the job returns from it.
  method WorkStep(project: string, ghost feed: seq<Reply>, i: nat, before: Run, held: Context, done: seq<Step>,
                  known: seq<Step>, ghost made: seq<Step>, reply: Reply, cancelAt: nat)
    returns (run: Run, ended: bool, ctx: Context, completed: seq<Step>, resources: seq<Step>, ghost created: seq<Step>)
    requires i < |STEPS| && |feed| >= 6 + 4 * i && feed[4 * i + 3] == reply && before.project == project
    requires Disturbed(project, feed, 2 + 4 * i, cancelAt) == (before, Job(Looped(i), held, done, known, made))
    ensures run.project == project
    ensures ended ==> run == Disturbed(project, feed, |feed|, cancelAt).0
    ensures !ended ==>
              Disturbed(project, feed, 6 + 4 * i, cancelAt)
              == (run, Job(Looped(i + 1), ctx, completed, resources, created))
  {
    hide Disturbed;
    hide Moved;
    hide Touched;
    ended, ctx, completed, resources, created := true, held, done, known, made;
    var step, n := STEPS[i], 2 + 4 * i;
    DisturbedNext(project, feed, n, cancelAt);
    TouchedKeepsProject(before, n, cancelAt);
    run := Touched(before, n, cancelAt);
    Looks(run, Job(LoopCheck(i), ctx, completed, resources, created), feed[n]);
    if IsCancelled(run) {
      EndedStays(project, feed, n + 1, |feed|, cancelAt);
      return;
    }
    DisturbedNext(project, feed, n + 1, cancelAt);
    TouchedKeepsProject(run, n + 1, cancelAt);
    run := Touched(run, n + 1, cancelAt);
    Provisions(run, Job(Provisioning(i), ctx, completed, resources, created), reply);
    hide ProvisionStep;
    var after := ProvisionStep(step, project, ctx, reply);
    created := if reply.Created? || reply.leftover then created + [step] else created;
    if after.None? {
      run := run.(status := Failed, currentStep := None, completedSteps := completed, resources := resources);
      EndedStays(project, feed, n + 2, |feed|, cancelAt);
      return;
    }
    ctx, resources := after.value, resources + [step];
    DisturbedNext(project, feed, n + 2, cancelAt);
    TouchedKeepsProject(run, n + 2, cancelAt);
    run := Touched(run, n + 2, cancelAt);
    Looks(run, Job(PostCheck(i), ctx, completed, resources, created), feed[n + 2]);
    if IsCancelled(run) {
      EndedStays(project, feed, n + 3, |feed|, cancelAt);
      return;
    }
    DisturbedNext(project, feed, n + 3, cancelAt);
    TouchedKeepsProject(run, n + 3, cancelAt);
    run := Touched(run, n + 3, cancelAt);
    Writes(run, Job(Writing(i), ctx, completed, resources, created), feed[n + 3]);
    completed := completed + [step];
    run := run.(completedSteps := completed, currentStep := StepAt(i + 1), resources := resources,
                progressPercent := (i + 1) * 100 / |STEPS|);
    ended := false;
  }

  // What each kind of section does.
  lemma Verifies(run: Run, job: Job, reply: Reply)
    requires job.pc == Verifying
    ensures Moved(run, job, reply) ==
            if reply.Refused? then (run.(status := Failed, currentStep := None), job.(pc := Ended))
            else (run, job.(pc := FirstCheck))
  {
  }

  lemma Looks(run: Run, job: Job, reply: Reply)
    requires job.pc.FirstCheck? || job.pc.LoopCheck? || job.pc.PostCheck? || job.pc.FinalCheck?
    ensures run.status == Cancelled ==> Moved(run, job, reply) == (run, job.(pc := Ended))
    ensures run.status != Cancelled ==>
              Moved(run, job, reply) ==
              (run, job.(pc := match job.pc
                               case FirstCheck => LoopCheck(0)
                               case LoopCheck(i) => Provisioning(i)
                               case PostCheck(i) => Writing(i)
                               case _ => FinalWrite))
  {
  }

  lemma Provisions(run: Run, job: Job, reply: Reply)
    requires job.pc.Provisioning? && job.pc.i < |STEPS|
    ensures var step := STEPS[job.pc.i];
            var after := ProvisionStep(step, run.project, job.ctx, reply);
            var created := if reply.Created? || reply.leftover then job.created + [step] else job.created;
            Moved(run, job, reply) ==
            if after.None? then
              (run.(status := Failed, currentStep := None, completedSteps := job.completed, resources := job.resources),
               job.(pc := Ended, created := created))
            else
              (run, Job(PostCheck(job.pc.i), after.value, job.completed, job.resources + [step], created))
  {
    hide ProvisionStep;
  }

  lemma Writes(run: Run, job: Job, reply: Reply)
    requires job.pc.Writing? && job.pc.i < |STEPS|
    ensures var i := job.pc.i;
            var completed := job.completed + [STEPS[i]];
            Moved(run, job, reply) ==
            (run.(completedSteps := completed, currentStep := StepAt(i + 1), resources := job.resources,
                  progressPercent := (i + 1) * 100 / |STEPS|),
             job.(pc := Looped(i + 1), completed := completed))
  {
  }

  lemma Finishes(run: Run, job: Job, reply: Reply)
    requires job.pc == FinalWrite
    ensures Moved(run, job, reply) == (run.(status := Completed, currentStep := None), job.(pc := Ended))
  {
  }

  lemma TouchedKeepsProject(run: Run, n: nat, cancelAt: nat)
    ensures Touched(run, n, cancelAt).project == run.project
  {
  }

  // The context after the first `n` steps, if all of them succeed.
  function Succeeded(project: string, replies: seq<Reply>, n: nat): Option<Context>
    requires n <= |STEPS| == |replies|
  {
    if n == 0 then Some(NO_CONTEXT)
    else
      var before := Succeeded(project, replies, n - 1);
      if before.None? then None else ProvisionStep(STEPS[n - 1], project, before.value, replies[n - 1])
  }

  // The number of steps that succeed before the first failure.
  function Reached(project: string, replies: seq<Reply>, n: nat): (k: nat)
    requires n <= |STEPS| == |replies|
    ensures k <= n && Succeeded(project, replies, k).Some?
    ensures k < n ==> Succeeded(project, replies, k + 1).None?
  {
    if n == 0 then 0
    else
      var k := Reached(project, replies, n - 1);
      if k == n - 1 && Succeeded(project, replies, n).Some? then n else k
  }

  function Result(project: string, replies: seq<Reply>): Run
    requires |replies| == |STEPS|
  {
    var k := Reached(project, replies, |STEPS|);
    Run(project, if k == |STEPS| then Completed else Failed, STEPS[..k], None, STEPS[..k], Percent(k))
  }

  lemma {:induction false} SucceededEarlier(project: string, replies: seq<Reply>, k: nat, n: nat)
    requires k <= n <= |STEPS| == |replies| && Succeeded(project, replies, n).Some?
    ensures Succeeded(project, replies, k).Some?
  {
    if k < n {
      SucceededEarlier(project, replies, k, n - 1);
    }
  }

  lemma AllSucceeded(project: string, replies: seq<Reply>)
    requires |replies| == |STEPS| && Succeeded(project, replies, |STEPS|).Some?
    ensures Reached(project, replies, |STEPS|) == |STEPS|
  {
    var k := Reached(project, replies, |STEPS|);
    if k < |STEPS| {
      SucceededEarlier(project, replies, k + 1, |STEPS|);
    }
  }

  lemma SucceededUnfold(project: string, replies: seq<Reply>, n: nat)
    requires 0 < n <= |STEPS| == |replies| && Succeeded(project, replies, n).Some?
    ensures Succeeded(project, replies, n - 1).Some? && replies[n - 1].Created?
    ensures Succeeded(project, replies, n)
         == ProvisionStep(STEPS[n - 1], project, Succeeded(project, replies, n - 1).value, replies[n - 1])
  {
  }

  // Every id the cloud returned is bound in its own place, and the backend step succeeds only if all three came.
  lemma BindingsCarryReplies(project: string, replies: seq<Reply>)
    requires |replies| == |STEPS| && Succeeded(project, replies, 6).Some?
    ensures replies[0].Created? && replies[1].Created? && replies[2].Created?
    ensures replies[0].id.Some? && replies[1].id.Some? && replies[2].id.Some?
    ensures WorkerBindings(Succeeded(project, replies, 6).value)
         == Bound([D1(replies[0].id.value), Sessions(replies[1].id.value), Cache(replies[2].id.value),
                   R2(project + "-files"), Jobs(project + "-queue")])
  {
    assert Succeeded(project, replies, 0) == Some(NO_CONTEXT);
    SucceededUnfold(project, replies, 6);
    SucceededUnfold(project, replies, 5);
    SucceededUnfold(project, replies, 4);
    SucceededUnfold(project, replies, 3);
    SucceededUnfold(project, replies, 2);
    SucceededUnfold(project, replies, 1);
    hide Succeeded;
  }

  // ------------------------------------------------------------------ the search for a run to cancel

  // The table is searched by project name in no particular order.
  ghost predicate Found(runs: Runs, project: string, found: Option<nat>) {
    if found.Some? then found.value in runs && runs[found.value].project == project
    else forall id | id in runs :: runs[id].project != project
  }

  predicate CancelSucceeds(runs: Runs, found: Option<nat>)
    requires found.Some? ==> found.value in runs
  {
    found.Some? && runs[found.value].status == Running
  }

  // A cancel request is sure to succeed only if the project has runs and all of them are running.
  lemma CancelIsCertain(runs: Runs, project: string)
    ensures (forall found | Found(runs, project, found) :: CancelSucceeds(runs, found))
       <==> (exists id | id in runs :: runs[id].project == project)
            && (forall id | id in runs && runs[id].project == project :: runs[id].status == Running)
  {
    if forall found | Found(runs, project, found) :: CancelSucceeds(runs, found) {
      forall id | id in runs && runs[id].project == project ensures runs[id].status == Running {
        assert Found(runs, project, Some(id));
      }
      if forall id | id in runs :: runs[id].project != project {
        assert Found(runs, project, None);
      }
    }
  }

  // ------------------------------------------------------------------ every interleaving

  // Where a job is between two sections of the lock.
  datatype Pc =
    | Verifying
    | FirstCheck
    | LoopCheck(i: nat)
    | Provisioning(i: nat)
    | PostCheck(i: nat)
    | Writing(i: nat)
    | FinalCheck
    | FinalWrite
    | Ended

  // `resources` are those the job knows of; `created` are the steps that have left anything in the cloud.
  datatype Job = Job(pc: Pc, ctx: Context, completed: seq<Step>, resources: seq<Step>, created: seq<Step>)

  datatype System = System(runs: Runs, jobs: map<nat, Job>, nextId: nat)

  // `Advance` lets a job go on; `reply` is the answer it was waiting for, if it was waiting for one.
  datatype Action = Deploy(project: string) | Advance(id: nat, reply: Reply) | Cancel(id: nat)

  function Looped(i: nat): Pc {
    if i < |STEPS| then LoopCheck(i) else FinalCheck
  }

  // One section of a job: the run it leaves behind and where the job goes.
  function Moved(run: Run, job: Job, reply: Reply): (Run, Job) {
    var stop := IsCancelled(run);
    match job.pc
    case Verifying => if reply.Refused? then (VerifyFailed(run), job.(pc := Ended)) else (run, job.(pc := FirstCheck))
    case FirstCheck => (run, job.(pc := if stop then Ended else LoopCheck(0)))
    case LoopCheck(i) => (run, job.(pc := if stop then Ended else Provisioning(i)))
    case Provisioning(i) =>
      if i >= |STEPS| then (run, job)
      else
        var after := ProvisionStep(STEPS[i], run.project, job.ctx, reply);
        // A failing step may have created something, and one that fails for lack of bindings has.
        var more := if reply.Created? || reply.leftover then job.created + [STEPS[i]] else job.created;
        if after.None? then (StepFailed(run, job.completed, job.resources), job.(pc := Ended, created := more))
        else
          (run, job.(pc := PostCheck(i), ctx := after.value, resources := job.resources + [STEPS[i]], created := more))
    case PostCheck(i) => (run, job.(pc := if stop then Ended else Writing(i)))
    case Writing(i) =>
      if i >= |STEPS| then (run, job)
      else
        var completed := job.completed + [STEPS[i]];
        (StepWritten(run, i, completed, job.resources), job.(pc := Looped(i + 1), completed := completed))
    case FinalCheck => (run, job.(pc := if stop then Ended else FinalWrite))
    case FinalWrite => (Finished(run), job.(pc := Ended))
    case Ended => (run, job)
  }

  function Apply(s: System, a: Action): System {
    match a
    case Deploy(project) =>
      System(s.runs[s.nextId := Started(project)], s.jobs[s.nextId := Job(Verifying, NO_CONTEXT, [], [], [])],
           s.nextId + 1)
    case Advance(id, reply) =>
      if id in s.runs && id in s.jobs then
        var next := Moved(s.runs[id], s.jobs[id], reply);
        s.(runs := s.runs[id := next.0], jobs := s.jobs[id := next.1])
      else s
    case Cancel(id) =>
      if id in s.runs && s.runs[id].status == Running then s.(runs := s.runs[id := CancelledRun(s.runs[id])]) else s
  }

  function RunFrom(s: System, acts: seq<Action>): System {
    if acts == [] then s else Apply(RunFrom(s, acts[..|acts| - 1]), acts[|acts| - 1])
  }

  const INITIAL := System(map[], map[], 0)

  function RunAll(acts: seq<Action>): System {
    RunFrom(INITIAL, acts)
  }

  lemma RunSnoc(acts: seq<Action>, a: Action)
    ensures RunAll(acts + [a]) == Apply(RunAll(acts), a)
  {
    assert (acts + [a])[..|acts|] == acts;
  }

  // What a request for a deployment, and one to cancel a run, do to the table in a run of the system.
  lemma RequestsInRun(acts: seq<Action>, project: string, id: nat)
    ensures var s, s' := RunAll(acts), RunAll(acts + [Deploy(project)]);
            && s'.runs == s.runs[s.nextId := Run(project, Running, [], Some(Database), [], 0)]
            && s'.nextId == s.nextId + 1
    ensures var s, s' := RunAll(acts), RunAll(acts + [Cancel(id)]);
            && s'.jobs == s.jobs
            && s'.runs.Keys == s.runs.Keys
            && (forall i | i in s.runs ::
                  s'.runs[i] == if i == id && s.runs[i].status == Running
                                then s.runs[i].(status := Cancelled, currentStep := None) else s.runs[i])
  {
    RunSnoc(acts, Deploy(project));
    RunSnoc(acts, Cancel(id));
    hide RunAll;
  }

  // ------------------------------------------------------------------ what every run and its job agree on

  // How many steps a job has behind it, by where it is.
  ghost predicate AtPosition(pc: Pc, done: nat) {
    match pc
    case Verifying => done == 0
    case FirstCheck => done == 0
    case LoopCheck(i) => done == i < |STEPS|
    case Provisioning(i) => done == i < |STEPS|
    case PostCheck(i) => done == i < |STEPS|
    case Writing(i) => done == i < |STEPS|
    case FinalCheck => done == |STEPS|
    case FinalWrite => done == |STEPS|
    case Ended => done <= |STEPS|
  }

  predicate Unrecorded(pc: Pc) {
    pc.PostCheck? || pc.Writing?
  }

  ghost predicate StepsAgree(run: Run, job: Job) {
    var done := |run.completedSteps|;
    && done <= |STEPS| && run.completedSteps == STEPS[..done] == job.completed
    && run.resources == STEPS[..done] && run.progressPercent == Percent(done)
    && |job.resources| <= |STEPS| && job.resources == STEPS[..|job.resources|]
    && (Unrecorded(job.pc) ==> |job.resources| == done + 1)
    && (!Unrecorded(job.pc) && !job.pc.Ended? ==> |job.resources| == done)
    && done <= |job.resources| <= done + 1
    && AtPosition(job.pc, done)
  }

  ghost predicate CreatedAgrees(run: Run, job: Job) {
    && |job.resources| <= |job.created| <= |run.completedSteps| + 1
    && |job.created| <= |STEPS| && job.created == STEPS[..|job.created|]
    && (!job.pc.Ended? ==> job.created == job.resources)
  }

  ghost predicate StatusAgrees(run: Run, job: Job) {
    && (run.status == Running ==> !job.pc.Ended? && run.currentStep == StepAt(|run.completedSteps|))
    && (run.status == Completed ==> job.pc.Ended? && run.currentStep == None && |run.completedSteps| == |STEPS|)
    && (run.status == Failed ==> job.pc.Ended? && run.currentStep == None)
    && (run.status == Cancelled ==> run.currentStep == None || run.currentStep == StepAt(|run.completedSteps|))
  }

  ghost predicate ContextAgrees(run: Run, job: Job) {
    && (|job.resources| > 3 ==> job.ctx.bucket == Some(run.project + "-files"))
    && (|job.resources| > 4 ==> job.ctx.queue == Some(run.project + "-queue"))
  }

  ghost predicate Agrees(run: Run, job: Job) {
    StepsAgree(run, job) && CreatedAgrees(run, job) && StatusAgrees(run, job) && ContextAgrees(run, job)
  }

  ghost predicate Sound(s: System) {
    && s.runs.Keys == s.jobs.Keys
    && (forall id | id in s.runs :: id < s.nextId)
    && (forall id | id in s.runs :: Agrees(s.runs[id], s.jobs[id]))
  }

  lemma MoveKeepsSteps(run: Run, job: Job, reply: Reply)
    requires StepsAgree(run, job)
    ensures StepsAgree(Moved(run, job, reply).0, Moved(run, job, reply).1)
  {
    hide ProvisionStep;
    hide Percent;
    var done := |run.completedSteps|;
    if done < |STEPS| {
      assert STEPS[..done + 1] == STEPS[..done] + [STEPS[done]];
    }
  }

  // Only a reply that created something lets a step succeed.
  lemma RepliedStep(step: Step, project: string, ctx: Context, reply: Reply)
    requires ProvisionStep(step, project, ctx, reply).Some?
    ensures reply.Created?
  {
  }

  lemma MoveKeepsCreated(run: Run, job: Job, reply: Reply)
    requires StepsAgree(run, job) && CreatedAgrees(run, job)
    ensures CreatedAgrees(Moved(run, job, reply).0, Moved(run, job, reply).1)
  {
    hide ProvisionStep;
    hide Percent;
    var done := |run.completedSteps|;
    if job.pc.Provisioning? {
      assert STEPS[..done + 1] == STEPS[..done] + [STEPS[done]];
      if ProvisionStep(STEPS[done], run.project, job.ctx, reply).Some? {
        RepliedStep(STEPS[done], run.project, job.ctx, reply);
      }
    }
  }

  lemma MoveKeepsStatus(run: Run, job: Job, reply: Reply)
    requires StepsAgree(run, job) && StatusAgrees(run, job)
    ensures StatusAgrees(Moved(run, job, reply).0, Moved(run, job, reply).1)
  {
    hide ProvisionStep;
    hide Percent;
  }

  lemma MoveKeepsContext(run: Run, job: Job, reply: Reply)
    requires StepsAgree(run, job) && ContextAgrees(run, job)
    ensures ContextAgrees(Moved(run, job, reply).0, Moved(run, job, reply).1)
  {
    hide Percent;
    hide WorkerBindings;
    if job.pc.Provisioning? {
      assert job.resources == STEPS[..job.pc.i];
    }
  }

  lemma MoveKeepsAgreement(run: Run, job: Job, reply: Reply)
    requires Agrees(run, job)
    ensures Agrees(Moved(run, job, reply).0, Moved(run, job, reply).1)
    ensures Moved(run, job, reply).0.project == run.project
  {
    MoveKeepsSteps(run, job, reply);
    MoveKeepsCreated(run, job, reply);
    MoveKeepsStatus(run, job, reply);
    MoveKeepsContext(run, job, reply);
    hide StepsAgree;
    hide CreatedAgrees;
    hide StatusAgrees;
    hide ContextAgrees;
  }

  lemma StartAgrees(project: string)
    ensures Agrees(Started(project), Job(Verifying, NO_CONTEXT, [], [], []))
  {
    assert STEPS[..0] == [];
  }

  lemma CancelAgrees(run: Run, job: Job)
    requires Agrees(run, job) && run.status == Running
    ensures Agrees(CancelledRun(run), job)
  {
  }

  lemma StepIsSound(s: System, a: Action)
    requires Sound(s)
    ensures Sound(Apply(s, a))
  {
    match a
    case Deploy(project) =>
      hide Agrees;
      StartAgrees(project);
    case Advance(id, reply) =>
      hide Agrees;
      hide Moved;
      if id in s.runs {
        MoveKeepsAgreement(s.runs[id], s.jobs[id], reply);
      }
    case Cancel(id) =>
      hide Agrees;
      hide CancelledRun;
      if id in s.runs && s.runs[id].status == Running {
        CancelAgrees(s.runs[id], s.jobs[id]);
      }
  }

  lemma {:induction false} RunIsSound(acts: seq<Action>)
    ensures Sound(RunAll(acts))
  {
    if acts != [] {
      RunIsSound(acts[..|acts| - 1]);
      StepIsSound(RunAll(acts[..|acts| - 1]), acts[|acts| - 1]);
      hide Sound;
    }
  }

  // What a client that polls the status can ever see.
  lemma StatusIsTruthful(acts: seq<Action>, id: nat)
    requires id in RunAll(acts).runs
    ensures var run := RunAll(acts).runs[id];
            && run.completedSteps <= STEPS
            && run.progressPercent == 100 * |run.completedSteps| / 7
            && (run.status == Completed ==> run.completedSteps == STEPS && run.progressPercent == 100)
            && (run.status == Running && |run.completedSteps| < 7 ==>
                  run.currentStep == Some(STEPS[|run.completedSteps|]))
            && (run.status == Running && |run.completedSteps| == 7 ==> run.currentStep == None)
            && (run.status == Completed || run.status == Failed ==> run.currentStep == None)
            && run.resources == run.completedSteps
  {
    RunIsSound(acts);
    hide RunAll;
  }

  // What is in the cloud grows by a step exactly when its request is answered and created something, or failed and left
  // something behind.
  lemma CreatedGrows(acts: seq<Action>, id: nat, reply: Reply)
    requires id in RunAll(acts).jobs
    ensures id in RunAll(acts + [Advance(id, reply)]).jobs
    ensures var job, job' := RunAll(acts).jobs[id], RunAll(acts + [Advance(id, reply)]).jobs[id];
            && (job.pc.Provisioning? && (reply.Created? || reply.leftover) ==>
                  job.pc.i < |STEPS| && job'.created == job.created + [STEPS[job.pc.i]])
            && (!job.pc.Provisioning? || reply == REFUSAL ==> job'.created == job.created)
  {
    RunIsSound(acts);
    RunSnoc(acts, Advance(id, reply));
    hide RunAll;
    hide ProvisionStep;
    assert Agrees(RunAll(acts).runs[id], RunAll(acts).jobs[id]);
  }

  // At most one step has left something in the cloud that its run does not list: the step under way or, once the job
  // has ended, the one it ended with, whether that failed or was overtaken by a cancellation.
  lemma OneResourceUnrecorded(acts: seq<Action>, id: nat)
    requires id in RunAll(acts).runs
    ensures id in RunAll(acts).jobs
    ensures var run, job := RunAll(acts).runs[id], RunAll(acts).jobs[id];
            && run.resources <= job.created
            && |job.created| <= |run.resources| + 1
            && (|job.created| > |run.resources| ==> Unrecorded(job.pc) || job.pc.Ended?)
  {
    RunIsSound(acts);
    hide RunAll;
  }

  // At the backend service the bucket and the queue are there: the step fails exactly if the cloud refuses it or left
  // out one of three ids.
  lemma BackendBindings(acts: seq<Action>, id: nat)
    requires id in RunAll(acts).jobs && RunAll(acts).jobs[id].pc == Provisioning(5)
    ensures id in RunAll(acts).runs && STEPS[5] == BackendService
    ensures var ctx, project := RunAll(acts).jobs[id].ctx, RunAll(acts).runs[id].project;
            forall reply :: ProvisionStep(STEPS[5], project, ctx, reply).None? <==>
              reply.Refused? || ctx.database.None? || ctx.sessions.None? || ctx.cache.None?
    ensures var ctx, project := RunAll(acts).jobs[id].ctx, RunAll(acts).runs[id].project;
            && (WorkerBindings(ctx).Bound? <==> ctx.database.Some? && ctx.sessions.Some? && ctx.cache.Some?)
            && (WorkerBindings(ctx).Bound? ==>
                  WorkerBindings(ctx).bindings ==
                  [D1(ctx.database.value), Sessions(ctx.sessions.value), Cache(ctx.cache.value),
                   R2(project + "-files"), Jobs(project + "-queue")])
  {
    RunIsSound(acts);
    hide RunAll;
    assert Agrees(RunAll(acts).runs[id], RunAll(acts).jobs[id]);
  }

  // ------------------------------------------------------------------ progress and final states

  // What any action may do to a run.
  ghost predicate Forward(before: Run, after: Run) {
    && before.completedSteps <= after.completedSteps
    && before.progressPercent <= after.progressPercent
    && (before.status == Completed || before.status == Failed ==> after == before)
    && after.project == before.project
  }

  lemma MoveGoesForward(run: Run, job: Job, reply: Reply)
    requires Agrees(run, job)
    ensures Forward(run, Moved(run, job, reply).0)
  {
    hide ProvisionStep;
    MoveKeepsAgreement(run, job, reply);
    var done := |run.completedSteps|;
    if done < |STEPS| {
      assert STEPS[..done + 1] == STEPS[..done] + [STEPS[done]];
    }
  }

  lemma StepGoesForward(s: System, a: Action, id: nat)
    requires Sound(s) && id in s.runs
    ensures id in Apply(s, a).runs && Forward(s.runs[id], Apply(s, a).runs[id])
  {
    if a.Advance? && a.id == id {
      MoveGoesForward(s.runs[id], s.jobs[id], a.reply);
    }
    hide Moved;
    hide Agrees;
  }

  lemma ForwardAtOnce(run: Run)
    ensures Forward(run, run)
  {
  }

  lemma ForwardTwice(a: Run, b: Run, c: Run)
    requires Forward(a, b) && Forward(b, c)
    ensures Forward(a, c)
  {
  }

  // Over any further actions steps are only added, progress never falls, and a completed or failed run never changes.
  lemma {:induction false} RunsGoForward(acts: seq<Action>, more: seq<Action>, id: nat)
    requires id in RunAll(acts).runs
    ensures id in RunAll(acts + more).runs && Forward(RunAll(acts).runs[id], RunAll(acts + more).runs[id])
  {
    hide *;
    if more == [] {
      assert acts + more == acts;
      ForwardAtOnce(RunAll(acts).runs[id]);
    } else {
      var earlier, a := more[..|more| - 1], more[|more| - 1];
      RunsGoForward(acts, earlier, id);
      RunIsSound(acts + earlier);
      StepGoesForward(RunAll(acts + earlier), a, id);
      RunSnoc(acts + earlier, a);
      assert (acts + earlier) + [a] == acts + more;
      ForwardTwice(RunAll(acts).runs[id], RunAll(acts + earlier).runs[id], RunAll(acts + more).runs[id]);
    }
  }

  // ------------------------------------------------------------------ a job that nobody disturbs

  function Moves(run: Run, job: Job, replies: seq<Reply>): (Run, Job) {
    if replies == [] then (run, job)
    else
      var earlier := Moves(run, job, replies[..|replies| - 1]);
      Moved(earlier.0, earlier.1, replies[|replies| - 1])
  }

  // Each step takes four sections, of which the second waits for the cloud; the others ignore the reply.
  function Feed(replies: seq<Reply>): seq<Reply> {
    if replies == [] then [] else Feed(replies[..|replies| - 1]) + [REFUSAL, replies[|replies| - 1], REFUSAL, REFUSAL]
  }

  lemma MovesSnoc(run: Run, job: Job, replies: seq<Reply>, r: Reply)
    ensures Moves(run, job, replies + [r]) == Moved(Moves(run, job, replies).0, Moves(run, job, replies).1, r)
  {
    assert (replies + [r])[..|replies|] == replies;
  }

  function Midway(project: string, i: nat): Run
    requires i <= |STEPS|
  {
    Run(project, Running, STEPS[..i], StepAt(i), STEPS[..i], Percent(i))
  }

  function Four(at: (Run, Job), r: Reply): (Run, Job) {
    var one := Moved(at.0, at.1, REFUSAL);
    var two := Moved(one.0, one.1, r);
    var three := Moved(two.0, two.1, REFUSAL);
    Moved(three.0, three.1, REFUSAL)
  }

  lemma MovesFour(run: Run, job: Job, fed: seq<Reply>, r: Reply)
    ensures Moves(run, job, fed + [REFUSAL] + [r] + [REFUSAL] + [REFUSAL]) == Four(Moves(run, job, fed), r)
  {
    hide Moves;
    hide Moved;
    MovesSnoc(run, job, fed, REFUSAL);
    MovesSnoc(run, job, fed + [REFUSAL], r);
    MovesSnoc(run, job, fed + [REFUSAL] + [r], REFUSAL);
    MovesSnoc(run, job, fed + [REFUSAL] + [r] + [REFUSAL], REFUSAL);
  }

  lemma FourMoves(project: string, i: nat, ctx: Context, r: Reply)
    requires i < |STEPS|
    ensures var four := Four((Midway(project, i), Job(Looped(i), ctx, STEPS[..i], STEPS[..i], STEPS[..i])), r);
            var after := ProvisionStep(STEPS[i], project, ctx, r);
            if after.Some? then
              && four.0 == Midway(project, i + 1)
              && four.1 == Job(Looped(i + 1), after.value, STEPS[..i + 1], STEPS[..i + 1], STEPS[..i + 1])
            else four.0 == StepFailed(Midway(project, i), STEPS[..i], STEPS[..i]) && four.1.pc == Ended
  {
    hide ProvisionStep;
    hide Percent;
    var done, more := STEPS[..i], STEPS[..i + 1];
    assert more == done + [STEPS[i]];
    var run := Midway(project, i);
    var one := Moved(run, Job(Looped(i), ctx, done, done, done), REFUSAL);
    assert one == (run, Job(Provisioning(i), ctx, done, done, done));
    var two := Moved(one.0, one.1, r);
    var after := ProvisionStep(STEPS[i], project, ctx, r);
    if after.Some? {
      RepliedStep(STEPS[i], project, ctx, r);
      assert two == (run, Job(PostCheck(i), after.value, done, more, more));
      var three := Moved(two.0, two.1, REFUSAL);
      assert three == (run, Job(Writing(i), after.value, done, more, more));
    } else {
      assert two.0 == StepFailed(run, done, done) && two.1.pc == Ended;
    }
  }

  lemma FourAfterEnd(at: (Run, Job), r: Reply)
    requires at.1.pc == Ended
    ensures Four(at, r) == at
  {
  }

  // Where the job stands once `n` steps have been answered.
  ghost predicate Standing(project: string, replies: seq<Reply>, n: nat, at: (Run, Job))
    requires n <= |STEPS| == |replies|
  {
    var ctx := Succeeded(project, replies, n);
    if ctx.Some? then at == (Midway(project, n), Job(Looped(n), ctx.value, STEPS[..n], STEPS[..n], STEPS[..n]))
    else
      var k := Reached(project, replies, n);
      at.0 == StepFailed(Midway(project, k), STEPS[..k], STEPS[..k]) && at.1.pc == Ended
  }

  lemma StandingNext(project: string, replies: seq<Reply>, n: nat, at: (Run, Job))
    requires n < |STEPS| == |replies| && Standing(project, replies, n, at)
    ensures Standing(project, replies, n + 1, Four(at, replies[n]))
  {
    hide Four;
    hide StepFailed;
    hide Midway;
    hide ProvisionStep;
    hide Looped;
    var before := Succeeded(project, replies, n);
    if before.Some? {
      FourMoves(project, n, before.value, replies[n]);
      NextSucceeded(project, replies, n);
    } else {
      FourAfterEnd(at, replies[n]);
    }
  }

  lemma NextSucceeded(project: string, replies: seq<Reply>, n: nat)
    requires n < |STEPS| == |replies| && Succeeded(project, replies, n).Some?
    ensures Succeeded(project, replies, n + 1)
         == ProvisionStep(STEPS[n], project, Succeeded(project, replies, n).value, replies[n])
    ensures Succeeded(project, replies, n + 1).None? ==> Reached(project, replies, n + 1) == n
  {
    hide ProvisionStep;
    var k := Reached(project, replies, n);
    if k < n {
      SucceededEarlier(project, replies, k + 1, n);
    }
  }

  lemma FeedSnoc(replies: seq<Reply>, n: nat)
    requires n < |replies|
    ensures Feed(replies[..n + 1]) == Feed(replies[..n]) + [REFUSAL] + [replies[n]] + [REFUSAL] + [REFUSAL]
  {
    assert replies[..n + 1][..n] == replies[..n];
  }

  lemma {:induction false} AloneAfter(project: string, replies: seq<Reply>, n: nat)
    requires n <= |STEPS| == |replies|
    ensures Standing(project, replies, n,
                     Moves(Midway(project, 0), Job(Looped(0), NO_CONTEXT, [], [], []), Feed(replies[..n])))
  {
    if n == 0 {
      assert STEPS[..0] == [];
    } else {
      hide *;
      var run, job := Midway(project, 0), Job(Looped(0), NO_CONTEXT, [], [], []);
      AloneAfter(project, replies, n - 1);
      FeedSnoc(replies, n - 1);
      MovesFour(run, job, Feed(replies[..n - 1]), replies[n - 1]);
      StandingNext(project, replies, n - 1, Moves(run, job, Feed(replies[..n - 1])));
    }
  }

  lemma StandingAtEnd(project: string, replies: seq<Reply>, at: (Run, Job))
    requires |STEPS| == |replies| && Standing(project, replies, |STEPS|, at)
    ensures var one := Moved(at.0, at.1, REFUSAL); Moved(one.0, one.1, REFUSAL).0 == Result(project, replies)
  {
    hide Percent;
    assert STEPS[..|STEPS|] == STEPS;
    if Succeeded(project, replies, |STEPS|).Some? {
      AllSucceeded(project, replies);
    }
    hide Succeeded;
    hide Reached;
  }

  // The sections of an undisturbed job, one after the other, do what the pipeline method does.
  lemma SectionsMatchPipeline(project: string, replies: seq<Reply>)
    requires |replies| == |STEPS|
    ensures Moves(Midway(project, 0), Job(Looped(0), NO_CONTEXT, [], [], []), Feed(replies) + [REFUSAL] + [REFUSAL]).0
         == Result(project, replies)
  {
    hide *;
    var run, job := Midway(project, 0), Job(Looped(0), NO_CONTEXT, [], [], []);
    AloneAfter(project, replies, |STEPS|);
    assert replies[..|STEPS|] == replies;
    MovesSnoc(run, job, Feed(replies), REFUSAL);
    MovesSnoc(run, job, Feed(replies) + [REFUSAL], REFUSAL);
    StandingAtEnd(project, replies, Moves(run, job, Feed(replies)));
  }

  // Verification and the first look at the table lead to where the steps begin.
  lemma VerifiedStartsSteps(project: string, id: Option<string>)
    ensures Moves(Started(project), Job(Verifying, NO_CONTEXT, [], [], []), [] + [Created(id)] + [REFUSAL])
         == (Midway(project, 0), Job(Looped(0), NO_CONTEXT, [], [], []))
    ensures Moves(Started(project), Job(Verifying, NO_CONTEXT, [], [], []), [] + [REFUSAL]).0
         == VerifyFailed(Started(project))
  {
    var first := Job(Verifying, NO_CONTEXT, [], [], []);
    assert STEPS[..0] == [];
    MovesSnoc(Started(project), first, [], REFUSAL);
    MovesSnoc(Started(project), first, [], Created(id));
    MovesSnoc(Started(project), first, [] + [Created(id)], REFUSAL);
  }

  // ------------------------------------------------------------------ a job that somebody disturbs

  const START := Job(Verifying, NO_CONTEXT, [], [], [])

  // What the sections of a job are answered, from the verification of the credentials to the last write.
  function Sections(verified: bool, replies: seq<Reply>): seq<Reply> {
    [if verified then Created(None) else REFUSAL] + [REFUSAL] + (Feed(replies) + [REFUSAL] + [REFUSAL])
  }

  // The run as section `n` finds it.
  function Touched(run: Run, n: nat, cancelAt: nat): Run {
    if n == cancelAt && run.status == Running then CancelledRun(run) else run
  }

  // The run and its job after `n` sections.
  function Disturbed(project: string, feed: seq<Reply>, n: nat, cancelAt: nat): (Run, Job)
    requires n <= |feed|
  {
    if n == 0 then (Started(project), START)
    else
      var earlier := Disturbed(project, feed, n - 1, cancelAt);
      Moved(Touched(earlier.0, n - 1, cancelAt), earlier.1, feed[n - 1])
  }

  lemma DisturbedAtFirst(project: string, feed: seq<Reply>, cancelAt: nat)
    ensures Disturbed(project, feed, 0, cancelAt) == (Started(project), START)
  {
  }

  lemma DisturbedNext(project: string, feed: seq<Reply>, n: nat, cancelAt: nat)
    requires n < |feed|
    ensures var at := Disturbed(project, feed, n, cancelAt);
            Disturbed(project, feed, n + 1, cancelAt) == Moved(Touched(at.0, n, cancelAt), at.1, feed[n])
  {
  }

  lemma {:induction false} EndedStays(project: string, feed: seq<Reply>, n: nat, m: nat, cancelAt: nat)
    requires n <= m <= |feed|
    requires var at := Disturbed(project, feed, n, cancelAt); at.1.pc == Ended && at.0.status != Running
    ensures Disturbed(project, feed, m, cancelAt) == Disturbed(project, feed, n, cancelAt)
  {
    hide Disturbed;
    if n < m {
      EndedStays(project, feed, n, m - 1, cancelAt);
      DisturbedNext(project, feed, m - 1, cancelAt);
    }
  }

  lemma {:induction false} FeedIs(replies: seq<Reply>)
    ensures |Feed(replies)| == 4 * |replies|
    ensures forall i | 0 <= i < |replies| :: Feed(replies)[4 * i + 1] == replies[i]
  {
    if replies != [] {
      var n := |replies| - 1;
      FeedIs(replies[..n]);
      FeedSnoc(replies, n);
      assert replies[..n + 1] == replies;
      hide Feed;
      forall i | 0 <= i < |replies| ensures Feed(replies)[4 * i + 1] == replies[i] {
        if i < n {
          assert replies[..n][i] == replies[i];
        }
      }
    }
  }

  lemma SectionsAre(verified: bool, replies: seq<Reply>)
    ensures var feed := Sections(verified, replies);
            && |feed| == 4 * |replies| + 4
            && feed[0] == (if verified then Created(None) else REFUSAL)
            && forall i | 0 <= i < |replies| :: feed[4 * i + 3] == replies[i]
  {
    FeedIs(replies);
    hide Feed;
  }

  // Without a cancellation the sections just follow one another.
  lemma {:induction false} UndisturbedMoves(project: string, feed: seq<Reply>, n: nat, cancelAt: nat)
    requires n <= |feed| <= cancelAt
    ensures Disturbed(project, feed, n, cancelAt) == Moves(Started(project), START, feed[..n])
  {
    hide Moved;
    if n > 0 {
      UndisturbedMoves(project, feed, n - 1, cancelAt);
      assert feed[..n][..n - 1] == feed[..n - 1];
    }
  }

  lemma {:induction false} MovesConcat(run: Run, job: Job, a: seq<Reply>, b: seq<Reply>)
    ensures Moves(run, job, a + b) == Moves(Moves(run, job, a).0, Moves(run, job, a).1, b)
  {
    hide Moved;
    if b == [] {
      assert a + b == a;
    } else {
      MovesConcat(run, job, a, b[..|b| - 1]);
      assert (a + b)[..|a + b| - 1] == a + b[..|b| - 1];
    }
  }

  lemma {:induction false} EndedMoves(run: Run, job: Job, replies: seq<Reply>)
    requires job.pc == Ended
    ensures Moves(run, job, replies) == (run, job)
  {
    if replies != [] {
      EndedMoves(run, job, replies[..|replies| - 1]);
    }
  }

  // Undisturbed, an unverified run fails at once, and a verified one ends with what its steps achieve.
  lemma UndisturbedResult(project: string, verified: bool, replies: seq<Reply>, cancelAt: nat)
    requires |replies| == |STEPS|
    ensures var feed := Sections(verified, replies);
            cancelAt >= |feed| ==>
              && (!verified ==> Disturbed(project, feed, |feed|, cancelAt).0 == Run(project, Failed, [], None, [], 0))
              && (verified ==> Disturbed(project, feed, |feed|, cancelAt).0 == Result(project, replies))
  {
    var feed := Sections(verified, replies);
    if cancelAt >= |feed| {
      UndisturbedMoves(project, feed, |feed|, cancelAt);
      assert feed[..|feed|] == feed;
      var rest := Feed(replies) + [REFUSAL] + [REFUSAL];
      if verified {
        hide *;
        VerifiedStartsSteps(project, None);
        SectionsSplit(verified, replies);
        MovesConcat(Started(project), START, [] + [Created(None)] + [REFUSAL], rest);
        SectionsMatchPipeline(project, replies);
      } else {
        UnverifiedFails(project);
        hide Moves;
        hide Feed;
        assert feed == [REFUSAL] + ([REFUSAL] + rest);
        MovesConcat(Started(project), START, [REFUSAL], [REFUSAL] + rest);
        var at := Moves(Started(project), START, [REFUSAL]);
        EndedMoves(at.0, at.1, [REFUSAL] + rest);
      }
    }
  }

  lemma UnverifiedFails(project: string)
    ensures Moves(Started(project), START, [REFUSAL]) ==
            (Run(project, Failed, [], None, [], 0), START.(pc := Ended))
  {
    assert [REFUSAL][..0] == [];
  }

  lemma SectionsSplit(verified: bool, replies: seq<Reply>)
    ensures verified ==>
              Sections(verified, replies)
              == ([] + [Created(None)] + [REFUSAL]) + (Feed(replies) + [REFUSAL] + [REFUSAL])
    ensures START == Job(Verifying, NO_CONTEXT, [], [], [])
  {
  }

  // The same as a run of the system: the deployment, then its sections, and the cancellation before one of them.
  function Scheduled(project: string, feed: seq<Reply>, n: nat, cancelAt: nat): seq<Action>
    requires n <= |feed|
  {
    if n == 0 then [Deploy(project)]
    else
      Scheduled(project, feed, n - 1, cancelAt) + (if n - 1 == cancelAt then [Cancel(0)] else []) +
      [Advance(0, feed[n - 1])]
  }

  // Disturbed or not, the pipeline does what the single sections do in a run of the system.
  lemma {:induction false} PipelineIsARun(project: string, feed: seq<Reply>, n: nat, cancelAt: nat)
    requires n <= |feed|
    ensures var s := RunAll(Scheduled(project, feed, n, cancelAt));
            && s.runs.Keys == {0} && s.jobs.Keys == {0}
            && (s.runs[0], s.jobs[0]) == Disturbed(project, feed, n, cancelAt)
  {
    hide Moved;
    hide RunAll;
    if n == 0 {
      RunSnoc([], Deploy(project));
      assert [] + [Deploy(project)] == [Deploy(project)] && RunAll([]) == INITIAL by {
        NothingHasRun();
      }
    } else {
      PipelineIsARun(project, feed, n - 1, cancelAt);
      var before := Scheduled(project, feed, n - 1, cancelAt);
      var touched := before + if n - 1 == cancelAt then [Cancel(0)] else [];
      RunSnoc(before, Cancel(0));
      assert before + [] == before;
      RunSnoc(touched, Advance(0, feed[n - 1]));
    }
  }

  lemma NothingHasRun()
    ensures RunAll([]) == INITIAL
  {
  }

  // ------------------------------------------------------------------ after a cancel

  // The reply with which the job of a run goes on first.
  function FirstMove(acts: seq<Action>, id: nat): Option<Reply> {
    if acts == [] then None
    else
      var earlier, last := FirstMove(acts[..|acts| - 1], id), acts[|acts| - 1];
      if earlier.Some? then earlier
      else if last.Advance? && last.id == id then Some(last.reply)
      else None
  }

  // What becomes of a cancelled run once its job goes on: a request in flight that fails, or a
  // completion already decided, overwrites the cancellation; and a step already accepted is still written.
  function Overwritten(run: Run, job: Job, move: Option<Reply>): Status {
    if move.None? then Cancelled
    else match job.pc
      case Verifying => if move.value.Refused? then Failed else Cancelled
      case Provisioning(i) =>
        if i < |STEPS| && ProvisionStep(STEPS[i], run.project, job.ctx, move.value).None? then Failed else Cancelled
      case FinalWrite => Completed
      case _ => Cancelled
  }

  function ExtraSteps(job: Job, move: Option<Reply>): nat {
    if move.Some? && job.pc.Writing? then 1 else 0
  }

  // A cancelled run whose job will only look at the table and stop.
  ghost predicate Stopping(run: Run, job: Job) {
    run.status == Cancelled && !job.pc.Verifying? && !job.pc.Provisioning? && !job.pc.Writing? && !job.pc.FinalWrite?
  }

  lemma AlreadyStopping(run: Run, job: Job, reply: Reply)
    requires Stopping(run, job)
    ensures Moved(run, job, reply).0 == run && Stopping(run, Moved(run, job, reply).1)
  {
  }

  lemma CancelledMoves(run: Run, job: Job, reply: Reply)
    requires Agrees(run, job) && run.status == Cancelled
    ensures var next := Moved(run, job, reply);
            && next.0.status == Overwritten(run, job, Some(reply))
            && |next.0.completedSteps| == |run.completedSteps| + ExtraSteps(job, Some(reply))
            && (next.0.status == Cancelled ==> Stopping(next.0, next.1))
            && (next.0.status != Cancelled ==> next.1.pc == Ended)
  {
    hide Percent;
    hide ProvisionStep;
  }

  // What holds of a run cancelled in `s` after the actions in `more`.
  ghost predicate AfterCancel(s: System, more: seq<Action>, id: nat)
    requires id in s.runs && id in s.jobs
  {
    var s', move := RunFrom(s, more), FirstMove(more, id);
    && id in s'.runs && id in s'.jobs
    && s'.runs[id].status == Overwritten(s.runs[id], s.jobs[id], move)
    && |s'.runs[id].completedSteps| == |s.runs[id].completedSteps| + ExtraSteps(s.jobs[id], move)
    && (move.None? ==> s'.runs[id] == s.runs[id] && s'.jobs[id] == s.jobs[id])
    && (move.Some? && s'.runs[id].status == Cancelled ==> Stopping(s'.runs[id], s'.jobs[id]))
    && (s'.runs[id].status != Cancelled ==> s'.jobs[id].pc == Ended)
  }

  lemma OtherActionsLeave(s: System, a: Action, id: nat)
    requires id in s.runs && id in s.jobs && id < s.nextId && s.runs[id].status != Running
    requires !(a.Advance? && a.id == id)
    ensures var s' := Apply(s, a);
            id in s'.runs && id in s'.jobs && s'.runs[id] == s.runs[id] && s'.jobs[id] == s.jobs[id]
  {
    hide Moved;
  }

  lemma {:induction false} CancelledRunFrom(s: System, more: seq<Action>, id: nat)
    requires Sound(s) && id in s.runs && s.runs[id].status == Cancelled
    ensures AfterCancel(s, more, id) && id < RunFrom(s, more).nextId
  {
    if more != [] {
      var earlier, a := more[..|more| - 1], more[|more| - 1];
      CancelledRunFrom(s, earlier, id);
      var mid := RunFrom(s, earlier);
      assert RunFrom(s, more) == Apply(mid, a);
      if a.Advance? && a.id == id {
        CancelledAdvance(s, earlier, a, id);
      } else {
        OtherActionsLeave(mid, a, id);
        hide Overwritten;
        hide Moved;
      }
    }
  }

  lemma CancelledAdvance(s: System, earlier: seq<Action>, a: Action, id: nat)
    requires Sound(s) && id in s.runs && s.runs[id].status == Cancelled
    requires AfterCancel(s, earlier, id) && a.Advance? && a.id == id
    ensures AfterCancel(s, earlier + [a], id)
  {
    var more := earlier + [a];
    assert more[..|more| - 1] == earlier;
    var mid := RunFrom(s, earlier);
    assert RunFrom(s, more) == Apply(mid, a);
    hide Overwritten;
    hide Agrees;
    if FirstMove(earlier, id).None? {
      assert Agrees(s.runs[id], s.jobs[id]);
      hide Moved;
      CancelledMoves(s.runs[id], s.jobs[id], a.reply);
    } else if mid.runs[id].status == Cancelled {
      hide Moved;
      AlreadyStopping(mid.runs[id], mid.jobs[id], a.reply);
    }
  }

  // A cancelled run stays cancelled unless the job was caught with a failing request in flight or past its
  // last check; and at most one more step is recorded, exactly if the job was already past the check before
  // the write.
  lemma CancelIsFinalIff(acts: seq<Action>, more: seq<Action>, id: nat)
    requires id in RunAll(acts).runs && RunAll(acts).runs[id].status == Cancelled
    ensures id in RunAll(acts).jobs && id in RunAll(acts + more).runs
    ensures var run, job := RunAll(acts).runs[id], RunAll(acts).jobs[id];
            var later, move := RunAll(acts + more).runs[id], FirstMove(more, id);
            && later.status == Overwritten(run, job, move)
            && |later.completedSteps| == |run.completedSteps| + ExtraSteps(job, move)
  {
    RunIsSound(acts);
    CancelledRunFrom(RunAll(acts), more, id);
    RunSplit(INITIAL, acts, more);
    hide Overwritten;
    hide RunFrom;
  }

  lemma {:induction false} RunSplit(s: System, acts: seq<Action>, more: seq<Action>)
    ensures RunFrom(s, acts + more) == RunFrom(RunFrom(s, acts), more)
  {
    if more == [] {
      assert acts + more == acts;
    } else {
      var earlier := more[..|more| - 1];
      RunSplit(s, acts, earlier);
      assert (acts + more)[..|acts + more| - 1] == acts + earlier;
    }
  }

  // The request that cancelled was answered with success, and the run ends as failed.
  lemma CancelledThenFailed(project: string)
    ensures var cancelled := [] + [Deploy(project)] + [Cancel(0)];
            && 0 in RunAll(cancelled).runs && RunAll(cancelled).runs[0].status == Cancelled
            && 0 in RunAll(cancelled + [Advance(0, REFUSAL)]).runs
            && RunAll(cancelled + [Advance(0, REFUSAL)]).runs[0].status == Failed
  {
    assert RunAll([]) == INITIAL;
    RunSnoc([], Deploy(project));
    RunSnoc([] + [Deploy(project)], Cancel(0));
    RunSnoc([] + [Deploy(project)] + [Cancel(0)], Advance(0, REFUSAL));
    hide RunAll;
  }

  // ------------------------------------------------------------------ more runs that go that way

  function Advances(id: nat, replies: seq<Reply>): seq<Action> {
    if replies == [] then [] else Advances(id, replies[..|replies| - 1]) + [Advance(id, replies[|replies| - 1])]
  }

  // Letting one job go on is moving it.
  lemma {:induction false} AdvancesAreMoves(acts: seq<Action>, id: nat, replies: seq<Reply>)
    requires id in RunAll(acts).runs && id in RunAll(acts).jobs
    ensures var s, s' := RunAll(acts), RunAll(acts + Advances(id, replies));
            && id in s'.runs && id in s'.jobs
            && (s'.runs[id], s'.jobs[id]) == Moves(s.runs[id], s.jobs[id], replies)
  {
    if replies == [] {
      assert acts + [] == acts;
    } else {
      var before, r := replies[..|replies| - 1], replies[|replies| - 1];
      AdvancesAreMoves(acts, id, before);
      assert acts + Advances(id, replies) == (acts + Advances(id, before)) + [Advance(id, r)];
      RunSnoc(acts + Advances(id, before), Advance(id, r));
      hide RunAll;
      hide Moved;
      hide Advances;
    }
  }

  // Every step created, with an id.
  function AllCreated(id: string): seq<Reply> {
    seq(|STEPS|, _ => Created(Some(id)))
  }

  lemma AllCreatedSucceed(project: string, id: string)
    ensures Succeeded(project, AllCreated(id), |STEPS|).Some?
  {
    var replies := AllCreated(id);
    var ctx := Context(Some(id), Some(id), Some(id), Some(project + "-files"), Some(project + "-queue"));
    SucceededSnoc(project, replies, 0);
    SucceededSnoc(project, replies, 1);
    SucceededSnoc(project, replies, 2);
    SucceededSnoc(project, replies, 3);
    SucceededSnoc(project, replies, 4);
    SucceededSnoc(project, replies, 5);
    SucceededSnoc(project, replies, 6);
    assert Succeeded(project, replies, 0) == Some(NO_CONTEXT);
    hide Succeeded;
    assert Succeeded(project, replies, 5) == Some(ctx);
  }

  lemma SucceededSnoc(project: string, replies: seq<Reply>, n: nat)
    requires n < |STEPS| == |replies|
    ensures Succeeded(project, replies, n).Some? ==>
              Succeeded(project, replies, n + 1) ==
              ProvisionStep(STEPS[n], project, Succeeded(project, replies, n).value, replies[n])
  {
    hide ProvisionStep;
  }

  // All seven steps done, and past the last look at the table.
  lemma ReadyToComplete(project: string, id: string)
    ensures var replies := [] + [Created(None)] + [REFUSAL] + Feed(AllCreated(id)) + [REFUSAL];
            var end := Moves(Started(project), Job(Verifying, NO_CONTEXT, [], [], []), replies);
            end.0.status == Running && end.1.pc == FinalWrite
  {
    var first := Job(Verifying, NO_CONTEXT, [], [], []);
    var start, replies := [] + [Created(None)] + [REFUSAL], AllCreated(id);
    AllCreatedSucceed(project, id);
    VerifiedStartsSteps(project, None);
    AloneAfter(project, replies, |STEPS|);
    assert replies[..|STEPS|] == replies;
    hide Feed;
    hide Succeeded;
    hide AllCreated;
    hide Moves;
    MovesConcat(Started(project), first, start, Feed(replies));
    MovesSnoc(Started(project), first, start + Feed(replies), REFUSAL);
    assert start + Feed(replies) + [REFUSAL] == [] + [Created(None)] + [REFUSAL] + Feed(replies) + [REFUSAL];
  }

  // A run whose cancellation was confirmed, and that ends as completed.
  lemma CancelledThenCompleted(project: string, id: string) returns (acts: seq<Action>)
    ensures 0 in RunAll(acts).runs && RunAll(acts).runs[0].status == Running
    ensures 0 in RunAll(acts + [Cancel(0)]).runs && RunAll(acts + [Cancel(0)]).runs[0].status == Cancelled
    ensures var last := acts + [Cancel(0)] + [Advance(0, REFUSAL)];
            0 in RunAll(last).runs && RunAll(last).runs[0].status == Completed
  {
    var deploy := [] + [Deploy(project)];
    var replies := [] + [Created(None)] + [REFUSAL] + Feed(AllCreated(id)) + [REFUSAL];
    acts := deploy + Advances(0, replies);
    assert RunAll([]) == INITIAL;
    RunSnoc([], Deploy(project));
    hide RunAll;
    hide Advances;
    hide Feed;
    hide Moves;
    hide AllCreated;
    ReadyToComplete(project, id);
    AdvancesAreMoves(deploy, 0, replies);
    RunSnoc(acts, Cancel(0));
    RunSnoc(acts + [Cancel(0)], Advance(0, REFUSAL));
  }

  // A project with a failed run and a running one: the search may come upon the failed one, and the cancel finds
  // nothing to do while a deployment runs.
  lemma CancelMayMiss(project: string)
    ensures var runs := RunAll([] + [Deploy(project)] + [Advance(0, REFUSAL)] + [Deploy(project)]).runs;
            && 1 in runs && runs[1].project == project && runs[1].status == Running
            && Found(runs, project, Some(0)) && !CancelSucceeds(runs, Some(0))
  {
    assert RunAll([]) == INITIAL;
    RunSnoc([], Deploy(project));
    RunSnoc([] + [Deploy(project)], Advance(0, REFUSAL));
    RunSnoc([] + [Deploy(project)] + [Advance(0, REFUSAL)], Deploy(project));
    hide RunAll;
  }
}
