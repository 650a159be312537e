/**
 Whole runs of the emulator: what each destination is sent, what every reachable machine satisfies whatever
 the delays, when a message's events come out in order, and that every pending event and save can be drained.
 */
module EmulatorRuns {
  import opened Options
  import opened Text
  import opened EmulatorModel
  import opened EmulatorSafety
  import opened EmulatorEvents

  /******* What each destination is sent *******/

  /** The events published so far to one target of one job, in order. */
  function PublishedTo(log: seq<Publication>, job: nat, target: nat): seq<string> {
    if log == [] then []
    else
      var last := log[|log| - 1];
      PublishedTo(log[..|log| - 1], job, target) +
      (if last.job == job && last.target == target then [last.event] else [])
  }

  /** The same letters, whatever their case. */
  predicate SameWord(a: string, b: string) {
    |a| == |b| && forall i :: 0 <= i < |a| ==> LowerChar(a[i]) == LowerChar(b[i])
  }

  /** A destination that lists no event types gets them all; otherwise those it lists, in any case. */
  predicate Wants(types: seq<string>, event: string) {
    |types| == 0 || exists t :: t in types && SameWord(t, event)
  }

  lemma SameWordIs(a: string, b: string)
    ensures SameWord(a, b) <==> Upper(a) == Upper(b)
  {
    if Upper(a) == Upper(b) {
      assert |a| == |Upper(a)| == |b|;
      forall i | 0 <= i < |a|
        ensures LowerChar(a[i]) == LowerChar(b[i])
      {
        assert Upper(a)[i] == Upper(b)[i];
      }
    }
  }

  lemma WantsIs(target: Target, event: string)
    ensures Matches(target, event) <==> Wants(target.types, event)
  {
    forall t
      ensures SameWord(t, event) <==> Upper(t) == Upper(event)
    {
      SameWordIs(t, event);
    }
    if i :| 0 <= i < |target.types| && Upper(target.types[i]) == Upper(event) {
      assert target.types[i] in target.types;
    }
  }

  /** The events a target wants, in order. */
  function Matched(events: seq<string>, target: Target): seq<string> {
    if events == [] then []
    else
      var last := events[|events| - 1];
      Matched(events[..|events| - 1], target) + (if Wants(target.types, last) then [last] else [])
  }

  lemma PublishedAppend(log: seq<Publication>, p: Publication, job: nat, target: nat)
    ensures PublishedTo(log + [p], job, target) ==
            PublishedTo(log, job, target) + if p.job == job && p.target == target then [p.event] else []
  {
    assert (log + [p])[..|log|] == log;
  }

  lemma MatchedAppend(events: seq<string>, e: string, target: Target)
    ensures Matched(events + [e], target) == Matched(events, target) + if Wants(target.types, e) then [e] else []
  {
    assert (events + [e])[..|events|] == events;
  }

  /** One emission adds the event to each target that wants it, and to no other. */
  lemma {:induction false} PublicationsAre(log: seq<Publication>, s: State, env: Env, job: Job, event: string, k: nat,
                                           id: nat, j: nat)
    requires k <= |job.targets|
    ensures PublishedTo(log + Publications(s, env, job, event, k), id, j) ==
            PublishedTo(log, id, j) +
            if id == job.id && k <= j < |job.targets| && Wants(job.targets[j].types, event) then [event] else []
    decreases |job.targets| - k
  {
    var all := Publications(s, env, job, event, k);
    if k == |job.targets| {
      assert log + all == log;
    } else {
      var target := job.targets[k];
      var p := Publication(job.id, k, target.arn, event, Endpoints(s, env, target.arn));
      WantsIs(target, event);
      if Matches(target, event) {
        assert log + all == (log + [p]) + Publications(s, env, job, event, k + 1);
        PublishedAppend(log, p, id, j);
        PublicationsAre(log + [p], s, env, job, event, k + 1, id, j);
      } else {
        assert all == Publications(s, env, job, event, k + 1);
        PublicationsAre(log, s, env, job, event, k + 1, id, j);
      }
    }
  }

  /** Every publication of one emission goes to its own target's topic. */
  ghost predicate Addressed(p: Publication, jobs: map<nat, Job>) {
    && p.job in jobs && p.target < |jobs[p.job].targets|
    && p.arn == jobs[p.job].targets[p.target].arn
  }

  lemma {:induction false} PublicationsAddressed(s: State, env: Env, job: Job, event: string, k: nat,
          jobs: map<nat, Job>)
    requires k <= |job.targets| && job.id in jobs && jobs[job.id] == job
    ensures forall p :: p in Publications(s, env, job, event, k) ==> Addressed(p, jobs)
    decreases |job.targets| - k
  {
    if k < |job.targets| {
      PublicationsAddressed(s, env, job, event, k + 1, jobs);
    }
  }

  /** Each goes to no endpoint twice, when the subscriptions have their shape. */
  ghost predicate PostsOnce(published: seq<Publication>) {
    forall p :: p in published ==> Distinct(p.endpoints)
  }

  lemma {:induction false} PublicationsPostOnce(s: State, env: Env, job: Job, event: string, k: nat)
    requires k <= |job.targets| && Shape(s)
    ensures PostsOnce(Publications(s, env, job, event, k))
    decreases |job.targets| - k
  {
    if k < |job.targets| {
      PublishPostsOnce(s, env, job.targets[k].arn);
      PublicationsPostOnce(s, env, job, event, k + 1);
    }
  }

  ghost predicate TargetsOk(emitted: seq<Emission>, published: seq<Publication>, job: Job) {
    forall j :: 0 <= j < |job.targets| ==>
      PublishedTo(published, job.id, j) == Matched(Emitted(emitted, job.id), job.targets[j])
  }

  ghost predicate PublishedOk(m: Machine) {
    && (forall p :: p in m.history.published ==> Addressed(p, m.history.jobs))
    && (forall k :: k in m.history.jobs ==> TargetsOk(m.history.emitted, m.history.published, m.history.jobs[k]))
  }

  lemma {:induction false} NonePublished(log: seq<Publication>, job: nat, target: nat)
    requires forall p :: p in log ==> p.job != job
    ensures PublishedTo(log, job, target) == []
    decreases log
  {
    if log != [] {
      NonePublished(log[..|log| - 1], job, target);
    }
  }

  /** Accepting a message only adds a job nothing was emitted or published for yet. */
  lemma NewJobPublishedOk(m: Machine, after: Machine, job: Job)
    requires PublishedOk(m) && Known(m.timers, m.nextId, m.history.jobs, m.history.emitted) && job.id !in m.history.jobs
    requires after.history.emitted == m.history.emitted && after.history.published == m.history.published
    requires after.history.jobs == m.history.jobs[job.id := job]
    ensures PublishedOk(after)
  {
    forall p | p in after.history.published
      ensures Addressed(p, after.history.jobs)
    {
      assert Addressed(p, m.history.jobs);
    }
    NoneEmitted(m.history.emitted, job.id);
    forall j | 0 <= j < |job.targets|
      ensures PublishedTo(m.history.published, job.id, j) == []
    {
      NonePublished(m.history.published, job.id, j);
    }
    forall k | k in after.history.jobs
      ensures TargetsOk(after.history.emitted, after.history.published, after.history.jobs[k])
    {
      if k != job.id {
        assert TargetsOk(m.history.emitted, m.history.published, m.history.jobs[k]);
      }
    }
  }

  lemma HandlePublishedOk(m: Machine, env: Env, request: Request)
    requires PublishedOk(m) && Known(m.timers, m.nextId, m.history.jobs, m.history.emitted)
    ensures PublishedOk(Handle(m, env, request))
  {
    HandleIsClean(m, env, request);
    if request.SendEmail? {
      SendEmailJob(m, env, request.email);
      var after := HandleSendEmail(m, env, request.email);
      if after.history.jobs != m.history.jobs {
        NewJobPublishedOk(m, after, after.history.jobs[m.nextId]);
      }
    } else {
      OtherRequestsKeepJobs(m, env, request);
    }
  }

  lemma SendEmailJob(m: Machine, env: Env, email: Email)
    ensures var jobs := HandleSendEmail(m, env, email).history.jobs;
            jobs == m.history.jobs ||
            (m.nextId in jobs && jobs[m.nextId].id == m.nextId && jobs == m.history.jobs[m.nextId := jobs[m.nextId]])
  {
  }

  lemma OtherRequestsKeepJobs(m: Machine, env: Env, request: Request)
    requires !request.SendEmail?
    ensures Handle(m, env, request).history.jobs == m.history.jobs
  {
  }

  lemma FiredPublishedOk(m: Machine, b: Machine, env: Env, id: nat)
    requires PublishedOk(m) && Known(m.timers, m.nextId, m.history.jobs, m.history.emitted)
    requires id in m.timers && Owner(m.timers[id].task).Some?
    requires b.history.jobs == m.history.jobs
    requires var task := m.timers[id].task;
             && b.history.emitted == m.history.emitted + [Emission(Owner(task).value, EventOf(task))]
             && b.history.published == m.history.published + Publications(m.state, env, task.job, EventOf(task), 0)
    ensures PublishedOk(b)
  {
    var task := m.timers[id].task;
    var job, event := task.job, EventOf(task);
    PublicationsAddressed(m.state, env, job, event, 0, m.history.jobs);
    forall k | k in b.history.jobs
      ensures TargetsOk(b.history.emitted, b.history.published, b.history.jobs[k])
    {
      assert TargetsOk(m.history.emitted, m.history.published, m.history.jobs[k]);
      EmittedAppend(m.history.emitted, Emission(job.id, event), k);
      TargetsAppend(m, env, job, event, m.history.jobs[k]);
    }
  }

  lemma TargetsAppend(m: Machine, env: Env, job: Job, event: string, other: Job)
    requires TargetsOk(m.history.emitted, m.history.published, other)
    requires other.id == job.id ==> other == job
    ensures TargetsOk(m.history.emitted + [Emission(job.id, event)],
                      m.history.published + Publications(m.state, env, job, event, 0), other)
  {
    EmittedAppend(m.history.emitted, Emission(job.id, event), other.id);
    var so := Emitted(m.history.emitted, other.id);
    forall j | 0 <= j < |other.targets|
      ensures PublishedTo(m.history.published + Publications(m.state, env, job, event, 0), other.id, j) ==
              Matched(Emitted(m.history.emitted + [Emission(job.id, event)], other.id), other.targets[j])
    {
      PublicationsAre(m.history.published, m.state, env, job, event, 0, other.id, j);
      MatchedAppend(so, event, other.targets[j]);
      assert so + [] == so;
    }
  }

  lemma StepPublishedOk(m: Machine, env: Env, event: Event)
    requires PublishedOk(m) && Known(m.timers, m.nextId, m.history.jobs, m.history.emitted) && Enabled(m, event)
    ensures PublishedOk(Step(m, env, event))
  {
    match event
    case Receive(request) => HandlePublishedOk(m, env, request);
    case Fire(id) =>
      if Owner(m.timers[id].task).Some? {
        FireEmits(m, env, id);
        FiredPublishedOk(m, Step(m, env, event), env, id);
      }
    case _ =>
  }

  /******* Every reachable machine *******/

  /** What holds from whatever file the process starts. */
  ghost predicate Inv(m: Machine, env: Env) {
    SaveOk(m) && StatesOk(m) && LogOk(m) && JobsOk(m, env) && PublishedOk(m)
  }

  lemma BootInv(file: File, env: Env)
    ensures Inv(Boot(file), env)
  {
    OldestTwice(Load(file).messages);
  }

  /** Topics and subscriptions without repetition, in memory and on file, and no post twice. */
  ghost predicate Shaped(m: Machine) {
    Shape(m.state) && Shape(Load(m.file)) && PostsOnce(m.history.published)
  }

  /** What holds besides when the file it starts from has its topics and subscriptions once, or a log that fits. */
  ghost predicate InvFrom(m: Machine, env: Env, start: File) {
    && Inv(m, env)
    && (Shape(Load(start)) ==> Shaped(m))
    && (|Load(start).messages| <= 500 ==> MessagesOk(m))
  }

  lemma BootInvFrom(file: File, env: Env)
    ensures InvFrom(Boot(file), env, file)
  {
    BootInv(file, env);
    var messages := Load(file).messages;
    if |messages| <= 500 {
      assert Recent(Oldest(messages)) == messages;
    }
  }

  lemma StepShape(m: Machine, env: Env, event: Event)
    requires Shape(m.state) && Shape(Load(m.file)) && Enabled(m, event)
    ensures Shape(Step(m, env, event).state) && Shape(Load(Step(m, env, event).file))
  {
    match event
    case Receive(request) =>
      HandleIsClean(m, env, request);
      HandleShape(m, env, request);
    case Fire(id) =>
      assert Load(Write(m.state)) == m.state;
    case _ =>
  }

  lemma StepPostsOnce(m: Machine, env: Env, event: Event)
    requires Shape(m.state) && PostsOnce(m.history.published) && Enabled(m, event)
    ensures PostsOnce(Step(m, env, event).history.published)
  {
    match event
    case Receive(request) => HandleIsClean(m, env, request);
    case Fire(id) =>
      if Owner(m.timers[id].task).Some? {
        FireEmits(m, env, id);
        PublicationsPostOnce(m.state, env, m.timers[id].task.job, EventOf(m.timers[id].task), 0);
      }
    case _ =>
  }

  /** Every request, tick, firing and restart keeps the invariant, whatever the delays. */
  lemma StepInv(m: Machine, env: Env, event: Event)
    requires Inv(m, env) && Enabled(m, event)
    ensures Inv(Step(m, env, event), env)
  {
    StepSaveOk(m, env, event);
    StepStatesOk(m, env, event);
    StepLogOk(m, env, event);
    StepJobsOk(m, env, event);
    StepPublishedOk(m, env, event);
  }

  /** And what holds besides, from the same file. */
  lemma StepInvFrom(m: Machine, env: Env, start: File, event: Event)
    requires InvFrom(m, env, start) && Enabled(m, event)
    ensures InvFrom(Step(m, env, event), env, start)
  {
    StepInv(m, env, event);
    if Shape(Load(start)) {
      StepShape(m, env, event);
      StepPostsOnce(m, env, event);
    }
    if |Load(start).messages| <= 500 {
      StepMessagesOk(m, env, event);
    }
  }

  lemma {:induction false} RunInvFrom(m: Machine, env: Env, start: File, events: seq<Event>, end: Machine)
    requires InvFrom(m, env, start) && Reaches(m, env, events, end)
    ensures InvFrom(end, env, start)
    decreases events
  {
    if events != [] {
      StepInvFrom(m, env, start, events[0]);
      RunInvFrom(Step(m, env, events[0]), env, start, events[1..], end);
    }
  }

  lemma {:induction false} RunInv(m: Machine, env: Env, events: seq<Event>, end: Machine)
    requires Inv(m, env) && Reaches(m, env, events, end)
    ensures Inv(end, env)
    decreases events
  {
    if events != [] {
      StepInv(m, env, events[0]);
      RunInv(Step(m, env, events[0]), env, events[1..], end);
    }
  }

  /******* A message's events *******/

  /**
   In every run the send event comes out at most once and the others are, in their order, the first of those
   the outcome is due; all of them are out exactly when none of the job's timers is pending; and each target
   gets precisely the emitted events it wants.
   */
  lemma EventsComeOutOnce(file: File, env: Env, events: seq<Event>, end: Machine, k: nat)
    requires Reaches(Boot(file), env, events, end) && k in end.history.jobs
    ensures var job, emitted := end.history.jobs[k], Emitted(end.history.emitted, k);
            && Sends(emitted) <= 1 && Others(emitted) <= AfterSend(job.outcome)
            && (JobTimers(end.timers, k) == map[] <==> Sends(emitted) == 1 && Others(emitted) == AfterSend(job.outcome))
            && forall j :: 0 <= j < |job.targets| ==>
                 PublishedTo(end.history.published, k, j) == Matched(emitted, job.targets[j])
  {
    BootInv(file, env);
    RunInv(Boot(file), env, events, end);
    var job := end.history.jobs[k];
    assert JobOk(end.timers, end.history.emitted, job, DeliveryDelay(env));
    assert TargetsOk(end.history.emitted, end.history.published, job);
    ProgressIs(JobTimers(end.timers, k), Emitted(end.history.emitted, k), job, DeliveryDelay(env));
  }

  lemma HandleInOrder(m: Machine, env: Env, request: Request)
    requires Known(m.timers, m.nextId, m.history.jobs, m.history.emitted)
    requires InOrder(m.history.jobs, m.history.emitted)
    ensures InOrder(Handle(m, env, request).history.jobs, Handle(m, env, request).history.emitted)
  {
    HandleIsClean(m, env, request);
    if request.SendEmail? {
      SendEmailJob(m, env, request.email);
      if m.nextId !in m.history.jobs {
        NoneEmitted(m.history.emitted, m.nextId);
      }
    } else {
      OtherRequestsKeepJobs(m, env, request);
    }
  }

  lemma StepInOrder(m: Machine, env: Env, event: Event, slack: nat)
    requires Inv(m, env) && Enabled(m, event) && InOrder(m.history.jobs, m.history.emitted)
    requires DelayFits(env, slack) && (event.Fire? ==> NoneLate(m, slack))
    ensures InOrder(Step(m, env, event).history.jobs, Step(m, env, event).history.emitted)
  {
    match event
    case Receive(request) => HandleInOrder(m, env, request);
    case Fire(id) =>
      if Owner(m.timers[id].task).Some? {
        FireInOrder(m, env, slack, id);
        FireEmits(m, env, id);
      }
    case _ =>
  }

  lemma {:induction false} RunInOrder(m: Machine, env: Env, events: seq<Event>, end: Machine, slack: nat)
    requires Inv(m, env) && InOrder(m.history.jobs, m.history.emitted) && DelayFits(env, slack)
    requires Reaches(m, env, events, end) && OnTime(m, env, events, slack)
    ensures InOrder(end.history.jobs, end.history.emitted)
    decreases events
  {
    if events != [] {
      StepInv(m, env, events[0]);
      StepInOrder(m, env, events[0], slack);
      RunInOrder(Step(m, env, events[0]), env, events[1..], end, slack);
    }
  }

  /**
   In every run in which no timer is late by more than the slack when one fires, each message's events are a
   prefix of those it is due, all of them once none of its timers is pending, if the delay fits that slack.
   */
  lemma EventsComeInOrder(file: File, env: Env, events: seq<Event>, end: Machine, slack: nat, k: nat)
    requires Reaches(Boot(file), env, events, end) && k in end.history.jobs
    requires OnTime(Boot(file), env, events, slack) && DelayFits(env, slack)
    ensures var due, emitted := Expected(end.history.jobs[k].outcome), Emitted(end.history.emitted, k);
            emitted <= due && (emitted == due <==> JobTimers(end.timers, k) == map[])
  {
    BootInv(file, env);
    RunInOrder(Boot(file), env, events, end, slack);
    EventsComeOutOnce(file, env, events, end, k);
    var emitted := Emitted(end.history.emitted, k);
    assert SendFirst(emitted);
    SendFirstIs(emitted);
    if emitted == [] {
      assert Sends(emitted) == 0;
    } else {
      OneSend(emitted);
    }
  }

  lemma {:induction false} OneSend(events: seq<string>)
    requires SendFirst(events) && events != []
    ensures Sends(events) >= 1
  {
    AnySends(events);
  }

  /******* What a run leaves in memory and on disk *******/

  /**
   In every run, whatever the delays and the file it starts from: the file holds a state the run passed through,
   so a restart resumes from one; a single save is pending or the file is current; 200 quiet milliseconds with
   nothing overdue make it current; and the log is what was accepted since the last clear, newest first, cut to
   the last 500 once a message came in. From a file whose own log fits, it is never longer than that; from one
   without repeated topics and subscriptions, none ever repeats and no publish posts to an endpoint twice.
   */
  lemma EveryRunIsSound(file: File, env: Env, events: seq<Event>, end: Machine)
    requires Reaches(Boot(file), env, events, end)
    ensures Load(end.file) in end.history.states && Step(end, env, Restart).state == Load(end.file)
    ensures SavePending(end) || Load(end.file) == end.state
    ensures SavePending(end) ==> end.timers[end.saveTimer.value].task.Save?
    ensures forall id :: id in end.timers && end.timers[id].task.Save? ==> end.saveTimer == Some(id)
    ensures Quiet(end) ==> Load(end.file) == end.state
    ensures LogIs(end.state.messages, end.history.accepted)
    ensures |Load(file).messages| <= 500 ==> end.state.messages == Recent(end.history.accepted)
    ensures Shape(Load(file)) ==> Shape(end.state) && Shape(Load(end.file)) && PostsOnce(end.history.published)
  {
    BootInvFrom(file, env);
    RunInvFrom(Boot(file), env, file, events, end);
    if Quiet(end) {
      QuietIsSaved(end);
    }
  }

  /******* Draining *******/

  lemma {:induction false} Earliest(timers: map<nat, Timer>) returns (id: nat)
    requires timers != map[]
    ensures id in timers
    ensures forall other :: other in timers ==>
              timers[id].due < timers[other].due || (timers[id].due == timers[other].due && id <= other)
    decreases |timers|
  {
    var first :| first in timers;
    var rest := timers - {first};
    if rest == map[] {
      assert forall other :: other in timers && other != first ==> other in rest;
      id := first;
    } else {
      assert |rest| < |timers| by {
        assert rest.Keys == timers.Keys - {first};
      }
      var best := Earliest(rest);
      assert forall other :: other in timers && other != first ==> other in rest;
      id := if timers[first].due < timers[best].due || (timers[first].due == timers[best].due && first < best)
            then first else best;
    }
  }

  /** The outcome timers that will set a complaint timer. */
  function Complainers(timers: map<nat, Timer>): set<nat> {
    set id | id in timers && LeadsToComplaint(timers[id].task)
  }

  function Work(timers: map<nat, Timer>): nat {
    |timers.Keys| + |Complainers(timers)|
  }

  lemma WorkShrinks(timers: map<nat, Timer>, after: map<nat, Timer>, id: nat)
    requires id in timers && id !in Complainers(timers) && after == timers - {id}
    ensures Work(after) < Work(timers)
  {
    assert after.Keys == timers.Keys - {id};
    assert Complainers(after) == Complainers(timers);
  }

  lemma WorkTurnsSimpler(timers: map<nat, Timer>, after: map<nat, Timer>, id: nat, next: nat, t: Timer)
    requires id in timers && id in Complainers(timers) && next !in timers
    requires t.task.EmitComplaint? && after == (timers - {id})[next := t]
    ensures Work(after) < Work(timers)
  {
    assert after.Keys == (timers.Keys - {id}) + {next};
    assert Complainers(after) == Complainers(timers) - {id};
  }

  lemma FireShrinks(m: Machine, env: Env, id: nat)
    requires id in m.timers && m.nextId !in m.timers
    ensures Work(Step(m, env, Fire(id)).timers) < Work(m.timers)
  {
    var after := Step(m, env, Fire(id)).timers;
    var task := m.timers[id].task;
    if LeadsToComplaint(task) {
      WorkTurnsSimpler(m.timers, after, id, m.nextId,
                       Timer(m.now + DeliveryDelay(env), DeliveryDelay(env), EmitComplaint(task.job)));
    } else {
      WorkShrinks(m.timers, after, id);
    }
  }

  lemma FireKeeps(m: Machine, env: Env, id: nat)
    requires id in m.timers
    ensures Step(m, env, Fire(id)).state == m.state && Step(m, env, Fire(id)).history.jobs == m.history.jobs
  {
  }

  /** How long to wait for the timer due earliest, which may then fire. */
  lemma NextInTurn(m: Machine, env: Env) returns (wait: nat, id: nat)
    requires InLists(m.timers, m.now) && m.timers != map[]
    ensures id in m.timers && MayFire(Step(m, env, Tick(wait)), id) && InTurn(Step(m, env, Tick(wait)), id, None)
  {
    id := Earliest(m.timers);
    wait := if m.timers[id].due <= m.now then 0 else m.timers[id].due - m.now;
    FirstOfItsList(m.timers, m.now, id);
  }

  /** The machine after waiting for it and firing it. */
  lemma FireEarliest(m: Machine, env: Env) returns (wait: nat, id: nat)
    requires Inv(m, env) && m.timers != map[]
    ensures var waited := Step(m, env, Tick(wait)); MayFire(waited, id) && InTurn(waited, id, None)
    ensures var after := Step(Step(m, env, Tick(wait)), env, Fire(id));
            && Inv(after, env) && Work(after.timers) < Work(m.timers)
            && after.state == m.state && after.history.jobs == m.history.jobs
  {
    wait, id := NextInTurn(m, env);
    var waited := Step(m, env, Tick(wait));
    StepInv(m, env, Tick(wait));
    StepInv(waited, env, Fire(id));
    assert waited.timers == m.timers && m.nextId !in m.timers;
    FireShrinks(waited, env, id);
    FireKeeps(waited, env, id);
  }

  lemma FirstOfItsList(timers: map<nat, Timer>, now: nat, id: nat)
    requires InLists(timers, now) && id in timers
    requires forall other :: other in timers ==>
               timers[id].due < timers[other].due || (timers[id].due == timers[other].due && id <= other)
    ensures forall other :: other in timers && other < id ==> timers[other].duration != timers[id].duration
  {
  }

  lemma ReachesMore(m: Machine, env: Env, event: Event, events: seq<Event>, end: Machine)
    requires Enabled(m, event) && Reaches(Step(m, env, event), env, events, end)
    ensures Reaches(m, env, [event] + events, end)
  {
    assert ([event] + events)[1..] == events;
  }

  lemma EarliestMore(m: Machine, env: Env, event: Event, events: seq<Event>, list: Option<nat>)
    requires Enabled(m, event) && (event.Fire? ==> InTurn(m, event.id, list))
    requires EarliestListFirst(Step(m, env, event), env, events, ListAfter(m, event))
    ensures EarliestListFirst(m, env, [event] + events, list)
  {
    assert ([event] + events)[1..] == events;
  }

  /** The wait and the firing in front of a run. */
  lemma WaitAndFire(
      m: Machine, env: Env, wait: nat, id: nat, later: seq<Event>, end: Machine, list: Option<nat>)
    returns (events: seq<Event>)
    requires MayFire(Step(m, env, Tick(wait)), id) && InTurn(Step(m, env, Tick(wait)), id, None)
    requires Reaches(Step(Step(m, env, Tick(wait)), env, Fire(id)), env, later, end)
    requires EarliestListFirst(Step(Step(m, env, Tick(wait)), env, Fire(id)), env, later,
                               ListAfter(Step(m, env, Tick(wait)), Fire(id)))
    ensures Reaches(m, env, events, end) && EarliestListFirst(m, env, events, list)
    ensures events == [Tick(wait)] + ([Fire(id)] + later)
  {
    var waited := Step(m, env, Tick(wait));
    ReachesMore(waited, env, Fire(id), later, end);
    EarliestMore(waited, env, Fire(id), later, None);
    ReachesMore(m, env, Tick(wait), [Fire(id)] + later, end);
    EarliestMore(m, env, Tick(wait), [Fire(id)] + later, list);
    events := [Tick(wait)] + ([Fire(id)] + later);
  }

  /** A run of nothing but waiting and firing, after which no timer is pending. */
  ghost predicate Drains(m: Machine, env: Env, events: seq<Event>, end: Machine, list: Option<nat>) {
    && Reaches(m, env, events, end) && EarliestListFirst(m, env, events, list) && end.timers == map[]
    && (forall e :: e in events ==> e.Tick? || e.Fire?)
    && end.state == m.state && end.history.jobs == m.history.jobs
  }

  /** Left alone, the emulator always reaches a point where no timer is pending. */
  lemma {:induction false} Drain(m: Machine, env: Env, list: Option<nat>) returns (events: seq<Event>, end: Machine)
    requires Inv(m, env)
    ensures Drains(m, env, events, end, list)
    decreases Work(m.timers), 1
  {
    if m.timers == map[] {
      events, end := [], m;
    } else {
      var wait, id := FireEarliest(m, env);
      events, end := DrainOn(m, env, wait, id, list);
    }
  }

  lemma {:induction false} DrainOn(m: Machine, env: Env, wait: nat, id: nat, list: Option<nat>)
    returns (events: seq<Event>, end: Machine)
    requires MayFire(Step(m, env, Tick(wait)), id) && InTurn(Step(m, env, Tick(wait)), id, None)
    requires var fired := Step(Step(m, env, Tick(wait)), env, Fire(id));
             && Inv(fired, env) && Work(fired.timers) < Work(m.timers)
             && fired.state == m.state && fired.history.jobs == m.history.jobs
    ensures Drains(m, env, events, end, list)
    decreases Work(m.timers), 0
  {
    var waited := Step(m, env, Tick(wait));
    var later: seq<Event>;
    later, end := Drain(Step(waited, env, Fire(id)), env, ListAfter(waited, Fire(id)));
    events := WaitAndFire(m, env, wait, id, later, end, list);
  }

  /** Nothing but time passing and timers firing. */
  ghost predicate OnlyTime(events: seq<Event>) {
    forall e :: e in events ==> e.Tick? || e.Fire?
  }

  function Fires(events: seq<Event>): nat {
    if events == [] then 0 else (if events[0].Fire? then 1 else 0) + Fires(events[1..])
  }

  lemma StepInTime(m: Machine, env: Env, event: Event)
    requires Inv(m, env) && Enabled(m, event) && (event.Tick? || event.Fire?)
    ensures var after := Step(m, env, event);
            && Inv(after, env) && after.state == m.state && after.history.jobs == m.history.jobs
            && Work(after.timers) + (if event.Fire? then 1 else 0) <= Work(m.timers)
  {
    StepInv(m, env, event);
    if event.Fire? {
      FireShrinks(m, env, event.id);
      FireKeeps(m, env, event.id);
    }
  }

  lemma {:induction false} RunInTime(m: Machine, env: Env, later: seq<Event>, end: Machine)
    requires Inv(m, env) && Reaches(m, env, later, end) && OnlyTime(later)
    ensures Inv(end, env) && end.state == m.state && end.history.jobs == m.history.jobs
    ensures Fires(later) + Work(end.timers) <= Work(m.timers)
    decreases later
  {
    if later != [] {
      assert later[0] in later && OnlyTime(later[1..]);
      StepInTime(m, env, later[0]);
      RunInTime(Step(m, env, later[0]), env, later[1..], end);
    }
  }

  /** Every event of the job is out, each once. */
  ghost predicate AllOut(m: Machine, k: nat)
    requires k in m.history.jobs
  {
    && Sends(Emitted(m.history.emitted, k)) == 1
    && Others(Emitted(m.history.emitted, k)) == AfterSend(m.history.jobs[k].outcome)
  }

  /**
   From any point of any run, in whatever way time goes on: only so many timers fire as there is work pending;
   nothing else changes; once none of a message's timers is pending all its events are out, each once; and once
   no save is pending the file holds the state.
   */
  lemma EverythingComesOut(file: File, env: Env, events: seq<Event>, m: Machine, later: seq<Event>, end: Machine)
    requires Reaches(Boot(file), env, events, m)
    requires Reaches(m, env, later, end) && OnlyTime(later)
    ensures Fires(later) + Work(end.timers) <= Work(m.timers)
    ensures end.state == m.state && end.history.jobs == m.history.jobs
    ensures forall k :: k in m.history.jobs ==> (AllOut(end, k) <==> JobTimers(end.timers, k) == map[])
    ensures SavePending(end) || Load(end.file) == m.state
  {
    BootInv(file, env);
    RunInv(Boot(file), env, events, m);
    RunInTime(m, env, later, end);
    forall k | k in m.history.jobs
      ensures AllOut(end, k) <==> JobTimers(end.timers, k) == map[]
    {
      assert JobOk(end.timers, end.history.emitted, end.history.jobs[k], DeliveryDelay(env));
      ProgressIs(JobTimers(end.timers, k), Emitted(end.history.emitted, k), end.history.jobs[k], DeliveryDelay(env));
    }
  }

  /** And time can always go on, in the order of Node's lists, until no timer is pending and so everything is out. */
  lemma TimeBringsEverything(file: File, env: Env, events: seq<Event>, m: Machine)
    returns (later: seq<Event>, end: Machine)
    requires Reaches(Boot(file), env, events, m)
    ensures Reaches(m, env, later, end) && OnlyTime(later) && EarliestListFirst(m, env, later, None)
    ensures end.timers == map[] && end.history.jobs == m.history.jobs
    ensures forall k :: k in m.history.jobs ==> AllOut(end, k)
    ensures Load(end.file) == m.state == end.state
  {
    BootInv(file, env);
    RunInv(Boot(file), env, events, m);
    later, end := Drain(m, env, None);
    EverythingComesOut(file, env, events, m, later, end);
    forall k | k in m.history.jobs
      ensures JobTimers(end.timers, k) == map[]
    {
    }
  }

  /******* Outcomes *******/

  function Severity(outcome: Outcome): nat {
    match outcome
    case Delivered => 0
    case Complained => 1
    case Bounced => 2
    case Suppressed => 3
  }

  /** Adding recipients can only make the outcome worse, and exactly as bad as the worst of both lists. */
  lemma OutcomeIsTheWorst(a: seq<string>, b: seq<string>)
    ensures Severity(OutcomeFor(a + b)) ==
            if Severity(OutcomeFor(a)) < Severity(OutcomeFor(b)) then Severity(OutcomeFor(b))
            else Severity(OutcomeFor(a))
  {
    AsksOfBoth(a, b, "suppressionlist");
    AsksOfBoth(a, b, "bounce");
    AsksOfBoth(a, b, "complaint");
  }

  lemma AsksOfBoth(a: seq<string>, b: seq<string>, local: string)
    ensures Asks(a + b, local) <==> Asks(a, local) || Asks(b, local)
  {
    if i :| 0 <= i < |a| && AsksFor(a[i], local) {
      assert AsksFor((a + b)[i], local);
    }
    if i :| 0 <= i < |b| && AsksFor(b[i], local) {
      assert AsksFor((a + b)[|a| + i], local);
    }
  }

  /** Addresses are compared without case. */
  lemma OutcomeIgnoresCase(a: seq<string>, b: seq<string>)
    requires |a| == |b| && forall i :: 0 <= i < |a| ==> Lower(a[i]) == Lower(b[i])
    ensures OutcomeFor(a) == OutcomeFor(b)
  {
    AsksIgnoresCase(a, b, "suppressionlist");
    AsksIgnoresCase(a, b, "bounce");
    AsksIgnoresCase(a, b, "complaint");
  }

  lemma AsksIgnoresCase(a: seq<string>, b: seq<string>, local: string)
    requires |a| == |b| && forall i :: 0 <= i < |a| ==> Lower(a[i]) == Lower(b[i])
    ensures Asks(a, local) <==> Asks(b, local)
  {
    if i :| 0 <= i < |a| && AsksFor(a[i], local) {
      assert AsksFor(b[i], local);
    }
    if i :| 0 <= i < |b| && AsksFor(b[i], local) {
      assert AsksFor(a[i], local);
    }
  }

  /******* From configuration to targets *******/

  ghost predicate NamesDistinct(destinations: seq<EventDestination>) {
    forall i, j :: 0 <= i < j < |destinations| ==> destinations[i].name != destinations[j].name
  }

  /** Putting a destination replaces the one of its name where it stands, or adds it at the end; the rest stay. */
  lemma {:induction false} PutByNameIs(destinations: seq<EventDestination>, d: EventDestination)
    requires NamesDistinct(destinations)
    ensures var after := PutByName(destinations, d);
            && NamesDistinct(after) && |destinations| <= |after| <= |destinations| + 1
            && (forall i :: 0 <= i < |destinations| ==>
                  after[i] == if destinations[i].name == d.name then d else destinations[i])
            && (|after| > |destinations| <==> forall i :: 0 <= i < |destinations| ==> destinations[i].name != d.name)
            && (|after| > |destinations| ==> after[|destinations|] == d)
    decreases destinations
  {
    if destinations != [] && destinations[0].name != d.name {
      var tail := destinations[1..];
      PutByNameIs(tail, d);
      var rest, after := PutByName(tail, d), PutByName(destinations, d);
      assert forall i :: 0 < i < |destinations| ==> destinations[i] == tail[i - 1];
      assert forall i :: 0 < i < |after| ==> after[i] == rest[i - 1];
    }
  }

  /** The targets are the enabled destinations that have a topic, and no others. */
  lemma {:induction false} TargetsAre(destinations: seq<EventDestination>, t: Target)
    ensures t in TargetsOf(destinations) <==>
            exists i :: 0 <= i < |destinations| && IsTarget(destinations[i], t)
    decreases destinations
  {
    if destinations != [] {
      var tail := destinations[1..];
      TargetsAre(tail, t);
      assert t in TargetOf(destinations[0]) <==> IsTarget(destinations[0], t);
      if i :| 0 <= i < |tail| && IsTarget(tail[i], t) {
        assert IsTarget(destinations[i + 1], t);
      }
      if i :| 0 < i < |destinations| && IsTarget(destinations[i], t) {
        assert IsTarget(tail[i - 1], t);
      }
    }
  }

  predicate IsTarget(d: EventDestination, t: Target) {
    d.enabled && d.topicArn == Some(t.arn) && t.arn != "" && d.types == t.types
  }

  /**
   An accepted email whose configuration set has a target gets a job with its outcome and all of them; one
   without gets the fallback as its one target, matching every event, or no job when there is none.
   */
  lemma EmailGetsItsJob(m: Machine, env: Env, email: Email)
    requires m.nextId !in m.history.jobs
    ensures var jobs := HandleSendEmail(m, env, email).history.jobs;
            var targets := TargetsOf(DestinationsOf(m.state, OrElse(email.configurationSet, "")));
            && (m.nextId in jobs <==> targets != [] || env.fallback.Some?)
            && (m.nextId in jobs ==>
                  && jobs[m.nextId].outcome == OutcomeFor(Recipients(email))
                  && (targets != [] ==> jobs[m.nextId].targets == targets)
                  && (targets == [] ==> jobs[m.nextId].targets == [Target("local", [])]))
            && forall k :: k != m.nextId ==> (k in jobs <==> k in m.history.jobs)
  {
    var message := MessageOf(email, m.nextId, m.now);
    var m1 := AddMessage(m, message);
    assert DestinationsOf(m1.state, OrElse(email.configurationSet, "")) ==
           DestinationsOf(m.state, OrElse(email.configurationSet, ""));
    assert m1.history.jobs == m.history.jobs;
  }
}
