/**
 The events of a message. In every run, whatever the delays, the send event and the others each come out
 once, the others in their order; and no event comes before the send unless some timer runs too late.
 */
module EmulatorEvents {
  import opened Options
  import opened Text
  import opened EmulatorModel
  import opened EmulatorSafety

  /** The events a message with this outcome is due. */
  function Expected(outcome: Outcome): seq<string> {
    ["Send"] + AfterSend(outcome)
  }

  function AfterSend(outcome: Outcome): seq<string> {
    match outcome
    case Delivered => ["Delivery"]
    case Bounced => ["Bounce"]
    case Suppressed => ["Bounce"]
    case Complained => ["Delivery", "Complaint"]
  }

  /** How often the send event is among these. */
  function Sends(events: seq<string>): nat {
    if events == [] then 0 else Sends(events[..|events| - 1]) + (if events[|events| - 1] == "Send" then 1 else 0)
  }

  /** All but the send events. */
  function Others(events: seq<string>): seq<string> {
    if events == [] then []
    else Others(events[..|events| - 1]) + (if events[|events| - 1] == "Send" then [] else [events[|events| - 1]])
  }

  lemma OneMore(events: seq<string>, e: string)
    ensures Sends(events + [e]) == Sends(events) + if e == "Send" then 1 else 0
    ensures Others(events + [e]) == Others(events) + if e == "Send" then [] else [e]
  {
    assert (events + [e])[..|events|] == events;
  }

  /** No event before the send. */
  predicate SendFirst(events: seq<string>) {
    events != [] ==> events[0] == "Send"
  }

  lemma {:induction false} SendFirstIs(events: seq<string>)
    requires SendFirst(events) && Sends(events) <= 1
    ensures events == [] || events == ["Send"] + Others(events)
    decreases events
  {
    if events != [] {
      var front, last := events[..|events| - 1], events[|events| - 1];
      assert events == front + [last];
      if front == [] {
        assert Others(front) == [];
      } else {
        assert front[0] == events[0];
        SendFirstIs(front);
        AnySends(front);
      }
    }
  }

  lemma {:induction false} AnySends(events: seq<string>)
    requires events != [] && events[0] == "Send"
    ensures Sends(events) >= 1
    decreases events
  {
    if |events| > 1 {
      AnySends(events[..|events| - 1]);
    } else {
      assert events[..0] == [];
    }
  }

  /** The events emitted so far for one job, in order. */
  function Emitted(log: seq<Emission>, job: nat): seq<string> {
    if log == [] then []
    else
      var last := log[|log| - 1];
      Emitted(log[..|log| - 1], job) + (if last.job == job then [last.event] else [])
  }

  lemma EmittedAppend(log: seq<Emission>, e: Emission, job: nat)
    ensures Emitted(log + [e], job) == Emitted(log, job) + if e.job == job then [e.event] else []
  {
    assert (log + [e])[..|log|] == log;
  }

  /** The job a timer belongs to. */
  function Owner(task: Task): Option<nat> {
    match task
    case EmitSend(job) => Some(job.id)
    case EmitOutcome(job) => Some(job.id)
    case EmitComplaint(job) => Some(job.id)
    case _ => None
  }

  function JobTimers(timers: map<nat, Timer>, job: nat): map<nat, Timer> {
    map id | id in timers && Owner(timers[id].task) == Some(job) :: timers[id]
  }

  lemma JobTimersDrop(timers: map<nat, Timer>, id: nat, job: nat)
    ensures JobTimers(timers - {id}, job) == JobTimers(timers, job) - {id}
  {
  }

  lemma JobTimersPut(timers: map<nat, Timer>, id: nat, t: Timer, job: nat)
    requires id !in timers
    ensures JobTimers(timers[id := t], job) ==
            if Owner(t.task) == Some(job) then JobTimers(timers, job)[id := t] else JobTimers(timers, job)
  {
  }

  function Ids(id: Option<nat>): set<nat> {
    match id
    case Some(i) => {i}
    case None => {}
  }

  /** A job's send timer, if it is still pending. */
  ghost predicate SendStage(pending: map<nat, Timer>, emitted: seq<string>, job: Job, send: Option<nat>) {
    match send
    case None => Sends(emitted) == 1
    case Some(id) =>
      && Sends(emitted) == 0 && id in pending
      && pending[id].task == EmitSend(job) && pending[id].duration == SEND_DELAY
  }

  /** The timer of the job's other events, if there is one left to come. */
  ghost predicate LaterStage(pending: map<nat, Timer>, emitted: seq<string>, job: Job, delay: nat, later: Option<nat>) {
    match later
    case None => Others(emitted) == AfterSend(job.outcome)
    case Some(id) =>
      && id in pending && pending[id].duration == delay
      && if pending[id].task == EmitOutcome(job) then Others(emitted) == []
         else pending[id].task == EmitComplaint(job) && job.outcome.Complained? && Others(emitted) == ["Delivery"]
  }

  /** The send timer was set with the outcome timer, and before it. */
  ghost predicate Spaced(pending: map<nat, Timer>, delay: nat, send: Option<nat>, later: Option<nat>) {
    send.Some? && later.Some? && send.value in pending && later.value in pending ==>
      && send.value < later.value
      && (pending[later.value].task.EmitOutcome? ==>
            pending[later.value].due + SEND_DELAY == pending[send.value].due + delay)
  }

  ghost predicate Stage(
      pending: map<nat, Timer>, emitted: seq<string>, job: Job, delay: nat, send: Option<nat>, later: Option<nat>)
  {
    && pending.Keys == Ids(send) + Ids(later)
    && SendStage(pending, emitted, job, send) && LaterStage(pending, emitted, job, delay, later)
    && Spaced(pending, delay, send, later)
  }

  /** How far a job has come, told by its pending timers and its emitted events. */
  ghost predicate Progress(pending: map<nat, Timer>, emitted: seq<string>, job: Job, delay: nat) {
    exists send, later :: Stage(pending, emitted, job, delay, send, later)
  }

  /** What that says: the send at most once, the others in order, and all of them once no timer is left. */
  lemma ProgressIs(pending: map<nat, Timer>, emitted: seq<string>, job: Job, delay: nat)
    requires Progress(pending, emitted, job, delay)
    ensures Sends(emitted) <= 1 && Others(emitted) <= AfterSend(job.outcome)
    ensures pending == map[] <==> Sends(emitted) == 1 && Others(emitted) == AfterSend(job.outcome)
  {
    var send, later :| Stage(pending, emitted, job, delay, send, later);
    if later.Some? {
      assert later.value in pending;
    }
    if send.Some? {
      assert send.value in pending;
    }
  }

  ghost predicate JobOk(timers: map<nat, Timer>, emitted: seq<Emission>, job: Job, delay: nat) {
    Progress(JobTimers(timers, job.id), Emitted(emitted, job.id), job, delay)
  }

  /** Bookkeeping: ids below the counter, and no timer or emission of an unknown job. */
  ghost predicate Known(timers: map<nat, Timer>, nextId: nat, jobs: map<nat, Job>, emitted: seq<Emission>) {
    && (forall id :: id in timers ==> id < nextId)
    && (forall k :: k in jobs ==> k < nextId && jobs[k].id == k)
    && (forall id {:trigger Owner(timers[id].task)} :: id in timers && Owner(timers[id].task).Some? ==>
          Owner(timers[id].task).value in jobs && timers[id].task.job == jobs[Owner(timers[id].task).value])
    && (forall i :: 0 <= i < |emitted| ==> emitted[i].job in jobs)
  }

  ghost predicate JobsFit(
      timers: map<nat, Timer>, nextId: nat, jobs: map<nat, Job>, emitted: seq<Emission>, delay: nat)
  {
    Known(timers, nextId, jobs, emitted) &&
    forall k {:trigger JobOk(timers, emitted, jobs[k], delay)} :: k in jobs ==> JobOk(timers, emitted, jobs[k], delay)
  }

  ghost predicate JobsOk(m: Machine, env: Env) {
    JobsFit(m.timers, m.nextId, m.history.jobs, m.history.emitted, DeliveryDelay(env))
  }

  lemma {:induction false} NoneEmitted(log: seq<Emission>, job: nat)
    requires forall i :: 0 <= i < |log| ==> log[i].job != job
    ensures Emitted(log, job) == []
    decreases log
  {
    if log != [] {
      NoneEmitted(log[..|log| - 1], job);
    }
  }

  lemma FitLater(
      timers: map<nat, Timer>, nextId: nat, jobs: map<nat, Job>, emitted: seq<Emission>, delay: nat, later: nat)
    requires JobsFit(timers, nextId, jobs, emitted, delay) && nextId <= later
    ensures JobsFit(timers, later, jobs, emitted, delay)
  {
    forall k | k in jobs
      ensures JobOk(timers, emitted, jobs[k], delay)
    {
    }
  }

  lemma KnownPut(timers: map<nat, Timer>, nextId: nat, jobs: map<nat, Job>, emitted: seq<Emission>, t: Timer)
    requires Known(timers, nextId, jobs, emitted) && Owner(t.task).None?
    ensures Known(timers[nextId := t], nextId + 1, jobs, emitted)
  {
  }

  lemma JobOkPut(timers: map<nat, Timer>, id: nat, emitted: seq<Emission>, delay: nat, t: Timer, job: Job)
    requires JobOk(timers, emitted, job, delay) && id !in timers && Owner(t.task).None?
    ensures JobOk(timers[id := t], emitted, job, delay)
  {
    JobTimersPut(timers, id, t, job.id);
  }

  /** A new timer that belongs to no job leaves every job's timers alone. */
  lemma FitPut(
      timers: map<nat, Timer>, nextId: nat, jobs: map<nat, Job>, emitted: seq<Emission>, delay: nat, t: Timer)
    requires JobsFit(timers, nextId, jobs, emitted, delay) && Owner(t.task).None?
    ensures JobsFit(timers[nextId := t], nextId + 1, jobs, emitted, delay)
  {
    KnownPut(timers, nextId, jobs, emitted, t);
    forall k | k in jobs
      ensures JobOk(timers[nextId := t], emitted, jobs[k], delay)
    {
      JobOkPut(timers, nextId, emitted, delay, t, jobs[k]);
    }
  }

  /** So does dropping one. */
  lemma FitDrop(
      timers: map<nat, Timer>, nextId: nat, jobs: map<nat, Job>, emitted: seq<Emission>, delay: nat, id: nat)
    requires JobsFit(timers, nextId, jobs, emitted, delay)
    requires id in timers ==> Owner(timers[id].task).None?
    ensures JobsFit(timers - {id}, nextId, jobs, emitted, delay)
  {
    forall k | k in jobs
      ensures JobOk(timers - {id}, emitted, jobs[k], delay)
    {
      JobTimersDrop(timers, id, k);
      assert JobTimers(timers, k) - {id} == JobTimers(timers, k);
      assert JobOk(timers, emitted, jobs[k], delay);
    }
  }

  lemma NoTimers(timers: map<nat, Timer>, nextId: nat, jobs: map<nat, Job>, emitted: seq<Emission>, job: nat)
    requires Known(timers, nextId, jobs, emitted) && job !in jobs
    ensures JobTimers(timers, job) == map[] && Emitted(emitted, job) == []
  {
    NoneEmitted(emitted, job);
  }

  /** The timers with a new job's two, set in this order at the same moment. */
  function WithBoth(timers: map<nat, Timer>, nextId: nat, job: Job, delay: nat, now: nat): map<nat, Timer> {
    timers[nextId := Timer(now + SEND_DELAY, SEND_DELAY, EmitSend(job))]
          [nextId + 1 := Timer(now + delay, delay, EmitOutcome(job))]
  }

  lemma FirstStage(job: Job, delay: nat, id: nat, now: nat)
    ensures Progress(WithBoth(map[], id, job, delay, now), [], job, delay)
  {
    assert Stage(WithBoth(map[], id, job, delay, now), [], job, delay, Some(id), Some(id + 1));
  }

  lemma JobTimersBoth(timers: map<nat, Timer>, nextId: nat, job: Job, delay: nat, now: nat, k: nat)
    requires nextId !in timers && nextId + 1 !in timers
    ensures JobTimers(WithBoth(timers, nextId, job, delay, now), k) ==
            if k == job.id then WithBoth(JobTimers(timers, k), nextId, job, delay, now) else JobTimers(timers, k)
  {
    var send := Timer(now + SEND_DELAY, SEND_DELAY, EmitSend(job));
    JobTimersPut(timers, nextId, send, k);
    JobTimersPut(timers[nextId := send], nextId + 1, Timer(now + delay, delay, EmitOutcome(job)), k);
  }

  lemma KnownBoth(
      timers: map<nat, Timer>, nextId: nat, jobs: map<nat, Job>, emitted: seq<Emission>, delay: nat, job: Job, now: nat)
    requires Known(timers, nextId, jobs, emitted) && job.id < nextId && job.id !in jobs
    ensures Known(WithBoth(timers, nextId, job, delay, now), nextId + 2, jobs[job.id := job], emitted)
  {
  }

  lemma NewJobOk(
      timers: map<nat, Timer>, nextId: nat, jobs: map<nat, Job>, emitted: seq<Emission>, delay: nat, job: Job, now: nat)
    requires Known(timers, nextId, jobs, emitted) && job.id !in jobs
    ensures JobOk(WithBoth(timers, nextId, job, delay, now), emitted, job, delay)
  {
    NoTimers(timers, nextId, jobs, emitted, job.id);
    FirstStage(job, delay, nextId, now);
    assert nextId !in timers && nextId + 1 !in timers;
    JobTimersBoth(timers, nextId, job, delay, now, job.id);
  }

  lemma OldJobOk(timers: map<nat, Timer>, nextId: nat, emitted: seq<Emission>, delay: nat, job: Job, now: nat,
          earlier: Job)
    requires nextId !in timers && nextId + 1 !in timers && earlier.id != job.id &&
             JobOk(timers, emitted, earlier, delay)
    ensures JobOk(WithBoth(timers, nextId, job, delay, now), emitted, earlier, delay)
  {
    JobTimersBoth(timers, nextId, job, delay, now, earlier.id);
  }

  /** A new job with its two timers. */
  lemma FitJob(
      timers: map<nat, Timer>, nextId: nat, jobs: map<nat, Job>, emitted: seq<Emission>, delay: nat, job: Job, now: nat)
    requires JobsFit(timers, nextId, jobs, emitted, delay) && job.id < nextId && job.id !in jobs
    ensures JobsFit(WithBoth(timers, nextId, job, delay, now), nextId + 2, jobs[job.id := job], emitted, delay)
  {
    var more := jobs[job.id := job];
    KnownBoth(timers, nextId, jobs, emitted, delay, job, now);
    NewJobOk(timers, nextId, jobs, emitted, delay, job, now);
    forall k | k in more
      ensures JobOk(WithBoth(timers, nextId, job, delay, now), emitted, more[k], delay)
    {
      if k != job.id {
        OldJobOk(timers, nextId, emitted, delay, job, now, jobs[k]);
      }
    }
  }

  /** Whatever timer the save timer's id still names, it is a save. */
  ghost predicate SaveTimerOk(m: Machine) {
    m.saveTimer.Some? && m.saveTimer.value in m.timers ==> m.timers[m.saveTimer.value].task.Save?
  }

  lemma PersistJobsOk(m: Machine, env: Env)
    requires JobsOk(m, env) && SaveTimerOk(m)
    ensures JobsOk(Persist(m), env) && Persist(m).history.jobs == m.history.jobs && m.nextId <= Persist(m).nextId
  {
    var cleared := if m.saveTimer.Some? then m.timers - {m.saveTimer.value} else m.timers;
    if m.saveTimer.Some? {
      FitDrop(m.timers, m.nextId, m.history.jobs, m.history.emitted, DeliveryDelay(env), m.saveTimer.value);
    }
    FitPut(cleared, m.nextId, m.history.jobs, m.history.emitted, DeliveryDelay(env),
           Timer(m.now + SAVE_DELAY, SAVE_DELAY, Save));
  }

  lemma AddMessageJobsOk(m: Machine, env: Env, message: Message)
    requires JobsOk(m, env) && SaveTimerOk(m)
    ensures JobsOk(AddMessage(m, message), env) && AddMessage(m, message).history.jobs == m.history.jobs
    ensures m.nextId < AddMessage(m, message).nextId
  {
    FitLater(m.timers, m.nextId, m.history.jobs, m.history.emitted, DeliveryDelay(env), m.nextId + 1);
    PersistJobsOk(m.(nextId := m.nextId + 1, history := m.history.(accepted := m.history.accepted + [message]),
                     state := m.state.(messages := Capped([message] + m.state.messages))), env);
  }

  /** A message with targets gets its two timers. */
  lemma EmitEventsJobsOk(m: Machine, env: Env, message: Message, targets: seq<Target>)
    requires JobsOk(m, env) && message.id < m.nextId && message.id !in m.history.jobs
    ensures JobsOk(EmitEvents(m, env, message, targets), env)
  {
    if targets != [] || env.fallback.Some? {
      var job := Job(message.id, message.outcome, if targets == [] then [Target("local", [])] else targets);
      FitJob(m.timers, m.nextId, m.history.jobs, m.history.emitted, DeliveryDelay(env), job, m.now);
    }
  }

  lemma AnnounceJobsOk(m: Machine, env: Env, message: Message)
    requires JobsOk(m, env) && message.id < m.nextId && message.id !in m.history.jobs
    ensures JobsOk(Announce(m, env, message), env)
  {
    var targets := TargetsOf(DestinationsOf(m.state, OrElse(message.configurationSet, "")));
    EmitEventsJobsOk(m, env, message, targets);
  }

  lemma SendEmailJobsOk(m: Machine, env: Env, email: Email)
    requires JobsOk(m, env) && SaveTimerOk(m)
    ensures JobsOk(HandleSendEmail(m, env, email), env)
  {
    var message := MessageOf(email, m.nextId, m.now);
    AddMessageJobsOk(m, env, message);
    AnnounceJobsOk(AddMessage(m, message), env, message);
  }

  lemma AddSubscriptionJobsOk(m: Machine, env: Env, arn: string, protocol: string, endpoint: string)
    requires JobsOk(m, env) && SaveTimerOk(m)
    ensures JobsOk(AddSubscription(m, arn, protocol, endpoint), env)
  {
    FitLater(m.timers, m.nextId, m.history.jobs, m.history.emitted, DeliveryDelay(env), m.nextId + 1);
    PersistJobsOk(m.(nextId := m.nextId + 1, state := AddSubscription(m, arn, protocol, endpoint).state), env);
  }

  lemma SubscribeJobsOk(m: Machine, env: Env, arn: string, protocol: string, endpoint: string)
    requires JobsOk(m, env) && SaveTimerOk(m)
    ensures JobsOk(HandleSubscribe(m, arn, protocol, endpoint), env)
  {
    var subscribed := AddSubscription(m, arn, protocol, endpoint);
    AddSubscriptionJobsOk(m, env, arn, protocol, endpoint);
    if StartsWith(protocol, "http") {
      FitPut(subscribed.timers, subscribed.nextId, subscribed.history.jobs, subscribed.history.emitted,
             DeliveryDelay(env),
             Timer(subscribed.now + CONFIRM_DELAY, CONFIRM_DELAY, Confirm(arn, endpoint)));
    }
  }

  lemma HandleJobsOk(m: Machine, env: Env, request: Request)
    requires JobsOk(m, env) && SaveTimerOk(m)
    ensures JobsOk(Handle(m, env, request), env)
  {
    match request
    case SendEmail(email) => SendEmailJobsOk(m, env, email);
    case Subscribe(arn, protocol, endpoint) => SubscribeJobsOk(m, env, arn, protocol, endpoint);
    case Query =>
    case _ =>
      HandleSaves(m, env, request);
      PersistJobsOk(BeforeSaving(m, env, request), env);
  }

  /******* Firing *******/

  /** The event a job's timer emits. */
  function EventOf(task: Task): string
    requires Owner(task).Some?
  {
    match task
    case EmitSend(_) => "Send"
    case EmitOutcome(job) => if job.outcome.Bounced? || job.outcome.Suppressed? then "Bounce" else "Delivery"
    case _ => "Complaint"
  }

  predicate LeadsToComplaint(task: Task) {
    task.EmitOutcome? && task.job.outcome.Complained?
  }

  /** The timers it sets. */
  function SetBy(m: Machine, env: Env, task: Task): map<nat, Timer> {
    if LeadsToComplaint(task)
    then map[m.nextId := Timer(m.now + DeliveryDelay(env), DeliveryDelay(env), EmitComplaint(task.job))]
    else map[]
  }

  lemma FireEmits(m: Machine, env: Env, id: nat)
    requires id in m.timers && Owner(m.timers[id].task).Some?
    ensures var task := m.timers[id].task;
            var after := Step(m, env, Fire(id));
            && after.timers == (m.timers - {id}) + SetBy(m, env, task)
            && after.history.jobs == m.history.jobs && m.nextId <= after.nextId
            && (forall k :: k in after.timers ==> k in m.timers || (k == m.nextId && k < after.nextId))
            && after.history.emitted == m.history.emitted + [Emission(Owner(task).value, EventOf(task))]
            && after.history.published == m.history.published + Publications(m.state, env, task.job, EventOf(task), 0)
            && after.state == m.state
  {
    var task := m.timers[id].task;
    assert m.timers - {id} == (m.timers - {id}) + map[];
  }

  /** What one of the job's timers set when it fired: a complaint timer under a later id, or nothing. */
  ghost predicate SetRightly(pending: map<nat, Timer>, id: nat, added: map<nat, Timer>, next: nat, job: Job, delay: nat)
    requires id in pending
  {
    && (forall i :: i in pending ==> i < next)
    && if LeadsToComplaint(pending[id].task)
       then added.Keys == {next} && added[next].task == EmitComplaint(job) && added[next].duration == delay
       else added == map[]
  }

  lemma SendFires(pending: map<nat, Timer>, emitted: seq<string>, job: Job, delay: nat, send: Option<nat>,
          later: Option<nat>)
    requires Stage(pending, emitted, job, delay, send, later) && send.Some?
    ensures Stage(pending - {send.value}, emitted + ["Send"], job, delay, None, later)
  {
    OneMore(emitted, "Send");
    assert later.Some? ==> later.value != send.value;
  }

  lemma SendStays(
      pending: map<nat, Timer>, emitted: seq<string>, job: Job, send: Option<nat>, gone: nat,
      added: map<nat, Timer>, e: string)
    requires SendStage(pending, emitted, job, send) && e != "Send" && send != Some(gone) && added.Keys !! pending.Keys
    ensures SendStage((pending - {gone}) + added, emitted + [e], job, send)
  {
    OneMore(emitted, e);
  }

  lemma LaterMoves(
      pending: map<nat, Timer>, emitted: seq<string>, job: Job, delay: nat, later: nat, added: map<nat, Timer>,
      next: nat)
    requires LaterStage(pending, emitted, job, delay, Some(later))
    requires SetRightly(pending, later, added, next, job, delay)
    ensures LaterStage((pending - {later}) + added, emitted + [EventOf(pending[later].task)], job, delay,
                       if LeadsToComplaint(pending[later].task) then Some(next) else None)
  {
    OneMore(emitted, EventOf(pending[later].task));
  }

  lemma NotSend(task: Task)
    requires Owner(task).Some? && !task.EmitSend?
    ensures EventOf(task) != "Send"
  {
  }

  lemma SendApart(
      pending: map<nat, Timer>, emitted: seq<string>, job: Job, delay: nat, send: Option<nat>, later: nat)
    requires Stage(pending, emitted, job, delay, send, Some(later))
    ensures send != Some(later) && Owner(pending[later].task).Some? && !pending[later].task.EmitSend?
  {
  }

  lemma KeysAfter(
      pending: map<nat, Timer>, send: Option<nat>, later: nat, added: map<nat, Timer>, next: Option<nat>)
    requires pending.Keys == Ids(send) + {later} && send != Some(later) && added.Keys == Ids(next)
    ensures ((pending - {later}) + added).Keys == Ids(send) + Ids(next)
  {
  }

  lemma LaterFires(
      pending: map<nat, Timer>, emitted: seq<string>, job: Job, delay: nat, send: Option<nat>, later: Option<nat>,
      added: map<nat, Timer>, next: nat)
    requires Stage(pending, emitted, job, delay, send, later) && later.Some?
    requires SetRightly(pending, later.value, added, next, job, delay)
    ensures Stage((pending - {later.value}) + added, emitted + [EventOf(pending[later.value].task)], job, delay, send,
                  if LeadsToComplaint(pending[later.value].task) then Some(next) else None)
  {
    var task := pending[later.value].task;
    NotSend(task);
    SendApart(pending, emitted, job, delay, send, later.value);
    SendStays(pending, emitted, job, send, later.value, added, EventOf(task));
    LaterMoves(pending, emitted, job, delay, later.value, added, next);
    KeysAfter(pending, send, later.value, added, if LeadsToComplaint(task) then Some(next) else None);
  }

  /** One job's timers before and after one of them fires: it goes on to the next stage. */
  lemma ProgressFires(
      pending: map<nat, Timer>, emitted: seq<string>, job: Job, delay: nat, id: nat, added: map<nat, Timer>, next: nat)
    requires Progress(pending, emitted, job, delay) && id in pending && Owner(pending[id].task).Some?
    requires SetRightly(pending, id, added, next, job, delay)
    ensures Progress((pending - {id}) + added, emitted + [EventOf(pending[id].task)], job, delay)
  {
    var send, later :| Stage(pending, emitted, job, delay, send, later);
    if send == Some(id) {
      SendFires(pending, emitted, job, delay, send, later);
      assert (pending - {id}) + added == pending - {id};
    } else {
      assert later == Some(id);
      LaterFires(pending, emitted, job, delay, send, later, added, next);
    }
  }

  lemma JobTimersAfter(timers: map<nat, Timer>, id: nat, added: map<nat, Timer>, job: nat, k: nat)
    requires id in timers && Owner(timers[id].task) == Some(job) && added.Keys !! timers.Keys
    requires forall i :: i in added ==> Owner(added[i].task) == Some(job)
    ensures JobTimers((timers - {id}) + added, k) ==
            if k == job then (JobTimers(timers, k) - {id}) + added else JobTimers(timers, k)
  {
  }

  lemma FiredJobOk(
      m: Machine, env: Env, id: nat, k: nat, timers: map<nat, Timer>, emitted: seq<Emission>)
    requires JobsOk(m, env) && id in m.timers && Owner(m.timers[id].task).Some?
    requires timers == (m.timers - {id}) + SetBy(m, env, m.timers[id].task)
    requires emitted == m.history.emitted + [Emission(Owner(m.timers[id].task).value, EventOf(m.timers[id].task))]
    requires k in m.history.jobs
    ensures JobOk(timers, emitted, m.history.jobs[k], DeliveryDelay(env))
  {
    var task, delay := m.timers[id].task, DeliveryDelay(env);
    var mine, added := Owner(task).value, SetBy(m, env, task);
    assert m.nextId !in m.timers;
    assert JobOk(m.timers, m.history.emitted, m.history.jobs[k], delay);
    JobTimersAfter(m.timers, id, added, mine, k);
    EmittedAppend(m.history.emitted, Emission(mine, EventOf(task)), k);
    if k == mine {
      var pending := JobTimers(m.timers, k);
      assert id in pending;
      ProgressFires(pending, Emitted(m.history.emitted, k), m.history.jobs[k], delay, id, added, m.nextId);
    } else {
      assert Emitted(emitted, k) == Emitted(m.history.emitted, k);
    }
  }

  lemma FireJobsOk(m: Machine, env: Env, id: nat)
    requires JobsOk(m, env) && id in m.timers && Owner(m.timers[id].task).Some?
    ensures JobsOk(Step(m, env, Fire(id)), env)
  {
    var after := Step(m, env, Fire(id));
    FireEmits(m, env, id);
    forall k | k in m.history.jobs
      ensures JobOk(after.timers, after.history.emitted, m.history.jobs[k], DeliveryDelay(env))
    {
      FiredJobOk(m, env, id, k, after.timers, after.history.emitted);
    }
  }

  lemma StepJobsOk(m: Machine, env: Env, event: Event)
    requires JobsOk(m, env) && SaveOk(m) && Enabled(m, event)
    ensures JobsOk(Step(m, env, event), env)
  {
    match event
    case Receive(request) => HandleJobsOk(m, env, request);
    case Fire(id) =>
      if Owner(m.timers[id].task).Some? {
        FireJobsOk(m, env, id);
      } else {
        FitDrop(m.timers, m.nextId, m.history.jobs, m.history.emitted, DeliveryDelay(env), id);
      }
    case _ =>
  }

  /******* Order *******/

  ghost predicate InOrder(jobs: map<nat, Job>, emitted: seq<Emission>) {
    forall k {:trigger Emitted(emitted, k)} :: k in jobs ==> SendFirst(Emitted(emitted, k))
  }

  /** A delivery delay that keeps events in order as long as no timer is late by more than the slack. */
  predicate DelayFits(env: Env, slack: nat) {
    DeliveryDelay(env) == SEND_DELAY || DeliveryDelay(env) > SEND_DELAY + slack
  }

  /** With nothing emitted for a job yet, only its send timer can be the one to fire. */
  lemma SendFiresFirst(m: Machine, env: Env, slack: nat, id: nat)
    requires JobsOk(m, env) && MayFire(m, id) && NoneLate(m, slack) && DelayFits(env, slack)
    requires Owner(m.timers[id].task).Some? && Emitted(m.history.emitted, Owner(m.timers[id].task).value) == []
    ensures EventOf(m.timers[id].task) == "Send"
  {
    var k, delay := Owner(m.timers[id].task).value, DeliveryDelay(env);
    var pending := JobTimers(m.timers, k);
    assert JobOk(m.timers, m.history.emitted, m.history.jobs[k], delay);
    var send, later :| Stage(pending, [], m.history.jobs[k], delay, send, later);
    assert id in pending;
    assert send.Some? && send.value in pending;
    assert send == Some(id) || later == Some(id);
  }

  lemma FireInOrder(m: Machine, env: Env, slack: nat, id: nat)
    requires JobsOk(m, env) && MayFire(m, id) && NoneLate(m, slack) && DelayFits(env, slack)
    requires Owner(m.timers[id].task).Some? && InOrder(m.history.jobs, m.history.emitted)
    ensures InOrder(m.history.jobs, Step(m, env, Fire(id)).history.emitted)
  {
    var task := m.timers[id].task;
    var mine := Owner(task).value;
    FireEmits(m, env, id);
    forall k | k in m.history.jobs
      ensures SendFirst(Emitted(Step(m, env, Fire(id)).history.emitted, k))
    {
      EmittedAppend(m.history.emitted, Emission(mine, EventOf(task)), k);
      assert SendFirst(Emitted(m.history.emitted, k));
      if k == mine && Emitted(m.history.emitted, k) == [] {
        SendFiresFirst(m, env, slack, id);
      }
    }
  }
}
