/**
 What every reachable state of the emulator satisfies: saving, restarting, the shape of the state,
 and the order and addressees of a message's events.
 */
module EmulatorSafety {
  import opened Options
  import opened Text
  import opened EmulatorModel

  /******* Saving *******/

  predicate SavePending(m: Machine) {
    m.saveTimer.Some? && m.saveTimer.value in m.timers
  }

  /** No timer is due later than if it were set now, and of one duration those set earlier are due earlier. */
  ghost predicate InLists(timers: map<nat, Timer>, now: nat) {
    && (forall id {:trigger timers[id]} :: id in timers ==> timers[id].due <= now + timers[id].duration)
    && (forall i, j {:trigger timers[i], timers[j]} ::
          i in timers && j in timers && i < j && timers[i].duration == timers[j].duration ==>
            timers[i].due <= timers[j].due)
  }

  /** The only save timer is the one remembered; without one the file holds the state. */
  ghost predicate SaveOk(m: Machine) {
    && (forall id :: id in m.timers ==> id < m.nextId && (m.timers[id].task.Save? <==> m.saveTimer == Some(id)))
    && (m.saveTimer.Some? ==> m.saveTimer.value < m.nextId)
    && (SavePending(m) ==> m.timers[m.saveTimer.value] == Timer(m.history.touched + SAVE_DELAY, SAVE_DELAY, Save))
    && (SavePending(m) || Load(m.file) == m.state)
    && m.history.touched <= m.now && InLists(m.timers, m.now)
  }

  /** The state in memory and the state in the file are both states the run passed through. */
  ghost predicate StatesOk(m: Machine) {
    && m.state in m.history.states
    && Load(m.file) in m.history.states
  }

  lemma SetTimerSaveOk(m: Machine, duration: nat, task: Task)
    requires SaveOk(m) && !task.Save?
    ensures SaveOk(SetTimer(m, duration, task))
  {
  }

  lemma PersistSaveOk(m: Machine)
    requires forall id :: id in m.timers ==> id < m.nextId && (m.timers[id].task.Save? ==> m.saveTimer == Some(id))
    requires m.saveTimer.Some? ==> m.saveTimer.value < m.nextId
    requires InLists(m.timers, m.now)
    ensures SaveOk(Persist(m)) && SavePending(Persist(m))
  {
  }

  lemma EmitEventsSaveOk(m: Machine, env: Env, message: Message, targets: seq<Target>)
    requires SaveOk(m)
    ensures SaveOk(EmitEvents(m, env, message, targets))
  {
    if targets != [] || env.fallback.Some? {
      var job := Job(message.id, message.outcome, if targets == [] then [Target("local", [])] else targets);
      var m1 := m.(history := m.history.(jobs := m.history.jobs[job.id := job]));
      assert m1.timers == m.timers;
      SetTimerSaveOk(m1, SEND_DELAY, EmitSend(job));
      SetTimerSaveOk(SetTimer(m1, SEND_DELAY, EmitSend(job)), DeliveryDelay(env), EmitOutcome(job));
    }
  }

  lemma AnnounceSaveOk(m: Machine, env: Env, message: Message)
    requires SaveOk(m)
    ensures SaveOk(Announce(m, env, message))
  {
    var targets := TargetsOf(DestinationsOf(m.state, OrElse(message.configurationSet, "")));
    EmitEventsSaveOk(m, env, message, targets);
  }

  /** For requests that only change the state: the machine just before its save is scheduled. */
  function BeforeSaving(m: Machine, env: Env, request: Request): Machine {
    var m1 := m.(state := Handle(m, env, request).state);
    if request.ClearMessages? then m1.(history := m.history.(accepted := [])) else m1
  }

  /** Every request but a query ends by scheduling a save. */
  lemma HandleSaves(m: Machine, env: Env, request: Request)
    requires !request.SendEmail? && !request.Subscribe? && !request.Query?
    ensures Handle(m, env, request) == Persist(BeforeSaving(m, env, request))
  {
  }

  lemma AddMessageSaveOk(m: Machine, message: Message)
    requires SaveOk(m)
    ensures SaveOk(AddMessage(m, message))
  {
    var m1 := m.(nextId := m.nextId + 1, history := m.history.(accepted := m.history.accepted + [message]),
                 state := m.state.(messages := Capped([message] + m.state.messages)));
    assert AddMessage(m, message) == Persist(m1);
    assert m1.timers == m.timers && m1.saveTimer == m.saveTimer && m1.now == m.now;
    PersistSaveOk(m1);
  }

  lemma SendEmailSaveOk(m: Machine, env: Env, email: Email)
    requires SaveOk(m)
    ensures SaveOk(HandleSendEmail(m, env, email))
  {
    var message := MessageOf(email, m.nextId, m.now);
    AddMessageSaveOk(m, message);
    AnnounceSaveOk(AddMessage(m, message), env, message);
  }

  lemma AddSubscriptionSaveOk(m: Machine, arn: string, protocol: string, endpoint: string)
    requires SaveOk(m)
    ensures SaveOk(AddSubscription(m, arn, protocol, endpoint))
  {
    PersistSaveOk(m.(nextId := m.nextId + 1, state := AddSubscription(m, arn, protocol, endpoint).state));
  }

  lemma SubscribeSaveOk(m: Machine, arn: string, protocol: string, endpoint: string)
    requires SaveOk(m)
    ensures SaveOk(HandleSubscribe(m, arn, protocol, endpoint))
  {
    var m1 := AddSubscription(m, arn, protocol, endpoint);
    AddSubscriptionSaveOk(m, arn, protocol, endpoint);
    if StartsWith(protocol, "http") {
      SetTimerSaveOk(m1, CONFIRM_DELAY, Confirm(arn, endpoint));
    }
  }

  lemma HandleSaveOk(m: Machine, env: Env, request: Request)
    requires SaveOk(m)
    ensures SaveOk(Handle(m, env, request))
  {
    match request
    case SendEmail(email) => SendEmailSaveOk(m, env, email);
    case Subscribe(arn, protocol, endpoint) => SubscribeSaveOk(m, arn, protocol, endpoint);
    case Query =>
    case _ =>
      HandleSaves(m, env, request);
      PersistSaveOk(BeforeSaving(m, env, request));
  }

  lemma SavedOk(m: Machine, id: nat, env: Env)
    requires SaveOk(m) && id in m.timers && m.timers[id].task.Save?
    ensures SaveOk(Run(m.(timers := m.timers - {id}), env, Save))
  {
    assert Load(Write(m.state)) == m.state;
  }

  lemma DroppedSaveOk(m: Machine, id: nat)
    requires SaveOk(m) && id in m.timers && !m.timers[id].task.Save?
    ensures SaveOk(m.(timers := m.timers - {id}))
  {
  }

  lemma EmitSaveOk(m: Machine, env: Env, job: Job, event: string)
    requires SaveOk(m)
    ensures SaveOk(Emit(m, env, job, event))
  {
  }

  lemma RunSaveOk(m: Machine, env: Env, id: nat)
    requires SaveOk(m) && id in m.timers
    ensures SaveOk(Run(m.(timers := m.timers - {id}), env, m.timers[id].task))
  {
    var m1 := m.(timers := m.timers - {id});
    var task := m.timers[id].task;
    if task.Save? {
      SavedOk(m, id, env);
    } else {
      DroppedSaveOk(m, id);
      if !task.Confirm? {
        EmitSaveOk(m1, env, task.job, "Send");
        EmitSaveOk(m1, env, task.job, "Bounce");
        EmitSaveOk(m1, env, task.job, "Complaint");
        EmitSaveOk(m1, env, task.job, "Delivery");
        SetTimerSaveOk(Emit(m1, env, task.job, "Delivery"), DeliveryDelay(env), EmitComplaint(task.job));
      }
    }
  }

  /** Every request that changes the state ends in Persist, so saving stays in order at every step. */
  lemma StepSaveOk(m: Machine, env: Env, event: Event)
    requires SaveOk(m) && Enabled(m, event)
    ensures SaveOk(Step(m, env, event))
  {
    match event
    case Receive(request) => HandleSaveOk(m, env, request);
    case Tick(ms) =>
    case Fire(id) => RunSaveOk(m, env, id);
    case Restart =>
  }

  /** What a request does to the file, the clock and the records. */
  ghost predicate HandlesCleanly(m: Machine, after: Machine, request: Request) {
    && after.file == m.file && after.now == m.now && m.nextId <= after.nextId
    && after.history.savedAccepted == m.history.savedAccepted
    && after.history.emitted == m.history.emitted && after.history.published == m.history.published
    && (if request.Query? then after == m
        else after.history.states == m.history.states + [after.state] && after.history.touched == m.now)
    && (match request
        case SendEmail(_) =>
          && |after.history.accepted| == |m.history.accepted| + 1
          && var message := after.history.accepted[|m.history.accepted|];
             && after.history.accepted == m.history.accepted + [message]
             && after.state.messages == Capped([message] + m.state.messages)
        case ClearMessages => after.history.accepted == [] && after.state.messages == []
        case _ => after.history.accepted == m.history.accepted && after.state.messages == m.state.messages)
  }

  lemma HandleIsClean(m: Machine, env: Env, request: Request)
    ensures HandlesCleanly(m, Handle(m, env, request), request)
  {
  }

  lemma StepStatesOk(m: Machine, env: Env, event: Event)
    requires StatesOk(m) && Enabled(m, event)
    ensures StatesOk(Step(m, env, event))
    ensures m.history.states <= Step(m, env, event).history.states
  {
    match event
    case Receive(request) =>
      HandleIsClean(m, env, request);
      var after := Handle(m, env, request);
      if !request.Query? {
        assert after.history.states[|m.history.states|] == after.state;
      }
    case Fire(id) =>
      assert Load(Write(m.state)) == m.state;
    case _ =>
  }

  /** Nothing due is left to fire, and 200 ms have passed since the last change. */
  ghost predicate Quiet(m: Machine) {
    m.history.touched + 200 <= m.now && forall id :: id in m.timers ==> m.now < m.timers[id].due
  }

  lemma QuietIsSaved(m: Machine)
    requires SaveOk(m) && Quiet(m)
    ensures Load(m.file) == m.state
  {
  }

  /******* Shape of the state *******/

  ghost predicate Distinct<T(!new)>(s: seq<T>) {
    forall i, j :: 0 <= i < j < |s| ==> s[i] != s[j]
  }

  ghost predicate PlacesDiffer(subscriptions: seq<Subscription>) {
    forall i, j :: 0 <= i < j < |subscriptions| ==>
      subscriptions[i].topicArn != subscriptions[j].topicArn || subscriptions[i].endpoint != subscriptions[j].endpoint
  }

  /** Topics are distinct, and no (topic, endpoint) pair is subscribed twice. */
  ghost predicate Shape(s: State) {
    Distinct(s.topics) && PlacesDiffer(s.subscriptions)
  }

  lemma {:induction false} WithoutTopicIs(topics: seq<string>, arn: string)
    ensures forall t :: t in WithoutTopic(topics, arn) <==> t in topics && t != arn
    ensures Distinct(topics) ==> Distinct(WithoutTopic(topics, arn))
    decreases topics
  {
    if topics != [] {
      WithoutTopicIs(topics[1..], arn);
      var rest := WithoutTopic(topics[1..], arn);
      assert topics == [topics[0]] + topics[1..];
      if Distinct(topics) {
        forall i, j | 0 <= i < j < |topics[1..]|
          ensures topics[1..][i] != topics[1..][j]
        {
          assert topics[1..][i] == topics[i + 1] && topics[1..][j] == topics[j + 1];
        }
        forall k | 0 <= k < |rest|
          ensures rest[k] != topics[0]
        {
          assert rest[k] in topics[1..];
        }
      }
    }
  }

  lemma {:induction false} KeepIs(subscriptions: seq<Subscription>, drop: Subscription -> bool)
    ensures forall s :: s in Keep(subscriptions, drop) <==> s in subscriptions && !drop(s)
    ensures PlacesDiffer(subscriptions) ==> PlacesDiffer(Keep(subscriptions, drop))
    decreases subscriptions
  {
    if subscriptions != [] {
      var tail := subscriptions[1..];
      KeepIs(tail, drop);
      var rest := Keep(tail, drop);
      assert subscriptions == [subscriptions[0]] + tail;
      if PlacesDiffer(subscriptions) {
        forall i, j | 0 <= i < j < |tail|
          ensures tail[i].topicArn != tail[j].topicArn || tail[i].endpoint != tail[j].endpoint
        {
          assert tail[i] == subscriptions[i + 1] && tail[j] == subscriptions[j + 1];
        }
        forall k | 0 <= k < |rest|
          ensures rest[k].topicArn != subscriptions[0].topicArn || rest[k].endpoint != subscriptions[0].endpoint
        {
          assert rest[k] in tail;
          var i :| 0 <= i < |tail| && tail[i] == rest[k];
          assert subscriptions[i + 1] == rest[k];
        }
      }
    }
  }

  lemma HandleShape(m: Machine, env: Env, request: Request)
    requires Shape(m.state)
    ensures Shape(Handle(m, env, request).state)
  {
    var s := m.state;
    match request
    case DeleteTopic(arn) =>
      WithoutTopicIs(s.topics, arn);
      KeepIs(s.subscriptions, OnTopic(arn));
      assert PlacesDiffer(Keep(s.subscriptions, OnTopic(arn)));
    case Subscribe(arn, protocol, endpoint) =>
      KeepIs(s.subscriptions, SamePlace(arn, endpoint));
      var kept := Keep(s.subscriptions, SamePlace(arn, endpoint));
      assert PlacesDiffer(kept);
      forall i | 0 <= i < |kept|
        ensures kept[i].topicArn != arn || kept[i].endpoint != endpoint
      {
        assert kept[i] in kept;
      }
    case Unsubscribe(arn) =>
      KeepIs(s.subscriptions, HasArn(arn));
      assert PlacesDiffer(Keep(s.subscriptions, HasArn(arn)));
    case _ =>
  }

  /** Right after DeleteTopic no topic and no subscription has that name; every other one is kept. */
  lemma DeleteTopicForgets(m: Machine, env: Env, arn: string)
    ensures var s := Handle(m, env, DeleteTopic(arn)).state;
            && (forall t :: t in s.topics <==> t in m.state.topics && t != arn)
            && (forall sub :: sub in s.subscriptions <==> sub in m.state.subscriptions && sub.topicArn != arn)
  {
    WithoutTopicIs(m.state.topics, arn);
    KeepIs(m.state.subscriptions, OnTopic(arn));
  }

  /** Subscribing leaves just one subscription of that endpoint to that topic, the new one; all others stay. */
  lemma SubscribeReplaces(m: Machine, arn: string, protocol: string, endpoint: string)
    ensures var added := Subscription(m.nextId, arn, protocol, endpoint);
            forall s :: s in HandleSubscribe(m, arn, protocol, endpoint).state.subscriptions <==>
              s == added || (s in m.state.subscriptions && !(s.topicArn == arn && s.endpoint == endpoint))
  {
    KeepIs(m.state.subscriptions, SamePlace(arn, endpoint));
  }

  /** One publish posts to no endpoint twice. */
  lemma {:induction false} HttpEndpointsDistinct(subscriptions: seq<Subscription>, arn: string)
    requires PlacesDiffer(subscriptions)
    ensures Distinct(HttpEndpoints(subscriptions, arn))
    ensures forall e :: e in HttpEndpoints(subscriptions, arn) <==>
              exists i :: 0 <= i < |subscriptions| && subscriptions[i].topicArn == arn &&
                          StartsWith(subscriptions[i].protocol, "http") && subscriptions[i].endpoint == e
    decreases subscriptions
  {
    if subscriptions != [] {
      var tail := subscriptions[1..];
      forall i, j | 0 <= i < j < |tail|
        ensures tail[i].topicArn != tail[j].topicArn || tail[i].endpoint != tail[j].endpoint
      {
        assert tail[i] == subscriptions[i + 1] && tail[j] == subscriptions[j + 1];
      }
      HttpEndpointsDistinct(tail, arn);
      var rest := HttpEndpoints(tail, arn);
      var first := subscriptions[0];
      forall e
        ensures e in HttpEndpoints(subscriptions, arn) <==>
                exists i :: 0 <= i < |subscriptions| && subscriptions[i].topicArn == arn &&
                            StartsWith(subscriptions[i].protocol, "http") && subscriptions[i].endpoint == e
      {
        if i :| 0 <= i < |tail| && tail[i].topicArn == arn &&
                StartsWith(tail[i].protocol, "http") && tail[i].endpoint == e {
          assert subscriptions[i + 1] == tail[i];
        }
        if i :| 0 < i < |subscriptions| && subscriptions[i].topicArn == arn &&
                StartsWith(subscriptions[i].protocol, "http") && subscriptions[i].endpoint == e {
          assert tail[i - 1] == subscriptions[i];
        }
      }
      forall i | 0 <= i < |tail| && tail[i].topicArn == arn
        ensures first.topicArn == arn ==> tail[i].endpoint != first.endpoint
      {
        assert subscriptions[i + 1] == tail[i];
      }
      forall k | 0 <= k < |rest|
        ensures first.topicArn == arn ==> rest[k] != first.endpoint
      {
        assert rest[k] in rest;
      }
    }
  }

  lemma PublishPostsOnce(s: State, env: Env, arn: string)
    requires Shape(s)
    ensures Distinct(Endpoints(s, env, arn))
  {
    HttpEndpointsDistinct(s.subscriptions, arn);
  }

  /******* The message log *******/

  /** The most recent messages, newest first, at most 500 of them. */
  function Recent(accepted: seq<Message>): seq<Message> {
    var n := if |accepted| <= 500 then |accepted| else 500;
    seq(n, i requires 0 <= i < n => accepted[|accepted| - 1 - i])
  }

  ghost predicate MessagesOk(m: Machine) {
    && m.state.messages == Recent(m.history.accepted)
    && Load(m.file).messages == Recent(m.history.savedAccepted)
  }

  lemma RecentAppend(accepted: seq<Message>, message: Message)
    ensures Recent(accepted + [message]) == Capped([message] + Recent(accepted))
  {
    var longer := accepted + [message];
    var left, right := Recent(longer), Capped([message] + Recent(accepted));
    assert |left| == |right|;
    forall i | 0 <= i < |left|
      ensures left[i] == right[i]
    {
      if i > 0 {
        assert right[i] == Recent(accepted)[i - 1];
      }
    }
  }

  /** From whatever file: the whole log that was accepted, newest first, or the most recent part of it. */
  ghost predicate LogIs(messages: seq<Message>, accepted: seq<Message>) {
    messages == Recent(accepted) || messages == Oldest(accepted)
  }

  ghost predicate LogOk(m: Machine) {
    LogIs(m.state.messages, m.history.accepted) && LogIs(Load(m.file).messages, m.history.savedAccepted)
  }

  lemma OldestTwice(messages: seq<Message>)
    ensures Oldest(Oldest(messages)) == messages
  {
  }

  /** The first message accepted after the start cuts a longer log down. */
  lemma LogAppend(messages: seq<Message>, accepted: seq<Message>, message: Message)
    requires LogIs(messages, accepted)
    ensures Capped([message] + messages) == Recent(accepted + [message])
  {
    RecentAppend(accepted, message);
    var left, right := Capped([message] + Oldest(accepted)), Recent(accepted + [message]);
    assert |left| == |right|;
    forall i | 0 <= i < |left|
      ensures left[i] == right[i]
    {
      if i > 0 {
        assert left[i] == Oldest(accepted)[i - 1];
      }
    }
  }

  lemma StepLogOk(m: Machine, env: Env, event: Event)
    requires LogOk(m) && Enabled(m, event)
    ensures LogOk(Step(m, env, event))
  {
    if event.Receive? {
      HandleIsClean(m, env, event.request);
      var after := Handle(m, env, event.request);
      if event.request.SendEmail? {
        LogAppend(m.state.messages, m.history.accepted, after.history.accepted[|m.history.accepted|]);
      }
    }
  }

  lemma StepMessagesOk(m: Machine, env: Env, event: Event)
    requires MessagesOk(m) && Enabled(m, event)
    ensures MessagesOk(Step(m, env, event))
  {
    if event.Receive? {
      HandleIsClean(m, env, event.request);
      if event.request.SendEmail? {
        RecentAppend(m.history.accepted, Handle(m, env, event.request).history.accepted[|m.history.accepted|]);
      }
    }
  }
}
