/**
 The emulator's own form: module-level variables changed in place by the request handlers and by the
 timers. Each handler, and the firing of a timer, is proved to do to them exactly what the state machine's
 step does, so that the object is always where some run of the machine is.
 */
module EmulatorServer {
  import opened Options
  import opened Text
  import opened EmulatorModel
  import opened EmulatorSafety
  import opened EmulatorEvents
  import opened EmulatorRuns

  lemma TargetsStep(targets: seq<Target>, destinations: seq<EventDestination>, i: nat)
    requires i < |destinations|
    ensures (targets + TargetOf(destinations[i])) + TargetsOf(destinations[i + 1..]) ==
              targets + TargetsOf(destinations[i..])
  {
    assert destinations[i..][1..] == destinations[i + 1..];
  }

  /** Keeps the enabled destinations that have a topic, in order. */
  method EnabledTargets(destinations: seq<EventDestination>) returns (targets: seq<Target>)
    ensures targets == TargetsOf(destinations)
  {
    targets := [];
    var i := 0;
    while i < |destinations|
      invariant i <= |destinations|
      invariant targets + TargetsOf(destinations[i..]) == TargetsOf(destinations)
    {
      TargetsStep(targets, destinations, i);
      var d := destinations[i];
      if d.enabled && d.topicArn.Some? && d.topicArn.value != "" {
        targets := targets + [Target(d.topicArn.value, d.types)];
      } else {
        assert targets + [] == targets;
      }
      i := i + 1;
    }
    assert destinations[i..] == [];
  }

  /** One more event at the end of a run. */
  lemma {:induction false} RunsOn(m: Machine, env: Env, events: seq<Event>, end: Machine, event: Event)
    requires Reaches(m, env, events, end) && Enabled(end, event)
    ensures Reaches(m, env, events + [event], Step(end, env, event))
    decreases events
  {
    var all := events + [event];
    if events == [] {
      assert all == [event] && all[1..] == [];
    } else {
      assert all[0] == events[0] && all[1..] == events[1..] + [event];
      RunsOn(Step(m, env, events[0]), env, events[1..], end, event);
    }
  }

  lemma Serves(m: Machine, env: Env, events: seq<Event>, end: Machine, request: Request)
    requires Reaches(m, env, events, end)
    ensures Reaches(m, env, events + [Receive(request)], Handle(end, env, request))
  {
    RunsOn(m, env, events, end, Receive(request));
  }

  class Emulator {
    const env: Env
    ghost const start: File
    ghost var events: seq<Event>
    var identities: map<string, Identity>
    var configurationSets: map<string, seq<EventDestination>>
    var topics: seq<string>
    var subscriptions: seq<Subscription>
    var messages: seq<Message>
    var saveTimer: Option<nat>
    var timers: map<nat, Timer>
    var now: nat
    var nextId: nat
    var file: File
    ghost var history: History

    ghost function InMemory(): State
      reads this
    {
      State(identities, configurationSets, topics, subscriptions, messages)
    }

    ghost function Abstract(): Machine
      reads this
    {
      Machine(InMemory(), file, saveTimer, timers, now, nextId, history)
    }

    /** The fields are what the events so far lead the machine to, from the file the process started with. */
    ghost predicate Valid()
      reads this
    {
      Reaches(Boot(start), env, events, Abstract())
    }

    /** So everything every run of the machine keeps holds of the fields. */
    lemma FieldsAreSound()
      requires Valid()
      ensures Load(file) in history.states
      ensures SavePending(Abstract()) || Load(file) == InMemory()
      ensures Quiet(Abstract()) ==> Load(file) == InMemory()
      ensures |Load(start).messages| <= 500 ==> |messages| <= 500
      ensures Shape(Load(start)) ==> Distinct(topics) && PlacesDiffer(subscriptions) && PostsOnce(history.published)
      ensures forall k :: k in history.jobs ==> Sends(Emitted(history.emitted, k)) <= 1
    {
      EveryRunIsSound(start, env, events, Abstract());
      forall k | k in history.jobs
        ensures Sends(Emitted(history.emitted, k)) <= 1
      {
        EventsComeOutOnce(start, env, events, Abstract(), k);
      }
    }

    /** Starts from the data file, or from nothing when it is missing or unreadable. */
    constructor (env: Env, data: File)
      ensures Valid() && Abstract() == Boot(data)
      ensures this.env == env && start == data && events == []
    {
      this.env, start, events := env, data, [];
      var s := Load(data);
      identities, configurationSets, topics := s.identities, s.configurationSets, s.topics;
      subscriptions, messages := s.subscriptions, s.messages;
      saveTimer, timers, now, nextId, file := None, map[], 0, 0, data;
      history := History(map[], [], [], Oldest(s.messages), Oldest(s.messages), 0, [s]);
    }

    method SetTimeout(duration: nat, task: Task) returns (id: nat)
      modifies this`timers, this`nextId
      ensures id == old(nextId) && Abstract() == SetTimer(old(Abstract()), duration, task)
    {
      id := nextId;
      timers := timers[id := Timer(now + duration, duration, task)];
      nextId := nextId + 1;
    }

    method PersistSoon()
      modifies this`timers, this`nextId, this`saveTimer, this`history
      ensures Abstract() == Persist(old(Abstract()))
    {
      if saveTimer.Some? {
        timers := timers - {saveTimer.value};
      }
      var id := SetTimeout(SAVE_DELAY, Save);
      saveTimer := Some(id);
      history := history.(touched := now, states := history.states + [InMemory()]);
    }

    /** The callback of a save timer. */
    method WriteFile()
      modifies this`file, this`history
      ensures Abstract() == Run(old(Abstract()), env, Save)
    {
      file := Json(Some(identities), Some(configurationSets), Some(topics), Some(subscriptions), Some(messages));
      history := history.(savedAccepted := history.accepted);
    }

    method Accept(message: Message)
      modifies this`messages, this`timers, this`nextId, this`saveTimer, this`history
      ensures Abstract() == AddMessage(old(Abstract()), message)
    {
      nextId := nextId + 1;
      messages := [message] + messages;
      if |messages| > MAX_MESSAGES {
        messages := messages[..MAX_MESSAGES];
      }
      history := history.(accepted := history.accepted + [message]);
      PersistSoon();
    }

    /** Schedules a message's first two events. */
    method ScheduleEvents(message: Message, arns: seq<Target>)
      modifies this`timers, this`nextId, this`history
      ensures Abstract() == EmitEvents(old(Abstract()), env, message, arns)
    {
      if arns == [] && env.fallback.None? {
        return;
      }
      var targets := if arns != [] then arns else [Target("local", [])];
      var job := Job(message.id, message.outcome, targets);
      history := history.(jobs := history.jobs[job.id := job]);
      var _ := SetTimeout(SEND_DELAY, EmitSend(job));
      var _ := SetTimeout(DeliveryDelay(env), EmitOutcome(job));
    }

    method OutboundEmail(email: Email) returns (id: nat)
      requires Valid()
      modifies this`events, this`messages, this`timers, this`nextId, this`saveTimer, this`history
      ensures Valid() && events == old(events) + [Receive(SendEmail(email))]
      ensures id == old(nextId)
      ensures Abstract() == Handle(old(Abstract()), env, SendEmail(email))
    {
      Serves(Boot(start), env, events, Abstract(), SendEmail(email));
      events := events + [Receive(SendEmail(email))];
      id := nextId;
      var to := email.to + email.cc + email.bcc;
      if to == [] && email.rawRecipients.Some? {
        to := email.rawRecipients.value;
      }
      var message := Message(id, email.region, email.configurationSet, email.from, to, email.subject, email.content,
                             OutcomeFor(to), now);
      Accept(message);
      var name := OrElse(email.configurationSet, "");
      var targets := EnabledTargets(if name in configurationSets then configurationSets[name] else []);
      ScheduleEvents(message, targets);
    }

    method PutEventDestination(name: string, destination: EventDestination)
      requires Valid()
      modifies this`events, this`configurationSets, this`timers, this`nextId, this`saveTimer, this`history
      ensures Valid() && events == old(events) + [Receive(PutDestination(name, destination))]
      ensures Abstract() == Handle(old(Abstract()), env, PutDestination(name, destination))
    {
      Serves(Boot(start), env, events, Abstract(), PutDestination(name, destination));
      events := events + [Receive(PutDestination(name, destination))];
      if name !in configurationSets {
        configurationSets := configurationSets[name := []];
      }
      configurationSets := configurationSets[name := PutByName(configurationSets[name], destination)];
      ghost var destinations := PutByName(DestinationsOf(old(InMemory()), name), destination);
      assert configurationSets == old(configurationSets)[name := destinations];
      PersistSoon();
    }

    method CreateTopicNamed(region: string, name: string) returns (arn: string)
      requires Valid()
      modifies this`events, this`topics, this`timers, this`nextId, this`saveTimer, this`history
      ensures arn == TopicArn(region, name) && arn in topics
      ensures Valid() && events == old(events) + [Receive(CreateTopic(region, name))]
      ensures Abstract() == Handle(old(Abstract()), env, CreateTopic(region, name))
    {
      Serves(Boot(start), env, events, Abstract(), CreateTopic(region, name));
      events := events + [Receive(CreateTopic(region, name))];
      arn := TopicArn(region, name);
      if arn !in topics {
        topics := topics + [arn];
      }
      PersistSoon();
    }

    method DeleteTopicByArn(arn: string)
      requires Valid()
      modifies this`events, this`topics, this`subscriptions, this`timers, this`nextId, this`saveTimer, this`history
      ensures Valid() && events == old(events) + [Receive(DeleteTopic(arn))]
      ensures Abstract() == Handle(old(Abstract()), env, DeleteTopic(arn))
    {
      Serves(Boot(start), env, events, Abstract(), DeleteTopic(arn));
      events := events + [Receive(DeleteTopic(arn))];
      topics := WithoutTopic(topics, arn);
      subscriptions := Keep(subscriptions, OnTopic(arn));
      PersistSoon();
    }

    method SubscribeEndpoint(arn: string, protocol: string, endpoint: string)
      requires Valid()
      modifies this`events, this`subscriptions, this`timers, this`nextId, this`saveTimer, this`history
      ensures Valid() && events == old(events) + [Receive(Subscribe(arn, protocol, endpoint))]
      ensures Abstract() == Handle(old(Abstract()), env, Subscribe(arn, protocol, endpoint))
    {
      Serves(Boot(start), env, events, Abstract(), Subscribe(arn, protocol, endpoint));
      events := events + [Receive(Subscribe(arn, protocol, endpoint))];
      var subscription := Subscription(nextId, arn, protocol, endpoint);
      nextId := nextId + 1;
      subscriptions := Keep(subscriptions, SamePlace(arn, endpoint));
      subscriptions := subscriptions + [subscription];
      PersistSoon();
      if StartsWith(protocol, "http") {
        var _ := SetTimeout(CONFIRM_DELAY, Confirm(arn, endpoint));
      }
    }

    method UnsubscribeArn(arn: nat)
      requires Valid()
      modifies this`events, this`subscriptions, this`timers, this`nextId, this`saveTimer, this`history
      ensures Valid() && events == old(events) + [Receive(Unsubscribe(arn))]
      ensures Abstract() == Handle(old(Abstract()), env, Unsubscribe(arn))
    {
      Serves(Boot(start), env, events, Abstract(), Unsubscribe(arn));
      events := events + [Receive(Unsubscribe(arn))];
      subscriptions := Keep(subscriptions, HasArn(arn));
      PersistSoon();
    }

    method ClearLog()
      requires Valid()
      modifies this`events, this`messages, this`timers, this`nextId, this`saveTimer, this`history
      ensures Valid() && events == old(events) + [Receive(ClearMessages)]
      ensures Abstract() == Handle(old(Abstract()), env, ClearMessages)
    {
      Serves(Boot(start), env, events, Abstract(), ClearMessages);
      events := events + [Receive(ClearMessages)];
      messages := [];
      history := history.(accepted := []);
      PersistSoon();
    }

    method SetMailFromDomain(name: string, region: string, domain: Option<string>)
      requires Valid()
      modifies this`events, this`identities, this`timers, this`nextId, this`saveTimer, this`history
      ensures Valid() && events == old(events) + [Receive(SetMailFrom(name, region, domain))]
      ensures Abstract() == Handle(old(Abstract()), env, SetMailFrom(name, region, domain))
    {
      Serves(Boot(start), env, events, Abstract(), SetMailFrom(name, region, domain));
      events := events + [Receive(SetMailFrom(name, region, domain))];
      if name !in identities {
        identities := identities[name := Identity(name, region, None, None, None, now)];
      }
      identities := identities[name := identities[name].(mailFromDomain := domain)];
      ghost var identity := EnsureIdentity(old(identities), name, region, now).(mailFromDomain := domain);
      assert identities == old(identities)[name := identity];
      PersistSoon();
    }

    method SetDkim(name: string, region: string, selector: Option<string>)
      requires Valid()
      modifies this`events, this`identities, this`timers, this`nextId, this`saveTimer, this`history
      ensures Valid() && events == old(events) + [Receive(SetDkimSelector(name, region, selector))]
      ensures Abstract() == Handle(old(Abstract()), env, SetDkimSelector(name, region, selector))
    {
      Serves(Boot(start), env, events, Abstract(), SetDkimSelector(name, region, selector));
      events := events + [Receive(SetDkimSelector(name, region, selector))];
      if name !in identities {
        identities := identities[name := Identity(name, region, None, None, None, now)];
      }
      identities := identities[name := identities[name].(dkimSelector := selector)];
      ghost var identity := EnsureIdentity(old(identities), name, region, now).(dkimSelector := selector);
      assert identities == old(identities)[name := identity];
      PersistSoon();
    }

    method CreateIdentity(name: string, region: string, configurationSet: Option<string>, selector: Option<string>)
      requires Valid()
      modifies this`events, this`identities, this`timers, this`nextId, this`saveTimer, this`history
      ensures Valid() && events == old(events) + [Receive(PutIdentity(name, region, configurationSet, selector))]
      ensures Abstract() == Handle(old(Abstract()), env, PutIdentity(name, region, configurationSet, selector))
    {
      Serves(Boot(start), env, events, Abstract(), PutIdentity(name, region, configurationSet, selector));
      events := events + [Receive(PutIdentity(name, region, configurationSet, selector))];
      identities := identities[name := Identity(name, region, configurationSet, selector, None, now)];
      PersistSoon();
    }

    method RemoveIdentity(name: string)
      requires Valid()
      modifies this`events, this`identities, this`timers, this`nextId, this`saveTimer, this`history
      ensures Valid() && events == old(events) + [Receive(DeleteIdentity(name))]
      ensures Abstract() == Handle(old(Abstract()), env, DeleteIdentity(name))
    {
      Serves(Boot(start), env, events, Abstract(), DeleteIdentity(name));
      events := events + [Receive(DeleteIdentity(name))];
      identities := identities - {name};
      PersistSoon();
    }

    method CreateSet(name: string)
      requires Valid()
      modifies this`events, this`configurationSets, this`timers, this`nextId, this`saveTimer, this`history
      ensures Valid() && events == old(events) + [Receive(CreateConfigurationSet(name))]
      ensures Abstract() == Handle(old(Abstract()), env, CreateConfigurationSet(name))
    {
      Serves(Boot(start), env, events, Abstract(), CreateConfigurationSet(name));
      events := events + [Receive(CreateConfigurationSet(name))];
      if name !in configurationSets {
        configurationSets := configurationSets[name := []];
      }
      assert configurationSets == old(configurationSets)[name := DestinationsOf(old(InMemory()), name)];
      PersistSoon();
    }

    /** The endpoints one publish posts to. */
    method Publish(arn: string) returns (endpoints: seq<string>)
      ensures endpoints == Endpoints(InMemory(), env, arn)
    {
      endpoints := [];
      for i := 0 to |subscriptions|
        invariant endpoints + HttpEndpoints(subscriptions[i..], arn) == HttpEndpoints(subscriptions, arn)
      {
        var s := subscriptions[i];
        assert subscriptions[i..][0] == s && subscriptions[i..][1..] == subscriptions[i + 1..];
        if s.topicArn == arn && StartsWith(s.protocol, "http") {
          endpoints := endpoints + [s.endpoint];
        }
      }
      if endpoints == [] && env.fallback.Some? {
        endpoints := [env.fallback.value];
      }
    }

    /** Publishes one event to every target that matches it. */
    method EmitEvent(job: Job, event: string) returns (posted: seq<Publication>)
      modifies this`history
      ensures posted == Publications(InMemory(), env, job, event, 0)
      ensures Abstract() == Emit(old(Abstract()), env, job, event)
    {
      posted := [];
      for k := 0 to |job.targets|
        invariant Abstract() == old(Abstract())
        invariant posted + Publications(InMemory(), env, job, event, k) == Publications(InMemory(), env, job, event, 0)
      {
        var target := job.targets[k];
        var matches := target.types == [];
        for i := 0 to |target.types|
          invariant matches <==> target.types == [] || exists j :: 0 <= j < i && Upper(target.types[j]) == Upper(event)
        {
          if Upper(target.types[i]) == Upper(event) {
            matches := true;
          }
        }
        if matches {
          var endpoints := Publish(target.arn);
          posted := posted + [Publication(job.id, k, target.arn, event, endpoints)];
        }
      }
      history := history.(emitted := history.emitted + [Emission(job.id, event)],
                          published := history.published + posted);
    }

    /** The callback of an outcome timer. */
    method EmitTheOutcome(job: Job)
      modifies this`history, this`timers, this`nextId
      ensures Abstract() == Run(old(Abstract()), env, EmitOutcome(job))
    {
      match job.outcome
      case Bounced =>
        var _ := EmitEvent(job, "Bounce");
      case Suppressed =>
        var _ := EmitEvent(job, "Bounce");
      case Complained =>
        var _ := EmitEvent(job, "Delivery");
        var _ := SetTimeout(DeliveryDelay(env), EmitComplaint(job));
      case Delivered =>
        var _ := EmitEvent(job, "Delivery");
    }

    /** A pending timer, when it may fire: it is gone, and its callback runs. */
    method FireTimer(id: nat)
      requires Valid() && MayFire(Abstract(), id)
      modifies this`events, this`timers, this`nextId, this`file, this`history
      ensures Valid() && events == old(events) + [Fire(id)]
      ensures Abstract() == Step(old(Abstract()), env, Fire(id))
    {
      RunsOn(Boot(start), env, events, Abstract(), Fire(id));
      events := events + [Fire(id)];
      var task := timers[id].task;
      timers := timers - {id};
      match task
      case Save => WriteFile();
      case Confirm(_, _) =>
      case EmitSend(job) =>
        var _ := EmitEvent(job, "Send");
      case EmitOutcome(job) => EmitTheOutcome(job);
      case EmitComplaint(job) =>
        var _ := EmitEvent(job, "Complaint");
    }

    /** Time passing between two events. */
    method Wait(ms: nat)
      requires Valid()
      modifies this`events, this`now
      ensures Valid() && events == old(events) + [Tick(ms)]
      ensures Abstract() == Step(old(Abstract()), env, Tick(ms))
    {
      RunsOn(Boot(start), env, events, Abstract(), Tick(ms));
      events := events + [Tick(ms)];
      now := now + ms;
    }
  }
}
