/**
 What each request comes to, told without the handlers: identities, sets and topics by the requests served so
 far, the outcome of an email by its recipients, and the timers requests set.
 */
module EmulatorRequests {
  import opened Options
  import opened Text
  import opened EmulatorModel
  import opened EmulatorSafety

  /** The machine after serving some requests in a row. */
  function Served(m: Machine, env: Env, requests: seq<Request>): Machine {
    if requests == [] then m
    else Handle(Served(m, env, requests[..|requests| - 1]), env, requests[|requests| - 1])
  }

  /** Every request leaves alone what is not its own. */
  lemma OnlyItsPart(m: Machine, env: Env, request: Request)
    ensures var before, after := m.state, Handle(m, env, request).state;
            && (after.identities != before.identities ==>
                  request.PutIdentity? || request.DeleteIdentity? || request.SetMailFrom? || request.SetDkimSelector?)
            && (after.configurationSets != before.configurationSets ==>
                  request.CreateConfigurationSet? || request.PutDestination?)
            && (after.topics != before.topics ==> request.CreateTopic? || request.DeleteTopic?)
            && (after.subscriptions != before.subscriptions ==>
                  request.Subscribe? || request.Unsubscribe? || request.DeleteTopic?)
            && (after.messages != before.messages ==> request.SendEmail? || request.ClearMessages?)
            && Handle(m, env, request).now == m.now
  {
  }

  lemma {:induction false} ServedNow(m: Machine, env: Env, requests: seq<Request>)
    ensures Served(m, env, requests).now == m.now
    decreases requests
  {
    if requests != [] {
      var front := requests[..|requests| - 1];
      ServedNow(m, env, front);
      OnlyItsPart(Served(m, env, front), env, requests[|requests| - 1]);
    }
  }

  /******* Identities *******/

  function Filed<T>(values: map<string, T>, name: string): Option<T> {
    if name in values then Some(values[name]) else None
  }

  function OrFresh(known: Option<Identity>, name: string, region: string, now: nat): Identity {
    match known
    case Some(identity) => identity
    case None => Identity(name, region, None, None, None, now)
  }

  /** The identity of one name by the requests alone, the last one for it first. */
  function IdentityBy(first: Option<Identity>, name: string, now: nat, requests: seq<Request>): Option<Identity> {
    if requests == [] then first
    else
      var earlier := IdentityBy(first, name, now, requests[..|requests| - 1]);
      match requests[|requests| - 1]
      case PutIdentity(n, region, set_, selector) =>
        if n == name then Some(Identity(name, region, set_, selector, None, now)) else earlier
      case DeleteIdentity(n) => if n == name then None else earlier
      case SetMailFrom(n, region, domain) =>
        if n == name then Some(OrFresh(earlier, name, region, now).(mailFromDomain := domain)) else earlier
      case SetDkimSelector(n, region, selector) =>
        if n == name then Some(OrFresh(earlier, name, region, now).(dkimSelector := selector)) else earlier
      case _ => earlier
  }

  /** After any requests, each name's identity is what they say, and no other name has one. */
  lemma {:induction false} IdentitiesAre(m: Machine, env: Env, requests: seq<Request>, name: string)
    ensures Filed(Served(m, env, requests).state.identities, name) ==
            IdentityBy(Filed(m.state.identities, name), name, m.now, requests)
    decreases requests
  {
    if requests != [] {
      var front, last := requests[..|requests| - 1], requests[|requests| - 1];
      IdentitiesAre(m, env, front, name);
      ServedNow(m, env, front);
      OnlyItsPart(Served(m, env, front), env, last);
    }
  }

  /******* Topics *******/

  /** Whether a topic is listed by the requests alone. */
  predicate TopicBy(first: bool, arn: string, requests: seq<Request>) {
    if requests == [] then first
    else
      var earlier := TopicBy(first, arn, requests[..|requests| - 1]);
      match requests[|requests| - 1]
      case CreateTopic(region, name) => earlier || arn == "arn:aws:sns:" + region + ":000000000000:" + name
      case DeleteTopic(gone) => earlier && gone != arn
      case _ => earlier
  }

  lemma {:induction false} TopicsAre(m: Machine, env: Env, requests: seq<Request>, arn: string)
    ensures arn in Served(m, env, requests).state.topics <==> TopicBy(arn in m.state.topics, arn, requests)
    decreases requests
  {
    if requests != [] {
      var front, last := requests[..|requests| - 1], requests[|requests| - 1];
      TopicsAre(m, env, front, arn);
      var before := Served(m, env, front);
      OnlyItsPart(before, env, last);
      match last
      case CreateTopic(region, name) => CreatedTopic(before, env, region, name, arn);
      case DeleteTopic(gone) => DeleteTopicForgets(before, env, gone);
      case _ =>
    }
  }

  lemma CreatedTopic(m: Machine, env: Env, region: string, name: string, arn: string)
    ensures arn in Handle(m, env, CreateTopic(region, name)).state.topics <==>
              arn in m.state.topics || arn == "arn:aws:sns:" + region + ":000000000000:" + name
  {
  }

  /** Unsubscribing drops the subscription of that name and no other. */
  lemma UnsubscribeForgets(m: Machine, env: Env, arn: nat)
    ensures forall s :: s in Handle(m, env, Unsubscribe(arn)).state.subscriptions <==>
              s in m.state.subscriptions && s.arn != arn
  {
    KeepIs(m.state.subscriptions, HasArn(arn));
  }

  /******* Configuration sets *******/

  /** The last destination put under a name in a set, by the requests alone. */
  function DestinationBy(
      first: Option<EventDestination>, set_: string, name: string, requests: seq<Request>): Option<EventDestination>
  {
    if requests == [] then first
    else
      match requests[|requests| - 1]
      case PutDestination(s, d) =>
        if s == set_ && d.name == name then Some(d)
        else DestinationBy(first, set_, name, requests[..|requests| - 1])
      case _ => DestinationBy(first, set_, name, requests[..|requests| - 1])
  }

  predicate SetBy(first: bool, set_: string, requests: seq<Request>) {
    if requests == [] then first
    else
      || SetBy(first, set_, requests[..|requests| - 1])
      || (match requests[|requests| - 1]
          case PutDestination(s, _) => s == set_
          case CreateConfigurationSet(s) => s == set_
          case _ => false)
  }

  /** The first destination of that name. */
  function Named(destinations: seq<EventDestination>, name: string): Option<EventDestination> {
    if destinations == [] then None
    else if destinations[0].name == name then Some(destinations[0])
    else Named(destinations[1..], name)
  }

  lemma {:induction false} NamedPut(destinations: seq<EventDestination>, d: EventDestination, name: string)
    ensures Named(PutByName(destinations, d), name) == if name == d.name then Some(d) else Named(destinations, name)
    decreases destinations
  {
    if destinations != [] && destinations[0].name != d.name {
      NamedPut(destinations[1..], d, name);
      assert PutByName(destinations, d)[1..] == PutByName(destinations[1..], d);
    } else if destinations != [] {
      assert PutByName(destinations, d)[1..] == destinations[1..];
    } else {
      assert [d][1..] == [];
    }
  }

  /** After any requests the sets are those created or put to, and each name leads to the last destination put. */
  lemma {:induction false} DestinationsAre(
      m: Machine, env: Env, requests: seq<Request>, set_: string, name: string)
    ensures var after := Served(m, env, requests).state;
            && (set_ in after.configurationSets <==> SetBy(set_ in m.state.configurationSets, set_, requests))
            && Named(DestinationsOf(after, set_), name) ==
               DestinationBy(Named(DestinationsOf(m.state, set_), name), set_, name, requests)
    decreases requests
  {
    if requests != [] {
      var front, last := requests[..|requests| - 1], requests[|requests| - 1];
      DestinationsAre(m, env, front, set_, name);
      var before := Served(m, env, front);
      OnlyItsPart(before, env, last);
      match last
      case PutDestination(s, d) => NamedPut(DestinationsOf(before.state, s), d, name);
      case _ =>
    }
  }

  /******* Emails *******/

  /** An address for a simulated result: the simulator's own, or any whose local part ends with the tag. */
  ghost predicate AddressAsks(address: string, tag: string) {
    || Lower(address) == tag + "@simulator.amazonses.com"
    || exists local, rest :: Tagged(Lower(address), local, tag, rest)
  }

  /** A local part that ends with the tag, and the rest of the address, if any. */
  predicate Tagged(address: string, local: string, tag: string, rest: string) {
    address == local + ("+" + tag) + rest && '@' !in local && (rest == "" || rest[0] == '@')
  }

  ghost predicate SomeAsks(recipients: seq<string>, tag: string) {
    exists i :: 0 <= i < |recipients| && AddressAsks(recipients[i], tag)
  }

  lemma TagEndsLocal(r: string, local: string, tag: string, rest: string)
    requires '@' !in tag && Tagged(r, local, tag, rest)
    ensures EndsWith(Before(r, '@'), "+" + tag)
  {
    var head := local + ("+" + tag);
    assert '@' !in head;
    if rest == "" {
      assert r == head;
      BeforeNone(head, '@');
    } else {
      assert r == head + (['@'] + rest[1..]);
      BeforeOf(head, '@', rest[1..]);
    }
    assert head[|head| - |"+" + tag|..] == "+" + tag;
  }

  lemma LocalHasTag(r: string, tag: string) returns (local: string, rest: string)
    requires EndsWith(Before(r, '@'), "+" + tag)
    ensures Tagged(r, local, tag, rest)
  {
    var before := Before(r, '@');
    BeforeIs(r, '@');
    AfterBefore(r, '@');
    local, rest := before[..|before| - |"+" + tag|], r[|before|..];
    assert before == local + ("+" + tag);
    assert r == before + rest;
  }

  lemma AddressAsksIs(address: string, tag: string)
    requires '@' !in tag
    ensures AsksFor(address, tag) <==> AddressAsks(address, tag)
  {
    var r := Lower(address);
    if EndsWith(Before(r, '@'), "+" + tag) {
      var local, rest := LocalHasTag(r, tag);
    }
    forall local, rest | Tagged(r, local, tag, rest)
      ensures EndsWith(Before(r, '@'), "+" + tag)
    {
      TagEndsLocal(r, local, tag, rest);
    }
  }

  lemma {:induction false} AfterBefore(s: string, c: char)
    ensures |Before(s, c)| <= |s|
    ensures s[|Before(s, c)|..] == "" || s[|Before(s, c)|..][0] == c
    decreases s
  {
    if s != "" && s[0] != c {
      AfterBefore(s[1..], c);
      assert s[|Before(s, c)|..] == s[1..][|Before(s[1..], c)|..];
    }
  }

  lemma SomeAsksIs(recipients: seq<string>, tag: string)
    requires '@' !in tag
    ensures Asks(recipients, tag) <==> SomeAsks(recipients, tag)
  {
    forall i | 0 <= i < |recipients|
      ensures AsksFor(recipients[i], tag) <==> AddressAsks(recipients[i], tag)
    {
      AddressAsksIs(recipients[i], tag);
    }
  }

  /** What happens to an email is what its recipients ask for, suppression before bounces before complaints. */
  lemma OutcomeIs(recipients: seq<string>)
    ensures OutcomeFor(recipients) ==
            if SomeAsks(recipients, "suppressionlist") then Suppressed
            else if SomeAsks(recipients, "bounce") then Bounced
            else if SomeAsks(recipients, "complaint") then Complained
            else Delivered
  {
    SomeAsksIs(recipients, "suppressionlist");
    SomeAsksIs(recipients, "bounce");
    SomeAsksIs(recipients, "complaint");
  }

  /** Who an email goes to: those the request names, or else those a raw one names itself. */
  predicate GoesTo(email: Email, to: seq<string>) {
    if email.to != [] || email.cc != [] || email.bcc != [] || email.rawRecipients.None?
    then to == email.to + email.cc + email.bcc
    else to == email.rawRecipients.value
  }

  /** An accepted email heads the log as it came, under a fresh id, with the outcome its recipients ask for. */
  lemma EmailIsLogged(m: Machine, env: Env, email: Email)
    ensures var after := Handle(m, env, SendEmail(email));
            && |after.state.messages| > 0
            && var message := after.state.messages[0];
               && message.id == m.nextId < after.nextId && message.receivedAt == m.now
               && message.region == email.region && message.configurationSet == email.configurationSet
               && message.from == email.from && message.subject == email.subject && message.content == email.content
               && GoesTo(email, message.to) && message.outcome == OutcomeFor(message.to)
               && after.history.accepted == m.history.accepted + [message]
  {
    HandleIsClean(m, env, SendEmail(email));
  }

  /******* Timers *******/

  /** The delay a timer really gets: Node takes anything outside 1 to 2147483647 for one. */
  function RealDelay(env: Env): nat {
    if env.deliveryDelay < 1 || env.deliveryDelay > 2147483647 then 1 else env.deliveryDelay
  }

  /** The timers pending but for the save, which any change puts off. */
  function ButTheSave(m: Machine): map<nat, Timer> {
    if m.saveTimer.Some? then m.timers - {m.saveTimer.value} else m.timers
  }

  lemma SavePutOff(m: Machine, message: Message)
    ensures AddMessage(m, message).timers == ButTheSave(m)[m.nextId + 1 := Timer(m.now + 200, 200, Save)]
    ensures AddMessage(m, message).nextId == m.nextId + 2 && AddMessage(m, message).now == m.now
    ensures AddMessage(m, message).history.jobs == m.history.jobs
    ensures AddMessage(m, message).state.configurationSets == m.state.configurationSets
  {
  }

  lemma JobTimersSet(m: Machine, env: Env, message: Message, targets: seq<Target>)
    requires message.id !in m.history.jobs
    ensures var after := EmitEvents(m, env, message, targets);
            if message.id in after.history.jobs then
              var job := after.history.jobs[message.id];
              after.timers == m.timers[m.nextId := Timer(m.now + 100, 100, EmitSend(job))]
                                      [m.nextId + 1 := Timer(m.now + RealDelay(env), RealDelay(env), EmitOutcome(job))]
            else after.timers == m.timers
  {
  }

  /** An email with a job sets its send for 100 ms from now and its outcome for the delay from now, and a save. */
  lemma EmailSetsItsTimers(m: Machine, env: Env, email: Email)
    requires m.nextId !in m.history.jobs
    ensures var n, after := m.nextId, Handle(m, env, SendEmail(email));
            var saved := ButTheSave(m)[n + 1 := Timer(m.now + 200, 200, Save)];
            if n in after.history.jobs then
              var job := after.history.jobs[n];
              after.timers == saved[n + 2 := Timer(m.now + 100, 100, EmitSend(job))]
                                   [n + 3 := Timer(m.now + RealDelay(env), RealDelay(env), EmitOutcome(job))]
            else after.timers == saved
  {
    var message := MessageOf(email, m.nextId, m.now);
    SavePutOff(m, message);
    var added := AddMessage(m, message);
    JobTimersSet(added, env, message, TargetsOf(DestinationsOf(added.state, OrElse(message.configurationSet, ""))));
  }

  /** Subscribing over http or https asks for confirmation in 1500 ms; over anything else it does not. */
  lemma SubscribingConfirms(m: Machine, env: Env, arn: string, protocol: string, endpoint: string)
    ensures var n, after := m.nextId, Handle(m, env, Subscribe(arn, protocol, endpoint));
            var saved := ButTheSave(m)[n + 1 := Timer(m.now + 200, 200, Save)];
            after.timers == if "http" <= protocol
                            then saved[n + 2 := Timer(m.now + 1500, 1500, Confirm(arn, endpoint))] else saved
  {
  }

  /** Every other request that changes something sets a save alone. */
  lemma OthersSave(m: Machine, env: Env, request: Request)
    requires !request.SendEmail? && !request.Subscribe? && !request.Query?
    ensures Handle(m, env, request).timers == ButTheSave(m)[m.nextId := Timer(m.now + 200, 200, Save)]
  {
  }
}
