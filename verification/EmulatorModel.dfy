/**
 The local SES/SNS emulator as a state machine: requests change the in-memory state and schedule
 timers, timers publish events and write the state to disk, and the process may restart.

 Time only moves in Tick steps. Timers set with the same duration wait in one list and fire in the order
 they were set, as in Node; which list goes first is left open. Node takes the list whose first timer is
 due earliest, but once in a list it fires every timer of it that is due, so after a stall a timer may fire
 before one of another duration that was due earlier.
 */
module EmulatorModel {
  import opened Options
  import opened Text

  const MAX_MESSAGES: nat := 500
  const SAVE_DELAY: nat := 200
  const SEND_DELAY: nat := 100
  const CONFIRM_DELAY: nat := 1500

  datatype Identity = Identity(
    name: string, region: string, configurationSet: Option<string>, dkimSelector: Option<string>,
    mailFromDomain: Option<string>, createdAt: nat)

  datatype EventDestination =
    EventDestination(name: string, enabled: bool, types: seq<string>, topicArn: Option<string>)

  datatype Subscription = Subscription(arn: nat, topicArn: string, protocol: string, endpoint: string)

  datatype Outcome = Delivered | Bounced | Complained | Suppressed

  datatype Message = Message(
    id: nat, region: string, configurationSet: Option<string>, from: string, to: seq<string>,
    subject: string, content: string, outcome: Outcome, receivedAt: nat)

  /** A configuration set keeps its destinations in the order their names were first used. */
  datatype State = State(
    identities: map<string, Identity>, configurationSets: map<string, seq<EventDestination>>,
    topics: seq<string>, subscriptions: seq<Subscription>, messages: seq<Message>)

  const EMPTY := State(map[], map[], [], [], [])

  /** The data file: missing, unreadable, or JSON in which any part of the state may be missing. */
  datatype File =
    | Missing
    | Unreadable
    | Json(identities: Option<map<string, Identity>>, configurationSets: Option<map<string, seq<EventDestination>>>,
           topics: Option<seq<string>>, subscriptions: Option<seq<Subscription>>, messages: Option<seq<Message>>)

  function OrElse<T>(value: Option<T>, default: T): T {
    match value
    case Some(v) => v
    case None => default
  }

  function Load(file: File): State {
    match file
    case Json(identities, sets, topics, subscriptions, messages) =>
      State(OrElse(identities, map[]), OrElse(sets, map[]), OrElse(topics, []), OrElse(subscriptions, []),
            OrElse(messages, []))
    case _ => EMPTY
  }

  function Write(s: State): File {
    Json(Some(s.identities), Some(s.configurationSets), Some(s.topics), Some(s.subscriptions), Some(s.messages))
  }

  /******* Timers, events and the machine *******/

  datatype Target = Target(arn: string, types: seq<string>)

  /** One message's events: what it turned into and where they go. */
  datatype Job = Job(id: nat, outcome: Outcome, targets: seq<Target>)

  datatype Task =
    | Save
    | Confirm(topicArn: string, endpoint: string)
    | EmitSend(job: Job)
    | EmitOutcome(job: Job)
    | EmitComplaint(job: Job)

  datatype Timer = Timer(due: nat, duration: nat, task: Task)

  datatype Emission = Emission(job: nat, event: string)

  /** One publish: which target of which job, which event, and the endpoints posted to. */
  datatype Publication = Publication(job: nat, target: nat, arn: string, event: string, endpoints: seq<string>)

  /** Records no step reads: what was accepted, scheduled, emitted, published and passed through so far. */
  datatype History = History(
    jobs: map<nat, Job>, emitted: seq<Emission>, published: seq<Publication>,
    accepted: seq<Message>, savedAccepted: seq<Message>, touched: nat, states: seq<State>)

  datatype Machine = Machine(
    state: State, file: File, saveTimer: Option<nat>, timers: map<nat, Timer>, now: nat, nextId: nat, history: History)

  /** DELIVERY_DELAY_MS and WEBHOOK_URL. */
  datatype Env = Env(deliveryDelay: int, fallback: Option<string>)

  const MAX_TIMEOUT: int := 2147483647

  /** setTimeout takes any delay outside 1 to 2147483647 for one. */
  function DeliveryDelay(env: Env): nat {
    if 1 <= env.deliveryDelay <= MAX_TIMEOUT then env.deliveryDelay else 1
  }

  function SetTimer(m: Machine, duration: nat, task: Task): Machine {
    m.(timers := m.timers[m.nextId := Timer(m.now + duration, duration, task)], nextId := m.nextId + 1)
  }

  /** Replaces the pending save, if any, by one that is due a moment from now. */
  function Persist(m: Machine): Machine {
    var cleared := if m.saveTimer.Some? then m.timers - {m.saveTimer.value} else m.timers;
    var scheduled := SetTimer(m.(timers := cleared), SAVE_DELAY, Save);
    scheduled.(saveTimer := Some(m.nextId),
               history := m.history.(touched := m.now, states := m.history.states + [m.state]))
  }

  function Change(m: Machine, state: State): Machine {
    Persist(m.(state := state))
  }

  /******* Requests *******/

  datatype Request =
    | PutIdentity(name: string, region: string, configurationSet: Option<string>, dkimSelector: Option<string>)
    | DeleteIdentity(name: string)
    | SetMailFrom(name: string, region: string, mailFromDomain: Option<string>)
    | SetDkimSelector(name: string, region: string, dkimSelector: Option<string>)
    | CreateConfigurationSet(name: string)
    | PutDestination(set_: string, destination: EventDestination)
    | SendEmail(email: Email)
    | CreateTopic(region: string, name: string)
    | DeleteTopic(topicArn: string)
    | Subscribe(topicArn: string, protocol: string, endpoint: string)
    | Unsubscribe(arn: nat)
    | ClearMessages
    | Query

  /** An outbound email; a raw one brings the recipients its own headers name. */
  datatype Email = Email(
    region: string, configurationSet: Option<string>, from: string, subject: string, content: string,
    to: seq<string>, cc: seq<string>, bcc: seq<string>, rawRecipients: Option<seq<string>>)

  function Recipients(email: Email): seq<string> {
    var listed := email.to + email.cc + email.bcc;
    if listed == [] && email.rawRecipients.Some? then email.rawRecipients.value else listed
  }

  /** Whether some recipient asks for a simulated result, by the simulator's address or by a tag. */
  predicate Asks(recipients: seq<string>, local: string) {
    exists i :: 0 <= i < |recipients| && AsksFor(recipients[i], local)
  }

  predicate AsksFor(recipient: string, local: string) {
    var r := Lower(recipient);
    r == local + "@simulator.amazonses.com" || EndsWith(Before(r, '@'), "+" + local)
  }

  function OutcomeFor(recipients: seq<string>): Outcome {
    if Asks(recipients, "suppressionlist") then Suppressed
    else if Asks(recipients, "bounce") then Bounced
    else if Asks(recipients, "complaint") then Complained
    else Delivered
  }

  function EnsureIdentity(identities: map<string, Identity>, name: string, region: string, now: nat): Identity {
    if name in identities then identities[name] else Identity(name, region, None, None, None, now)
  }

  function PutByName(destinations: seq<EventDestination>, d: EventDestination): seq<EventDestination> {
    if destinations == [] then [d]
    else if destinations[0].name == d.name then [d] + destinations[1..]
    else [destinations[0]] + PutByName(destinations[1..], d)
  }

  function DestinationsOf(s: State, name: string): seq<EventDestination> {
    if name in s.configurationSets then s.configurationSets[name] else []
  }

  function TopicArn(region: string, name: string): string {
    "arn:aws:sns:" + region + ":000000000000:" + name
  }

  function WithoutTopic(topics: seq<string>, arn: string): seq<string> {
    if topics == [] then []
    else (if topics[0] == arn then [] else [topics[0]]) + WithoutTopic(topics[1..], arn)
  }

  /** The subscriptions kept when those a test picks out are dropped. */
  function Keep(subscriptions: seq<Subscription>, drop: Subscription -> bool): seq<Subscription> {
    if subscriptions == [] then []
    else (if drop(subscriptions[0]) then [] else [subscriptions[0]]) + Keep(subscriptions[1..], drop)
  }

  function Capped(messages: seq<Message>): seq<Message> {
    if |messages| <= MAX_MESSAGES then messages else messages[..MAX_MESSAGES]
  }

  /** A destination that is enabled and has a topic, as a target. */
  function TargetOf(d: EventDestination): seq<Target> {
    if d.enabled && d.topicArn.Some? && d.topicArn.value != "" then [Target(d.topicArn.value, d.types)] else []
  }

  function TargetsOf(destinations: seq<EventDestination>): seq<Target> {
    if destinations == [] then [] else TargetOf(destinations[0]) + TargetsOf(destinations[1..])
  }

  function EmitEvents(m: Machine, env: Env, message: Message, targets: seq<Target>): Machine {
    if targets == [] && env.fallback.None? then m
    else
      var job := Job(message.id, message.outcome, if targets == [] then [Target("local", [])] else targets);
      var m1 := m.(history := m.history.(jobs := m.history.jobs[job.id := job]));
      SetTimer(SetTimer(m1, SEND_DELAY, EmitSend(job)), DeliveryDelay(env), EmitOutcome(job))
  }

  /** Puts a message in front, under the id it was given. */
  function AddMessage(m: Machine, message: Message): Machine {
    var m1 := m.(nextId := m.nextId + 1, history := m.history.(accepted := m.history.accepted + [message]));
    Change(m1, m.state.(messages := Capped([message] + m.state.messages)))
  }

  /** The message an outbound email becomes, under a fresh id. */
  function MessageOf(email: Email, id: nat, now: nat): Message {
    var to := Recipients(email);
    Message(id, email.region, email.configurationSet, email.from, to, email.subject, email.content, OutcomeFor(to), now)
  }

  /** Schedules the events of a message for the destinations of its configuration set. */
  function Announce(m: Machine, env: Env, message: Message): Machine {
    EmitEvents(m, env, message, TargetsOf(DestinationsOf(m.state, OrElse(message.configurationSet, ""))))
  }

  function HandleSendEmail(m: Machine, env: Env, email: Email): Machine {
    Announce(AddMessage(m, MessageOf(email, m.nextId, m.now)), env, MessageOf(email, m.nextId, m.now))
  }

  function AddSubscription(m: Machine, arn: string, protocol: string, endpoint: string): Machine {
    var kept := Keep(m.state.subscriptions, SamePlace(arn, endpoint));
    var subscriptions := kept + [Subscription(m.nextId, arn, protocol, endpoint)];
    Change(m.(nextId := m.nextId + 1), m.state.(subscriptions := subscriptions))
  }

  function ConfirmSubscription(m: Machine, arn: string, protocol: string, endpoint: string): Machine {
    if StartsWith(protocol, "http") then SetTimer(m, CONFIRM_DELAY, Confirm(arn, endpoint)) else m
  }

  function HandleSubscribe(m: Machine, arn: string, protocol: string, endpoint: string): Machine {
    ConfirmSubscription(AddSubscription(m, arn, protocol, endpoint), arn, protocol, endpoint)
  }

  function Handle(m: Machine, env: Env, request: Request): Machine {
    var s := m.state;
    match request
    case PutIdentity(name, region, configurationSet, selector) =>
      var identity := Identity(name, region, configurationSet, selector, None, m.now);
      Change(m, s.(identities := s.identities[name := identity]))
    case DeleteIdentity(name) =>
      Change(m, s.(identities := s.identities - {name}))
    case SetMailFrom(name, region, domain) =>
      var identity := EnsureIdentity(s.identities, name, region, m.now);
      Change(m, s.(identities := s.identities[name := identity.(mailFromDomain := domain)]))
    case SetDkimSelector(name, region, selector) =>
      var identity := EnsureIdentity(s.identities, name, region, m.now);
      Change(m, s.(identities := s.identities[name := identity.(dkimSelector := selector)]))
    case CreateConfigurationSet(name) =>
      Change(m, s.(configurationSets := s.configurationSets[name := DestinationsOf(s, name)]))
    case PutDestination(name, destination) =>
      Change(m, s.(configurationSets := s.configurationSets[name := PutByName(DestinationsOf(s, name), destination)]))
    case SendEmail(email) => HandleSendEmail(m, env, email)
    case CreateTopic(region, name) =>
      var arn := TopicArn(region, name);
      Change(m, if arn in s.topics then s else s.(topics := s.topics + [arn]))
    case DeleteTopic(arn) =>
      Change(m, s.(topics := WithoutTopic(s.topics, arn), subscriptions := Keep(s.subscriptions, OnTopic(arn))))
    case Subscribe(arn, protocol, endpoint) => HandleSubscribe(m, arn, protocol, endpoint)
    case Unsubscribe(arn) =>
      Change(m, s.(subscriptions := Keep(s.subscriptions, HasArn(arn))))
    case ClearMessages =>
      Change(m.(history := m.history.(accepted := [])), s.(messages := []))
    case Query => m
  }

  function OnTopic(arn: string): Subscription -> bool {
    (s: Subscription) => s.topicArn == arn
  }

  function SamePlace(arn: string, endpoint: string): Subscription -> bool {
    (s: Subscription) => s.topicArn == arn && s.endpoint == endpoint
  }

  function HasArn(arn: nat): Subscription -> bool {
    (s: Subscription) => s.arn == arn
  }

  /******* Publishing *******/

  function HttpEndpoints(subscriptions: seq<Subscription>, arn: string): seq<string> {
    if subscriptions == [] then []
    else
      var s := subscriptions[0];
      (if s.topicArn == arn && StartsWith(s.protocol, "http") then [s.endpoint] else []) +
      HttpEndpoints(subscriptions[1..], arn)
  }

  function Endpoints(s: State, env: Env, arn: string): seq<string> {
    var endpoints := HttpEndpoints(s.subscriptions, arn);
    if endpoints == [] && env.fallback.Some? then [env.fallback.value] else endpoints
  }

  /** No listed types means all of them; otherwise any case of a listed type. */
  predicate Matches(target: Target, event: string) {
    target.types == [] || exists i :: 0 <= i < |target.types| && Upper(target.types[i]) == Upper(event)
  }

  /** What emitting one event publishes, to the targets from k on. */
  function Publications(s: State, env: Env, job: Job, event: string, k: nat): seq<Publication>
    requires k <= |job.targets|
    decreases |job.targets| - k
  {
    if k == |job.targets| then []
    else
      var target := job.targets[k];
      (if Matches(target, event) then [Publication(job.id, k, target.arn, event, Endpoints(s, env, target.arn))]
       else []) +
      Publications(s, env, job, event, k + 1)
  }

  function Emit(m: Machine, env: Env, job: Job, event: string): Machine {
    m.(history := m.history.(
      emitted := m.history.emitted + [Emission(job.id, event)],
      published := m.history.published + Publications(m.state, env, job, event, 0)))
  }

  function Run(m: Machine, env: Env, task: Task): Machine {
    match task
    case Save => m.(file := Write(m.state), history := m.history.(savedAccepted := m.history.accepted))
    case Confirm(_, _) => m
    case EmitSend(job) => Emit(m, env, job, "Send")
    case EmitOutcome(job) =>
      (match job.outcome
       case Bounced => Emit(m, env, job, "Bounce")
       case Suppressed => Emit(m, env, job, "Bounce")
       case Complained => SetTimer(Emit(m, env, job, "Delivery"), DeliveryDelay(env), EmitComplaint(job))
       case Delivered => Emit(m, env, job, "Delivery"))
    case EmitComplaint(job) => Emit(m, env, job, "Complaint")
  }

  /******* Steps and runs *******/

  datatype Event = Receive(request: Request) | Tick(ms: nat) | Fire(id: nat) | Restart

  /** Whether a pending timer may fire now: it is due, and the first of those set with its duration. */
  ghost predicate MayFire(m: Machine, id: nat) {
    && id in m.timers && m.timers[id].due <= m.now
    && (forall other :: other in m.timers && other < id ==> m.timers[other].duration != m.timers[id].duration)
  }

  ghost predicate Enabled(m: Machine, event: Event) {
    event.Fire? ==> MayFire(m, event.id)
  }

  function Step(m: Machine, env: Env, event: Event): Machine
    requires event.Fire? ==> event.id in m.timers
  {
    match event
    case Receive(request) => Handle(m, env, request)
    case Tick(ms) => m.(now := m.now + ms)
    case Fire(id) => Run(m.(timers := m.timers - {id}), env, m.timers[id].task)
    case Restart =>
      var s := Load(m.file);
      Machine(s, m.file, None, map[], m.now, m.nextId,
              History(map[], [], [], m.history.savedAccepted, m.history.savedAccepted, m.now, m.history.states + [s]))
  }

  /** The machine as a process first finds it. */
  function Boot(file: File): Machine {
    var s := Load(file);
    var past := Oldest(s.messages);
    Machine(s, file, None, map[], 0, 0, History(map[], [], [], past, past, 0, [s]))
  }

  function Oldest(messages: seq<Message>): seq<Message> {
    seq(|messages|, i requires 0 <= i < |messages| => messages[|messages| - 1 - i])
  }

  /** The machine after a run, if every event of it was enabled when it came. */
  ghost predicate Reaches(m: Machine, env: Env, events: seq<Event>, end: Machine)
    decreases events
  {
    if events == [] then end == m
    else Enabled(m, events[0]) && Reaches(Step(m, env, events[0]), env, events[1..], end)
  }

  /******* How late timers run *******/

  ghost predicate NoneLate(m: Machine, slack: nat) {
    forall id :: id in m.timers ==> m.now <= m.timers[id].due + slack
  }

  /** Whenever a timer fires, no pending timer is late by more than this many milliseconds. */
  ghost predicate OnTime(m: Machine, env: Env, events: seq<Event>, slack: nat)
    decreases events
  {
    events == [] ||
    (Enabled(m, events[0]) && (events[0].Fire? ==> NoneLate(m, slack)) &&
     OnTime(Step(m, env, events[0]), env, events[1..], slack))
  }

  /** Node's choice of list: each timer fired is due no later than any other, or in the list just fired from. */
  ghost predicate EarliestListFirst(m: Machine, env: Env, events: seq<Event>, list: Option<nat>)
    decreases events
  {
    events == [] ||
    (Enabled(m, events[0]) && (events[0].Fire? ==> InTurn(m, events[0].id, list)) &&
     EarliestListFirst(Step(m, env, events[0]), env, events[1..], ListAfter(m, events[0])))
  }

  ghost predicate InTurn(m: Machine, id: nat, list: Option<nat>)
    requires id in m.timers
  {
    list == Some(m.timers[id].duration) || forall other :: other in m.timers ==> m.timers[id].due <= m.timers[other].due
  }

  function ListAfter(m: Machine, event: Event): Option<nat>
    requires event.Fire? ==> event.id in m.timers
  {
    if event.Fire? then Some(m.timers[event.id].duration) else None
  }
}
