/**
 When a message's events come out in order: just when the delivery delay is exactly the send delay, or beyond
 it by more than timers run late. The other half is shown by runs in which lists are taken as Node takes them.
 */
module EmulatorOrder {
  import opened Options
  import opened EmulatorModel
  import opened EmulatorEvents
  import opened EmulatorRuns

  /** In no run with timers that late at most does a message's event come before one it is due earlier. */
  ghost predicate Orderly(env: Env, slack: nat) {
    forall file, events, end, k ::
      Reaches(Boot(file), env, events, end) && OnTime(Boot(file), env, events, slack) &&
      k in end.history.jobs ==>
        Emitted(end.history.emitted, k) <= Expected(end.history.jobs[k].outcome)
  }

  /******* Runs that break the order *******/

  /** A run that keeps to the slack and to the order in which Node takes its lists. */
  ghost predicate Shows(m: Machine, env: Env, events: seq<Event>, end: Machine, slack: nat, list: Option<nat>) {
    Reaches(m, env, events, end) && OnTime(m, env, events, slack) && EarliestListFirst(m, env, events, list)
  }

  ghost predicate Proper(m: Machine, event: Event, slack: nat, list: Option<nat>) {
    Enabled(m, event) && (event.Fire? ==> NoneLate(m, slack) && InTurn(m, event.id, list))
  }

  /** A stretch of such a run, from one list fired from to the last. */
  ghost predicate Leads(
      m: Machine, env: Env, events: seq<Event>, end: Machine, slack: nat, list: Option<nat>, last: Option<nat>)
    decreases events
  {
    if events == [] then end == m && list == last
    else
      && Proper(m, events[0], slack, list)
      && Leads(Step(m, env, events[0]), env, events[1..], end, slack, ListAfter(m, events[0]), last)
  }

  lemma LeadsTwo(m: Machine, env: Env, a: Event, b: Event, slack: nat, list: Option<nat>)
    requires Proper(m, a, slack, list) && Proper(Step(m, env, a), b, slack, ListAfter(m, a))
    ensures var next := Step(m, env, a);
            Leads(m, env, [a, b], Step(next, env, b), slack, list, ListAfter(next, b))
  {
    assert [a, b][1..] == [b] && [b][1..] == [];
  }

  lemma {:induction false} LeadsOn(
      m: Machine, env: Env, events: seq<Event>, middle: Machine, more: seq<Event>, end: Machine, slack: nat,
      list: Option<nat>, between: Option<nat>, last: Option<nat>)
    requires Leads(m, env, events, middle, slack, list, between)
    requires Leads(middle, env, more, end, slack, between, last)
    ensures Leads(m, env, events + more, end, slack, list, last)
    decreases events
  {
    if events == [] {
      assert events + more == more;
    } else {
      assert (events + more)[1..] == events[1..] + more;
      LeadsOn(Step(m, env, events[0]), env, events[1..], middle, more, end, slack,
              ListAfter(m, events[0]), between, last);
    }
  }

  lemma {:induction false} LeadsShows(
      m: Machine, env: Env, events: seq<Event>, end: Machine, slack: nat, list: Option<nat>, last: Option<nat>)
    requires Leads(m, env, events, end, slack, list, last)
    ensures Shows(m, env, events, end, slack, list)
    decreases events
  {
    if events != [] {
      LeadsShows(Step(m, env, events[0]), env, events[1..], end, slack, ListAfter(m, events[0]), last);
    }
  }

  const DESTINATION := EventDestination("d", true, [], Some("t"))
  const EMAIL := Email("", None, "", "", "", [], [], [], None)

  function JobOf(id: nat): Job {
    Job(id, Delivered, [Target("t", [])])
  }

  /** A machine with that destination set up, and a save pending under this id. */
  ghost predicate SetUp(m: Machine, save: nat) {
    && m.saveTimer == Some(save) && DestinationsOf(m.state, "") == [DESTINATION]
    && (forall id :: id in m.timers ==> id < m.nextId)
  }

  lemma SetUpFirst(env: Env)
    ensures var m := Step(Boot(Missing), env, Receive(PutDestination("", DESTINATION)));
            && SetUp(m, 0) && m.timers == map[0 := Timer(200, 200, Save)] && m.nextId == 1 && m.now == 0
            && m.history.jobs == map[] && m.history.emitted == []
  {
  }

  /** What accepting the email does to such a machine: one save, one send and one outcome timer. */
  lemma AcceptEmail(m: Machine, env: Env, save: nat)
    requires SetUp(m, save)
    ensures var n, delay, after := m.nextId, DeliveryDelay(env), Step(m, env, Receive(SendEmail(EMAIL)));
            && SetUp(after, n + 1) && after.nextId == n + 4 && after.now == m.now
            && after.timers == (m.timers - {save})[n + 1 := Timer(m.now + 200, 200, Save)]
                 [n + 2 := Timer(m.now + 100, 100, EmitSend(JobOf(n)))]
                 [n + 3 := Timer(m.now + delay, delay, EmitOutcome(JobOf(n)))]
            && after.history.jobs == m.history.jobs[n := JobOf(n)] && after.history.emitted == m.history.emitted
  {
    var message := MessageOf(EMAIL, m.nextId, m.now);
    EmailIsDelivered(m.nextId, m.now);
    AddedAt(m, message, save);
    AnnouncedTo(AddMessage(m, message), env, message);
    EventsSet(AddMessage(m, message), env, message);
    StepSends(m, env, EMAIL);
  }

  lemma StepSends(m: Machine, env: Env, email: Email)
    ensures Step(m, env, Receive(SendEmail(email))) == HandleSendEmail(m, env, email)
  {
  }

  lemma EventsSet(m: Machine, env: Env, message: Message)
    requires message.outcome == Delivered
    ensures var n, delay, after := m.nextId, DeliveryDelay(env), EmitEvents(m, env, message, [Target("t", [])]);
            && after.timers == m.timers[n := Timer(m.now + 100, 100, EmitSend(JobOf(message.id)))]
                                       [n + 1 := Timer(m.now + delay, delay, EmitOutcome(JobOf(message.id)))]
            && after.nextId == n + 2 && after.now == m.now && after.saveTimer == m.saveTimer && after.state == m.state
            && after.history.jobs == m.history.jobs[message.id := JobOf(message.id)]
            && after.history.emitted == m.history.emitted
  {
  }

  lemma EmailIsDelivered(id: nat, now: nat)
    ensures var message := MessageOf(EMAIL, id, now);
            message.id == id && message.configurationSet == None && message.outcome == Delivered
  {
    assert Recipients(EMAIL) == [];
  }

  lemma AnnouncedTo(m: Machine, env: Env, message: Message)
    requires DestinationsOf(m.state, "") == [DESTINATION] && message.configurationSet == None
    ensures Announce(m, env, message) == EmitEvents(m, env, message, [Target("t", [])])
  {
    assert [DESTINATION][1..] == [];
    assert TargetsOf([DESTINATION]) == [Target("t", [])];
  }

  lemma AddedAt(m: Machine, message: Message, save: nat)
    requires SetUp(m, save)
    ensures var added := AddMessage(m, message);
            && added.timers == (m.timers - {save})[m.nextId + 1 := Timer(m.now + 200, 200, Save)]
            && added.nextId == m.nextId + 2 && added.saveTimer == Some(m.nextId + 1) && added.now == m.now
            && DestinationsOf(added.state, "") == [DESTINATION]
            && added.history.jobs == m.history.jobs && added.history.emitted == m.history.emitted
  {
  }

  lemma LastEmission(log: seq<Emission>, k: nat)
    requires log != [] && log[|log| - 1] == Emission(k, "Delivery")
    requires forall i :: 0 <= i < |log| - 1 ==> log[i].job != k
    ensures Emitted(log, k) == ["Delivery"]
  {
    var front := log[..|log| - 1];
    NoneEmitted(front, k);
    assert log == front + [Emission(k, "Delivery")];
    EmittedAppend(front, Emission(k, "Delivery"), k);
  }

  lemma FireDelivery(m: Machine, env: Env, id: nat, k: nat)
    requires id in m.timers && m.timers[id].task == EmitOutcome(JobOf(k))
    ensures var after := Step(m, env, Fire(id));
            && after.timers == m.timers - {id} && after.now == m.now && after.nextId == m.nextId
            && after.history.jobs == m.history.jobs
            && after.history.emitted == m.history.emitted + [Emission(k, "Delivery")]
  {
  }

  /** The first message accepted, its three timers pending. */
  ghost predicate OneOnTheWay(m: Machine, delay: nat) {
    && SetUp(m, 2) && m.nextId == 5 && m.now == 0
    && m.timers == map[2 := Timer(200, 200, Save), 3 := Timer(100, 100, EmitSend(JobOf(1))),
                       4 := Timer(delay, delay, EmitOutcome(JobOf(1)))]
    && m.history.jobs == map[1 := JobOf(1)] && m.history.emitted == []
  }

  const FIRST_REQUESTS := [Receive(PutDestination("", DESTINATION)), Receive(SendEmail(EMAIL))]

  lemma FirstAccepted(env: Env) returns (sent: Machine)
    ensures sent == Step(Step(Boot(Missing), env, Receive(PutDestination("", DESTINATION))),
                         env, Receive(SendEmail(EMAIL)))
    ensures OneOnTheWay(sent, DeliveryDelay(env))
  {
    SetUpFirst(env);
    var ready := Step(Boot(Missing), env, Receive(PutDestination("", DESTINATION)));
    AcceptEmail(ready, env, 0);
    sent := Step(ready, env, Receive(SendEmail(EMAIL)));
  }

  lemma LeadsReceive(m: Machine, env: Env, a: Request, b: Request, slack: nat, end: Machine)
    requires end == Step(Step(m, env, Receive(a)), env, Receive(b))
    ensures Leads(m, env, [Receive(a), Receive(b)], end, slack, None, None)
  {
    LeadsTwo(m, env, Receive(a), Receive(b), slack, None);
  }

  /** The two requests every one of these runs begins with. */
  lemma FirstSent(env: Env, slack: nat) returns (sent: Machine)
    ensures Leads(Boot(Missing), env, FIRST_REQUESTS, sent, slack, None, None)
    ensures OneOnTheWay(sent, DeliveryDelay(env))
  {
    sent := FirstAccepted(env);
    var put, send := PutDestination("", DESTINATION), SendEmail(EMAIL);
    LeadsReceive(Boot(Missing), env, put, send, slack, sent);
  }

  /** Below the send delay one message to one destination is enough: its delivery comes out first. */
  lemma TooSoon(env: Env, slack: nat) returns (events: seq<Event>, end: Machine)
    requires DeliveryDelay(env) < SEND_DELAY
    ensures Shows(Boot(Missing), env, events, end, slack, None)
    ensures 1 in end.history.jobs && end.history.jobs[1].outcome.Delivered?
    ensures Emitted(end.history.emitted, 1) == ["Delivery"]
  {
    var delay := DeliveryDelay(env);
    var sent := FirstSent(env, slack);
    end := DeliversFirst(sent, env, slack);
    events := FIRST_REQUESTS + [Tick(delay), Fire(4)];
    LeadsOn(Boot(Missing), env, FIRST_REQUESTS, sent, [Tick(delay), Fire(4)], end, slack, None, None, Some(delay));
    LeadsShows(Boot(Missing), env, events, end, slack, None, Some(delay));
  }

  lemma DeliversFirst(sent: Machine, env: Env, slack: nat) returns (end: Machine)
    requires DeliveryDelay(env) < SEND_DELAY && OneOnTheWay(sent, DeliveryDelay(env))
    ensures var delay := DeliveryDelay(env); Leads(sent, env, [Tick(delay), Fire(4)], end, slack, None, Some(delay))
    ensures end.history.jobs == sent.history.jobs && Emitted(end.history.emitted, 1) == ["Delivery"]
  {
    var waited := Step(sent, env, Tick(DeliveryDelay(env)));
    LeadsTwo(sent, env, Tick(DeliveryDelay(env)), Fire(4), slack, None);
    end := Step(waited, env, Fire(4));
    FireDelivery(waited, env, 4, 1);
    LastEmission(end.history.emitted, 1);
  }

  /** Two messages on their way: the first one's outcome is due no later than the second one's send. */
  ghost predicate TwoOnTheWay(m: Machine, delay: nat) {
    && delay > 100 && m.now <= 2 * delay - 100 && m.timers.Keys == {4, 6, 7, 8}
    && m.timers[4] == Timer(delay, delay, EmitOutcome(JobOf(1)))
    && m.timers[6] == Timer(delay + 100, 200, Save)
    && m.timers[7] == Timer(delay, 100, EmitSend(JobOf(5)))
    && m.timers[8] == Timer(2 * delay - 100, delay, EmitOutcome(JobOf(5)))
    && m.history.emitted == [Emission(1, "Send")]
    && 5 in m.history.jobs && m.history.jobs[5] == JobOf(5)
  }

  /** What is left of them once the first outcome has fired, after a stall up to when the second is due. */
  ghost predicate OneLeft(m: Machine, delay: nat) {
    && delay > 100 && m.now == 2 * delay - 100
    && m.timers.Keys - {6} == {7, 8} && (6 in m.timers ==> m.timers[6] == Timer(delay + 100, 200, Save))
    && m.timers[7] == Timer(delay, 100, EmitSend(JobOf(5)))
    && m.timers[8] == Timer(m.now, delay, EmitOutcome(JobOf(5)))
    && m.history.emitted == [Emission(1, "Send"), Emission(1, "Delivery")]
    && 5 in m.history.jobs && m.history.jobs[5] == JobOf(5)
  }

  /** A delivery of the second message before its send. */
  ghost predicate Disordered(m: Machine) {
    && 5 in m.history.jobs && m.history.jobs[5].outcome.Delivered?
    && Emitted(m.history.emitted, 5) == ["Delivery"]
  }

  lemma LastDelivery(m: Machine, env: Env, slack: nat) returns (end: Machine)
    requires OneLeft(m, DeliveryDelay(env)) && DeliveryDelay(env) <= SEND_DELAY + slack
    requires 6 in m.timers ==> DeliveryDelay(env) != 200
    ensures var list := Some(DeliveryDelay(env)); Leads(m, env, [Fire(8)], end, slack, list, list) && Disordered(end)
  {
    end := Step(m, env, Fire(8));
    FireDelivery(m, env, 8, 5);
    LastEmission(end.history.emitted, 5);
    assert forall id :: id in m.timers ==> id == 6 || id in m.timers.Keys - {6};
    assert Proper(m, Fire(8), slack, Some(DeliveryDelay(env)));
    assert [Fire(8)][1..] == [];
  }

  /** A save with the same duration waits in the same list, before the second outcome. */
  lemma DrainsOn(m: Machine, env: Env, slack: nat) returns (events: seq<Event>, end: Machine)
    requires OneLeft(m, DeliveryDelay(env)) && DeliveryDelay(env) <= SEND_DELAY + slack && 6 in m.timers
    ensures var list := Some(DeliveryDelay(env)); Leads(m, env, events, end, slack, list, list) && Disordered(end)
  {
    if DeliveryDelay(env) == 200 {
      var saved := Step(m, env, Fire(6));
      assert forall id :: id in m.timers ==> id == 6 || id in m.timers.Keys - {6};
      assert Proper(m, Fire(6), slack, Some(200));
      assert saved.timers.Keys == {7, 8};
      end := LastDelivery(saved, env, slack);
      events := [Fire(6), Fire(8)];
      assert events[1..] == [Fire(8)];
    } else {
      events := [Fire(8)];
      end := LastDelivery(m, env, slack);
    }
  }

  /** After a stall the process finds both outcomes due in one list, and the second send only in the next. */
  lemma StallsAndDrains(m: Machine, env: Env, slack: nat, list: Option<nat>) returns (events: seq<Event>, end: Machine)
    requires TwoOnTheWay(m, DeliveryDelay(env)) && DeliveryDelay(env) <= SEND_DELAY + slack
    ensures Leads(m, env, events, end, slack, list, Some(DeliveryDelay(env))) && Disordered(end)
  {
    var wait := 2 * DeliveryDelay(env) - 100 - m.now;
    var one := Stalls(m, env, slack, list, wait);
    events, end := DrainsOn(one, env, slack);
    var last := Some(DeliveryDelay(env));
    LeadsOn(m, env, [Tick(wait), Fire(4)], one, events, end, slack, list, last, last);
    events := [Tick(wait), Fire(4)] + events;
  }

  lemma Stalls(m: Machine, env: Env, slack: nat, list: Option<nat>, wait: nat) returns (one: Machine)
    requires TwoOnTheWay(m, DeliveryDelay(env)) && DeliveryDelay(env) <= SEND_DELAY + slack
    requires wait == 2 * DeliveryDelay(env) - 100 - m.now
    ensures Leads(m, env, [Tick(wait), Fire(4)], one, slack, list, Some(DeliveryDelay(env)))
    ensures OneLeft(one, DeliveryDelay(env)) && 6 in one.timers
  {
    var stalled := Step(m, env, Tick(wait));
    one := Step(stalled, env, Fire(4));
    FireDelivery(stalled, env, 4, 1);
    assert one.timers.Keys == {6, 7, 8};
    LeadsTwo(m, env, Tick(wait), Fire(4), slack, list);
  }

  lemma FireFirstSend(m: Machine, env: Env)
    requires 3 in m.timers && m.timers[3].task == EmitSend(JobOf(1)) && m.history.emitted == []
    ensures var after := Step(m, env, Fire(3));
            && after.timers == m.timers - {3} && after.now == m.now && after.nextId == m.nextId
            && after.saveTimer == m.saveTimer && after.state == m.state && after.history.jobs == m.history.jobs
            && after.history.emitted == [Emission(1, "Send")]
  {
    assert [] + [Emission(1, "Send")] == [Emission(1, "Send")];
  }

  /** Both messages accepted before the first one's send is due. */
  ghost predicate NoneOut(m: Machine, delay: nat) {
    && 100 < delay < 200 && m.now == delay - 100 && m.timers.Keys == {3, 4, 6, 7, 8}
    && m.timers[3] == Timer(100, 100, EmitSend(JobOf(1)))
    && m.timers[4] == Timer(delay, delay, EmitOutcome(JobOf(1)))
    && m.timers[6] == Timer(delay + 100, 200, Save)
    && m.timers[7] == Timer(delay, 100, EmitSend(JobOf(5)))
    && m.timers[8] == Timer(2 * delay - 100, delay, EmitOutcome(JobOf(5)))
    && m.history.emitted == [] && 5 in m.history.jobs && m.history.jobs[5] == JobOf(5)
  }

  lemma SecondSoon(m: Machine, env: Env, slack: nat, wait: nat) returns (both: Machine)
    requires OneOnTheWay(m, DeliveryDelay(env)) && 100 < DeliveryDelay(env) < 200
    requires wait == DeliveryDelay(env) - 100
    ensures Leads(m, env, [Tick(wait), Receive(SendEmail(EMAIL))], both, slack, None, None)
    ensures NoneOut(both, DeliveryDelay(env))
  {
    var waited := Step(m, env, Tick(wait));
    AcceptEmail(waited, env, 2);
    LeadsTwo(m, env, Tick(wait), Receive(SendEmail(EMAIL)), slack, None);
    both := Step(waited, env, Receive(SendEmail(EMAIL)));
    assert both.timers.Keys == {3, 4, 6, 7, 8};
  }

  lemma FirstOfBoth(m: Machine, env: Env, slack: nat, wait: nat) returns (later: Machine)
    requires NoneOut(m, DeliveryDelay(env)) && wait == 100 - m.now
    ensures Leads(m, env, [Tick(wait), Fire(3)], later, slack, None, Some(100))
    ensures TwoOnTheWay(later, DeliveryDelay(env))
  {
    var waited := Step(m, env, Tick(wait));
    LeadsTwo(m, env, Tick(wait), Fire(3), slack, None);
    FireFirstSend(waited, env);
    later := Step(waited, env, Fire(3));
  }

  /** The second message comes before the first one's send is due. */
  lemma SecondEarly(m: Machine, env: Env, slack: nat) returns (events: seq<Event>, end: Machine)
    requires OneOnTheWay(m, DeliveryDelay(env)) && 100 < DeliveryDelay(env) <= SEND_DELAY + slack
    requires DeliveryDelay(env) < 200
    ensures Leads(m, env, events, end, slack, None, Some(DeliveryDelay(env))) && Disordered(end)
  {
    var x, last := DeliveryDelay(env) - 100, Some(DeliveryDelay(env));
    var both := SecondSoon(m, env, slack, x);
    var later := FirstOfBoth(both, env, slack, 100 - x);
    events, end := StallsAndDrains(later, env, slack, Some(100));
    LeadsOn(both, env, [Tick(100 - x), Fire(3)], later, events, end, slack, None, Some(100), last);
    events := [Tick(100 - x), Fire(3)] + events;
    LeadsOn(m, env, [Tick(x), Receive(SendEmail(EMAIL))], both, events, end, slack, None, None, last);
    events := [Tick(x), Receive(SendEmail(EMAIL))] + events;
  }

  /** The first message's send out, at its time. */
  ghost predicate OneOut(m: Machine, delay: nat) {
    && SetUp(m, 2) && m.nextId == 5 && m.now == 100
    && m.timers == map[2 := Timer(200, 200, Save), 4 := Timer(delay, delay, EmitOutcome(JobOf(1)))]
    && m.history.emitted == [Emission(1, "Send")]
  }

  lemma FirstOut(m: Machine, env: Env, slack: nat) returns (out: Machine)
    requires OneOnTheWay(m, DeliveryDelay(env)) && DeliveryDelay(env) >= 200
    ensures Leads(m, env, [Tick(100), Fire(3)], out, slack, None, Some(100)) && OneOut(out, DeliveryDelay(env))
  {
    var waited := Step(m, env, Tick(100));
    LeadsTwo(m, env, Tick(100), Fire(3), slack, None);
    FireFirstSend(waited, env);
    out := Step(waited, env, Fire(3));
  }

  lemma SecondAfter(m: Machine, env: Env, slack: nat, wait: nat) returns (later: Machine)
    requires OneOut(m, DeliveryDelay(env)) && DeliveryDelay(env) >= 200 && wait == DeliveryDelay(env) - 200
    ensures Leads(m, env, [Tick(wait), Receive(SendEmail(EMAIL))], later, slack, Some(100), None)
    ensures TwoOnTheWay(later, DeliveryDelay(env))
  {
    var waited := Step(m, env, Tick(wait));
    AcceptEmail(waited, env, 2);
    LeadsTwo(m, env, Tick(wait), Receive(SendEmail(EMAIL)), slack, Some(100));
    later := Step(waited, env, Receive(SendEmail(EMAIL)));
    assert later.timers.Keys == {4, 6, 7, 8};
  }

  /** The second message comes after it. */
  lemma SecondLate(m: Machine, env: Env, slack: nat) returns (events: seq<Event>, end: Machine)
    requires OneOnTheWay(m, DeliveryDelay(env)) && 100 < DeliveryDelay(env) <= SEND_DELAY + slack
    requires DeliveryDelay(env) >= 200
    ensures Leads(m, env, events, end, slack, None, Some(DeliveryDelay(env))) && Disordered(end)
  {
    var wait, last := DeliveryDelay(env) - 200, Some(DeliveryDelay(env));
    var out := FirstOut(m, env, slack);
    var later := SecondAfter(out, env, slack, wait);
    events, end := StallsAndDrains(later, env, slack, None);
    LeadsOn(out, env, [Tick(wait), Receive(SendEmail(EMAIL))], later, events, end, slack, Some(100), None, last);
    events := [Tick(wait), Receive(SendEmail(EMAIL))] + events;
    LeadsOn(m, env, [Tick(100), Fire(3)], out, events, end, slack, None, Some(100), last);
    events := [Tick(100), Fire(3)] + events;
  }

  /** Timers that may run as late as the delivery delay exceeds the send delay are enough too. */
  lemma TooLate(env: Env, slack: nat) returns (events: seq<Event>, end: Machine)
    requires SEND_DELAY < DeliveryDelay(env) <= SEND_DELAY + slack
    ensures Shows(Boot(Missing), env, events, end, slack, None) && Disordered(end)
  {
    var last := Some(DeliveryDelay(env));
    var sent := FirstSent(env, slack);
    if DeliveryDelay(env) < 200 {
      events, end := SecondEarly(sent, env, slack);
    } else {
      events, end := SecondLate(sent, env, slack);
    }
    LeadsOn(Boot(Missing), env, FIRST_REQUESTS, sent, events, end, slack, None, None, last);
    events := FIRST_REQUESTS + events;
    LeadsShows(Boot(Missing), env, events, end, slack, None, last);
  }

  /**
   In all runs in which no timer is late by more than the slack when one fires, events come out in the order
   they are due, just when the delivery delay is the send delay or exceeds it by more than the slack.
   */
  lemma OrderNeedsTheDelay(env: Env, slack: nat)
    ensures Orderly(env, slack) <==> env.deliveryDelay == 100 || 100 + slack < env.deliveryDelay <= 2147483647
  {
    if DelayFits(env, slack) {
      forall file, events, end, k |
        Reaches(Boot(file), env, events, end) && OnTime(Boot(file), env, events, slack) &&
        k in end.history.jobs
        ensures Emitted(end.history.emitted, k) <= Expected(end.history.jobs[k].outcome)
      {
        EventsComeInOrder(file, env, events, end, slack, k);
      }
    } else {
      var events, end, k;
      if DeliveryDelay(env) < SEND_DELAY {
        events, end := TooSoon(env, slack);
        k := 1;
      } else {
        events, end := TooLate(env, slack);
        k := 5;
      }
      assert Emitted(end.history.emitted, k)[0] != Expected(Delivered)[0];
    }
  }
}
