/**
 Where a published event goes: to the topic's http subscriptions as they stand when its timer fires, or to the
 fallback when there is none; for every publication of every run.
 */
module EmulatorPosts {
  import opened Options
  import opened EmulatorModel
  import opened EmulatorEvents

  /** Some subscription of the topic posts to that endpoint by http or https. */
  predicate Subscribed(s: State, arn: string, e: string) {
    exists i :: 0 <= i < |s.subscriptions| && s.subscriptions[i].topicArn == arn &&
                "http" <= s.subscriptions[i].protocol && s.subscriptions[i].endpoint == e
  }

  /** A publication reaches exactly the subscribed endpoints; the fallback, if any, when there are none. */
  ghost predicate RightlyPosted(s: State, fallback: Option<string>, p: Publication) {
    && ((exists e :: Subscribed(s, p.arn, e)) ==> forall e :: e in p.endpoints <==> Subscribed(s, p.arn, e))
    && ((forall e :: !Subscribed(s, p.arn, e)) ==>
          p.endpoints == match fallback case Some(url) => [url] case None => [])
  }

  lemma {:induction false} EndpointsAre(subscriptions: seq<Subscription>, arn: string, e: string)
    ensures e in HttpEndpoints(subscriptions, arn) <==>
              exists i :: 0 <= i < |subscriptions| && subscriptions[i].topicArn == arn &&
                          "http" <= subscriptions[i].protocol && subscriptions[i].endpoint == e
    decreases subscriptions
  {
    if subscriptions != [] {
      var tail := subscriptions[1..];
      EndpointsAre(tail, arn, e);
      if i :| 0 <= i < |tail| && tail[i].topicArn == arn && "http" <= tail[i].protocol && tail[i].endpoint == e {
        assert subscriptions[i + 1] == tail[i];
      }
      if i :| 0 < i < |subscriptions| && subscriptions[i].topicArn == arn &&
              "http" <= subscriptions[i].protocol && subscriptions[i].endpoint == e {
        assert tail[i - 1] == subscriptions[i];
      }
    }
  }

  lemma PostedTo(s: State, env: Env, p: Publication)
    requires p.endpoints == Endpoints(s, env, p.arn)
    ensures RightlyPosted(s, env.fallback, p)
  {
    forall e
      ensures e in HttpEndpoints(s.subscriptions, p.arn) <==> Subscribed(s, p.arn, e)
    {
      EndpointsAre(s.subscriptions, p.arn, e);
    }
    if HttpEndpoints(s.subscriptions, p.arn) != [] {
      assert Subscribed(s, p.arn, HttpEndpoints(s.subscriptions, p.arn)[0]);
    }
  }

  lemma {:induction false} AllPosted(s: State, env: Env, job: Job, event: string, k: nat)
    requires k <= |job.targets|
    ensures forall p :: p in Publications(s, env, job, event, k) ==>
              RightlyPosted(s, env.fallback, p) && p.job == job.id && p.event == event
    decreases |job.targets| - k
  {
    if k < |job.targets| {
      var target := job.targets[k];
      PostedTo(s, env, Publication(job.id, k, target.arn, event, Endpoints(s, env, target.arn)));
      AllPosted(s, env, job, event, k + 1);
    }
  }

  /** The firing of this timer, one of the publication's own message, posts its event rightly. */
  ghost predicate PostedNow(m: Machine, env: Env, id: nat, p: Publication) {
    && id in m.timers && Owner(m.timers[id].task) == Some(p.job) && EventOf(m.timers[id].task) == p.event
    && p in Step(m, env, Fire(id)).history.published && RightlyPosted(m.state, env.fallback, p)
  }

  /** What a step publishes: nothing unless a timer fires; then each goes where the state of that moment says. */
  lemma StepPosts(m: Machine, env: Env, event: Event)
    requires Enabled(m, event)
    ensures var after := Step(m, env, event);
            forall p :: p in after.history.published ==>
              p in m.history.published || (event.Fire? && PostedNow(m, env, event.id, p))
  {
    match event
    case Fire(id) =>
      if Owner(m.timers[id].task).Some? {
        FireEmits(m, env, id);
        AllPosted(m.state, env, m.timers[id].task.job, EventOf(m.timers[id].task), 0);
      }
    case Receive(request) => NothingPublished(m, env, request);
    case _ =>
  }

  lemma NothingPublished(m: Machine, env: Env, request: Request)
    ensures Handle(m, env, request).history.published == m.history.published
  {
  }

  /** A moment of the run: the machine after some of its events, and the timer that fires next. */
  ghost predicate FiresAt(m: Machine, env: Env, events: seq<Event>, k: nat, moment: Machine) {
    k < |events| && events[k].Fire? && Reaches(m, env, events[..k], moment)
  }

  /** Published at some moment of the run, to where the subscriptions of that moment say. */
  ghost predicate PostedInRun(m: Machine, env: Env, events: seq<Event>, p: Publication) {
    exists k: nat, moment: Machine ::
      FiresAt(m, env, events, k, moment) && p !in moment.history.published && PostedNow(moment, env, events[k].id, p)
  }

  lemma {:induction false} RunPosts(m: Machine, env: Env, events: seq<Event>, end: Machine, p: Publication)
    requires Reaches(m, env, events, end) && p in end.history.published
    ensures p in m.history.published || PostedInRun(m, env, events, p)
    decreases events
  {
    if events != [] {
      var next := Step(m, env, events[0]);
      RunPosts(next, env, events[1..], end, p);
      if p in next.history.published {
        StepPosts(m, env, events[0]);
        if p !in m.history.published {
          assert events[..0] == [];
          assert PostedNow(m, env, events[0].id, p);
          assert FiresAt(m, env, events, 0, m);
        }
      } else {
        var k: nat, moment: Machine :|
          FiresAt(next, env, events[1..], k, moment) && p !in moment.history.published &&
          PostedNow(moment, env, events[1..][k].id, p);
        assert events[..k + 1][0] == events[0] && events[..k + 1][1..] == events[1..][..k];
        assert FiresAt(m, env, events, k + 1, moment);
      }
    }
  }

  /**
   In every run, every publication was posted, at the moment some timer fired, to exactly the endpoints then
   subscribed to its topic by http or https, or to the fallback when there was none.
   */
  lemma EveryPostIsRight(file: File, env: Env, events: seq<Event>, end: Machine, p: Publication)
    requires Reaches(Boot(file), env, events, end) && p in end.history.published
    ensures PostedInRun(Boot(file), env, events, p)
  {
    RunPosts(Boot(file), env, events, end, p);
  }
}
