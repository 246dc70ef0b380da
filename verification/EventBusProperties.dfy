/** What the bus guarantees over every interleaving of publications and worker steps. */
module EventBusProperties {

  import opened Common
  import opened EventBus

  // ----- Order and conservation -----

  /** What was offered to subscriber `i`: each matching publication since it subscribed, and whether its queue had
      room. */
  function Offers(b: Bus, steps: seq<Step>, i: nat): seq<(Event, bool)> {
    if steps == [] then []
    else
      var pre, step := Run(b, Init(steps)), Last(steps);
      Offers(b, Init(steps), i) +
      (if step.Publish? && i < |pre.subs| && pre.subs[i].kind == step.event.kind
       then [(step.event, !Full(pre.subs[i]))] else [])
  }

  /** The events whose handler has ended, in order. */
  function Handled(b: Bus, steps: seq<Step>, i: nat): seq<Event> {
    if steps == [] then []
    else
      var pre, step := Run(b, Init(steps)), Last(steps);
      Handled(b, Init(steps), i) +
      (if step.Finish? && step.i == i && i < |pre.subs| && pre.subs[i].inflight.Some?
       then [pre.subs[i].inflight.value] else [])
  }

  function Select(offers: seq<(Event, bool)>, accepted: bool): seq<Event> {
    if offers == [] then []
    else Select(Init(offers), accepted) + (if Last(offers).1 == accepted then [Last(offers).0] else [])
  }

  function InHand(s: Sub): seq<Event> { if s.inflight.Some? then [s.inflight.value] else [] }

  /** Handled, in-flight and queued events are, in order, exactly the accepted ones; every offer is accounted for
      in one counter; the queue stays within its bound and `join` waits for what is left. */
  predicate Accounted(s: Sub, offers: seq<(Event, bool)>, handled: seq<Event>) {
    && handled + InHand(s) + s.queue == Select(offers, true)
    && |offers| == s.delivered + s.errors + s.dropped + |s.queue| + |InHand(s)|
    && |handled| == s.delivered + s.errors
    && s.dropped == |Select(offers, false)|
    && s.unfinished == |s.queue| + |InHand(s)|
    && (s.maxsize > 0 ==> |s.queue| <= s.maxsize)
  }

  lemma SelectSnoc(offers: seq<(Event, bool)>, e: Event, ok: bool)
    ensures Select(offers + [(e, ok)], true) == Select(offers, true) + (if ok then [e] else [])
    ensures Select(offers + [(e, ok)], false) == Select(offers, false) + (if ok then [] else [e])
  {
    assert Init(offers + [(e, ok)]) == offers;
  }

  lemma OfferAccounted(s: Sub, e: Event, offers: seq<(Event, bool)>, handled: seq<Event>)
    requires Accounted(s, offers, handled) && s.kind == e.kind
    ensures Accounted(Offer(s, e), offers + [(e, !Full(s))], handled)
  {
    hide Select;
    SelectSnoc(offers, e, !Full(s));
  }

  lemma TakeAccounted(s: Sub, offers: seq<(Event, bool)>, handled: seq<Event>)
    requires Accounted(s, offers, handled)
    ensures Accounted(TakeNext(s), offers, handled)
  {
    if s.inflight == None && s.queue != [] {
      assert s.queue == [s.queue[0]] + s.queue[1..];
      assert handled + [s.queue[0]] + s.queue[1..] == handled + [] + s.queue;
    }
  }

  lemma SettleAccounted(s: Sub, ok: bool, offers: seq<(Event, bool)>, handled: seq<Event>)
    requires Accounted(s, offers, handled) && s.inflight.Some?
    ensures Accounted(Settle(s, ok), offers, handled + [s.inflight.value])
  {
    assert handled + [s.inflight.value] + [] + s.queue == handled + [s.inflight.value] + s.queue;
  }

  lemma {:induction false} NothingBefore(b: Bus, steps: seq<Step>, i: nat)
    requires i >= |Run(b, steps).subs|
    ensures Offers(b, steps, i) == [] && Handled(b, steps, i) == []
  {
    if steps != [] {
      NothingBefore(b, Init(steps), i);
    }
  }

  /** The whole account of one subscriber, over any interleaving. */
  lemma {:induction false} OrderAndConservation(b: Bus, steps: seq<Step>, i: nat)
    requires b.subs == [] && i < |Run(b, steps).subs|
    ensures Accounted(Run(b, steps).subs[i], Offers(b, steps, i), Handled(b, steps, i))
  {
    hide Accounted, Full, Apply;
    if steps != [] {
      var past, step := Init(steps), Last(steps);
      if i >= |Run(b, past).subs| {
        NothingBefore(b, past, i);
        FreshAccounted(Run(b, past), step, i);
      } else {
        OrderAndConservation(b, past, i);
        AccountedStep(Run(b, past), step, i, Offers(b, past, i), Handled(b, past, i));
      }
    }
  }

  lemma FreshAccounted(pre: Bus, step: Step, i: nat)
    requires |pre.subs| <= i < |Apply(pre, step).subs|
    ensures Accounted(Apply(pre, step).subs[i], [], [])
  {}

  lemma AccountedStep(b: Bus, step: Step, i: nat, offers: seq<(Event, bool)>, handled: seq<Event>)
    requires i < |b.subs| && Accounted(b.subs[i], offers, handled)
    ensures i < |Apply(b, step).subs|
    ensures Accounted(Apply(b, step).subs[i],
      offers + (if step.Publish? && b.subs[i].kind == step.event.kind then [(step.event, !Full(b.subs[i]))] else []),
      handled + (if step.Finish? && step.i == i && b.subs[i].inflight.Some? then [b.subs[i].inflight.value] else []))
  {
    hide Accounted, Full, Settle, TakeNext, Select;
    var s := b.subs[i];
    assert offers + [] == offers && handled + [] == handled;
    if step.Publish? && s.kind == step.event.kind {
      OfferAccounted(s, step.event, offers, handled);
    } else if step.Take? && step.i == i {
      TakeAccounted(s, offers, handled);
    } else if step.Finish? && step.i == i && s.inflight.Some? {
      SettleAccounted(s, step.ok, offers, handled);
    }
  }

  // ----- Room -----

  /** Over every run a matching publication is accepted exactly when the queue is unbounded or the accepted events
      that are neither handled nor in hand number fewer than its size. */
  lemma AcceptedIffRoom(b: Bus, steps: seq<Step>, i: nat, e: Event)
    requires b.subs == [] && i < |Run(b, steps).subs| && Run(b, steps).subs[i].kind == e.kind
    ensures var s, offers := Run(b, steps).subs[i], Offers(b, steps, i);
      var waiting := |Select(offers, true)| - |Handled(b, steps, i)| - |InHand(s)|;
      Offers(b, steps + [Publish(e)], i) == offers + [(e, s.maxsize <= 0 || waiting < s.maxsize)]
  {
    OrderAndConservation(b, steps, i);
    assert Init(steps + [Publish(e)]) == steps;
  }

  /** Only a matching publication meeting a full queue drops anything. */
  lemma DropStep(b: Bus, step: Step, i: nat)
    requires i < |b.subs|
    ensures i < |Apply(b, step).subs|
    ensures var s, r := b.subs[i], Apply(b, step).subs[i];
      && r.maxsize == s.maxsize
      && r.dropped == s.dropped +
        if step.Publish? && s.kind == step.event.kind && s.maxsize > 0 && |s.queue| >= s.maxsize then 1 else 0
  {
    hide Rejections, Keep;
  }

  lemma FreshDropsNothing(pre: Bus, step: Step, i: nat)
    requires |pre.subs| <= i < |Apply(pre, step).subs|
    ensures Apply(pre, step).subs[i].dropped == 0
  {
    hide Rejections, Keep;
  }

  /** A subscriber that was offered no more events than its queue holds has dropped none. */
  lemma {:induction false} FewOffersNoDrops(b: Bus, steps: seq<Step>, i: nat)
    requires b.subs == [] && i < |Run(b, steps).subs|
    requires var s := Run(b, steps).subs[i]; s.maxsize <= 0 || |Offers(b, steps, i)| <= s.maxsize
    ensures Run(b, steps).subs[i].dropped == 0
  {
    hide Apply, Full, Handled, Select;
    var past, step := Init(steps), Last(steps);
    if i < |Run(b, past).subs| {
      DropStep(Run(b, past), step, i);
      FewOffersNoDrops(b, past, i);
      OrderAndConservation(b, past, i);
    } else {
      FreshDropsNothing(Run(b, past), step, i);
    }
  }

  // ----- Starting and counting -----

  function Publications(steps: seq<Step>): nat {
    if steps == [] then 0 else Publications(Init(steps)) + (if Last(steps).Publish? then 1 else 0)
  }

  /** The bus counts every publication, also those nobody takes. */
  lemma {:induction false} CountsPublications(b: Bus, steps: seq<Step>)
    ensures Run(b, steps).published == b.published + Publications(steps)
  {
    hide OfferAll, Rejections, Keep;
    if steps != [] {
      CountsPublications(b, Init(steps));
    }
  }

  /** The bus runs once it has been started. */
  lemma {:induction false} RunsOnceStarted(steps: seq<Step>, defaultMaxQueue: int, dlqSize: nat)
    ensures Run(NewBus(defaultMaxQueue, dlqSize), steps).running <==> Start in steps
  {
    hide OfferAll, Rejections, Keep;
    if steps != [] {
      assert steps == Init(steps) + [Last(steps)];
      RunsOnceStarted(Init(steps), defaultMaxQueue, dlqSize);
    }
  }

  lemma IdleStep(b: Bus, step: Step, i: nat)
    requires !b.running && step != Start && i < |Apply(b, step).subs|
    requires i < |b.subs| ==> b.subs[i].inflight == None
    ensures Apply(b, step).subs[i].inflight == None
  {
    hide Full, Rejections, Keep;
  }

  /** Before the bus is started nothing is handled or in hand: subscribers only collect. */
  lemma {:induction false} NothingHandledBeforeStart(b: Bus, steps: seq<Step>, i: nat)
    requires b.subs == [] && !b.running && Start !in steps && i < |Run(b, steps).subs|
    ensures Run(b, steps).subs[i].inflight == None && Handled(b, steps, i) == []
  {
    hide Apply;
    var past, step := Init(steps), Last(steps);
    assert steps == past + [step];
    NotStarted(b, past);
    if i < |Run(b, past).subs| {
      NothingHandledBeforeStart(b, past, i);
    } else {
      NothingBefore(b, past, i);
    }
    IdleStep(Run(b, past), step, i);
  }

  lemma {:induction false} NotStarted(b: Bus, steps: seq<Step>)
    requires !b.running && Start !in steps
    ensures !Run(b, steps).running
  {
    if steps != [] {
      assert steps == Init(steps) + [Last(steps)];
      NotStarted(b, Init(steps));
    }
  }

  // ----- Isolation -----

  /** Steps that concern subscriber `i`: its own worker's, and publications of its event kind. */
  predicate Concerns(step: Step, i: nat, kind: string) {
    match step
    case Subscribe(_, _, _) => true
    case Start => true
    case Publish(e) => e.kind == kind
    case Take(j) => j == i
    case Finish(j, _) => j == i
  }

  function Project(steps: seq<Step>, i: nat, kind: string): seq<Step> {
    if steps == [] then []
    else Project(Init(steps), i, kind) + (if Concerns(Last(steps), i, kind) then [Last(steps)] else [])
  }

  /** The part of the bus a subscriber can feel. */
  predicate SameFor(a: Bus, b: Bus, i: nat, kind: string) {
    && |a.subs| == |b.subs| && a.running == b.running && a.defaultMaxQueue == b.defaultMaxQueue
    && (i < |a.subs| && a.subs[i].kind == kind ==> a.subs[i] == b.subs[i])
    && (i < |a.subs| && b.subs[i].kind == kind ==> a.subs[i] == b.subs[i])
  }

  lemma SameStep(a: Bus, b: Bus, step: Step, i: nat, kind: string)
    requires SameFor(a, b, i, kind) && Concerns(step, i, kind)
    ensures SameFor(Apply(a, step), Apply(b, step), i, kind)
  {
    hide Full, Rejections, Keep;
  }

  lemma OtherStep(a: Bus, b: Bus, step: Step, i: nat, kind: string)
    requires SameFor(a, b, i, kind) && !Concerns(step, i, kind)
    ensures SameFor(Apply(a, step), b, i, kind)
  {
    hide Full, Rejections, Keep;
  }

  lemma {:induction false} ProjectionKeeps(b: Bus, steps: seq<Step>, i: nat, kind: string)
    ensures SameFor(Run(b, steps), Run(b, Project(steps, i, kind)), i, kind)
  {
    hide SameFor, Apply, Concerns;
    if steps == [] {
      assert SameFor(b, b, i, kind) by { SameSelf(b, i, kind); }
    } else {
      var past, step := Init(steps), Last(steps);
      ProjectionKeeps(b, past, i, kind);
      var p := Project(past, i, kind);
      if Concerns(step, i, kind) {
        assert Init(p + [step]) == p;
        SameStep(Run(b, past), Run(b, p), step, i, kind);
      } else {
        assert p + [] == p;
        OtherStep(Run(b, past), Run(b, p), step, i, kind);
      }
    }
  }

  lemma SameSelf(b: Bus, i: nat, kind: string)
    ensures SameFor(b, b, i, kind)
  {}

  /** A subscriber ends in the same state when every step of the other workers and every publication of other
      kinds is removed: a slow or failing consumer affects nobody else. */
  lemma Isolation(b: Bus, steps: seq<Step>, i: nat)
    requires i < |Run(b, steps).subs|
    ensures var alone := Run(b, Project(steps, i, Run(b, steps).subs[i].kind));
      i < |alone.subs| && alone.subs[i] == Run(b, steps).subs[i]
  {
    ProjectionKeeps(b, steps, i, Run(b, steps).subs[i].kind);
  }

  // ----- Dead letters -----

  /** The dead letters of one step. */
  function StepLetters(b: Bus, step: Step): seq<DeadLetter> {
    match step
    case Publish(e) => Rejections(b.subs, e)
    case Finish(i, ok) =>
      if i < |b.subs| && b.subs[i].inflight.Some? && !ok then
        [DeadLetter(b.subs[i].name, b.subs[i].inflight.value, HandlerError)]
      else []
    case _ => []
  }

  function Letters(b: Bus, steps: seq<Step>): seq<DeadLetter> {
    if steps == [] then [] else Letters(b, Init(steps)) + StepLetters(Run(b, Init(steps)), Last(steps))
  }

  /** Events lost for a reason, over all subscribers: drops of full queues, or handler errors. */
  function Lost(subs: seq<Sub>, reason: Reason): nat {
    if subs == [] then 0
    else Lost(Init(subs), reason) + (if reason == QueueFull then Last(subs).dropped else Last(subs).errors)
  }

  function Given(letters: seq<DeadLetter>, reason: Reason): nat {
    if letters == [] then 0 else Given(Init(letters), reason) + (if Last(letters).reason == reason then 1 else 0)
  }

  lemma {:induction false} GivenConcat(a: seq<DeadLetter>, b: seq<DeadLetter>, reason: Reason)
    ensures Given(a + b, reason) == Given(a, reason) + Given(b, reason)
  {
    if b == [] {
      assert a + b == a;
    } else {
      assert Init(a + b) == a + Init(b);
      GivenConcat(a, Init(b), reason);
    }
  }

  lemma {:induction false} LostUpdate(subs: seq<Sub>, i: nat, s: Sub)
    requires i < |subs|
    ensures Lost(subs[i := s], QueueFull) == Lost(subs, QueueFull) - subs[i].dropped + s.dropped
    ensures Lost(subs[i := s], HandlerError) == Lost(subs, HandlerError) - subs[i].errors + s.errors
  {
    if i == |subs| - 1 {
      assert Init(subs[i := s]) == Init(subs);
    } else {
      assert Init(subs[i := s]) == Init(subs)[i := s];
      LostUpdate(Init(subs), i, s);
    }
  }

  lemma {:induction false} LostOffer(subs: seq<Sub>, e: Event, reason: Reason)
    ensures Lost(OfferAll(subs, e), reason) == Lost(subs, reason) + Given(Rejections(subs, e), reason)
  {
    if subs != [] {
      assert Init(OfferAll(subs, e)) == OfferAll(Init(subs), e);
      LostOffer(Init(subs), e, reason);
      var s := Last(subs);
      var last := if s.kind == e.kind && Full(s) then [DeadLetter(s.name, e, QueueFull)] else [];
      GivenConcat(Rejections(Init(subs), e), last, reason);
      assert Init([DeadLetter(Last(subs).name, e, QueueFull)]) == [];
    }
  }

  lemma LostStep(b: Bus, step: Step, reason: Reason)
    ensures Lost(Apply(b, step).subs, reason) == Lost(b.subs, reason) + Given(StepLetters(b, step), reason)
  {
    hide Lost, Rejections, OfferAll, Keep, Full;
    match step
    case Subscribe(kind, name, maxQueue) =>
      LostFresh(b.subs, Fresh(kind, name, QueueSize(maxQueue, b.defaultMaxQueue)), reason);
    case Start =>
    case Publish(e) => LostOffer(b.subs, e, reason);
    case Take(i) =>
      if i < |b.subs| {
        LostUpdate(b.subs, i, TakeNext(b.subs[i]));
      }
    case Finish(i, ok) =>
      if i < |b.subs| {
        LostUpdate(b.subs, i, Settle(b.subs[i], ok));
        if StepLetters(b, step) != [] {
          LastGiven(StepLetters(b, step), reason);
        }
      }
  }

  lemma LastGiven(letters: seq<DeadLetter>, reason: Reason)
    requires |letters| == 1
    ensures Given(letters, reason) == if letters[0].reason == reason then 1 else 0
  {
    assert Init(letters) == [];
  }

  lemma LostFresh(subs: seq<Sub>, s: Sub, reason: Reason)
    ensures Lost(subs + [s], reason) == Lost(subs, reason) + if reason == QueueFull then s.dropped else s.errors
  {
    assert Init(subs + [s]) == subs;
  }

  lemma DlqStep(b: Bus, step: Step, letters: seq<DeadLetter>)
    requires b.dlq == Keep(letters, b.dlqSize)
    ensures Apply(b, step).dlq == Keep(letters + StepLetters(b, step), b.dlqSize) && Apply(b, step).dlqSize == b.dlqSize
  {
    hide Rejections, OfferAll, Full, Keep;
    KeepTwice(letters, StepLetters(b, step), b.dlqSize);
    assert letters + [] == letters;
  }

  /** The dead-letter ring holds the newest letters in order, as many as it has room for, and there is one letter for
      every event dropped, and one for every event failed, on any subscriber. */
  lemma {:induction false} DeadLetters(b: Bus, steps: seq<Step>)
    requires b.subs == [] && b.dlq == []
    ensures Run(b, steps).dlqSize == b.dlqSize
    ensures var dlq, all := Run(b, steps).dlq, Letters(b, steps);
      && |dlq| == (if |all| <= b.dlqSize then |all| else b.dlqSize)
      && dlq == all[|all| - |dlq|..]
      && Given(all, QueueFull) == Lost(Run(b, steps).subs, QueueFull)
      && Given(all, HandlerError) == Lost(Run(b, steps).subs, HandlerError)
  {
    hide Run, Letters, Lost, Given;
    RingHolds(b, steps);
    LettersCount(b, steps, QueueFull);
    LettersCount(b, steps, HandlerError);
  }

  lemma {:induction false} RingHolds(b: Bus, steps: seq<Step>)
    requires b.dlq == []
    ensures Run(b, steps).dlqSize == b.dlqSize && Run(b, steps).dlq == Keep(Letters(b, steps), b.dlqSize)
  {
    hide Apply, StepLetters;
    if steps != [] {
      RingHolds(b, Init(steps));
      DlqStep(Run(b, Init(steps)), Last(steps), Letters(b, Init(steps)));
    }
  }

  lemma {:induction false} LettersCount(b: Bus, steps: seq<Step>, reason: Reason)
    requires b.subs == []
    ensures Given(Letters(b, steps), reason) == Lost(Run(b, steps).subs, reason)
  {
    hide Apply, StepLetters;
    if steps != [] {
      var pre := Run(b, Init(steps));
      LettersCount(b, Init(steps), reason);
      LostStep(pre, Last(steps), reason);
      GivenConcat(Letters(b, Init(steps)), StepLetters(pre, Last(steps)), reason);
    }
  }

  // ----- Draining -----

  /** The worker steps a subscriber still needs: two for each queued event, one for the event in hand. */
  function Work(s: Sub): nat { 2 * |s.queue| + |InHand(s)| }

  predicate OwnStep(step: Step, i: nat) { (step.Take? || step.Finish?) && step.i == i }

  /** A step that offers subscriber `i` nothing and that its worker, if it is its own, can really take. */
  predicate Quiet(b: Bus, step: Step, i: nat)
    requires i < |b.subs|
  {
    && (step.Publish? ==> step.event.kind != b.subs[i].kind)
    && (step.Take? && step.i == i ==> b.running && b.subs[i].inflight == None && b.subs[i].queue != [])
    && (step.Finish? && step.i == i ==> b.subs[i].inflight.Some?)
  }

  lemma {:induction false} RunKeepsSubs(b: Bus, steps: seq<Step>)
    ensures |Run(b, steps).subs| >= |b.subs|
  {
    hide Rejections, Keep, Full;
    if steps != [] {
      RunKeepsSubs(b, Init(steps));
    }
  }

  predicate AllQuiet(b: Bus, steps: seq<Step>, i: nat)
    requires i < |b.subs|
  {
    RunKeepsSubs(b, if steps == [] then [] else Init(steps));
    steps == [] || (AllQuiet(b, Init(steps), i) && Quiet(Run(b, Init(steps)), Last(steps), i))
  }

  function OwnSteps(steps: seq<Step>, i: nat): nat {
    if steps == [] then 0 else OwnSteps(Init(steps), i) + (if OwnStep(Last(steps), i) then 1 else 0)
  }

  lemma QuietStep(b: Bus, step: Step, i: nat)
    requires i < |b.subs| && Quiet(b, step, i)
    ensures var r := Apply(b, step);
      && i < |r.subs|
      && Work(r.subs[i]) + (if OwnStep(step, i) then 1 else 0) == Work(b.subs[i])
      && r.subs[i].unfinished - |r.subs[i].queue| - |InHand(r.subs[i])|
        == b.subs[i].unfinished - |b.subs[i].queue| - |InHand(b.subs[i])|
  {
    hide Rejections, Keep, Full;
  }

  /** In every interleaving that publishes nothing to a subscriber, with any other traffic and whether its handlers
      succeed or fail, each step of its worker does one unit of what was left. So `join` waits for it exactly until
      it has taken as many steps as there was work. */
  lemma {:induction false} Drains(b: Bus, steps: seq<Step>, i: nat)
    requires i < |b.subs| && AllQuiet(b, steps, i)
    requires b.subs[i].unfinished == |b.subs[i].queue| + |InHand(b.subs[i])|
    ensures var r := Run(b, steps);
      && i < |r.subs|
      && Work(r.subs[i]) + OwnSteps(steps, i) == Work(b.subs[i])
      && r.subs[i].unfinished == |r.subs[i].queue| + |InHand(r.subs[i])|
      && (r.subs[i].unfinished == 0 <==> OwnSteps(steps, i) == Work(b.subs[i]))
  {
    hide Apply, Quiet;
    if steps != [] {
      Drains(b, Init(steps), i);
      QuietStep(Run(b, Init(steps)), Last(steps), i);
    }
  }

  /** And on a running bus the worker is never stuck: while there is work, one of its two steps is possible. */
  lemma WorkerIsNeverStuck(b: Bus, i: nat, ok: bool)
    requires i < |b.subs| && b.running
    ensures Work(b.subs[i]) > 0 <==> Quiet(b, Take(i), i) || Quiet(b, Finish(i, ok), i)
  {}
}
