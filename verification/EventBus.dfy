/**
 * The in-process event bus (`bus.py`): fire-and-forget publishing into bounded per-subscriber queues,
 * one worker per subscriber, and a dead-letter ring. Workers are never cancelled.
 */
module EventBus {

  import opened Common

  datatype Event = Event(kind: string, body: int)

  datatype Reason = QueueFull | HandlerError

  datatype DeadLetter = DeadLetter(subscriber: string, event: Event, reason: Reason)

  /** A subscription with its queue, the event its worker is handling, its counters and the queue's count of
      unfinished tasks, which `join` waits on. */
  datatype Sub = Sub(
    kind: string, name: string, maxsize: int, queue: seq<Event>, inflight: Option<Event>,
    delivered: nat, dropped: nat, errors: nat, unfinished: int)

  datatype Bus = Bus(subs: seq<Sub>, dlq: seq<DeadLetter>, dlqSize: nat, defaultMaxQueue: int, published: nat,
      running: bool)

  datatype Step =
    | Subscribe(kind: string, name: string, maxQueue: Option<int>)
    | Start
    | Publish(event: Event)
    | Take(i: nat)
    | Finish(i: nat, ok: bool)

  // ----- One subscriber -----

  /** An `asyncio.Queue` whose size is not positive is unbounded. */
  predicate Full(s: Sub) { s.maxsize > 0 && |s.queue| >= s.maxsize }

  /** The incoming event is dropped when the queue is full. */
  function Offer(s: Sub, e: Event): Sub {
    if s.kind != e.kind then s
    else if Full(s) then s.(dropped := s.dropped + 1)
    else s.(queue := s.queue + [e], unfinished := s.unfinished + 1)
  }

  function TakeNext(s: Sub): Sub {
    if s.inflight == None && s.queue != [] then s.(inflight := Some(s.queue[0]), queue := s.queue[1..]) else s
  }

  function Settle(s: Sub, ok: bool): Sub {
    if s.inflight == None then s
    else if ok then s.(inflight := None, delivered := s.delivered + 1, unfinished := s.unfinished - 1)
    else s.(inflight := None, errors := s.errors + 1, unfinished := s.unfinished - 1)
  }

  // ----- The bus -----

  /** A ring that keeps the newest `n` entries. */
  function Keep<T>(s: seq<T>, n: nat): (r: seq<T>)
    ensures |r| <= n
  {
    if |s| <= n then s else s[|s| - n..]
  }

  function OfferAll(subs: seq<Sub>, e: Event): (r: seq<Sub>)
    ensures |r| == |subs|
  {
    seq(|subs|, i requires 0 <= i < |subs| => Offer(subs[i], e))
  }

  /** The dead letters of one publication, in subscription order. */
  function Rejections(subs: seq<Sub>, e: Event): seq<DeadLetter> {
    if subs == [] then []
    else
      Rejections(Init(subs), e) +
      (if Last(subs).kind == e.kind && Full(Last(subs)) then [DeadLetter(Last(subs).name, e, QueueFull)] else [])
  }

  /** Both an absent size and a size of zero mean the default. */
  function QueueSize(maxQueue: Option<int>, default: int): int {
    if maxQueue == None || maxQueue.value == 0 then default else maxQueue.value
  }

  function Fresh(kind: string, name: string, maxsize: int): Sub { Sub(kind, name, maxsize, [], None, 0, 0, 0, 0) }

  function Apply(b: Bus, step: Step): Bus {
    match step
    case Subscribe(kind, name, maxQueue) =>
      b.(subs := b.subs + [Fresh(kind, name, QueueSize(maxQueue, b.defaultMaxQueue))])
    case Start => b.(running := true)
    case Publish(e) =>
      b.(published := b.published + 1,
         subs := OfferAll(b.subs, e),
         dlq := Keep(b.dlq + Rejections(b.subs, e), b.dlqSize))
    case Take(i) =>
      if i < |b.subs| && b.running then b.(subs := b.subs[i := TakeNext(b.subs[i])]) else b
    case Finish(i, ok) =>
      if i < |b.subs| && b.subs[i].inflight.Some? then
        var s := b.subs[i];
        b.(subs := b.subs[i := Settle(s, ok)],
           dlq := if ok then b.dlq else Keep(b.dlq + [DeadLetter(s.name, s.inflight.value, HandlerError)], b.dlqSize))
      else b
  }

  function Run(b: Bus, steps: seq<Step>): Bus {
    if steps == [] then b else Apply(Run(b, Init(steps)), Last(steps))
  }

  function NewBus(defaultMaxQueue: int, dlqSize: nat): Bus { Bus([], [], dlqSize, defaultMaxQueue, 0, false) }

  lemma KeepTwice<T>(s: seq<T>, t: seq<T>, n: nat)
    ensures Keep(Keep(s, n) + t, n) == Keep(s + t, n)
  {}

  // ----- The objects -----

  class Subscription {
    const eventName: string
    const name: string
    const maxsize: int
    var queue: seq<Event>
    var inflight: Option<Event>
    var delivered: nat
    var dropped: nat
    var errors: nat
    var unfinished: int

    ghost function View(): Sub
      reads this
    {
      Sub(eventName, name, maxsize, queue, inflight, delivered, dropped, errors, unfinished)
    }

    constructor (eventName: string, name: string, maxsize: int)
      ensures View() == Fresh(eventName, name, maxsize)
    {
      this.eventName, this.name, this.maxsize := eventName, name, maxsize;
      queue, inflight, delivered, dropped, errors, unfinished := [], None, 0, 0, 0, 0;
    }

    /** `put_nowait`: false stands for the queue-full error. */
    method PutNowait(event: Event) returns (ok: bool)
      requires event.kind == eventName
      modifies this
      ensures ok <==> maxsize <= 0 || |old(queue)| < maxsize
      ensures View() == if ok then Offer(old(View()), event) else old(View())
    {
      ok := !(maxsize > 0 && |queue| >= maxsize);
      if ok {
        queue := queue + [event];
        unfinished := unfinished + 1;
      }
    }

    /** `queue.get`, when the worker is idle and the queue has something. */
    method Get()
      modifies this
      ensures View() == TakeNext(old(View()))
    {
      if inflight == None && queue != [] {
        inflight, queue := Some(queue[0]), queue[1..];
      }
    }

    /** The end of one handler run. */
    method Done(ok: bool)
      requires inflight.Some?
      modifies this
      ensures View() == Settle(old(View()), ok)
    {
      if ok {
        delivered := delivered + 1;
      } else {
        errors := errors + 1;
      }
      unfinished := unfinished - 1;
      inflight := None;
    }
  }

  ghost function Views(subs: seq<Subscription>): (r: seq<Sub>)
    reads subs
    ensures |r| == |subs|
  {
    seq(|subs|, i requires 0 <= i < |subs| reads subs => subs[i].View())
  }

  function OfKind(subs: seq<Subscription>, kind: string): seq<Subscription> {
    if subs == [] then []
    else OfKind(Init(subs), kind) + (if Last(subs).eventName == kind then [Last(subs)] else [])
  }

  class EventBus {
    const defaultMaxQueue: int
    const dlqSize: nat
    var subs: map<string, seq<Subscription>>
    var allSubs: seq<Subscription>
    var dlq: seq<DeadLetter>
    var published: nat
    var running: bool

    ghost predicate Valid()
      reads this
    {
      && (forall i, j :: 0 <= i < j < |allSubs| ==> allSubs[i] != allSubs[j])
      && (forall kind :: Lookup(kind) == OfKind(allSubs, kind))
      && |dlq| <= dlqSize
    }

    function Lookup(kind: string): seq<Subscription>
      reads this
    {
      if kind in subs then subs[kind] else []
    }

    ghost function View(): Bus
      reads this, allSubs
    {
      Bus(Views(allSubs), dlq, dlqSize, defaultMaxQueue, published, running)
    }

    constructor (defaultMaxQueue: int, dlqSize: nat)
      ensures Valid() && allSubs == [] && View() == NewBus(defaultMaxQueue, dlqSize)
    {
      this.defaultMaxQueue, this.dlqSize := defaultMaxQueue, dlqSize;
      subs, allSubs, dlq, published, running := map[], [], [], 0, false;
    }

    method Register(kind: string, name: string, maxQueue: Option<int>)
      requires Valid()
      modifies this
      ensures Valid() && View() == Apply(old(View()), Step.Subscribe(kind, name, maxQueue))
      ensures |allSubs| == |old(allSubs)| + 1 && fresh(Last(allSubs)) && Init(allSubs) == old(allSubs)
      ensures maxQueue.Some? && maxQueue.value != 0 ==> Last(allSubs).maxsize == maxQueue.value
      ensures maxQueue == None || maxQueue.value == 0 ==> Last(allSubs).maxsize == defaultMaxQueue
    {
      var sub := new Subscription(kind, name, QueueSize(maxQueue, defaultMaxQueue));
      ghost var before := allSubs;
      subs := subs[kind := Lookup(kind) + [sub]];
      allSubs := allSubs + [sub];
      assert Init(allSubs) == before;
    }

    method Launch()
      requires Valid()
      modifies this`running
      ensures Valid() && View() == Apply(old(View()), Step.Start)
    {
      running := true;
    }

    /** Publishing never waits for a subscriber. */
    method Send(event: Event)
      requires Valid()
      modifies this`published, this`dlq, allSubs
      ensures Valid() && View() == Apply(old(View()), Step.Publish(event))
    {
      hide Full, Keep, Rejections, Offer, OfKind;
      published := published + 1;
      ghost var before := Views(allSubs);
      OfferMatching(event);
      OfferedEverywhere(before, Views(allSubs), event);
    }

    method OfferMatching(event: Event)
      requires Valid()
      modifies this`dlq, allSubs
      ensures forall k :: 0 <= k < |allSubs| ==>
        allSubs[k].View() ==
          if allSubs[k].eventName == event.kind then Offer(old(allSubs[k].View()), event)
          else old(allSubs[k].View())
      ensures dlq == Keep(old(dlq) + Rejections(old(Views(allSubs)), event), dlqSize) && |dlq| <= dlqSize
    {
      hide Full, Keep, Rejections, Offer, OfKind;
      var matching := Matching(event.kind);
      RejectionsOfKind(allSubs, event);
      OfferLoop(matching, event);
      forall k | 0 <= k < |allSubs| && allSubs[k].eventName == event.kind
        ensures allSubs[k].View() == Offer(old(allSubs[k].View()), event)
      {
        assert allSubs[k] in matching;
      }
    }

    method Matching(kind: string) returns (matching: seq<Subscription>)
      requires Valid()
      ensures matching == OfKind(allSubs, kind)
      ensures forall m :: 0 <= m < |matching| ==> matching[m] in allSubs && matching[m].eventName == kind
      ensures forall i, j :: 0 <= i < j < |matching| ==> matching[i] != matching[j]
      ensures forall k :: 0 <= k < |allSubs| && allSubs[k].eventName == kind ==> allSubs[k] in matching
      ensures forall s :: s in matching ==> s.eventName == kind
    {
      hide OfKind;
      matching := Lookup(kind);
      KindMembers(allSubs, kind);
    }

    method OfferLoop(matching: seq<Subscription>, event: Event)
      requires forall i, j :: 0 <= i < j < |matching| ==> matching[i] != matching[j]
      requires forall s :: s in matching ==> s.eventName == event.kind
      requires |dlq| <= dlqSize
      modifies this`dlq, matching
      ensures forall m :: 0 <= m < |matching| ==> matching[m].View() == Offer(old(matching[m].View()), event)
      ensures dlq == Keep(old(dlq) + Rejections(old(Views(matching)), event), dlqSize) && |dlq| <= dlqSize
    {
      hide Full, Rejections, Offer, Keep;
      ghost var mine := Views(matching);
      NoRejections(event, dlq, dlqSize);
      var n := 0;
      assert mine[..0] == [];
      while n < |matching|
        invariant 0 <= n <= |matching|
        invariant forall m :: n <= m < |matching| ==> matching[m].View() == mine[m]
        invariant forall m :: 0 <= m < n ==> matching[m].View() == Offer(mine[m], event)
        invariant dlq == Keep(old(dlq) + Rejections(mine[..n], event), dlqSize)
      {
        DeliverTo(matching[n], event);
        RejectionStep(mine, n, event, old(dlq), dlqSize);
        n := n + 1;
      }
      assert mine[..n] == mine;
    }

    method DeliverTo(sub: Subscription, event: Event)
      requires sub.eventName == event.kind
      modifies this`dlq, sub
      ensures sub.View() == Offer(old(sub.View()), event)
      ensures dlq ==
        if Full(old(sub.View())) then Keep(old(dlq) + [DeadLetter(sub.name, event, QueueFull)], dlqSize)
        else old(dlq)
      ensures sub.maxsize <= 0 || |old(sub.queue)| < sub.maxsize ==>
        sub.queue == old(sub.queue) + [event] && sub.dropped == old(sub.dropped) && dlq == old(dlq)
    {
      var ok := sub.PutNowait(event);
      if !ok {
        sub.dropped := sub.dropped + 1;
        dlq := Keep(dlq + [DeadLetter(sub.name, event, QueueFull)], dlqSize);
      }
    }

    /** A worker's `queue.get`. */
    method WorkerTake(i: nat)
      requires Valid()
      modifies allSubs
      ensures Valid() && View() == Apply(old(View()), Step.Take(i))
    {
      ghost var before := Views(allSubs);
      if i < |allSubs| && running {
        allSubs[i].Get();
        assert Views(allSubs) == before[i := TakeNext(before[i])];
      }
    }

    /** The handler ends, normally or with an exception; either way it counts as done. */
    method WorkerFinish(i: nat, ok: bool)
      requires Valid()
      modifies this`dlq, allSubs
      ensures Valid() && View() == Apply(old(View()), Step.Finish(i, ok))
    {
      hide Settle;
      ghost var before := Views(allSubs);
      if i < |allSubs| && allSubs[i].inflight.Some? {
        if !ok {
          dlq := Keep(dlq + [DeadLetter(allSubs[i].name, allSubs[i].inflight.value, HandlerError)], dlqSize);
        }
        allSubs[i].Done(ok);
        assert Views(allSubs) == before[i := Settle(before[i], ok)];
      }
    }
  }

  lemma {:induction false} KindMembers(subs: seq<Subscription>, kind: string)
    ensures forall s :: s in OfKind(subs, kind) <==> s in subs && s.eventName == kind
    ensures (forall i, j :: 0 <= i < j < |subs| ==> subs[i] != subs[j]) ==>
      forall i, j :: 0 <= i < j < |OfKind(subs, kind)| ==> OfKind(subs, kind)[i] != OfKind(subs, kind)[j]
  {
    if subs != [] {
      KindMembers(Init(subs), kind);
      assert subs == Init(subs) + [Last(subs)];
    }
  }

  /** Only matching subscribers can reject. */
  lemma {:induction false} RejectionsOfKind(subs: seq<Subscription>, e: Event)
    ensures Rejections(Views(subs), e) == Rejections(Views(OfKind(subs, e.kind)), e)
  {
    if subs != [] {
      var rest, last := Init(subs), Last(subs);
      RejectionsOfKind(rest, e);
      assert Init(Views(subs)) == Views(rest) && Last(Views(subs)) == last.View();
      if last.eventName == e.kind {
        var m := OfKind(rest, e.kind);
        assert OfKind(subs, e.kind) == m + [last];
        assert Init(Views(m + [last])) == Views(m) && Last(Views(m + [last])) == last.View();
      } else {
        assert OfKind(subs, e.kind) == OfKind(rest, e.kind);
        assert Rejections(Views(rest), e) + [] == Rejections(Views(rest), e);
      }
    }
  }

  lemma NoRejections(e: Event, dlq: seq<DeadLetter>, n: nat)
    requires |dlq| <= n
    ensures dlq == Keep(dlq + Rejections([], e), n)
  {}

  lemma RejectionStep(mine: seq<Sub>, n: nat, e: Event, dlq: seq<DeadLetter>, size: nat)
    requires n < |mine| && mine[n].kind == e.kind
    ensures var now := Keep(dlq + Rejections(mine[..n], e), size);
      Keep(dlq + Rejections(mine[..n + 1], e), size) ==
      if Full(mine[n]) then Keep(now + [DeadLetter(mine[n].name, e, QueueFull)], size) else now
  {
    hide Full, Keep;
    assert Init(mine[..n + 1]) == mine[..n] && Last(mine[..n + 1]) == mine[n];
    var r := Rejections(mine[..n], e);
    if Full(mine[n]) {
      var d := [DeadLetter(mine[n].name, e, QueueFull)];
      KeepTwice(dlq + r, d, size);
      assert dlq + (r + d) == dlq + r + d;
    } else {
      assert r + [] == r;
    }
  }

  lemma OfferedEverywhere(before: seq<Sub>, after: seq<Sub>, e: Event)
    requires |before| == |after|
    requires forall k ::
      0 <= k < |after| ==> after[k] == if before[k].kind == e.kind then Offer(before[k], e) else before[k]
    ensures after == OfferAll(before, e)
  {}
}
