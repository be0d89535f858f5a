/** The life of messages in one topic (internal/queue/topic.go with its ring, timing wheel,
    consumer groups and dead letter queue), as steps that any number of concurrent calls take.

    A step is a section that runs under one lock, or one atomic counter update. Between two steps
    of a call anything else may happen, so a message can also be in the hands of a call. */
module Topic {
  import opened Ring
  import opened Wheel
  import DL = DeadLetters
  import G = Group
  import opened Sums

  /** Why a message that had been accepted is gone. */
  datatype Cause = Saturated | RingClosed | WheelClosed | Evicted | Purged

  /** Where a message ended up for good. */
  datatype Fate = Refused | Consumed | Settled | Lost(cause: Cause)

  datatype Info = Info(retry: nat, maxRetries: int)

  /** What happened, in order: the record against which the promises are stated. */
  datatype Event =
    | Entered(id: Id)
    | Taken(id: Id)
    | Leased(group: string, id: Id, lease: G.Lease)
    | Acked(group: string, id: Id)
    | Nacked(group: string, id: Id)
    | TimedOut(group: string, id: Id, lease: G.Lease, at: int)
    | Retried(id: Id)
    | Died(id: Id)
    | Replayed(id: Id)
    | Vanished(id: Id, cause: Cause)

  /** A call between two of its steps, with the messages it holds. */
  datatype Call =
    | Publishing(id: Id, front: bool)
    | Published
    | Delaying(id: Id, delay: int)
    | Popped(id: Id)
    | CheckingOut(id: Id, group: string, consumer: string)
    | CheckedOut
    | AckDone
    | Routing(ids: seq<Id>, byNack: bool, owesDead: bool)
    | Expiring(ids: seq<Id>)
    | Replaying(id: Id)
    | Closing(ringDone: bool)

  datatype State = State(
    ring: Deque<Id>,
    wheel: Wheel<Id>,
    groups: map<string, G.Pel<Id>>,
    dlq: DL.Letters<Id, int>,
    dlqMax: nat,
    closed: bool,
    now: int,
    store: map<Id, Info>,
    calls: map<nat, Call>,
    fate: map<Id, Fate>,
    published: nat,
    consumed: nat,
    acked: nat,
    nacked: nat,
    deadLettered: nat,
    history: seq<Event>)

  datatype Step =
    | BeginPublish(call: nat, id: Id, maxRetries: int, front: bool)
    | PushPublished(call: nat)
    | CountPublished(call: nat)
    | BeginDelayed(call: nat, id: Id, maxRetries: int, delay: int)
    | AddDelayed(call: nat)
    | Pop(call: nat)
    | CountConsumed(call: nat)
    | CreateGroup(group: string)
    | PopForGroup(call: nat, group: string, consumer: string)
    | Checkout(call: nat)
    | Ack(call: nat, group: string, id: Id)
    | CountAcked(call: nat)
    | Nack(call: nat, group: string, id: Id)
    | Sweep(call: nat, group: string, ids: seq<Id>)
    | Route(call: nat)
    | CountDead(call: nat)
    | FinishRouting(call: nat)
    | Advance(call: nat)
    | Expire(call: nat)
    | Replay(call: nat, id: Id)
    | PushReplayed(call: nat)
    | Purge
    | BeginClose(call: nat)
    | CloseRing(call: nat)
    | StopWheel(call: nat)
    | Clock(now: int)

  function Start(capacity: nat, slots: nat, dlqMax: nat, now: int): State {
    State(Empty(capacity), Wheel(0, seq(slots, _ => []), false), map[], [], dlqMax, false, now,
          map[], map[], map[], 0, 0, 0, 0, 0, [])
  }

  // ---- pieces of steps ----

  function Log(s: State, e: Event): State {
    s.(history := s.history + [e])
  }

  function Lose(s: State, id: Id, cause: Cause): State {
    Log(s.(fate := s.fate[id := Lost(cause)]), Vanished(id, cause))
  }

  /** What a push throws out of the ring. */
  function Victims(d: Deque<Id>, front: bool): seq<Id> {
    if !d.Saturated() then []
    else if front then [d.items[|d.items| - 1]]
    else [d.items[0]]
  }

  /** The ring takes a message that has been accepted before; nobody looks at the result. */
  function Enqueue(s: State, id: Id, front: bool): State {
    if s.ring.closed then Lose(s, id, RingClosed)
    else
      var s' := s.(ring := if front then s.ring.PushFront(id) else s.ring.Push(id));
      var gone := Victims(s.ring, front);
      if gone == [] then s' else Lose(s', gone[0], Saturated)
  }

  /** `TimingWheel.Add`: a delay that is not positive goes straight to the ring. */
  function Schedule(s: State, id: Id, delay: int): State
    requires s.wheel.Valid()
  {
    if delay <= 0 then Enqueue(s, id, false)
    else if s.wheel.closed then Lose(s, id, WheelClosed)
    else s.(wheel := s.wheel.Add(id, Ticks(delay, TICK)))
  }

  function LoseOldestLetter(s: State, cause: Cause): State
    requires s.dlq != []
  {
    Lose(s.(dlq := s.dlq[1..]), s.dlq[0].0, cause)
  }

  function Bury(s: State, id: Id, attempts: int): State {
    var room := if |s.dlq| >= s.dlqMax && s.dlq != [] then LoseOldestLetter(s, Evicted) else s;
    Log(room.(dlq := DL.Put(s.dlq, s.dlqMax, id, attempts)), Died(id))
  }

  function PurgeAll(s: State): State
    decreases |s.dlq|
  {
    if s.dlq == [] then s else PurgeAll(LoseOldestLetter(s, Purged))
  }

  /** One overdue entry moves from the pending list to the hands of the sweep. */
  function TakeOverdue(s: State, c: nat, g: string, id: Id): State
    requires g in s.groups && id in s.groups[g] && c in s.calls && s.calls[c].Routing?
  {
    var call := s.calls[c];
    Log(s.(groups := s.groups[g := s.groups[g] - {id}],
           calls := s.calls[c := call.(ids := call.ids + [id])]),
        TimedOut(g, id, s.groups[g][id], s.now))
  }

  predicate CanTake(s: State, c: nat, g: string, ids: seq<Id>) {
    && g in s.groups && c in s.calls && s.calls[c].Routing?
    && (forall id :: id in ids ==> id in s.groups[g])
    && (forall i, j :: 0 <= i < j < |ids| ==> ids[i] != ids[j])
  }

  function TakeAllOverdue(s: State, c: nat, g: string, ids: seq<Id>): State
    requires CanTake(s, c, g, ids)
    decreases |ids|
  {
    if ids == [] then s
    else
      assert ids[0] in ids;
      var s' := TakeOverdue(s, c, g, ids[0]);
      assert forall i :: 0 <= i < |ids[1..]| ==> ids[1..][i] == ids[i + 1];
      TakeAllOverdue(s', c, g, ids[1..])
  }

  function Failed(info: Info): Info {
    info.(retry := info.retry + 1)
  }

  /** Where a message goes that fails once more. */
  function RouteAfter(info: Info, byNack: bool): G.Route {
    if byNack then G.AfterNack(info.retry + 1, info.maxRetries) else G.AfterTimeout(info.retry + 1, info.maxRetries)
  }

  /** The next message of a rejected or swept batch: one more failure, then wheel or dead letters. */
  function RouteNext(s: State, c: nat): State
    requires s.wheel.Valid() && c in s.calls && s.calls[c].Routing? && s.calls[c].ids != []
    requires s.calls[c].ids[0] in s.store
  {
    var call := s.calls[c];
    var id := call.ids[0];
    var info := Failed(s.store[id]);
    var route := RouteAfter(s.store[id], call.byNack);
    var s' := s.(store := s.store[id := info],
                 calls := s.calls[c := Routing(call.ids[1..], call.byNack, route.ToDeadLetters?)]);
    match route
    case ToDeadLetters => Bury(s', id, info.retry)
    case ToWheel(delay) => Schedule(Log(s', Retried(id)), id, delay)
  }


  /** When a step can be taken. Looking for something that is not there changes nothing and is not
      a step. */
  ghost predicate Enabled(s: State, step: Step) {
    match step
    case BeginPublish(c, id, _, _) => c !in s.calls && id !in s.store
    case PushPublished(c) => c in s.calls && s.calls[c].Publishing?
    case CountPublished(c) => c in s.calls && s.calls[c].Published?
    case BeginDelayed(c, id, _, _) => c !in s.calls && id !in s.store
    case AddDelayed(c) => c in s.calls && s.calls[c].Delaying?
    case Pop(c) => c !in s.calls && s.ring.items != []
    case CountConsumed(c) => c in s.calls && (s.calls[c].Popped? || s.calls[c].CheckedOut?)
    case CreateGroup(g) => g !in s.groups
    case PopForGroup(c, g, _) => c !in s.calls && g in s.groups && s.ring.items != []
    case Checkout(c) => c in s.calls && s.calls[c].CheckingOut?
    case Ack(c, g, id) => c !in s.calls && g in s.groups && id in s.groups[g]
    case CountAcked(c) => c in s.calls && s.calls[c].AckDone?
    case Nack(c, g, id) => c !in s.calls && g in s.groups && id in s.groups[g]
    case Sweep(c, g, ids) =>
      && c !in s.calls && g in s.groups
      && (forall i, j :: 0 <= i < j < |ids| ==> ids[i] != ids[j])
      && (forall id :: id in ids <==> id in G.Overdue(s.groups[g], s.now))
    case Route(c) => c in s.calls && s.calls[c].Routing? && s.calls[c].ids != [] && !s.calls[c].owesDead
    case CountDead(c) => c in s.calls && s.calls[c].Routing? && s.calls[c].owesDead
    case FinishRouting(c) => c in s.calls && s.calls[c].Routing? && s.calls[c].ids == [] && !s.calls[c].owesDead
    case Advance(c) => c !in s.calls
    case Expire(c) => c in s.calls && s.calls[c].Expiring?
    case Replay(c, id) => c !in s.calls && DL.Has(s.dlq, id)
    case PushReplayed(c) => c in s.calls && s.calls[c].Replaying?
    case Purge => true
    case BeginClose(c) => c !in s.calls && !s.closed
    case CloseRing(c) => c in s.calls && s.calls[c] == Closing(false)
    case StopWheel(c) => c in s.calls && s.calls[c] == Closing(true)
    case Clock(now) => now >= s.now
  }

  /** What the invariant below guarantees and a step needs in order to make sense. */
  ghost predicate Sound(s: State) {
    && s.ring.Valid() && s.wheel.Valid()
    && s.dlqMax > 0 && |s.dlq| <= s.dlqMax
    && (forall c :: c in s.calls && s.calls[c].CheckingOut? ==> s.calls[c].group in s.groups)
    && (forall c, i :: c in s.calls && s.calls[c].Routing? && 0 <= i < |s.calls[c].ids| ==>
          s.calls[c].ids[i] in s.store)
    && (forall i :: 0 <= i < |s.dlq| ==> s.dlq[i].0 in s.store)
  }

  // ---- the steps themselves ----

  function DoBeginPublish(s: State, c: nat, id: Id, maxRetries: int, front: bool): State {
    var s' := s.(store := s.store[id := Info(0, maxRetries)]);
    if s.closed then s'.(fate := s.fate[id := Refused]) else s'.(calls := s.calls[c := Publishing(id, front)])
  }

  function DoPushPublished(s: State, c: nat): State
    requires c in s.calls && s.calls[c].Publishing?
  {
    var call := s.calls[c];
    if s.ring.closed then s.(fate := s.fate[call.id := Refused], calls := s.calls - {c})
    else Enqueue(Log(s.(calls := s.calls[c := Published]), Entered(call.id)), call.id, call.front)
  }

  function DoBeginDelayed(s: State, c: nat, id: Id, maxRetries: int, delay: int): State {
    Log(s.(store := s.store[id := Info(0, maxRetries)], published := s.published + 1,
           calls := s.calls[c := Delaying(id, delay)]),
        Entered(id))
  }

  function DoAddDelayed(s: State, c: nat): State
    requires c in s.calls && s.calls[c].Delaying? && s.wheel.Valid()
  {
    Schedule(s.(calls := s.calls - {c}), s.calls[c].id, s.calls[c].delay)
  }

  function DoPop(s: State, c: nat, call: Call): State
    requires s.ring.items != []
  {
    Log(s.(ring := s.ring.Drop(1), calls := s.calls[c := call]), Taken(s.ring.items[0]))
  }

  function DoCountConsumed(s: State, c: nat): State
    requires c in s.calls && (s.calls[c].Popped? || s.calls[c].CheckedOut?)
  {
    var s' := s.(consumed := s.consumed + 1, calls := s.calls - {c});
    if s.calls[c].Popped? then s'.(fate := s.fate[s.calls[c].id := Consumed]) else s'
  }

  function DoCheckout(s: State, c: nat): State
    requires c in s.calls && s.calls[c].CheckingOut? && s.calls[c].group in s.groups
  {
    var call := s.calls[c];
    var lease := G.Lease(call.consumer, s.now, s.now + G.VISIBILITY);
    Log(s.(groups := s.groups[call.group := s.groups[call.group][call.id := lease]],
           calls := s.calls[c := CheckedOut]),
        Leased(call.group, call.id, lease))
  }

  function DoAck(s: State, c: nat, g: string, id: Id): State
    requires g in s.groups
  {
    Log(s.(groups := s.groups[g := s.groups[g] - {id}], fate := s.fate[id := Settled],
           calls := s.calls[c := AckDone]),
        Acked(g, id))
  }

  function DoNack(s: State, c: nat, g: string, id: Id): State
    requires g in s.groups
  {
    Log(s.(groups := s.groups[g := s.groups[g] - {id}], calls := s.calls[c := Routing([id], true, false)]),
        Nacked(g, id))
  }

  ghost function DoSweep(s: State, c: nat, g: string, ids: seq<Id>): State
    requires CanTake(s.(calls := s.calls[c := Routing([], false, false)]), c, g, ids)
  {
    TakeAllOverdue(s.(calls := s.calls[c := Routing([], false, false)]), c, g, ids)
  }

  function DoFinishRouting(s: State, c: nat): State
    requires c in s.calls && s.calls[c].Routing?
  {
    var s' := s.(calls := s.calls - {c});
    if s.calls[c].byNack then s'.(nacked := s.nacked + 1) else s'
  }

  function DoAdvance(s: State, c: nat): State
    requires s.wheel.Valid()
  {
    s.(wheel := s.wheel.Advance(), calls := s.calls[c := Expiring(s.wheel.Due())])
  }

  function DoExpire(s: State, c: nat): State
    requires c in s.calls && s.calls[c].Expiring?
  {
    var ids := s.calls[c].ids;
    if ids == [] then s.(calls := s.calls - {c})
    else Enqueue(s.(calls := s.calls[c := Expiring(ids[1..])]), ids[0], false)
  }

  function DoReplay(s: State, c: nat, id: Id): State
    requires id in s.store
  {
    var info := s.store[id].(retry := 0);
    Log(s.(dlq := DL.Drop(s.dlq, id), store := s.store[id := info], calls := s.calls[c := Replaying(id)]),
        Replayed(id))
  }

  function DoPushReplayed(s: State, c: nat): State
    requires c in s.calls && s.calls[c].Replaying?
  {
    Enqueue(s.(calls := s.calls - {c}), s.calls[c].id, false)
  }

  ghost function Next(s: State, step: Step): State
    requires Sound(s) && Enabled(s, step)
  {
    match step
    case BeginPublish(c, id, maxRetries, front) => DoBeginPublish(s, c, id, maxRetries, front)
    case PushPublished(c) => DoPushPublished(s, c)
    case CountPublished(c) => s.(published := s.published + 1, calls := s.calls - {c})
    case BeginDelayed(c, id, maxRetries, delay) => DoBeginDelayed(s, c, id, maxRetries, delay)
    case AddDelayed(c) => DoAddDelayed(s, c)
    case Pop(c) => DoPop(s, c, Popped(s.ring.items[0]))
    case CountConsumed(c) => DoCountConsumed(s, c)
    case CreateGroup(g) => s.(groups := s.groups[g := map[]])
    case PopForGroup(c, g, consumer) => DoPop(s, c, CheckingOut(s.ring.items[0], g, consumer))
    case Checkout(c) => DoCheckout(s, c)
    case Ack(c, g, id) => DoAck(s, c, g, id)
    case CountAcked(c) => s.(acked := s.acked + 1, calls := s.calls - {c})
    case Nack(c, g, id) => DoNack(s, c, g, id)
    case Sweep(c, g, ids) => DoSweep(s, c, g, ids)
    case Route(c) => RouteNext(s, c)
    case CountDead(c) =>
      s.(deadLettered := s.deadLettered + 1, calls := s.calls[c := s.calls[c].(owesDead := false)])
    case FinishRouting(c) => DoFinishRouting(s, c)
    case Advance(c) => DoAdvance(s, c)
    case Expire(c) => DoExpire(s, c)
    case Replay(c, id) => DoReplay(s, c, id)
    case PushReplayed(c) => DoPushReplayed(s, c)
    case Purge => PurgeAll(s)
    case BeginClose(c) => s.(closed := true, calls := s.calls[c := Closing(false)])
    case CloseRing(c) => s.(ring := s.ring.Close(), calls := s.calls[c := Closing(true)])
    case StopWheel(c) => s.(wheel := s.wheel.Stop(), calls := s.calls - {c})
    case Clock(now) => s.(now := now)
  }
}
