/** Ends are final, and a message that was accepted is lost only for a reason the topic admits to. */
module Fates {
  import opened Ring
  import opened Wheel
  import DL = DeadLetters
  import opened Sums
  import opened Topic
  import opened Conservation
  import opened Delivery
  import opened TopicRuns

  /** Fates that are already decided stay, and the new ones are of the given kinds. */
  ghost predicate OnlyNew(f: map<Id, Fate>, f': map<Id, Fate>, allowed: set<Fate>) {
    && (forall id :: id in f ==> id in f' && f'[id] == f[id])
    && (forall id :: id in f' && id !in f ==> f'[id] in allowed)
  }

  /** Ways to be lost at the ring. */
  function RingFates(d: Deque<Id>): set<Fate> {
    (if d.closed then {Lost(RingClosed)} else {}) + (if d.Saturated() then {Lost(Saturated)} else {})
  }

  function WheelFates(s: State): set<Fate> {
    RingFates(s.ring) + if s.wheel.closed then {Lost(WheelClosed)} else {}
  }

  function LetterFates(s: State): set<Fate> {
    if |s.dlq| >= s.dlqMax then {Lost(Evicted)} else {}
  }

  /** The fates a step may decide, given the state it is taken in. */
  function Possible(s: State, step: Step): set<Fate> {
    match step
    case BeginPublish(_, _, _, _) => if s.closed then {Refused} else {}
    case PushPublished(_) => (if s.ring.closed then {Refused} else {}) + RingFates(s.ring)
    case AddDelayed(_) => WheelFates(s)
    case CountConsumed(_) => {Consumed}
    case Ack(_, _, _) => {Settled}
    case Route(_) => WheelFates(s) + LetterFates(s)
    case Expire(_) => RingFates(s.ring)
    case PushReplayed(_) => RingFates(s.ring)
    case Purge => {Lost(Purged)}
    case _ => {}
  }

  lemma EnqueueDecides(s: State, id: Id, front: bool)
    requires Conserved(s, [id]) && s.ring.Valid()
    ensures OnlyNew(s.fate, Enqueue(s, id, front).fate, RingFates(s.ring))
  {
    hide Conserved, Count, Deque.Push, Deque.PushFront, Deque.Saturated, OnlyNew, Victims;
    VictimHasNoFate(s, id, front);
    var gone := Victims(s.ring, front);
    var s' := s.(ring := if front then s.ring.PushFront(id) else s.ring.Push(id));
    if s.ring.closed {
      LoseDecides(s, id, RingClosed, RingFates(s.ring));
    } else if gone != [] {
      LoseDecides(s', gone[0], Saturated, RingFates(s.ring));
    } else {
      NothingDecided(s.fate, RingFates(s.ring));
    }
  }

  lemma NothingDecided(fate: map<Id, Fate>, allowed: set<Fate>)
    ensures OnlyNew(fate, fate, allowed)
  {
  }

  lemma LoseDecides(s: State, id: Id, cause: Cause, allowed: set<Fate>)
    requires id !in s.fate && Lost(cause) in allowed
    ensures OnlyNew(s.fate, Lose(s, id, cause).fate, allowed)
  {
  }

  /** Neither the message that is pushed nor the one it throws out has met its end. */
  lemma VictimHasNoFate(s: State, id: Id, front: bool)
    requires Conserved(s, [id]) && s.ring.Valid()
    ensures id !in s.fate
    ensures var gone := Victims(s.ring, front); gone != [] ==> gone[0] !in s.fate && s.ring.Saturated()
  {
    hide Conserved, Count;
    CountOne(id, Only(id));
    LooseHasNoFate(s, [id], id);
    var gone := Victims(s.ring, front);
    if gone != [] {
      CountMember(s.ring.items, gone[0]);
      LooseHasNoFate(s, [id], gone[0]);
    }
  }

  lemma ScheduleDecides(s: State, id: Id, delay: int)
    requires Conserved(s, [id]) && s.ring.Valid() && s.wheel.Valid()
    ensures OnlyNew(s.fate, Schedule(s, id, delay).fate, WheelFates(s))
  {
    hide Conserved, Count, Enqueue;
    CountOne(id, Only(id));
    LooseHasNoFate(s, [id], id);
    if delay <= 0 {
      EnqueueDecides(s, id, false);
    }
  }

  lemma LoseOldestDecides(s: State, loose: seq<Id>, cause: Cause)
    requires Conserved(s, loose) && s.dlq != []
    ensures OnlyNew(s.fate, LoseOldestLetter(s, cause).fate, {Lost(cause)})
  {
    hide Conserved, Count, InLetters;
    LettersEvict(s.dlq, Only(s.dlq[0].0));
    LooseHasNoFate(s, loose, s.dlq[0].0);
  }

  lemma {:induction false} PurgeDecides(s: State)
    requires Conserved(s, [])
    ensures OnlyNew(s.fate, PurgeAll(s).fate, {Lost(Purged)})
    decreases |s.dlq|
  {
    hide Conserved;
    if s.dlq != [] {
      LoseOldestDecides(s, [], Purged);
      LoseOldestConserves(s, [], Purged);
      PurgeDecides(LoseOldestLetter(s, Purged));
    }
  }

  lemma RouteDecides(s: State, c: nat)
    requires Conserved(s, []) && s.ring.Valid() && s.wheel.Valid()
    requires c in s.calls && s.calls[c].Routing? && s.calls[c].ids != [] && s.calls[c].ids[0] in s.store
    ensures OnlyNew(s.fate, RouteNext(s, c).fate, WheelFates(s) + LetterFates(s))
  {
    hide Conserved, Schedule, DL.Put;
    var call := s.calls[c];
    var id := call.ids[0];
    var info := Failed(s.store[id]);
    var route := RouteAfter(s.store[id], call.byNack);
    var call' := Routing(call.ids[1..], call.byNack, route.ToDeadLetters?);
    ReleaseFirstConserves(s, c, call');
    var s1 := s.(calls := s.calls[c := call']);
    RestoreConserves(s1, id, info, [id]);
    var s2 := s.(store := s.store[id := info], calls := s.calls[c := call']);
    assert s2 == s1.(store := s1.store[id := info]);
    match route
    case ToDeadLetters =>
      if |s.dlq| >= s.dlqMax && s.dlq != [] {
        LoseOldestDecides(s2, [id], Evicted);
      }
    case ToWheel(delay) =>
      ConservedFrame(s2, Log(s2, Retried(id)), [id]);
      ScheduleDecides(Log(s2, Retried(id)), id, delay);
  }

  lemma {:induction false} TakeAllDecidesNothing(s: State, c: nat, g: string, ids: seq<Id>)
    requires CanTake(s, c, g, ids)
    ensures TakeAllOverdue(s, c, g, ids).fate == s.fate
    decreases |ids|
  {
    if ids != [] {
      assert ids[0] in ids;
      assert forall i :: 0 <= i < |ids[1..]| ==> ids[1..][i] == ids[i + 1];
      TakeAllDecidesNothing(TakeOverdue(s, c, g, ids[0]), c, g, ids[1..]);
    }
  }

  lemma PublishingDecides(s: State, step: Step)
    requires Sound(s) && Enabled(s, step) && Conserved(s, [])
    requires step.BeginPublish? || step.PushPublished? || step.AddDelayed?
    ensures OnlyNew(s.fate, Next(s, step).fate, Possible(s, step))
  {
    hide Conserved, Enqueue, Schedule;
    match step
    case BeginPublish(_, id, _, _) => OnePlace(s, id);
    case PushPublished(c) =>
      var id := s.calls[c].id;
      HeldHasNoFate(s, c, id);
      if !s.ring.closed {
        var s1 := s.(calls := s.calls[c := Published]);
        ReleaseConserves(s, c, Published);
        ConservedFrame(s1, Log(s1, Entered(id)), [id]);
        EnqueueDecides(Log(s1, Entered(id)), id, s.calls[c].front);
      }
    case AddDelayed(c) =>
      EndConserves(s, c);
      ScheduleDecides(s.(calls := s.calls - {c}), s.calls[c].id, s.calls[c].delay);
  }

  lemma ReturningDecides(s: State, step: Step)
    requires Sound(s) && Enabled(s, step) && Conserved(s, [])
    requires step.Expire? || step.PushReplayed?
    ensures OnlyNew(s.fate, Next(s, step).fate, Possible(s, step))
  {
    hide Conserved, Enqueue;
    var c := step.call;
    if step.PushReplayed? {
      EndConserves(s, c);
      EnqueueDecides(s.(calls := s.calls - {c}), s.calls[c].id, false);
    } else if s.calls[c].ids != [] {
      var call := Expiring(s.calls[c].ids[1..]);
      ReleaseFirstConserves(s, c, call);
      EnqueueDecides(s.(calls := s.calls[c := call]), s.calls[c].ids[0], false);
    }
  }

  lemma StepDecides(s: State, step: Step)
    requires Sound(s) && Enabled(s, step) && Conserved(s, [])
    ensures OnlyNew(s.fate, Next(s, step).fate, Possible(s, step))
  {
    hide Conserved, RingFates, WheelFates, LetterFates, DoPushPublished, DoAddDelayed, DoExpire, DoPushReplayed;
    hide RouteNext, PurgeAll, TakeAllOverdue;
    if step.BeginPublish? || step.PushPublished? || step.AddDelayed? {
      PublishingDecides(s, step);
    } else if step.Expire? || step.PushReplayed? {
      ReturningDecides(s, step);
    } else if step.CountConsumed? {
      if s.calls[step.call].Popped? {
        HeldHasNoFate(s, step.call, s.calls[step.call].id);
      }
    } else if step.Ack? {
      PendingHasNoFate(s, step.group, step.id);
    } else if step.Route? {
      RouteDecides(s, step.call);
    } else if step.Purge? {
      PurgeDecides(s);
    } else if step.Sweep? {
      TakeAllDecidesNothing(s.(calls := s.calls[step.call := Routing([], false, false)]),
                            step.call, step.group, step.ids);
    }
  }

  /** Once a message is acknowledged, consumed, refused or lost, that is how it stays. */
  lemma {:induction false} FateIsFinal(trace: seq<State>, steps: seq<Step>, i: nat, j: nat, id: Id)
    requires IsRun(trace, steps) && i <= j < |trace| && id in trace[i].fate
    ensures id in trace[j].fate && trace[j].fate[id] == trace[i].fate[id]
    decreases j
  {
    if i < j {
      FateIsFinal(trace, steps, i, j - 1, id);
      FateStays(trace, steps, j - 1, id);
    }
  }

  lemma FateStays(trace: seq<State>, steps: seq<Step>, i: nat, id: Id)
    requires IsRun(trace, steps) && i < |steps| && id in trace[i].fate
    ensures id in trace[i + 1].fate && trace[i + 1].fate[id] == trace[i].fate[id]
  {
    hide Conserved, Possible, Sound, Enabled, Next, Start;
    assert IsStep(trace[i], steps[i], trace[i + 1]);
    EveryRunKeepsTheLaws(trace, steps, i);
    StepDecides(trace[i], steps[i]);
  }

  /** What must be the case for a message to meet this end in this step. */
  predicate Reason(s: State, step: Step, f: Fate) {
    match f
    case Consumed => step.CountConsumed?
    case Settled => step.Ack?
    case Refused => s.closed || s.ring.closed
    case Lost(cause) =>
      match cause
      case Saturated => |s.ring.items| >= s.ring.capacity >= 16_777_216
      case RingClosed => s.ring.closed
      case WheelClosed => s.wheel.closed
      case Evicted => step.Route? && |s.dlq| >= s.dlqMax
      case Purged => step.Purge?
  }

  lemma PossibleHasReason(s: State, step: Step, f: Fate)
    requires f in Possible(s, step)
    ensures Reason(s, step, f)
  {
  }

  /** A step loses a message only to saturation of the ring, to a full or purged dead letter queue,
      or to a ring or wheel that is already closed, and refuses one only when closed. */
  lemma NothingLostWithoutReason(trace: seq<State>, steps: seq<Step>, i: nat, id: Id)
    requires IsRun(trace, steps) && i < |steps|
    requires id !in trace[i].fate && id in trace[i + 1].fate
    ensures Reason(trace[i], steps[i], trace[i + 1].fate[id])
  {
    hide Conserved, Sound, Enabled, Next, Start, Possible, Reason;
    assert IsStep(trace[i], steps[i], trace[i + 1]);
    EveryRunKeepsTheLaws(trace, steps, i);
    StepDecides(trace[i], steps[i]);
    PossibleHasReason(trace[i], steps[i], trace[i + 1].fate[id]);
  }

  /** The topic is open, has room, and is not being purged. */
  ghost predicate Calm(s: State, step: Step) {
    && !s.closed && !s.ring.closed && !s.wheel.closed
    && !s.ring.Saturated() && |s.dlq| < s.dlqMax
    && !step.Purge?
  }

  /** While a topic stays calm, no message is ever refused or lost: each is still in the topic, or
      was consumed, or was acknowledged. */
  lemma {:induction false} CalmRunsLoseNothing(trace: seq<State>, steps: seq<Step>, n: nat, id: Id)
    requires IsRun(trace, steps) && n < |trace|
    requires forall i :: 0 <= i < n ==> Calm(trace[i], steps[i])
    requires id in trace[n].fate
    ensures trace[n].fate[id] == Consumed || trace[n].fate[id] == Settled
    decreases n
  {
    if n > 0 && id in trace[n - 1].fate {
      CalmRunsLoseNothing(trace, steps, n - 1, id);
      FateStays(trace, steps, n - 1, id);
    } else if n > 0 {
      NothingLostWithoutReason(trace, steps, n - 1, id);
      assert Calm(trace[n - 1], steps[n - 1]);
    }
  }
}
