/** The pending entries list of internal/queue/consumer_group.go: checkout, acknowledgement,
    rejection and the sweep of expired checkouts. */
module Group {
  import opened Options
  import opened Backoff

  /** How long a checkout lasts. */
  const VISIBILITY: int := 30_000 * MILLISECOND

  const SWEEP_DELAY: int := 500 * MILLISECOND
  const TIMEOUT_CAUSE: string := "Ack deadline expired (worker timeout/crash)"

  /** One checkout, as a value. */
  datatype Lease = Lease(consumer: string, deliveredAt: int, deadline: int)

  /** The pending entries list, as a value. */
  type Pel<!K> = map<K, Lease>

  ghost function Overdue<K>(pel: Pel<K>, now: int): set<K> {
    set id | id in pel && now >= pel[id].deadline
  }

  /** Where a failed delivery goes: `retry` is the count after this failure. */
  datatype Route = ToDeadLetters | ToWheel(delay: int)

  function AfterNack(retry: int, maxRetries: int): Route
    requires retry >= 1 || retry >= maxRetries
  {
    if retry >= maxRetries then ToDeadLetters else ToWheel(Delay(retry))
  }

  function AfterTimeout(retry: int, maxRetries: int): Route {
    if retry >= maxRetries then ToDeadLetters else ToWheel(SWEEP_DELAY)
  }

  class Message {
    const id: string
    const maxRetries: int
    var retryCount: int
    var consumerId: string
    var ackDeadline: int
    var failureCause: string

    constructor (id: string, maxRetries: int)
      ensures this.id == id && this.maxRetries == maxRetries
      ensures retryCount == 0 && consumerId == "" && ackDeadline == 0 && failureCause == ""
    {
      this.id, this.maxRetries := id, maxRetries;
      retryCount, consumerId, ackDeadline, failureCause := 0, "", 0, "";
    }
  }

  datatype Pending = Pending(message: Message, lease: Lease)

  class ConsumerGroup {
    var pel: map<string, Pending>
    var consumers: map<string, int>
    const defaultTimeout: int

    /** Every entry is filed under its message's own ID. */
    ghost predicate Valid()
      reads this
    {
      forall id :: id in pel ==> pel[id].message.id == id
    }

    ghost function View(): Pel<string>
      reads this
    {
      map id | id in pel :: pel[id].lease
    }

    ghost function Messages(): set<Message>
      reads this
    {
      set id | id in pel :: pel[id].message
    }

    constructor (defaultTimeout: int)
      ensures Valid() && pel == map[] && consumers == map[]
      ensures this.defaultTimeout == if defaultTimeout <= 0 then VISIBILITY else defaultTimeout
    {
      this.defaultTimeout := if defaultTimeout <= 0 then VISIBILITY else defaultTimeout;
      pel, consumers := map[], map[];
    }

    /** Hands a message to a consumer until `now` plus the timeout. */
    method Checkout(msg: Message, consumer: string, customTimeout: int, now: int)
      requires Valid()
      modifies this, msg`consumerId, msg`ackDeadline
      ensures Valid()
      ensures var deadline := now + if customTimeout > 0 then customTimeout else defaultTimeout;
              && View() == old(View())[msg.id := Lease(consumer, now, deadline)]
              && msg.consumerId == consumer && msg.ackDeadline == deadline
      ensures pel == old(pel)[msg.id := Pending(msg, View()[msg.id])]
      ensures consumers == old(consumers)[consumer := now]
    {
      var timeout := defaultTimeout;
      if customTimeout > 0 {
        timeout := customTimeout;
      }
      msg.consumerId := consumer;
      msg.ackDeadline := now + timeout;
      consumers := consumers[consumer := now];
      pel := pel[msg.id := Pending(msg, Lease(consumer, now, msg.ackDeadline))];
    }

    /** Settles a checkout, whichever consumer it was made by. */
    method Ack(id: string) returns (ok: bool)
      requires Valid()
      modifies this`pel
      ensures Valid()
      ensures ok == (id in old(pel))
      ensures pel == old(pel) - {id} && View() == old(View()) - {id}
    {
      ok := id in pel;
      if ok {
        pel := pel - {id};
      }
    }

    /** Fails a checkout. The result says where the message goes now. The source panics on a negative
        shift where the precondition does not hold. */
    method Nack(id: string, reason: string) returns (r: Option<Route>)
      requires Valid()
      requires id in pel ==>
                 pel[id].message.retryCount >= 0 || pel[id].message.retryCount + 1 >= pel[id].message.maxRetries
      modifies this`pel, Messages()`retryCount, Messages()`failureCause
      ensures Valid()
      ensures pel == old(pel) - {id} && View() == old(View()) - {id}
      ensures id !in old(pel) ==> r == None
      ensures id in old(pel) ==>
                var msg := old(pel)[id].message;
                && msg.retryCount == old(msg.retryCount) + 1 && msg.failureCause == reason
                && r == Some(AfterNack(msg.retryCount, msg.maxRetries))
      ensures forall m :: m in old(Messages()) && m.id != id ==> unchanged(m)
    {
      if id !in pel {
        return None;
      }
      var msg := pel[id].message;
      assert msg in Messages();
      pel := pel - {id};
      msg.retryCount := msg.retryCount + 1;
      msg.failureCause := reason;
      if msg.retryCount >= msg.maxRetries {
        r := Some(ToDeadLetters);
      } else {
        r := Some(ToWheel(Delay(msg.retryCount)));
      }
    }

    /** First half of the sweep, under the lock: takes out every overdue entry and no other. */
    method TakeOverdue(now: int) returns (taken: seq<Message>, ghost ids: seq<string>)
      requires Valid()
      modifies this`pel
      ensures Valid()
      ensures pel == old(pel) - Overdue(old(View()), now)
      ensures View() == old(View()) - Overdue(old(View()), now)
      ensures |taken| == |ids|
      ensures forall i :: 0 <= i < |ids| ==> ids[i] in old(pel) && taken[i] == old(pel)[ids[i]].message
      ensures forall i, j :: 0 <= i < j < |ids| ==> ids[i] != ids[j]
      ensures forall id :: id in ids <==> id in Overdue(old(View()), now)
    {
      taken, ids := [], [];
      var todo := pel.Keys;
      ghost var done: set<string> := {};
      while todo != {}
        invariant todo + done == old(pel).Keys && todo !! done
        invariant pel == old(pel) - (done * Overdue(old(View()), now))
        invariant |taken| == |ids|
        invariant forall i :: 0 <= i < |ids| ==> ids[i] in old(pel) && taken[i] == old(pel)[ids[i]].message
        invariant forall i, j :: 0 <= i < j < |ids| ==> ids[i] != ids[j]
        invariant forall id :: id in ids <==> id in done * Overdue(old(View()), now)
        decreases todo
      {
        var id :| id in todo;
        todo := todo - {id};
        done := done + {id};
        if now >= pel[id].lease.deadline {
          taken, ids := taken + [pel[id].message], ids + [id];
          pel := pel - {id};
        }
      }
    }

    /** Fails every overdue checkout; `routes[i]` says where the message of ID `ids[i]` goes. */
    method SweepTimeouts(now: int) returns (routes: seq<Route>, ids: seq<string>)
      requires Valid()
      modifies this`pel, Messages()`retryCount, Messages()`failureCause
      ensures Valid()
      ensures pel == old(pel) - Overdue(old(View()), now)
      ensures View() == old(View()) - Overdue(old(View()), now)
      ensures |routes| == |ids|
      ensures forall i, j :: 0 <= i < j < |ids| ==> ids[i] != ids[j]
      ensures forall id :: id in ids <==> id in Overdue(old(View()), now)
      ensures forall i :: 0 <= i < |ids| ==> ids[i] in old(pel)
      ensures forall i :: 0 <= i < |ids| ==>
                var msg := old(pel)[ids[i]].message;
                && msg.retryCount == old(msg.retryCount) + 1
                && msg.failureCause == "Ack deadline expired (worker timeout/crash)"
                && routes[i] == AfterTimeout(msg.retryCount, msg.maxRetries)
      ensures forall m :: m in old(Messages()) && m.id !in ids ==> unchanged(m)
    {
      var timedOut;
      ghost var keys;
      timedOut, keys := TakeOverdue(now);
      assert forall i :: 0 <= i < |keys| ==> timedOut[i].id == keys[i];
      assert forall i :: 0 <= i < |keys| ==> timedOut[i] in old(Messages());
      routes, ids := [], [];
      for k := 0 to |timedOut|
        invariant |routes| == |ids| == k && ids == keys[..k]
        invariant forall i :: 0 <= i < k ==>
                    && timedOut[i].retryCount == old(timedOut[i].retryCount) + 1
                    && timedOut[i].failureCause == TIMEOUT_CAUSE
                    && routes[i] == AfterTimeout(timedOut[i].retryCount, timedOut[i].maxRetries)
        invariant forall m :: m in old(Messages()) && m.id !in ids ==> unchanged(m)
        modifies old(Messages())`retryCount, old(Messages())`failureCause
      {
        var msg := timedOut[k];
        msg.retryCount := msg.retryCount + 1;
        msg.failureCause := TIMEOUT_CAUSE;
        if msg.retryCount >= msg.maxRetries {
          routes := routes + [ToDeadLetters];
        } else {
          routes := routes + [ToWheel(SWEEP_DELAY)];
        }
        ids := ids + [msg.id];
      }
    }
  }
}
