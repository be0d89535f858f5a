/** The message objects of a topic and the consumer groups that share them: what the methods of a
    group do to the pending lists and to the retry counts of the whole topic. */
module TopicFiles {
  import opened Options
  import opened Sums
  import G = Group
  import opened Topic

  type Messages = map<Id, G.Message>
  type Groups = map<string, G.ConsumerGroup>

  /** Every message is filed under its own ID. */
  ghost predicate Known(messages: Messages, objects: set<G.Message>)
    reads objects
  {
    forall id :: id in messages ==> messages[id] in objects && messages[id].id == id && messages[id].retryCount >= 0
  }

  ghost function StoreOf(messages: Messages, objects: set<G.Message>): map<Id, Info>
    requires Known(messages, objects)
    reads objects
  {
    map id | id in messages :: Info(messages[id].retryCount, messages[id].maxRetries)
  }

  /** What a group has pending are the topic's own messages. */
  ghost predicate Shares(group: G.ConsumerGroup, messages: Messages)
    reads group
  {
    group.Valid() && forall id :: id in group.pel ==> id in messages && group.pel[id].message == messages[id]
  }

  ghost predicate Enrolled(groups: Groups, members: set<G.ConsumerGroup>) {
    && (forall g :: g in groups ==> groups[g] in members)
    && (forall g, h :: g in groups && h in groups && g != h ==> groups[g] != groups[h])
  }

  ghost predicate AllShared(groups: Groups, members: set<G.ConsumerGroup>, messages: Messages)
    reads members
  {
    Enrolled(groups, members) && forall g :: g in groups ==> Shares(groups[g], messages)
  }

  ghost function PelsOf(groups: Groups, members: set<G.ConsumerGroup>): map<string, G.Pel<Id>>
    requires Enrolled(groups, members)
    reads members
  {
    map g | g in groups :: groups[g].View()
  }

  lemma NothingFiled()
    ensures Known(map[], {}) && AllShared(map[], {}, map[])
    ensures PelsOf(map[], {}) == map[] && StoreOf(map[], {}) == map[]
  {
  }

  // ---- one group ----

  method AckIn(group: G.ConsumerGroup, id: Id, ghost messages: Messages) returns (ok: bool)
    requires Shares(group, messages)
    modifies group
    ensures Shares(group, messages)
    ensures ok == (id in old(group.View())) && group.View() == old(group.View()) - {id}
  {
    ok := group.Ack(id);
  }

  lemma PendingAreOurs(group: G.ConsumerGroup, messages: Messages, objects: set<G.Message>)
    requires Known(messages, objects) && Shares(group, messages)
    ensures forall m :: m in group.Messages() ==> m in objects
  {
  }

  method NackIn(group: G.ConsumerGroup, id: Id, reason: string, ghost messages: Messages, ghost objects: set<G.Message>)
    returns (r: Option<G.Route>)
    requires Known(messages, objects) && Shares(group, messages)
    modifies group, objects
    ensures Known(messages, objects) && Shares(group, messages)
    ensures group.View() == old(group.View()) - {id}
    ensures var store := old(StoreOf(messages, objects));
            if id in old(group.View()) then
              && id in store && r == Some(RouteAfter(store[id], true))
              && StoreOf(messages, objects) == store[id := Failed(store[id])]
            else r == None && StoreOf(messages, objects) == store
  {
    hide G.AfterNack;
    PendingAreOurs(group, messages, objects);
    assert id in group.pel ==> group.pel[id].message == messages[id];
    r := group.Nack(id, reason);
    ghost var store := old(StoreOf(messages, objects));
    if id in old(group.pel) {
      assert StoreOf(messages, objects) == store[id := Failed(store[id])];
    } else {
      assert StoreOf(messages, objects) == store;
    }
  }

  /** The store after one more failure of each of these messages. */
  function AllFailed(store: map<Id, Info>, ids: seq<Id>): map<Id, Info> {
    map id | id in store :: if id in ids then Failed(store[id]) else store[id]
  }

  lemma CountedAll(messages: Messages, objects: set<G.Message>, ids: seq<Id>, store: map<Id, Info>)
    requires Known(messages, objects) && store.Keys == messages.Keys
    requires forall i :: 0 <= i < |ids| ==> ids[i] in messages
    requires forall i :: 0 <= i < |ids| ==> StoreOf(messages, objects)[ids[i]] == Failed(store[ids[i]])
    requires forall id :: id in messages && id !in ids ==> StoreOf(messages, objects)[id] == store[id]
    ensures StoreOf(messages, objects) == AllFailed(store, ids)
  {
  }

  method SweepIn(group: G.ConsumerGroup, now: int, ghost messages: Messages, ghost objects: set<G.Message>)
    returns (routes: seq<G.Route>, ids: seq<Id>)
    requires Known(messages, objects) && Shares(group, messages)
    modifies group, objects
    ensures Known(messages, objects) && Shares(group, messages)
    ensures group.View() == old(group.View()) - G.Overdue(old(group.View()), now)
    ensures Lists(ids, G.Overdue(old(group.View()), now)) && |routes| == |ids|
    ensures var store := old(StoreOf(messages, objects));
            && StoreOf(messages, objects) == AllFailed(store, ids)
            && (forall i :: 0 <= i < |ids| ==> ids[i] in store && routes[i] == RouteAfter(store[ids[i]], false))
  {
    hide G.AfterTimeout, G.Overdue;
    PendingAreOurs(group, messages, objects);
    assert forall id :: id in group.pel ==> group.pel[id].message == messages[id];
    routes, ids := group.SweepTimeouts(now);
    CountedAll(messages, objects, ids, old(StoreOf(messages, objects)));
  }

  method CheckOutIn(group: G.ConsumerGroup, id: Id, consumer: string, now: int,
                    messages: Messages, ghost objects: set<G.Message>)
    requires Known(messages, objects) && Shares(group, messages) && id in messages
    modifies group, objects
    ensures Known(messages, objects) && Shares(group, messages)
    ensures group.View() == old(group.View())[id := G.Lease(consumer, now, now + G.VISIBILITY)]
    ensures StoreOf(messages, objects) == old(StoreOf(messages, objects))
  {
    group.Checkout(messages[id], consumer, G.VISIBILITY, now);
    assert StoreOf(messages, objects) == old(StoreOf(messages, objects));
  }

  /** These are the IDs, each once. */
  ghost predicate Lists(ids: seq<Id>, all: set<Id>) {
    && (forall i, j :: 0 <= i < j < |ids| ==> ids[i] != ids[j])
    && (forall id :: id in ids <==> id in all)
  }

  // ---- that group among all groups ----

  method FileMessage(ghost groups: Groups, ghost members: set<G.ConsumerGroup>,
                     messages: Messages, ghost objects: set<G.Message>, id: Id, maxRetries: int)
    returns (messages': Messages, ghost objects': set<G.Message>)
    requires Known(messages, objects) && AllShared(groups, members, messages) && id !in messages
    ensures Known(messages', objects') && AllShared(groups, members, messages') && fresh(objects' - objects)
    ensures StoreOf(messages', objects') == StoreOf(messages, objects)[id := Info(0, maxRetries)]
  {
    var m := new G.Message(id, maxRetries);
    messages', objects' := messages[id := m], objects + {m};
    assert StoreOf(messages', objects') == StoreOf(messages, objects)[id := Info(0, maxRetries)];
  }

  method FileGroup(groups: Groups, ghost members: set<G.ConsumerGroup>, ghost messages: Messages, g: string)
    returns (groups': Groups, ghost members': set<G.ConsumerGroup>)
    requires AllShared(groups, members, messages) && g !in groups
    ensures AllShared(groups', members', messages) && fresh(members' - members)
    ensures PelsOf(groups', members') == PelsOf(groups, members)[g := map[]]
  {
    var group := new G.ConsumerGroup(G.VISIBILITY);
    groups', members' := groups[g := group], members + {group};
    assert PelsOf(groups', members') == PelsOf(groups, members)[g := map[]];
  }

  method CheckOutAmong(groups: Groups, ghost members: set<G.ConsumerGroup>, messages: Messages,
                       ghost objects: set<G.Message>, g: string, id: Id, consumer: string, now: int)
    requires Known(messages, objects) && AllShared(groups, members, messages) && g in groups && id in messages
    modifies members, objects
    ensures Known(messages, objects) && AllShared(groups, members, messages)
    ensures StoreOf(messages, objects) == old(StoreOf(messages, objects))
    ensures var pels := old(PelsOf(groups, members));
            PelsOf(groups, members) == pels[g := pels[g][id := G.Lease(consumer, now, now + G.VISIBILITY)]]
  {
    hide Known, StoreOf, Shares, G.ConsumerGroup.View;
    assert Shares(groups[g], messages);
    CheckOutIn(groups[g], id, consumer, now, messages, objects);
  }

  method AckAmong(groups: Groups, ghost members: set<G.ConsumerGroup>, ghost messages: Messages, g: string, id: Id)
    returns (ok: bool)
    requires AllShared(groups, members, messages) && g in groups
    modifies members
    ensures AllShared(groups, members, messages)
    ensures var pels := old(PelsOf(groups, members));
            ok == (id in pels[g]) && PelsOf(groups, members) == pels[g := pels[g] - {id}]
  {
    hide Shares, G.ConsumerGroup.View;
    assert Shares(groups[g], messages);
    ok := AckIn(groups[g], id, messages);
  }

  method NackAmong(groups: Groups, ghost members: set<G.ConsumerGroup>, ghost messages: Messages,
                   ghost objects: set<G.Message>, g: string, id: Id, reason: string)
    returns (r: Option<G.Route>)
    requires Known(messages, objects) && AllShared(groups, members, messages) && g in groups
    modifies members, objects
    ensures Known(messages, objects) && AllShared(groups, members, messages)
    ensures var pels, store := old(PelsOf(groups, members)), old(StoreOf(messages, objects));
            && PelsOf(groups, members) == pels[g := pels[g] - {id}]
            && if id in pels[g] then
                 && id in store && r == Some(RouteAfter(store[id], true))
                 && StoreOf(messages, objects) == store[id := Failed(store[id])]
               else r == None && StoreOf(messages, objects) == store
  {
    hide Known, StoreOf, RouteAfter, Shares, G.ConsumerGroup.View;
    assert Shares(groups[g], messages);
    r := NackIn(groups[g], id, reason, messages, objects);
  }

  method SweepAmong(groups: Groups, ghost members: set<G.ConsumerGroup>, ghost messages: Messages,
                    ghost objects: set<G.Message>, g: string, now: int)
    returns (routes: seq<G.Route>, ids: seq<Id>)
    requires Known(messages, objects) && AllShared(groups, members, messages) && g in groups
    modifies members, objects
    ensures Known(messages, objects) && AllShared(groups, members, messages)
    ensures var pels, store := old(PelsOf(groups, members)), old(StoreOf(messages, objects));
            && PelsOf(groups, members) == pels[g := pels[g] - G.Overdue(pels[g], now)]
            && Lists(ids, G.Overdue(pels[g], now)) && |routes| == |ids|
            && StoreOf(messages, objects) == AllFailed(store, ids)
            && (forall i :: 0 <= i < |ids| ==> ids[i] in store && routes[i] == RouteAfter(store[ids[i]], false))
  {
    hide Known, StoreOf, RouteAfter, AllFailed, Lists, G.Overdue, Shares, G.ConsumerGroup.View;
    assert Shares(groups[g], messages);
    routes, ids := SweepIn(groups[g], now, messages, objects);
  }

  /** A replayed message starts over. */
  method StartOver(messages: Messages, ghost objects: set<G.Message>, id: Id)
    requires Known(messages, objects) && id in messages
    modifies messages[id]
    ensures Known(messages, objects)
    ensures var store := old(StoreOf(messages, objects));
            StoreOf(messages, objects) == store[id := store[id].(retry := 0)]
  {
    messages[id].retryCount := 0;
    messages[id].failureCause := "";
    ghost var store := old(StoreOf(messages, objects));
    assert StoreOf(messages, objects) == store[id := store[id].(retry := 0)];
  }
}
