/**
 * The in-memory backend: MemoryContext (the shared store), MemoryPubSub (the
 * backend facade over the store) and MemorySubscriber (a subscriber holding
 * at most one subscription per channel). The three classes refer to one
 * another, so they share one module.
 */
module Memory {
  import opened Wrappers
  import opened MessageLog

  /** A channel (MemoryChannel) as the store holds it: its identifier. */
  datatype Channel = Channel(id: string)

  /** A subscription: its identifier, its channel's identifier and whether it is active. */
  datatype Subscription = Subscription(id: nat, chanId: string, active: bool)

  // ---- how many log entries getMessageListFor visits -----------------------------

  /**
   * The guard as written, `null !== $limit && ++$i <= $limit`, is true on the
   * first entry for any limit of at least 1, so such a scan visits nothing;
   * a limit of 0 or less never makes it true, so the scan visits everything.
   */
  function ScannedAsWritten(limit: Option<int>, size: nat): nat {
    if limit.Some? && 1 <= limit.value then 0 else size
  }

  /** With the guard `++$i > $limit`, a scan visits at most limit entries. */
  function ScannedIntended(limit: Option<int>, size: nat): (n: nat)
    ensures n <= size
    ensures limit.None? ==> n == size
    ensures limit.Some? ==> n <= limit.value || n == 0
    ensures limit.Some? && limit.value >= size ==> n == size
  {
    if limit.None? then size
    else if limit.value <= 0 then 0
    else if limit.value < size then limit.value
    else size
  }

  /**
   * A limit of 1 over a log holding one message owed to subscription 7: as
   * written, the scan hands out nothing; as intended, it hands out that message.
   */
  lemma LimitDefect()
    ensures var log := [Message(1, {7})];
      Deliver(log[..ScannedAsWritten(Some(1), |log|)], {7}) == [] &&
      Deliver(log[..ScannedIntended(Some(1), |log|)], {7}) == [Message(1, {})]
  {
    var log := [Message(1, {7})];
    assert log[..1] == log;
    assert Deliver(log, {7}) == Deliver([], {7}) + Delivered(log[0], {7});
    assert {7} - {7} == {};
  }

  /**
   * What the as-written scan amounts to: with a limit of at least 1 nothing
   * is handed out and the log is left as it was; with no limit or one of 0
   * or less, the whole log is scanned.
   */
  lemma AsWrittenScan(log: seq<Message>, ids: set<nat>, limit: Option<int>, reverse: bool)
    ensures var source := ScanOrder(log, reverse)[..ScannedAsWritten(limit, |log|)];
      limit.Some? && limit.value >= 1 ==> Deliver(source, ids) == [] && ConsumeSome(log, ids, Ids(source)) == log
    ensures var source := ScanOrder(log, reverse)[..ScannedAsWritten(limit, |log|)];
      limit.None? || limit.value <= 0 ==>
        Deliver(source, ids) == Deliver(ScanOrder(log, reverse), ids) && ConsumeSome(log, ids, Ids(source)) == Consume(log, ids)
  {
    ReverseSameMessages(log);
    var whole := ScanOrder(log, reverse);
    assert whole[..|log|] == whole;
    assert Ids(whole[..0]) == {};
    ConsumeSomeNothing(log, ids);
  }

  // ---- identifier lists ----------------------------------------------------------

  predicate DistinctSubscriptionIds(subs: seq<Subscription>) {
    forall i, j :: 0 <= i < j < |subs| ==> subs[i].id != subs[j].id
  }

  /** No two subscriptions are to the same channel. */
  predicate OnePerChannel(subs: seq<Subscription>) {
    forall i, j :: 0 <= i < j < |subs| ==> subs[i].chanId != subs[j].chanId
  }

  /** Position k holds the first subscription to chanId. */
  predicate FirstFor(subs: seq<Subscription>, k: int, chanId: string) {
    0 <= k < |subs| && subs[k].chanId == chanId && forall j :: 0 <= j < k ==> subs[j].chanId != chanId
  }

  /** The foreach of getSubscriptionFor: the first subscription to chanId. */
  function FindFor(subs: seq<Subscription>, chanId: string): (r: Option<Subscription>)
    ensures r.None? <==> forall k :: 0 <= k < |subs| ==> subs[k].chanId != chanId
    ensures r.Some? ==> exists k :: FirstFor(subs, k, chanId) && subs[k] == r.value
  {
    if subs == [] then None
    else if subs[0].chanId == chanId then (assert FirstFor(subs, 0, chanId); Some(subs[0]))
    else
      var r := FindFor(subs[1..], chanId);
      assert r.Some? ==> exists k :: FirstFor(subs, k, chanId) && subs[k] == r.value by {
        if r.Some? {
          var k :| FirstFor(subs[1..], k, chanId) && subs[1..][k] == r.value;
          assert subs[k + 1] == r.value;
          forall j | 0 <= j < k + 1 ensures subs[j].chanId != chanId {
            if j > 0 {
              assert subs[j] == subs[1..][j - 1];
            }
          }
          assert FirstFor(subs, k + 1, chanId);
        }
      }
      r
  }

  // ---- what the facade's bulk operations compute -----------------------------------

  /** The channel map once each of ids has been created or found. */
  function WithChannels(channels: map<string, Channel>, ids: seq<string>): map<string, Channel> {
    if ids == [] then channels
    else
      var before := WithChannels(channels, ids[..|ids| - 1]);
      var id := ids[|ids| - 1];
      if id in before then before else before[id := Channel(id)]
  }

  /**
   * Bulk creation adds a channel under each new id and keeps every existing
   * channel as it was; afterwards every listed id is a channel.
   */
  lemma {:induction false} WithChannelsContents(channels: map<string, Channel>, ids: seq<string>)
    ensures forall k :: k in WithChannels(channels, ids) <==> k in channels || k in ids
    ensures forall k :: k in channels ==> WithChannels(channels, ids)[k] == channels[k]
    ensures forall k :: k in WithChannels(channels, ids) && k !in channels ==>
      WithChannels(channels, ids)[k] == Channel(k)
  {
    if ids != [] {
      var init := ids[..|ids| - 1];
      WithChannelsContents(channels, init);
      assert ids == init + [ids[|ids| - 1]];
    }
  }

  /** The subscriptions that deleteChannel(chanId) keeps. */
  function WithoutChannel(subs: map<nat, Subscription>, chanId: string): (r: map<nat, Subscription>)
    ensures forall k :: k in r <==> k in subs && subs[k].chanId != chanId
    ensures forall k :: k in r ==> r[k] == subs[k]
  {
    map k | k in subs && subs[k].chanId != chanId :: subs[k]
  }

  /**
   * deleteSubscriptions(ids): one deleteSubscription after another, stopping
   * at the first id that does not exist (the deletions before it stay done).
   */
  function DeleteEach(subs: map<nat, Subscription>, ids: seq<nat>): (map<nat, Subscription>, Outcome) {
    if ids == [] then (subs, Pass)
    else if ids[0] !in subs then (subs, Fail(SubscriptionDoesNotExist))
    else DeleteEach(subs - {ids[0]}, ids[1..])
  }

  predicate DistinctNats(ids: seq<nat>) {
    forall i, j :: 0 <= i < j < |ids| ==> ids[i] != ids[j]
  }

  /**
   * Deleting a list of subscriptions succeeds exactly when every listed id
   * exists and none is listed twice; it then removes exactly those; a failure
   * is always SubscriptionDoesNotExist and never adds or alters an entry.
   */
  lemma {:induction false} DeleteEachRules(subs: map<nat, Subscription>, ids: seq<nat>)
    ensures DeleteEach(subs, ids).1 == Pass <==>
      DistinctNats(ids) && forall k :: 0 <= k < |ids| ==> ids[k] in subs
    ensures DeleteEach(subs, ids).1 == Pass ==>
      DeleteEach(subs, ids).0 == subs - set x | x in ids
    ensures DeleteEach(subs, ids).1.Fail? ==> DeleteEach(subs, ids).1.error == SubscriptionDoesNotExist
    ensures forall k :: k in DeleteEach(subs, ids).0 ==> k in subs && DeleteEach(subs, ids).0[k] == subs[k]
  {
    if ids != [] && ids[0] in subs {
      var tail := ids[1..];
      var rest := subs - {ids[0]};
      DeleteEachRules(rest, tail);
      if DeleteEach(rest, tail).1 == Pass {
        assert DistinctNats(ids) by {
          forall i, j | 0 <= i < j < |ids| ensures ids[i] != ids[j] {
            assert ids[j] == tail[j - 1];
            if i > 0 {
              assert ids[i] == tail[i - 1];
            }
          }
        }
        assert ids == [ids[0]] + tail;
        assert (set x | x in ids) == {ids[0]} + set x | x in tail;
      } else {
        DeletableTail(subs, ids);
      }
    } else if ids != [] {
      assert !(forall k :: 0 <= k < |ids| ==> ids[k] in subs);
    }
  }

  lemma DeletableTail(subs: map<nat, Subscription>, ids: seq<nat>)
    requires ids != []
    ensures DistinctNats(ids) && (forall k :: 0 <= k < |ids| ==> ids[k] in subs) ==>
      DistinctNats(ids[1..]) && forall k :: 0 <= k < |ids[1..]| ==> ids[1..][k] in subs - {ids[0]}
  {
    var tail := ids[1..];
    if DistinctNats(ids) && forall k :: 0 <= k < |ids| ==> ids[k] in subs {
      forall k | 0 <= k < |tail| ensures tail[k] in subs - {ids[0]} {
        assert tail[k] == ids[k + 1];
      }
      forall i, j | 0 <= i < j < |tail| ensures tail[i] != tail[j] {
        assert tail[i] == ids[i + 1] && tail[j] == ids[j + 1];
      }
    }
  }

  // ---- the shared store ------------------------------------------------------------

  /** The store every object of one backend shares. */
  class MemoryContext {
    var channels: map<string, Channel>
    var subscriptions: map<nat, Subscription>
    var subscribers: map<string, MemorySubscriber>
    /** The messages, ordered by creation and keyed by id. */
    var messages: seq<Message>
    var messageIdSeq: nat
    var subscriptionIdSeq: nat
    /** The identifiers handed out so far. */
    ghost var issuedMessageIds: set<nat>
    ghost var issuedSubscriptionIds: set<nat>

    ghost predicate Valid()
      reads this
    {
      DistinctIds(messages)
      && (forall k :: k in channels ==> channels[k].id == k)
      && (forall k :: k in subscriptions ==> subscriptions[k].id == k && k in issuedSubscriptionIds)
      && (forall k :: k in subscribers ==> subscribers[k].id == k && subscribers[k].context == this)
      && (forall x :: x in issuedMessageIds ==> 1 <= x <= messageIdSeq)
      && (forall x :: x in issuedSubscriptionIds ==> 1 <= x <= subscriptionIdSeq)
    }

    constructor()
      ensures Valid()
      ensures channels == map[] && subscriptions == map[] && subscribers == map[] && messages == []
      ensures messageIdSeq == 0 && subscriptionIdSeq == 0
      ensures issuedMessageIds == {} && issuedSubscriptionIds == {}
    {
      channels, subscriptions, subscribers, messages := map[], map[], map[], [];
      messageIdSeq, subscriptionIdSeq := 0, 0;
      issuedMessageIds, issuedSubscriptionIds := {}, {};
    }

    /** Pre-increments the message sequence: 1, 2, 3, ..., never a value handed out before. */
    method GetNextMessageIdentifier() returns (id: nat)
      requires Valid()
      modifies this`messageIdSeq, this`issuedMessageIds
      ensures Valid()
      ensures id == old(messageIdSeq) + 1 && messageIdSeq == id
      ensures id !in old(issuedMessageIds) && issuedMessageIds == old(issuedMessageIds) + {id}
    {
      messageIdSeq := messageIdSeq + 1;
      id := messageIdSeq;
      issuedMessageIds := issuedMessageIds + {id};
    }

    /** The subscription sequence, independent of the message sequence. */
    method GetNextSubscriptionIdentifier() returns (id: nat)
      requires Valid()
      modifies this`subscriptionIdSeq, this`issuedSubscriptionIds
      ensures Valid()
      ensures id == old(subscriptionIdSeq) + 1 && subscriptionIdSeq == id
      ensures id !in old(issuedSubscriptionIds) && issuedSubscriptionIds == old(issuedSubscriptionIds) + {id}
    {
      subscriptionIdSeq := subscriptionIdSeq + 1;
      id := subscriptionIdSeq;
      issuedSubscriptionIds := issuedSubscriptionIds + {id};
    }

    /** `$this->messages[$message->getId()] = $message`. */
    method AddMessage(m: Message)
      requires Valid()
      modifies this`messages
      ensures Valid()
      ensures messages == StoreById(old(messages), m)
    {
      messages := StoreById(messages, m);
    }

    /**
     * The loop body of getMessageListFor for one message: if it is owed to
     * one of idList, those subscriptions are removed from it, its log entry
     * is unset once it is consumed and updated otherwise (the log holds this
     * very object), and it is handed out.
     */
    method ScanEntry(message: Message, idList: set<nat>) returns (handed: seq<Message>)
      modifies this`messages
      ensures messages == ScanWrite(old(messages), message, idList)
      ensures handed == Delivered(message, idList)
    {
      handed := [];
      if HasSubscribersIn(message, idList) {
        var served := RemoveSubscriptionIds(message, idList);
        if IsConsumed(served) {
          messages := RemoveById(messages, served.id);
        } else {
          messages := ReplaceById(messages, served.id, served);
        }
        handed := [served];
      }
    }

    /**
     * Scanning entry k of source, an ordering of the log log0, after the
     * first k: the hand-out and the log become those of the first k + 1.
     */
    method ScanStep(ghost log0: seq<Message>, source: seq<Message>, k: nat, idList: set<nat>, ret0: seq<Message>)
      returns (ret: seq<Message>)
      requires DistinctIds(log0) && DistinctIds(source)
      requires forall m :: m in source ==> m in log0
      requires k < |source|
      requires ret0 == Deliver(source[..k], idList)
      requires messages == ConsumeSome(log0, idList, Ids(source[..k]))
      modifies this`messages
      ensures ret == Deliver(source[..k + 1], idList)
      ensures messages == ConsumeSome(log0, idList, Ids(source[..k + 1]))
    {
      ScanAdvance(log0, source, k, idList);
      var handed := ScanEntry(source[k], idList);
      ret := ret0 + handed;
    }

    /**
     * getMessageListFor as written. With no limit, or a limit of 0 or less,
     * it hands out every message owed to one of idList, in log order or
     * reversed, with idList removed from it, and leaves the log consumed by
     * that scan; with any limit of at least 1 it hands out nothing and
     * changes nothing.
     */
    method GetMessageListFor(idList: set<nat>, limit: Option<int>, reverse: bool) returns (ret: seq<Message>)
      requires Valid()
      modifies this`messages
      ensures Valid()
      ensures var n := ScannedAsWritten(limit, |old(messages)|);
        ret == Deliver(ScanOrder(old(messages), reverse)[..n], idList) &&
        messages == ConsumeSome(old(messages), idList, Ids(ScanOrder(old(messages), reverse)[..n]))
    {
      ghost var log0 := messages;
      var source := ScanOrder(messages, reverse);
      ReverseSameMessages(messages);
      ret := ScanAsWritten(log0, source, idList, limit);
      ConsumeSomeMembers(log0, idList, Ids(source[..ScannedAsWritten(limit, |log0|)]));
    }

    /**
     * The loop of getMessageListFor as written over source, the log log0 in
     * scan order, counting scanned entries against limit with the guard
     * `++$i <= $limit`.
     */
    method ScanAsWritten(ghost log0: seq<Message>, source: seq<Message>, idList: set<nat>, limit: Option<int>)
      returns (ret: seq<Message>)
      requires messages == log0 && |source| == |log0|
      requires DistinctIds(log0) && DistinctIds(source)
      requires forall m :: m in source ==> m in log0
      modifies this`messages
      ensures var n := ScannedAsWritten(limit, |source|);
        ret == Deliver(source[..n], idList) && messages == ConsumeSome(log0, idList, Ids(source[..n]))
    {
      ghost var n := ScannedAsWritten(limit, |source|);
      var i := 0;
      ret := [];
      var k := 0;
      assert Ids(source[..0]) == {};
      ConsumeSomeNothing(log0, idList);
      while k < |source|
        invariant k <= n <= |source|
        invariant ret == Deliver(source[..k], idList)
        invariant messages == ConsumeSome(log0, idList, Ids(source[..k]))
        invariant limit.Some? ==> i == k
      {
        if limit.Some? {
          i := i + 1;
        }
        if limit.Some? && i <= limit.value {
          break;
        }
        ret := ScanStep(log0, source, k, idList, ret);
        k := k + 1;
      }
    }

    /**
     * getMessageListFor with the guard `++$i > $limit`: it visits the first
     * ScannedIntended(limit, size) entries in scan order, hands out what they
     * owe idList and consumes only those.
     */
    method GetMessageListForIntended(idList: set<nat>, limit: Option<int>, reverse: bool) returns (ret: seq<Message>)
      requires Valid()
      modifies this`messages
      ensures Valid()
      ensures var n := ScannedIntended(limit, |old(messages)|);
        ret == Deliver(ScanOrder(old(messages), reverse)[..n], idList) &&
        messages == ConsumeSome(old(messages), idList, Ids(ScanOrder(old(messages), reverse)[..n]))
    {
      ghost var log0 := messages;
      var source := ScanOrder(messages, reverse);
      ReverseSameMessages(messages);
      ret := ScanIntended(log0, source, idList, limit);
      ConsumeSomeMembers(log0, idList, Ids(source[..ScannedIntended(limit, |log0|)]));
    }

    /** The loop of getMessageListFor with the guard `++$i > $limit`. */
    method ScanIntended(ghost log0: seq<Message>, source: seq<Message>, idList: set<nat>, limit: Option<int>)
      returns (ret: seq<Message>)
      requires messages == log0 && |source| == |log0|
      requires DistinctIds(log0) && DistinctIds(source)
      requires forall m :: m in source ==> m in log0
      modifies this`messages
      ensures var n := ScannedIntended(limit, |source|);
        ret == Deliver(source[..n], idList) && messages == ConsumeSome(log0, idList, Ids(source[..n]))
    {
      ghost var n := ScannedIntended(limit, |source|);
      var i := 0;
      ret := [];
      var k := 0;
      assert Ids(source[..0]) == {};
      ConsumeSomeNothing(log0, idList);
      while k < |source|
        invariant k <= n <= |source|
        invariant ret == Deliver(source[..k], idList)
        invariant messages == ConsumeSome(log0, idList, Ids(source[..k]))
        invariant limit.Some? ==> i == k
      {
        if limit.Some? {
          i := i + 1;
        }
        if limit.Some? && i > limit.value {
          break;
        }
        assert k + 1 <= n;
        ret := ScanStep(log0, source, k, idList, ret);
        k := k + 1;
      }
    }

    /**
     * Stand-in for MemoryChannel::subscribe(), whose code is not part of this
     * model: a new, inactive subscription to chanId under the next
     * subscription id, registered in the store.
     */
    method CreateSubscription(chanId: string) returns (s: Subscription)
      requires Valid()
      modifies this`subscriptions, this`subscriptionIdSeq, this`issuedSubscriptionIds
      ensures Valid()
      ensures s == Subscription(old(subscriptionIdSeq) + 1, chanId, false)
      ensures s.id !in old(issuedSubscriptionIds) && issuedSubscriptionIds == old(issuedSubscriptionIds) + {s.id}
      ensures subscriptions == old(subscriptions)[s.id := s]
    {
      var id := GetNextSubscriptionIdentifier();
      s := Subscription(id, chanId, false);
      subscriptions := subscriptions[id := s];
    }

    /** Stand-in for MemorySubscription::activate(): the stored subscription becomes active. */
    method ActivateSubscription(s: Subscription) returns (activated: Subscription)
      requires Valid() && s.id in subscriptions
      modifies this`subscriptions
      ensures Valid()
      ensures activated == s.(active := true)
      ensures subscriptions == old(subscriptions)[s.id := activated]
    {
      activated := s.(active := true);
      subscriptions := subscriptions[s.id := activated];
    }
  }

  // ---- the backend facade ------------------------------------------------------------

  class MemoryPubSub {
    const context: MemoryContext

    ghost predicate Valid()
      reads this, context
    {
      context.Valid()
      && forall k :: k in context.subscribers ==> context.subscribers[k].backend == this
    }

    constructor()
      ensures Valid() && fresh(context)
      ensures context.channels == map[] && context.subscriptions == map[] && context.subscribers == map[]
      ensures context.messages == [] && context.subscriptionIdSeq == 0 && context.issuedSubscriptionIds == {}
    {
      context := new MemoryContext();
    }

    /** The channel stored under id, or ChannelDoesNotExist. */
    function GetChannel(id: string): (r: Result<Channel>)
      reads this, context
      ensures r.Ok? <==> id in context.channels
      ensures r.Ok? ==> r.value == context.channels[id]
      ensures r.Err? ==> r.error == ChannelDoesNotExist
    {
      if id !in context.channels then Err(ChannelDoesNotExist) else Ok(context.channels[id])
    }

    /** One channel per listed id, in order; the first missing id fails the call. */
    method GetChannels(idList: seq<string>) returns (r: Result<seq<Channel>>)
      ensures r.Ok? <==> forall k :: 0 <= k < |idList| ==> idList[k] in context.channels
      ensures r.Ok? ==> (|r.value| == |idList| &&
        forall k :: 0 <= k < |idList| ==> r.value[k] == context.channels[idList[k]])
      ensures r.Err? ==> r.error == ChannelDoesNotExist
    {
      var ret := [];
      var k := 0;
      while k < |idList|
        invariant k <= |idList|
        invariant forall j :: 0 <= j < k ==> idList[j] in context.channels
        invariant |ret| == k && forall j :: 0 <= j < k ==> ret[j] == context.channels[idList[j]]
      {
        var c := GetChannel(idList[k]);
        if c.Err? {
          return Err(c.error);
        }
        ret := ret + [c.value];
        k := k + 1;
      }
      r := Ok(ret);
    }

    /**
     * A new id gets a new channel; an existing id fails with
     * ChannelAlreadyExists, unless errors are ignored, in which case the
     * existing channel is returned.
     */
    method CreateChannel(id: string, ignoreErrors: bool) returns (r: Result<Channel>)
      requires Valid()
      modifies context`channels
      ensures Valid()
      ensures id in old(context.channels) && ignoreErrors ==>
        r == Ok(old(context.channels)[id]) && context.channels == old(context.channels)
      ensures id in old(context.channels) && !ignoreErrors ==>
        r == Err(ChannelAlreadyExists) && context.channels == old(context.channels)
      ensures id !in old(context.channels) ==>
        r == Ok(Channel(id)) && context.channels == old(context.channels)[id := Channel(id)]
    {
      if id in context.channels {
        if ignoreErrors {
          r := GetChannel(id);
        } else {
          r := Err(ChannelAlreadyExists);
        }
      } else {
        context.channels := context.channels[id := Channel(id)];
        r := Ok(Channel(id));
      }
    }

    /**
     * Without ignoreErrors, all or nothing: if any listed id exists the call
     * fails and creates nothing. Otherwise every listed id ends up a channel
     * and the result holds that channel for each listed id, in order.
     */
    method CreateChannels(idList: seq<string>, ignoreErrors: bool) returns (r: Result<seq<Channel>>)
      requires Valid()
      modifies context`channels
      ensures Valid()
      ensures !ignoreErrors && (exists k :: 0 <= k < |idList| && idList[k] in old(context.channels)) ==>
        r == Err(ChannelAlreadyExists) && context.channels == old(context.channels)
      ensures ignoreErrors || (forall k :: 0 <= k < |idList| ==> idList[k] !in old(context.channels)) ==>
        r.Ok? && context.channels == WithChannels(old(context.channels), idList) &&
        |r.value| == |idList| && forall k :: 0 <= k < |idList| ==> r.value[k] == Channel(idList[k])
    {
      if !ignoreErrors && exists k :: 0 <= k < |idList| && idList[k] in context.channels {
        return Err(ChannelAlreadyExists);
      }
      ghost var channels0 := context.channels;
      var ret := [];
      var k := 0;
      while k < |idList|
        invariant k <= |idList|
        invariant context.Valid()
        invariant context.channels == WithChannels(channels0, idList[..k])
        invariant |ret| == k && forall j :: 0 <= j < k ==> ret[j] == Channel(idList[j])
      {
        assert idList[..k + 1][..k] == idList[..k];
        var c := CreateChannel(idList[k], true);
        ret := ret + [c.value];
        k := k + 1;
      }
      assert idList[..k] == idList;
      r := Ok(ret);
    }

    /**
     * Fails with ChannelDoesNotExist for an absent id. Otherwise the channel
     * is gone and so is every subscription to it; the other subscriptions
     * stay as they were.
     */
    method DeleteChannel(id: string) returns (r: Outcome)
      requires Valid()
      modifies context`channels, context`subscriptions
      ensures Valid()
      ensures id !in old(context.channels) ==> (r == Fail(ChannelDoesNotExist) &&
        context.channels == old(context.channels) && context.subscriptions == old(context.subscriptions))
      ensures id in old(context.channels) ==> (r == Pass &&
        context.channels == old(context.channels) - {id} &&
        context.subscriptions == WithoutChannel(old(context.subscriptions), id))
    {
      var channel := GetChannel(id);
      if channel.Err? {
        return Fail(channel.error);
      }
      ghost var subs0 := context.subscriptions;
      var keys := context.subscriptions.Keys;
      while keys != {}
        invariant keys <= subs0.Keys
        invariant context.Valid()
        invariant context.channels == old(context.channels)
        invariant context.subscriptions == map j | j in subs0 && (j in keys || subs0[j].chanId != id) :: subs0[j]
        decreases keys
      {
        var index :| index in keys;
        if context.subscriptions[index].chanId == id {
          context.subscriptions := context.subscriptions - {index};
        }
        keys := keys - {index};
      }
      // array_filter() drops nothing: every entry is an object, hence truthy.
      context.channels := context.channels - {id};
      r := Pass;
    }

    /** The subscription stored under id, or SubscriptionDoesNotExist. */
    function GetSubscription(id: nat): (r: Result<Subscription>)
      reads this, context
      ensures r.Ok? <==> id in context.subscriptions
      ensures r.Ok? ==> r.value == context.subscriptions[id]
      ensures r.Err? ==> r.error == SubscriptionDoesNotExist
    {
      if id !in context.subscriptions then Err(SubscriptionDoesNotExist) else Ok(context.subscriptions[id])
    }

    /** One subscription per listed id, in order; the first missing id fails the call. */
    method GetSubscriptions(idList: seq<nat>) returns (r: Result<seq<Subscription>>)
      ensures r.Ok? <==> forall k :: 0 <= k < |idList| ==> idList[k] in context.subscriptions
      ensures r.Ok? ==> (|r.value| == |idList| &&
        forall k :: 0 <= k < |idList| ==> r.value[k] == context.subscriptions[idList[k]])
      ensures r.Err? ==> r.error == SubscriptionDoesNotExist
    {
      var ret := [];
      var k := 0;
      while k < |idList|
        invariant k <= |idList|
        invariant forall j :: 0 <= j < k ==> idList[j] in context.subscriptions
        invariant |ret| == k && forall j :: 0 <= j < k ==> ret[j] == context.subscriptions[idList[j]]
      {
        var s := GetSubscription(idList[k]);
        if s.Err? {
          return Err(s.error);
        }
        ret := ret + [s.value];
        k := k + 1;
      }
      r := Ok(ret);
    }

    /** Fails for an absent id; otherwise removes that subscription and nothing else. */
    method DeleteSubscription(id: nat) returns (r: Outcome)
      requires Valid()
      modifies context`subscriptions
      ensures Valid()
      ensures (context.subscriptions, r) == DeleteEach(old(context.subscriptions), [id])
      ensures r == Pass ==> GetSubscription(id) == Err(SubscriptionDoesNotExist)
    {
      var s := GetSubscription(id);
      if s.Err? {
        return Fail(s.error);
      }
      context.subscriptions := context.subscriptions - {id};
      r := Pass;
    }

    /** One deleteSubscription per listed id, stopping at the first failure. */
    method DeleteSubscriptions(idList: seq<nat>) returns (r: Outcome)
      requires Valid()
      modifies context`subscriptions
      ensures Valid()
      ensures (context.subscriptions, r) == DeleteEach(old(context.subscriptions), idList)
    {
      var k := 0;
      while k < |idList|
        invariant k <= |idList|
        invariant Valid()
        invariant DeleteEach(old(context.subscriptions), idList) == DeleteEach(context.subscriptions, idList[k..])
      {
        assert idList[k..][1..] == idList[k + 1..];
        r := DeleteSubscription(idList[k]);
        if r.Fail? {
          return;
        }
        k := k + 1;
      }
      r := Pass;
    }

    /**
     * The subscriber under id, created on first request; later requests
     * return that same subscriber and leave the map as it is.
     */
    method GetSubscriber(id: string) returns (s: MemorySubscriber)
      requires Valid()
      modifies context`subscribers
      ensures Valid()
      ensures s.id == id && s.context == context && s.backend == this
      ensures id in old(context.subscribers) ==>
        s == old(context.subscribers)[id] && context.subscribers == old(context.subscribers)
      ensures id !in old(context.subscribers) ==>
        fresh(s) && s.subscriptions == [] && context.subscribers == old(context.subscribers)[id := s]
    {
      if id !in context.subscribers {
        var created := new MemorySubscriber(context, this, id);
        context.subscribers := context.subscribers[id := created];
      }
      s := context.subscribers[id];
    }
  }

  // ---- subscribers -------------------------------------------------------------------

  /** The messages fetch() gathers, with each subscription's result put before those gathered so far. */
  function Merged(subs: seq<Subscription>, fetchOf: nat -> seq<Message>): seq<Message> {
    if subs == [] then [] else fetchOf(subs[|subs| - 1].id) + Merged(subs[..|subs| - 1], fetchOf)
  }

  /** The union, as a multiset, of what each subscription fetches. */
  function FetchedBag(subs: seq<Subscription>, fetchOf: nat -> seq<Message>): multiset<Message> {
    if subs == [] then multiset{} else multiset(fetchOf(subs[0].id)) + FetchedBag(subs[1..], fetchOf)
  }

  lemma {:induction false} FetchedBagAppend(a: seq<Subscription>, s: Subscription, fetchOf: nat -> seq<Message>)
    ensures FetchedBag(a + [s], fetchOf) == FetchedBag(a, fetchOf) + multiset(fetchOf(s.id))
  {
    if a != [] {
      assert (a + [s])[1..] == a[1..] + [s];
      FetchedBagAppend(a[1..], s, fetchOf);
    }
  }

  /** Merging loses and invents nothing: it holds each subscription's messages. */
  lemma {:induction false} MergedIsFetchedBag(subs: seq<Subscription>, fetchOf: nat -> seq<Message>)
    ensures multiset(Merged(subs, fetchOf)) == FetchedBag(subs, fetchOf)
  {
    if subs != [] {
      var init := subs[..|subs| - 1];
      MergedIsFetchedBag(init, fetchOf);
      assert subs == init + [subs[|subs| - 1]];
      FetchedBagAppend(init, subs[|subs| - 1], fetchOf);
    }
  }

  class MemorySubscriber {
    const id: string
    const context: MemoryContext
    const backend: MemoryPubSub
    /** The subscriptions held, in the order they were made (keyed by id). */
    var subscriptions: seq<Subscription>

    ghost predicate Valid()
      reads this, context
    {
      backend.context == context
      && DistinctSubscriptionIds(subscriptions)
      && OnePerChannel(subscriptions)
      && forall k :: 0 <= k < |subscriptions| ==> subscriptions[k].id in context.issuedSubscriptionIds
    }

    constructor(context: MemoryContext, backend: MemoryPubSub, id: string)
      requires backend.context == context
      ensures this.id == id && this.context == context && this.backend == backend
      ensures subscriptions == [] && Valid()
    {
      this.id := id;
      this.context := context;
      this.backend := backend;
      subscriptions := [];
    }

    /**
     * The held subscription to channelId (the first one, in holding order),
     * or SubscriptionDoesNotExist when none is to that channel.
     */
    function GetSubscriptionFor(channelId: string): (r: Result<Subscription>)
      reads this
      ensures r.Ok? ==> r.value in subscriptions && r.value.chanId == channelId
      ensures r.Err? <==> forall k :: 0 <= k < |subscriptions| ==> subscriptions[k].chanId != channelId
      ensures r.Err? ==> r.error == SubscriptionDoesNotExist
    {
      match FindFor(subscriptions, channelId)
      case Some(s) => Ok(s)
      case None => Err(SubscriptionDoesNotExist)
    }

    /**
     * Fails with ChannelDoesNotExist for an unknown channel and with
     * SubscriptionAlreadyExists when a subscription to it is held, changing
     * nothing in either case. Otherwise a new subscription is made, activated
     * and held, and getSubscriptionFor(channelId) finds it.
     */
    method Subscribe(channelId: string) returns (r: Result<Subscription>)
      requires Valid() && context.Valid()
      modifies this`subscriptions, context`subscriptions, context`subscriptionIdSeq, context`issuedSubscriptionIds
      ensures Valid() && context.Valid()
      ensures channelId !in old(context.channels) ==>
        r == Err(ChannelDoesNotExist) && unchanged(this, context)
      ensures channelId in old(context.channels) && old(GetSubscriptionFor(channelId)).Ok? ==>
        r == Err(SubscriptionAlreadyExists) && unchanged(this, context)
      ensures channelId in old(context.channels) && old(GetSubscriptionFor(channelId)).Err? ==>
        r.Ok? && r.value == Subscription(old(context.subscriptionIdSeq) + 1, channelId, true) &&
        r.value.id !in old(context.issuedSubscriptionIds) &&
        subscriptions == old(subscriptions) + [r.value] &&
        context.subscriptions == old(context.subscriptions)[r.value.id := r.value] &&
        GetSubscriptionFor(channelId) == Ok(r.value)
    {
      var channel := backend.GetChannel(channelId);
      if channel.Err? {
        return Err(channel.error);
      }
      if GetSubscriptionFor(channelId).Ok? {
        return Err(SubscriptionAlreadyExists);
      }
      var created := context.CreateSubscription(channel.value.id);
      var subscription := context.ActivateSubscription(created);
      subscriptions := subscriptions + [subscription];
      assert subscriptions[|subscriptions| - 1] == subscription;
      r := Ok(subscription);
    }

    /**
     * Every held subscription's fetch result, merged, then sorted by message
     * id ascending. The result of each subscription's own fetch is given as
     * fetchOf(subscription id).
     */
    method Fetch(fetchOf: nat -> seq<Message>) returns (ret: seq<Message>)
      ensures multiset(ret) == FetchedBag(subscriptions, fetchOf)
      ensures SortedById(ret)
    {
      ret := [];
      var k := 0;
      while k < |subscriptions|
        invariant k <= |subscriptions|
        invariant ret == Merged(subscriptions[..k], fetchOf)
      {
        assert subscriptions[..k + 1][..k] == subscriptions[..k];
        ret := fetchOf(subscriptions[k].id) + ret;
        k := k + 1;
      }
      assert subscriptions[..k] == subscriptions;
      MergedIsFetchedBag(subscriptions, fetchOf);
      SortByIdSorted(ret);
      ret := SortById(ret);
    }
  }

  // ---- scenarios of the channel tests -----------------------------------------------

  /** Creating and re-creating one channel on a fresh backend. */
  method ChannelCreationScenario() {
    var backend := new MemoryPubSub();
    var channel := backend.CreateChannel("foo", false);
    assert channel == Ok(Channel("foo"));
    assert backend.GetChannel("foo") == Ok(Channel("foo"));
    var again := backend.CreateChannel("foo", false);
    assert again == Err(ChannelAlreadyExists);
    var ignored := backend.CreateChannel("foo", true);
    assert ignored == channel;
  }

  /** Bulk creation with one listed id already a channel fails and creates none of the others. */
  method BulkCreationScenario() {
    var backend := new MemoryPubSub();
    var first := ["paper", "cisors", "rock"];
    var list := backend.CreateChannels(first, false);
    assert list.Ok? && |list.value| == 3;
    WithChannelsContents(map[], first);
    ghost var created := backend.context.channels;
    assert "chair" !in first && "banana" !in first && "sisters" !in first;
    var names := ["chair", "banana", "cisors", "sisters"];
    assert names[2] in created;
    var failed := backend.CreateChannels(names, false);
    assert failed == Err(ChannelAlreadyExists);
    assert backend.context.channels == created;
    assert backend.GetChannel("chair").Err?;
    assert backend.GetChannel("banana").Err?;
    assert backend.GetChannel("sisters").Err?;
  }

  /** The same bulk creation with errors ignored creates every listed channel. */
  method BulkIgnoringErrorsScenario() {
    var backend := new MemoryPubSub();
    var list := backend.CreateChannels(["paper", "cisors", "rock"], false);
    ghost var before := backend.context.channels;
    var names := ["chair", "banana", "cisors", "sisters"];
    var all := backend.CreateChannels(names, true);
    assert all.Ok? && |all.value| == 4;
    WithChannelsContents(before, names);
    assert "chair" in names && "banana" in names && "sisters" in names;
    assert backend.GetChannel("chair").Ok?;
    assert backend.GetChannel("banana").Ok?;
    assert backend.GetChannel("sisters").Ok?;
  }

  /** Deleting a channel takes its subscriptions with it. */
  method DeleteScenario() {
    var backend := new MemoryPubSub();
    var context := backend.context;
    var channel := backend.CreateChannel("delete_me", false);
    assert context.subscribers == map[];
    var sub1 := context.CreateSubscription("delete_me");
    sub1 := context.ActivateSubscription(sub1);
    var sub2 := context.CreateSubscription("delete_me");
    sub2 := context.ActivateSubscription(sub2);
    assert context.subscribers == map[];
    var deleted := backend.DeleteChannel("delete_me");
    assert deleted == Pass;
    assert backend.GetChannel("delete_me") == Err(ChannelDoesNotExist);
    assert backend.GetSubscription(sub1.id) == Err(SubscriptionDoesNotExist);
  }
}
