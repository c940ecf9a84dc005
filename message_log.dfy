/**
 * The ordered message log of the in-memory backend, as values: each message
 * carries the set of subscription ids it still owes delivery to. The
 * functions here say what one scan of the log (getMessageListFor) hands out
 * and what it leaves in the log; the lemmas state the fan-out and
 * garbage-collection rules that follow.
 */
module MessageLog {

  /** A logged message: its identifier and the subscriptions not yet served. */
  datatype Message = Message(id: nat, pending: set<nat>)

  /** The message still owes delivery to one of ids. */
  predicate HasSubscribersIn(m: Message, ids: set<nat>) {
    m.pending * ids != {}
  }

  /** The message once every subscription in ids has been served. */
  function RemoveSubscriptionIds(m: Message, ids: set<nat>): Message {
    m.(pending := m.pending - ids)
  }

  /** No subscription is owed this message any more. */
  predicate IsConsumed(m: Message) {
    m.pending == {}
  }

  function Ids(log: seq<Message>): set<nat> {
    set m | m in log :: m.id
  }

  /** The log is keyed by message id: no id occurs twice. */
  predicate DistinctIds(log: seq<Message>) {
    forall i, j :: 0 <= i < j < |log| ==> log[i].id != log[j].id
  }

  function Reverse(s: seq<Message>): (r: seq<Message>)
    ensures |r| == |s|
    ensures forall k :: 0 <= k < |s| ==> r[k] == s[|s| - 1 - k]
  {
    if s == [] then [] else Reverse(s[1..]) + [s[0]]
  }

  /** The order in which getMessageListFor walks the log. */
  function ScanOrder(log: seq<Message>, reverse: bool): seq<Message> {
    if reverse then Reverse(log) else log
  }

  // ---- what a scan hands out -------------------------------------------------

  /** What scanning one message hands out to ids. */
  function Delivered(m: Message, ids: set<nat>): seq<Message> {
    if HasSubscribersIn(m, ids) then [RemoveSubscriptionIds(m, ids)] else []
  }

  /**
   * What a scan of src hands out to ids, in scan order: every message that
   * owes delivery to one of ids, with ids removed from its pending set.
   */
  function Deliver(src: seq<Message>, ids: set<nat>): (r: seq<Message>)
    ensures |r| <= |src|
  {
    if src == [] then []
    else Deliver(src[..|src| - 1], ids) + Delivered(src[|src| - 1], ids)
  }

  /**
   * Every handed-out message comes from the scan, owed to one of ids, with
   * ids removed from it; every scanned message owed to one of ids is handed
   * out.
   */
  lemma {:induction false} DeliverContents(src: seq<Message>, ids: set<nat>)
    ensures forall x :: x in Deliver(src, ids) ==>
      exists m :: m in src && HasSubscribersIn(m, ids) && x == RemoveSubscriptionIds(m, ids)
    ensures forall m :: m in src && HasSubscribersIn(m, ids) ==> RemoveSubscriptionIds(m, ids) in Deliver(src, ids)
  {
    if src != [] {
      var init, last := src[..|src| - 1], src[|src| - 1];
      DeliverContents(init, ids);
      assert src == init + [last];
      forall x | x in Deliver(src, ids)
        ensures exists m :: m in src && HasSubscribersIn(m, ids) && x == RemoveSubscriptionIds(m, ids)
      {
        if x in Deliver(init, ids) {
          var m :| m in init && HasSubscribersIn(m, ids) && x == RemoveSubscriptionIds(m, ids);
          assert m in src;
        } else {
          assert x in Delivered(last, ids);
          assert last in src;
        }
      }
      forall m | m in src && HasSubscribersIn(m, ids) ensures RemoveSubscriptionIds(m, ids) in Deliver(src, ids) {
        if m != last {
          assert m in init;
        }
      }
    }
  }

  /** A delivered message owes nothing more to the subscriptions served. */
  lemma DeliveredAreServed(src: seq<Message>, ids: set<nat>)
    ensures forall x :: x in Deliver(src, ids) ==> x.pending * ids == {}
  {
    DeliverContents(src, ids);
  }

  lemma {:induction false} DeliverAppend(a: seq<Message>, b: seq<Message>, ids: set<nat>)
    ensures Deliver(a + b, ids) == Deliver(a, ids) + Deliver(b, ids)
  {
    if b == [] {
      assert a + b == a;
    } else {
      var init := b[..|b| - 1];
      assert (a + b)[..|a + b| - 1] == a + init;
      DeliverAppend(a, init, ids);
    }
  }

  lemma ReverseAppend(a: seq<Message>, b: seq<Message>)
    ensures Reverse(a + b) == Reverse(b) + Reverse(a)
  {
  }

  /** Scanning the log backwards hands out the same messages in the opposite order. */
  lemma {:induction false} DeliverReverse(src: seq<Message>, ids: set<nat>)
    ensures Deliver(Reverse(src), ids) == Reverse(Deliver(src, ids))
  {
    if src != [] {
      var init, last := src[..|src| - 1], src[|src| - 1];
      assert src == init + [last];
      ReverseAppend(init, [last]);
      assert Reverse(src) == [last] + Reverse(init);
      DeliverAppend([last], Reverse(init), ids);
      DeliverReverse(init, ids);
      assert Deliver([last], ids) == Delivered(last, ids);
      ReverseAppend(Deliver(init, ids), Delivered(last, ids));
      assert Reverse(Delivered(last, ids)) == Delivered(last, ids);
    }
  }

  /** A scan in which nothing owes delivery to ids hands out nothing. */
  lemma {:induction false} DeliverNothing(src: seq<Message>, ids: set<nat>)
    requires forall m :: m in src ==> !HasSubscribersIn(m, ids)
    ensures Deliver(src, ids) == []
  {
    if src != [] {
      assert src[|src| - 1] in src;
      DeliverNothing(src[..|src| - 1], ids);
    }
  }

  // ---- what a scan leaves in the log -------------------------------------------

  /**
   * What the log keeps of a scanned message: a message that owes nothing to
   * ids is kept as it is; one that does loses ids and is dropped once its
   * pending set is empty.
   */
  function Settle(m: Message, ids: set<nat>): seq<Message> {
    if !HasSubscribersIn(m, ids) then [m]
    else if IsConsumed(RemoveSubscriptionIds(m, ids)) then []
    else [RemoveSubscriptionIds(m, ids)]
  }

  /** The log once the messages whose ids are in done have been scanned for ids. */
  function ConsumeSome(log: seq<Message>, ids: set<nat>, done: set<nat>): seq<Message> {
    if log == [] then []
    else (if log[0].id in done then Settle(log[0], ids) else [log[0]]) + ConsumeSome(log[1..], ids, done)
  }

  /** The log once every message has been scanned for ids. */
  function Consume(log: seq<Message>, ids: set<nat>): seq<Message> {
    ConsumeSome(log, ids, Ids(log))
  }

  /** x is a message of log, left as it is or with ids removed. */
  ghost predicate ComesFrom(x: Message, log: seq<Message>, ids: set<nat>) {
    exists m :: m in log && x.id == m.id &&
      (x == m || (HasSubscribersIn(m, ids) && x == RemoveSubscriptionIds(m, ids)))
  }

  lemma {:induction false} ConsumeSomeMembers(log: seq<Message>, ids: set<nat>, done: set<nat>)
    ensures forall x :: x in ConsumeSome(log, ids, done) ==> ComesFrom(x, log, ids)
    ensures |ConsumeSome(log, ids, done)| <= |log|
    ensures DistinctIds(log) ==> DistinctIds(ConsumeSome(log, ids, done))
  {
    if log != [] {
      ConsumeSomeMembers(log[1..], ids, done);
      var rest := ConsumeSome(log[1..], ids, done);
      var head := if log[0].id in done then Settle(log[0], ids) else [log[0]];
      assert ConsumeSome(log, ids, done) == head + rest;
      forall x | x in head + rest ensures ComesFrom(x, log, ids) {
        if x in head {
          assert log[0] in log;
        } else {
          var m :| m in log[1..] && x.id == m.id &&
            (x == m || (HasSubscribersIn(m, ids) && x == RemoveSubscriptionIds(m, ids)));
          assert m in log;
        }
      }
      if DistinctIds(log) {
        assert DistinctIds(log[1..]);
        forall x | x in rest ensures x.id != log[0].id {
          var m :| m in log[1..] && x.id == m.id &&
            (x == m || (HasSubscribersIn(m, ids) && x == RemoveSubscriptionIds(m, ids)));
          var j :| 0 <= j < |log[1..]| && log[1..][j] == m;
          assert log[j + 1] == m;
        }
        var r := head + rest;
        forall i, j | 0 <= i < j < |r| ensures r[i].id != r[j].id {
          if i >= |head| {
            assert r[i] == rest[i - |head|] && r[j] == rest[j - |head|];
          } else {
            assert r[j] in rest;
          }
        }
      }
    }
  }

  /** Only the scanned messages that owe delivery to ids matter to ConsumeSome. */
  lemma {:induction false} ConsumeSomeAgree(log: seq<Message>, ids: set<nat>, d1: set<nat>, d2: set<nat>)
    requires forall m :: m in log && HasSubscribersIn(m, ids) ==> (m.id in d1 <==> m.id in d2)
    ensures ConsumeSome(log, ids, d1) == ConsumeSome(log, ids, d2)
  {
    if log != [] {
      assert log[0] in log;
      ConsumeSomeAgree(log[1..], ids, d1, d2);
    }
  }

  lemma ConsumeSomeNothing(log: seq<Message>, ids: set<nat>)
    ensures ConsumeSome(log, ids, {}) == log
  {
    ConsumeSomeAgree(log, ids, {}, {});
    if log != [] {
      ConsumeSomeNothing(log[1..], ids);
    }
  }

  // ---- writes to the log by key ------------------------------------------------

  /** `$log[$id] = $m` on an id already present: the entry changes in place. */
  function ReplaceById(log: seq<Message>, id: nat, m: Message): (r: seq<Message>)
    ensures |r| == |log|
    ensures forall k :: 0 <= k < |log| ==> r[k] == if log[k].id == id then m else log[k]
  {
    if log == [] then []
    else [if log[0].id == id then m else log[0]] + ReplaceById(log[1..], id, m)
  }

  /** `unset($log[$id])`. */
  function RemoveById(log: seq<Message>, id: nat): (r: seq<Message>)
    ensures |r| <= |log|
  {
    if log == [] then []
    else (if log[0].id == id then [] else [log[0]]) + RemoveById(log[1..], id)
  }

  /** The unset keeps exactly the entries under other ids. */
  lemma {:induction false} RemoveByIdMembers(log: seq<Message>, id: nat)
    ensures forall x :: x in RemoveById(log, id) <==> x in log && x.id != id
  {
    if log != [] {
      RemoveByIdMembers(log[1..], id);
      assert log == [log[0]] + log[1..];
    }
  }

  /**
   * `$log[$m->getId()] = $m` on an ordered PHP array: an existing entry is
   * replaced where it stands, a new one goes at the end.
   */
  function StoreById(log: seq<Message>, m: Message): (r: seq<Message>)
    requires DistinctIds(log)
    ensures DistinctIds(r)
    ensures Ids(r) == Ids(log) + {m.id}
    ensures m in r
    ensures forall x :: x in r && x.id != m.id <==> x in log && x.id != m.id
    ensures |r| == if m.id in Ids(log) then |log| else |log| + 1
  {
    if m.id in Ids(log) then
      var r := ReplaceById(log, m.id, m);
      var x :| x in log && x.id == m.id;
      var k :| 0 <= k < |log| && log[k] == x;
      assert r[k] == m;
      assert forall y :: y in r ==> y == m || y in log;
      assert forall y :: y in log ==> (y.id == m.id && m in r) || y in r;
      r
    else
      var r := log + [m];
      assert forall y :: y in r <==> y in log || y == m;
      r
  }

  lemma {:induction false} ReplaceAbsent(log: seq<Message>, id: nat, m: Message)
    requires id !in Ids(log)
    ensures ReplaceById(log, id, m) == log
  {
    if log != [] {
      assert log[0] in log;
      ReplaceAbsent(log[1..], id, m);
    }
  }

  lemma {:induction false} RemoveAbsent(log: seq<Message>, id: nat)
    requires id !in Ids(log)
    ensures RemoveById(log, id) == log
  {
    if log != [] {
      assert log[0] in log;
      RemoveAbsent(log[1..], id);
    }
  }

  /**
   * Scanning one more message m of the log is the key-wise write
   * getMessageListFor performs: nothing when m owes nothing to ids, an unset
   * when m becomes consumed, an in-place update otherwise.
   */
  lemma {:induction false} ConsumeStep(log: seq<Message>, ids: set<nat>, done: set<nat>, m: Message)
    requires DistinctIds(log) && m in log && m.id !in done
    ensures !HasSubscribersIn(m, ids) ==>
      ConsumeSome(log, ids, done + {m.id}) == ConsumeSome(log, ids, done)
    ensures HasSubscribersIn(m, ids) && IsConsumed(RemoveSubscriptionIds(m, ids)) ==>
      ConsumeSome(log, ids, done + {m.id}) == RemoveById(ConsumeSome(log, ids, done), m.id)
    ensures HasSubscribersIn(m, ids) && !IsConsumed(RemoveSubscriptionIds(m, ids)) ==>
      ConsumeSome(log, ids, done + {m.id}) ==
        ReplaceById(ConsumeSome(log, ids, done), m.id, RemoveSubscriptionIds(m, ids))
  {
    var done' := done + {m.id};
    var tail := log[1..];
    assert DistinctIds(tail);
    if log[0].id == m.id {
      assert log[0] == m by {
        var k :| 0 <= k < |log| && log[k] == m;
        assert k == 0;
      }
      assert m.id !in Ids(tail) by {
        forall y | y in tail ensures y.id != m.id {
          var k :| 0 <= k < |tail| && tail[k] == y;
          assert log[k + 1] == y;
        }
      }
      ConsumeSomeAgree(tail, ids, done', done);
      var rest := ConsumeSome(tail, ids, done);
      assert Ids(rest) <= Ids(tail) by {
        ConsumeSomeMembers(tail, ids, done);
      }
      RemoveAbsent(rest, m.id);
      ReplaceAbsent(rest, m.id, RemoveSubscriptionIds(m, ids));
      assert ConsumeSome(log, ids, done) == [m] + rest;
      assert ConsumeSome(log, ids, done') == Settle(m, ids) + rest;
    } else {
      assert m in tail;
      ConsumeStep(tail, ids, done, m);
      var head := if log[0].id in done then Settle(log[0], ids) else [log[0]];
      assert ConsumeSome(log, ids, done) == head + ConsumeSome(tail, ids, done);
      assert ConsumeSome(log, ids, done') == head + ConsumeSome(tail, ids, done');
      assert forall x :: x in head ==> x.id == log[0].id;
      RemoveAbsent(head, m.id);
      ReplaceAbsent(head, m.id, RemoveSubscriptionIds(m, ids));
      RemoveAppend(head, ConsumeSome(tail, ids, done), m.id);
      ReplaceAppend(head, ConsumeSome(tail, ids, done), m.id, RemoveSubscriptionIds(m, ids));
    }
  }

  lemma {:induction false} RemoveAppend(a: seq<Message>, b: seq<Message>, id: nat)
    ensures RemoveById(a + b, id) == RemoveById(a, id) + RemoveById(b, id)
  {
    if a != [] {
      var head := if a[0].id == id then [] else [a[0]];
      assert (a + b)[0] == a[0] && (a + b)[1..] == a[1..] + b;
      RemoveAppend(a[1..], b, id);
      calc {
        RemoveById(a + b, id);
        head + RemoveById(a[1..] + b, id);
        head + (RemoveById(a[1..], id) + RemoveById(b, id));
        (head + RemoveById(a[1..], id)) + RemoveById(b, id);
        RemoveById(a, id) + RemoveById(b, id);
      }
    } else {
      assert a + b == b;
    }
  }

  lemma ReplaceAppend(a: seq<Message>, b: seq<Message>, id: nat, m: Message)
    ensures ReplaceById(a + b, id, m) == ReplaceById(a, id, m) + ReplaceById(b, id, m)
  {
  }

  /**
   * The write getMessageListFor makes to the log when it scans m: none when m
   * owes nothing to ids; otherwise m's pending set loses ids (the stored
   * object is the one being updated) and the entry is unset once consumed.
   */
  function ScanWrite(log: seq<Message>, m: Message, ids: set<nat>): seq<Message> {
    if !HasSubscribersIn(m, ids) then log
    else if IsConsumed(RemoveSubscriptionIds(m, ids)) then RemoveById(log, m.id)
    else ReplaceById(log, m.id, RemoveSubscriptionIds(m, ids))
  }

  /**
   * One more step of a scan over source, an ordering of the messages of
   * log0: the hand-out grows by what source[k] yields, and the log by the
   * write for source[k].
   */
  lemma ScanAdvance(log0: seq<Message>, source: seq<Message>, k: nat, ids: set<nat>)
    requires DistinctIds(log0) && DistinctIds(source)
    requires forall m :: m in source ==> m in log0
    requires k < |source|
    ensures Deliver(source[..k + 1], ids) == Deliver(source[..k], ids) + Delivered(source[k], ids)
    ensures ConsumeSome(log0, ids, Ids(source[..k + 1])) ==
      ScanWrite(ConsumeSome(log0, ids, Ids(source[..k])), source[k], ids)
  {
    var m := source[k];
    assert source[..k + 1][..k] == source[..k];
    assert source[..k + 1] == source[..k] + [m];
    assert Ids(source[..k + 1]) == Ids(source[..k]) + {m.id};
    assert m.id !in Ids(source[..k]) by {
      forall y | y in source[..k] ensures y.id != m.id {
        var j :| 0 <= j < k && source[..k][j] == y;
        assert source[j] == y;
      }
    }
    assert m in source;
    ConsumeStep(log0, ids, Ids(source[..k]), m);
  }

  // ---- the fan-out and garbage-collection rules ------------------------------------

  /**
   * After a full scan for ids: a message that owed nothing to ids is still
   * there, unchanged; one that did is still there with ids removed, unless it
   * has become consumed, in which case no message with its id remains.
   */
  lemma ConsumeRules(log: seq<Message>, ids: set<nat>)
    requires DistinctIds(log)
    ensures DistinctIds(Consume(log, ids))
    ensures forall m :: m in log && !HasSubscribersIn(m, ids) ==> m in Consume(log, ids)
    ensures forall m :: m in log && HasSubscribersIn(m, ids) && !IsConsumed(RemoveSubscriptionIds(m, ids)) ==>
      RemoveSubscriptionIds(m, ids) in Consume(log, ids)
    ensures forall m :: m in log ==>
      (m.id !in Ids(Consume(log, ids)) <==> HasSubscribersIn(m, ids) && IsConsumed(RemoveSubscriptionIds(m, ids)))
  {
    var c := Consume(log, ids);
    ConsumeSomeMembers(log, ids, Ids(log));
    ConsumeKeepsSettled(log, ids, Ids(log));
    ConsumeDropsSettled(log, ids, Ids(log));
    forall m | m in log
      ensures m.id !in Ids(c) <==> HasSubscribersIn(m, ids) && IsConsumed(RemoveSubscriptionIds(m, ids))
    {
      if Settle(m, ids) != [] {
        assert Settle(m, ids)[0] in c;
      }
    }
  }

  /** Everything the settling of a scanned message keeps is in the log afterwards. */
  lemma {:induction false} ConsumeKeepsSettled(log: seq<Message>, ids: set<nat>, done: set<nat>)
    requires forall m :: m in log ==> m.id in done
    ensures forall m, x :: m in log && x in Settle(m, ids) ==> x in ConsumeSome(log, ids, done)
  {
    if log != [] {
      assert log[0] in log;
      ConsumeKeepsSettled(log[1..], ids, done);
      assert ConsumeSome(log, ids, done) == Settle(log[0], ids) + ConsumeSome(log[1..], ids, done);
    }
  }

  /** With ids distinct, a scanned message its settling drops leaves no trace of its id. */
  lemma {:induction false} ConsumeDropsSettled(log: seq<Message>, ids: set<nat>, done: set<nat>)
    requires DistinctIds(log)
    requires forall m :: m in log ==> m.id in done
    ensures forall m, x :: m in log && Settle(m, ids) == [] && x in ConsumeSome(log, ids, done) ==> x.id != m.id
  {
    if log != [] {
      var tail := log[1..];
      assert DistinctIds(tail);
      assert log[0] in log;
      ConsumeDropsSettled(tail, ids, done);
      ConsumeSomeMembers(tail, ids, done);
      var rest := ConsumeSome(tail, ids, done);
      assert ConsumeSome(log, ids, done) == Settle(log[0], ids) + rest;
      forall y | y in tail ensures y.id != log[0].id {
        var k :| 0 <= k < |tail| && tail[k] == y;
        assert log[k + 1] == y;
      }
      forall x | x in rest ensures x.id != log[0].id {
        assert ComesFrom(x, tail, ids);
      }
    }
  }

  /**
   * A full scan leaves nothing that owes delivery to the subscriptions just
   * served: fetching again for the same ids hands out nothing.
   */
  lemma NoRedelivery(log: seq<Message>, ids: set<nat>)
    ensures Deliver(Consume(log, ids), ids) == []
  {
    ConsumeServesAll(log, ids, Ids(log));
    DeliverNothing(Consume(log, ids), ids);
  }

  lemma {:induction false} ConsumeServesAll(log: seq<Message>, ids: set<nat>, done: set<nat>)
    requires forall m :: m in log ==> m.id in done
    ensures forall x :: x in ConsumeSome(log, ids, done) ==> !HasSubscribersIn(x, ids)
  {
    if log != [] {
      assert log[0] in log;
      ConsumeServesAll(log[1..], ids, done);
    }
  }

  /**
   * A message stays in the log only while some subscription is owed it: if
   * every logged message has a non-empty pending set, so has every message
   * a scan leaves.
   */
  lemma RetainedOnlyWhilePending(log: seq<Message>, ids: set<nat>, done: set<nat>)
    requires forall m :: m in log ==> !IsConsumed(m)
    ensures forall x :: x in ConsumeSome(log, ids, done) ==> !IsConsumed(x)
  {
    if log != [] {
      assert log[0] in log;
      RetainedOnlyWhilePending(log[1..], ids, done);
    }
  }

  lemma ReverseSameMessages(s: seq<Message>)
    ensures forall m :: m in Reverse(s) <==> m in s
    ensures Ids(Reverse(s)) == Ids(s)
    ensures DistinctIds(s) ==> DistinctIds(Reverse(s))
  {
    var r := Reverse(s);
    forall m | m in s ensures m in r {
      var k :| 0 <= k < |s| && s[k] == m;
      assert r[|s| - 1 - k] == m;
    }
    forall m | m in r ensures m in s {
      var k :| 0 <= k < |r| && r[k] == m;
      assert s[|s| - 1 - k] == m;
    }
    if DistinctIds(s) {
      forall i, j | 0 <= i < j < |r| ensures r[i].id != r[j].id {
        assert r[i] == s[|s| - 1 - i] && r[j] == s[|s| - 1 - j];
      }
    }
  }

  // ---- sorting by id (uasort on getId()) ------------------------------------------

  predicate SortedById(s: seq<Message>) {
    forall i, j :: 0 <= i < j < |s| ==> s[i].id <= s[j].id
  }

  function InsertById(m: Message, s: seq<Message>): seq<Message> {
    if s == [] then [m]
    else if m.id <= s[0].id then [m] + s
    else [s[0]] + InsertById(m, s[1..])
  }

  lemma {:induction false} InsertByIdPermutes(m: Message, s: seq<Message>)
    ensures multiset(InsertById(m, s)) == multiset(s) + multiset{m}
  {
    if s != [] && m.id > s[0].id {
      InsertByIdPermutes(m, s[1..]);
      assert s == [s[0]] + s[1..];
    }
  }

  /** A message no later than any of a sorted sequence can be put in front of it. */
  lemma PrependSorted(x: Message, rest: seq<Message>)
    requires SortedById(rest)
    requires forall y :: y in rest ==> x.id <= y.id
    ensures SortedById([x] + rest)
  {
    var r := [x] + rest;
    forall i, j | 0 <= i < j < |r| ensures r[i].id <= r[j].id {
      assert r[j] == rest[j - 1];
      if i > 0 {
        assert r[i] == rest[i - 1];
      } else {
        assert rest[j - 1] in rest;
      }
    }
  }

  lemma {:induction false} InsertByIdSorted(m: Message, s: seq<Message>)
    requires SortedById(s)
    ensures SortedById(InsertById(m, s))
  {
    if s != [] && m.id > s[0].id {
      var tail := s[1..];
      InsertByIdSorted(m, tail);
      InsertByIdPermutes(m, tail);
      var rest := InsertById(m, tail);
      forall x | x in rest ensures s[0].id <= x.id {
        assert x in multiset(rest);
        if x != m {
          assert x in multiset(tail);
          var k :| 0 <= k < |tail| && tail[k] == x;
          assert s[k + 1] == x;
        }
      }
      PrependSorted(s[0], rest);
    }
  }

  /** The messages of s ordered by ascending id (the effect of uasort on getId()). */
  function SortById(s: seq<Message>): seq<Message> {
    if s == [] then [] else InsertById(s[0], SortById(s[1..]))
  }

  /** Sorting yields an ascending-id permutation of its input. */
  lemma {:induction false} SortByIdSorted(s: seq<Message>)
    ensures SortedById(SortById(s))
    ensures multiset(SortById(s)) == multiset(s)
  {
    if s != [] {
      SortByIdSorted(s[1..]);
      InsertByIdSorted(s[0], SortById(s[1..]));
      InsertByIdPermutes(s[0], SortById(s[1..]));
      assert s == [s[0]] + s[1..];
    }
  }
}
