/**
 * DefaultMessage, the message object most backends hand out: plain fields
 * set by the constructor, and setUnread, which updates the read timestamp
 * and forwards the new status to the message's subscription.
 */
module Messages {
  import opened PhpValues
  import opened Wrappers

  /** The read status a message holds: the unread flag and the read timestamp. */
  datatype ReadState = ReadState(unread: Value, readTimestamp: Value)

  /** A call `setUnread($messageId, $toggle)` made on the message's subscription. */
  datatype UnreadCall = UnreadCall(subscriptionId: Value, messageId: Value, toggle: Value)

  /**
   * setUnread as written: when toggle is not identical to the unread flag,
   * the read timestamp is cleared (truthy toggle) or set to now (falsy
   * toggle) and the call is forwarded; the unread flag itself is never
   * assigned. The result is the new state and whether the call was forwarded.
   */
  function SetUnreadAsWritten(st: ReadState, toggle: Value, now: int): (r: (ReadState, bool))
    ensures r.0.unread == st.unread
    ensures r.1 <==> st.unread != toggle
    ensures !r.1 ==> r.0 == st
    ensures r.1 && Truthy(toggle) ==> r.0.readTimestamp == Null
    ensures r.1 && !Truthy(toggle) ==> r.0.readTimestamp == Int(now)
  {
    if st.unread != toggle then
      (st.(readTimestamp := if Truthy(toggle) then Null else Int(now)), true)
    else (st, false)
  }

  /** setUnread as its name promises: the same, and the flag takes the new value. */
  function SetUnreadIntended(st: ReadState, toggle: Value, now: int): (ReadState, bool) {
    if st.unread != toggle then
      (ReadState(toggle, if Truthy(toggle) then Null else Int(now)), true)
    else (st, false)
  }

  /**
   * As written, marking an unread message read twice forwards the call twice
   * and leaves the message unread.
   */
  lemma SetUnreadRepeats()
    ensures var st := ReadState(Bool(true), Null);
      var (once, f1) := SetUnreadAsWritten(st, Bool(false), 10);
      var (twice, f2) := SetUnreadAsWritten(once, Bool(false), 20);
      f1 && f2 && twice.unread == Bool(true) && twice.readTimestamp == Int(20)
  {
  }

  /**
   * The intended setUnread records the new flag, so repeating a call changes
   * nothing and forwards nothing.
   */
  lemma SetUnreadIntendedIdempotent(st: ReadState, toggle: Value, now: int, later: int)
    ensures var (once, _) := SetUnreadIntended(st, toggle, now);
      once.unread == toggle &&
      SetUnreadIntended(once, toggle, later) == (once, false)
  {
  }

  class DefaultMessage {
    const id: Value
    const chanId: Value
    const subscriptionId: Value
    const contents: Value
    /** `type` in the source. */
    const msgType: Value
    const level: Value
    var sendTime: Value
    var unread: Value
    var readTimestamp: Value
    /** The setUnread calls forwarded to the subscription so far. */
    var forwarded: seq<UnreadCall>

    /** The constructor; type, isUnread, readTimestamp and level default to null, true, null and 0. */
    constructor(chanId: Value, subscriptionId: Value, contents: Value, id: Value, sendTime: Value,
                msgType: Value := Null, isUnread: Value := Bool(true), readTimestamp: Value := Null,
                level: Value := Int(0))
      ensures this.id == id && this.chanId == chanId && this.subscriptionId == subscriptionId
      ensures this.contents == contents && this.sendTime == sendTime && this.msgType == msgType
      ensures this.unread == isUnread && this.readTimestamp == readTimestamp && this.level == level
      ensures forwarded == []
    {
      this.id := id;
      this.chanId := chanId;
      this.subscriptionId := subscriptionId;
      this.contents := contents;
      this.sendTime := sendTime;
      this.msgType := msgType;
      this.unread := isUnread;
      this.readTimestamp := readTimestamp;
      this.level := level;
      forwarded := [];
    }

    /** The read status as a value. */
    function State(): ReadState
      reads this
    {
      ReadState(unread, readTimestamp)
    }

    /**
     * setUnread($toggle), with time() given as now and whether the backend
     * knows the message's subscription given as subscriptionExists. The new
     * state is what SetUnreadAsWritten computes, in every case. A call to
     * forward is recorded when the subscription exists; when it does not,
     * the lookup fails with SubscriptionDoesNotExist after the read timestamp
     * has already changed.
     */
    method SetUnread(subscriptionExists: bool, now: int, toggle: Value := Bool(false)) returns (r: Outcome)
      modifies this`readTimestamp, this`forwarded
      ensures State() == SetUnreadAsWritten(old(State()), toggle, now).0
      ensures var sent := SetUnreadAsWritten(old(State()), toggle, now).1;
        r == (if sent && !subscriptionExists then Fail(SubscriptionDoesNotExist) else Pass) &&
        forwarded == (if sent && subscriptionExists then old(forwarded) + [UnreadCall(subscriptionId, id, toggle)]
                      else old(forwarded))
      ensures unread == old(unread)
    {
      r := Pass;
      if unread != toggle {
        if Truthy(toggle) {
          readTimestamp := Null;
        } else {
          readTimestamp := Int(now);
        }
        if !subscriptionExists {
          return Fail(SubscriptionDoesNotExist);
        }
        forwarded := forwarded + [UnreadCall(subscriptionId, id, toggle)];
      }
    }

    /** Replaces the send time and nothing else. */
    method SetSendTimestamp(sendTime: Value)
      modifies this`sendTime
      ensures this.sendTime == sendTime
    {
      this.sendTime := sendTime;
    }
  }
}
