/** The module-level state shared by every command: `pending_responses`,
    the futures those entries point at, and `last_command_time`, with the
    three routines that change it (`notification_handler`, `send_command`
    and one pass of `keep_alive_task`). The BLE write is an outcome given
    as a parameter; the frames it wrote are kept in a ghost log. */
module Link {
  import opened Protocol
  import opened Correlation

  /** How `send_command` ends: it returns a frame or None, or the write
      raises and the exception leaves the call. */
  datatype SendResult = Returned(response: Option<Bytes>) | Raised

  /** One pass of the keep-alive loop: no write and a short pause, a
      keep-alive written and a long pause, or a write that raised, which
      ends the task (only cancellation is caught there). */
  datatype KeepAliveTick = Quiet(sleep: nat) | Pinged(reply: Option<Bytes>, sleep: nat) | Died

  /** The position of the first frame that starts with `prefix`. */
  function FirstReplyIndex(replies: seq<Bytes>, prefix: Bytes): (r: Option<nat>)
    ensures r.Some? ==> r.value < |replies| && StartsWith(replies[r.value], prefix)
    ensures r.Some? ==> forall j :: 0 <= j < r.value ==> !StartsWith(replies[j], prefix)
    ensures r.None? ==> forall j :: 0 <= j < |replies| ==> !StartsWith(replies[j], prefix)
  {
    FirstIndex(replies, (f: Bytes) => StartsWith(f, prefix))
  }

  /** The frame a response wait returns: the first one that starts with the
      prefix, None when none does before the timeout. */
  function FirstReply(replies: seq<Bytes>, prefix: Bytes): Option<Bytes> {
    match FirstReplyIndex(replies, prefix)
    case Some(k) => Some(replies[k])
    case None => None
  }

  /** How many of the frames notified before the timeout the wait consumes:
      up to and including its own reply, or all of them. */
  function Consumed(replies: seq<Bytes>, prefix: Bytes): (n: nat)
    ensures n <= |replies|
  {
    match FirstReplyIndex(replies, prefix)
    case Some(k) => k + 1
    case None => |replies|
  }

  /** The final slot of the awaited future: the reply, or cancelled by the
      timeout. */
  function WaitOutcome(replies: seq<Bytes>, prefix: Bytes): Slot {
    match FirstReply(replies, prefix)
    case Some(f) => Resolved(f)
    case None => Cancelled
  }

  /** The wait ends on the first frame that starts with the prefix. */
  lemma ReplyAt(replies: seq<Bytes>, prefix: Bytes, k: nat)
    requires k < |replies| && StartsWith(replies[k], prefix)
    requires forall j :: 0 <= j < k ==> !StartsWith(replies[j], prefix)
    ensures FirstReply(replies, prefix) == Some(replies[k])
    ensures Consumed(replies, prefix) == k + 1
    ensures WaitOutcome(replies, prefix) == Resolved(replies[k])
  {
    var found := FirstReplyIndex(replies, prefix);
    assert found == Some(k);
  }

  /** With no frame that starts with the prefix, the wait times out after
      handling all of them. */
  lemma NoReply(replies: seq<Bytes>, prefix: Bytes)
    requires forall j :: 0 <= j < |replies| ==> !StartsWith(replies[j], prefix)
    ensures FirstReply(replies, prefix) == None
    ensures Consumed(replies, prefix) == |replies|
    ensures WaitOutcome(replies, prefix) == Cancelled
  {
    var found := FirstReplyIndex(replies, prefix);
    assert found.None?;
  }

  /** The walk of `notification_handler` over a snapshot of the list. */
  method HandleFrame(snapshot: seq<Entry>, slots0: map<FutureId, Slot>, data: Bytes)
    returns (kept: seq<Entry>, settled: map<FutureId, Slot>)
    requires WellFormed(Registry(snapshot, slots0))
    ensures kept == Unmatched(snapshot, data) && settled == Settle(slots0, snapshot, data)
  {
    kept, settled := snapshot, slots0;
    var i := 0;
    while i < |snapshot|
      invariant 0 <= i <= |snapshot|
      invariant kept == Unmatched(snapshot[..i], data) + snapshot[i..]
      invariant settled == Settle(slots0, snapshot[..i], data)
      invariant settled.Keys == slots0.Keys
    {
      var e := snapshot[i];
      WalkStep(snapshot, i, data);
      SettleStep(slots0, snapshot, i, data);
      if Matches(e.prefix, data) {
        if !settled[e.fut].Done() {
          settled := settled[e.fut := Resolved(data)];
        }
        kept := RemoveFirst(kept, e);
      }
      i := i + 1;
    }
    assert snapshot[..i] == snapshot;
  }

  class CommandLink {
    /** `pending_responses`, oldest first. */
    var pending: seq<Entry>
    /** The completion slot of every future a send has registered. */
    var slots: map<FutureId, Slot>
    /** The identity the next registered future gets. */
    var nextFuture: FutureId
    /** `last_command_time`, in milliseconds. */
    var lastCommandTime: int
    /** Every frame a write has delivered to the device, in order. */
    ghost var written: seq<Bytes>

    ghost predicate Valid()
      reads this
    {
      WellFormed(Registry(pending, slots)) &&
      forall f :: f in slots ==> f < nextFuture
    }

    function State(): Registry
      reads this
    {
      Registry(pending, slots)
    }

    constructor ()
      ensures Valid()
      ensures pending == [] && slots == map[] && lastCommandTime == 0 && written == []
    {
      pending := [];
      slots := map[];
      nextFuture := 0;
      lastCommandTime := 0;
      written := [];
    }

    /** `notification_handler`: walks a snapshot of the list in order; every
        matching entry is removed, and its future gets the frame unless it
        is already done. */
    method OnFrame(data: Bytes)
      requires Valid()
      modifies this
      ensures Valid()
      ensures State() == Notify(old(State()), data)
      ensures nextFuture == old(nextFuture) && lastCommandTime == old(lastCommandTime)
      ensures written == old(written)
    {
      var kept, settled := HandleFrame(pending, slots, data);
      pending, slots := kept, settled;
      NotifyKeeps(old(State()), data);
    }

    /** `send_command`: with a prefix, registers `(future, prefix)` at the
        end of the list before the write; the write may raise; after it
        returns, `last_command_time` is the current time; with a prefix the
        call then waits. `replies` are the frames the device notifies before
        the timeout; they are handled in order until the own future is done.
        On timeout the future is cancelled and its entry removed. */
    method SendCommand(data: Bytes, prefix: Option<Bytes>, writeOk: bool, wroteAt: int, replies: seq<Bytes>)
      returns (r: SendResult)
      requires Valid()
      modifies this
      ensures Valid()
      ensures writeOk ==> written == old(written) + [data] && lastCommandTime == wroteAt
      ensures !writeOk ==> r == Raised && written == old(written) && lastCommandTime == old(lastCommandTime)
      ensures prefix.None? ==> nextFuture == old(nextFuture) && State() == old(State())
      ensures prefix.None? && writeOk ==> r == Returned(None)
      ensures prefix.Some? ==> nextFuture == old(nextFuture) + 1 && old(nextFuture) !in old(slots)
      ensures prefix.Some? && !writeOk ==>
                pending == old(pending) + [Entry(old(nextFuture), prefix)] &&
                slots == old(slots)[old(nextFuture) := Pending]
      ensures prefix.Some? && writeOk ==>
                r == Returned(FirstReply(replies, prefix.value)) &&
                pending == NotifyAll(old(State()), replies[..Consumed(replies, prefix.value)]).pending &&
                slots == NotifyAll(old(State()), replies[..Consumed(replies, prefix.value)]).slots
                           [old(nextFuture) := WaitOutcome(replies, prefix.value)]
      ensures prefix.Some? && writeOk ==> Entry(old(nextFuture), prefix) !in pending
    {
      if prefix.None? {
        if !writeOk {
          return Raised;
        }
        written := written + [data];
        lastCommandTime := wroteAt;
        return Returned(None);
      }
      var p := prefix.value;
      var id := nextFuture;
      var e0 := Entry(id, prefix);
      ghost var start := State();
      nextFuture := nextFuture + 1;
      slots := slots[id := Pending];
      pending := pending + [e0];
      if !writeOk {
        return Raised;
      }
      written := written + [data];
      lastCommandTime := wroteAt;

      var resp := AwaitResponse(start, e0, replies);
      NotifyAllKeeps(start, replies[..Consumed(replies, p)]);
      assert e0 !in start.pending;
      return Returned(resp);
    }

    /** The wait of `send_command` for the newest entry `e0`: the frames in
        `replies` are handled in order until the entry's future is done; if
        none starts with the prefix the wait times out, which cancels the
        future and removes the entry. */
    method AwaitResponse(ghost start: Registry, e0: Entry, replies: seq<Bytes>)
      returns (resp: Option<Bytes>)
      requires Valid() && WellFormed(start) && e0.prefix.Some? && e0.fut !in start.slots
      requires State() == WithAwaited(start, e0)
      modifies this
      ensures Valid()
      ensures nextFuture == old(nextFuture) && lastCommandTime == old(lastCommandTime)
      ensures written == old(written)
      ensures resp == FirstReply(replies, e0.prefix.value)
      ensures State() ==
                var after := NotifyAll(start, replies[..Consumed(replies, e0.prefix.value)]);
                Registry(after.pending, after.slots[e0.fut := WaitOutcome(replies, e0.prefix.value)])
    {
      var p := e0.prefix.value;
      var answer: Option<Bytes>;
      var k: nat;
      ghost var cur: Registry;
      answer, k, cur := DeliverUntilDone(start, e0, replies);
      if answer.Some? {
        ReplyAt(replies, p, k - 1);
        return answer;
      }
      assert replies[..k] == replies;
      NoReply(replies, p);
      assert e0 !in start.pending;
      RemoveFirstAt(cur.pending, e0, []);
      assert cur.pending + [e0] + [] == pending;
      CancelWait(e0);
      return None;
    }

    /** The frames notified during the wait, handled one by one until the
        awaited future `e0.fut` is done or the frames run out; `cur` is the
        rest of the registry, which evolves as if `e0` were not there. */
    method DeliverUntilDone(ghost start: Registry, e0: Entry, replies: seq<Bytes>)
      returns (answer: Option<Bytes>, k: nat, ghost cur: Registry)
      requires Valid() && WellFormed(start) && e0.prefix.Some? && e0.fut !in start.slots
      requires State() == WithAwaited(start, e0)
      modifies this
      ensures Valid()
      ensures nextFuture == old(nextFuture) && lastCommandTime == old(lastCommandTime)
      ensures written == old(written)
      ensures k <= |replies| && cur == NotifyAll(start, replies[..k])
      ensures forall e :: e in cur.pending ==> e in start.pending
      ensures answer.None? ==> k == |replies|
      ensures answer.None? ==> forall j :: 0 <= j < k ==> !StartsWith(replies[j], e0.prefix.value)
      ensures answer.None? ==> State() == WithAwaited(cur, e0)
      ensures answer.Some? ==> 0 < k && answer == Some(replies[k - 1])
      ensures answer.Some? ==> StartsWith(replies[k - 1], e0.prefix.value)
      ensures answer.Some? ==> forall j :: 0 <= j < k - 1 ==> !StartsWith(replies[j], e0.prefix.value)
      ensures answer.Some? ==> State() == Registry(cur.pending, cur.slots[e0.fut := Resolved(replies[k - 1])])
    {
      var id, p := e0.fut, e0.prefix.value;
      k := 0;
      answer := None;
      cur := start;
      while k < |replies| && answer.None?
        invariant 0 <= k <= |replies|
        invariant cur == NotifyAll(start, replies[..k])
        invariant Valid()
        invariant nextFuture == old(nextFuture) && lastCommandTime == old(lastCommandTime)
        invariant written == old(written)
        invariant answer.None? ==> forall j :: 0 <= j < k ==> !StartsWith(replies[j], p)
        invariant answer.None? ==> State() == WithAwaited(cur, e0)
        invariant answer.Some? ==> 0 < k && answer == Some(replies[k - 1]) && StartsWith(replies[k - 1], p)
        invariant answer.Some? ==> forall j :: 0 <= j < k - 1 ==> !StartsWith(replies[j], p)
        invariant answer.Some? ==> State() == Registry(cur.pending, cur.slots[id := Resolved(replies[k - 1])])
      {
        var frame := replies[k];
        DeliverStep(start, e0, replies, k);
        ghost var next := NotifyAll(start, replies[..k + 1]);
        OnFrame(frame);
        cur := next;
        if slots[id].Resolved? {
          answer := Some(slots[id].frame);
        }
        k := k + 1;
      }
      NotifyAllKeeps(start, replies[..k]);
    }

    /** The timeout branch of `send_command`: `asyncio.wait_for` cancels the
        future and the entry is removed from the list. */
    method CancelWait(e0: Entry)
      requires Valid() && e0 in pending
      modifies this
      ensures Valid()
      ensures pending == RemoveFirst(old(pending), e0)
      ensures slots == old(slots)[e0.fut := Cancelled]
      ensures nextFuture == old(nextFuture) && lastCommandTime == old(lastCommandTime)
      ensures written == old(written)
    {
      RemoveFirstMembers(pending, e0);
      slots := slots[e0.fut := Cancelled];
      pending := RemoveFirst(pending, e0);
      forall j | 0 <= j < |pending|
        ensures pending[j].fut in slots
      {
        assert pending[j] in old(pending);
      }
    }

    /** One pass of `keep_alive_task`: when more than the idle threshold has
        passed since the last command, write the keep-alive command
        expecting the acknowledgment prefix and pause for the active
        interval; otherwise write nothing and pause for the idle-check
        interval. */
    method KeepAliveStep(now: int, wroteAt: int, writeOk: bool, replies: seq<Bytes>)
      returns (tick: KeepAliveTick)
      requires Valid()
      modifies this
      ensures Valid()
      ensures tick.Quiet? <==> now - old(lastCommandTime) <= IdleThreshold
      ensures tick.Died? <==> now - old(lastCommandTime) > IdleThreshold && !writeOk
      ensures tick.Quiet? ==> tick.sleep == IdleCheckInterval
      ensures tick.Quiet? ==> State() == old(State()) && nextFuture == old(nextFuture)
      ensures tick.Quiet? ==> lastCommandTime == old(lastCommandTime) && written == old(written)
      ensures tick.Died? ==> written == old(written) && lastCommandTime == old(lastCommandTime)
      ensures tick.Died? ==> pending == old(pending) + [Entry(old(nextFuture), Some(KeepAliveRespPrefix))]
      ensures tick.Died? ==> slots == old(slots)[old(nextFuture) := Pending]
      ensures !tick.Quiet? ==> nextFuture == old(nextFuture) + 1 && old(nextFuture) !in old(slots)
      ensures tick.Pinged? ==> tick.sleep == ActiveInterval
      ensures tick.Pinged? ==> tick.reply == FirstReply(replies, KeepAliveRespPrefix)
      ensures tick.Pinged? ==> written == old(written) + [KeepAliveCmd] && lastCommandTime == wroteAt
      ensures tick.Pinged? ==>
                pending == NotifyAll(old(State()), replies[..Consumed(replies, KeepAliveRespPrefix)]).pending &&
                slots == NotifyAll(old(State()), replies[..Consumed(replies, KeepAliveRespPrefix)]).slots
                         [old(nextFuture) := WaitOutcome(replies, KeepAliveRespPrefix)]
      ensures tick.Pinged? ==> Entry(old(nextFuture), Some(KeepAliveRespPrefix)) !in pending
    {
      if now - lastCommandTime > IdleThreshold {
        var r := SendCommand(KeepAliveCmd, Some(KeepAliveRespPrefix), writeOk, wroteAt, replies);
        if r.Raised? {
          return Died;
        }
        return Pinged(r.response, ActiveInterval);
      }
      return Quiet(IdleCheckInterval);
    }
  }
}
