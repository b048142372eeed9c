/** The response-correlation registry as values: the list of pending
    `(future, prefix)` entries, the completion slots of those futures, and
    what one notified frame does to both. The class in module Link runs the
    same steps in place and is proved to agree with these functions. */
module Correlation {
  import opened Protocol

  /** Identity of an asyncio future (Python compares futures by identity). */
  type FutureId = nat

  /** The completion slot of a future: still pending, given a frame, or
      cancelled (what `asyncio.wait_for` does to it on timeout). */
  datatype Slot = Pending | Resolved(frame: Bytes) | Cancelled {
    /** `fut.done()` */
    predicate Done() {
      !Pending?
    }
  }

  /** One `(future, prefix)` pair of `pending_responses`. */
  datatype Entry = Entry(fut: FutureId, prefix: Option<Bytes>)

  /** `prefix is None or data.startswith(prefix)` */
  predicate Matches(prefix: Option<Bytes>, data: Bytes) {
    prefix.None? || StartsWith(data, prefix.value)
  }

  /** The entries a frame leaves in the list: those it does not match. */
  function Unmatched(es: seq<Entry>, data: Bytes): seq<Entry> {
    if es == [] then []
    else
      var last := es[|es| - 1];
      Unmatched(es[..|es| - 1], data) + (if Matches(last.prefix, data) then [] else [last])
  }

  /** Handling one more entry at the end of the walk. */
  lemma UnmatchedSnoc(es: seq<Entry>, e: Entry, data: Bytes)
    ensures Unmatched(es + [e], data) == Unmatched(es, data) + (if Matches(e.prefix, data) then [] else [e])
  {
    assert (es + [e])[..|es|] == es;
  }

  /** A frame removes exactly the matching entries. */
  lemma {:induction false} UnmatchedMembers(es: seq<Entry>, data: Bytes)
    ensures forall x :: x in Unmatched(es, data) <==> x in es && !Matches(x.prefix, data)
  {
    if es != [] {
      var init, last := es[..|es| - 1], es[|es| - 1];
      UnmatchedMembers(init, data);
      assert es == init + [last];
    }
  }

  /** The kept entries stay in their original order: filtering distributes
      over concatenation. */
  lemma {:induction false} UnmatchedConcat(a: seq<Entry>, b: seq<Entry>, data: Bytes)
    ensures Unmatched(a + b, data) == Unmatched(a, data) + Unmatched(b, data)
    decreases |b|
  {
    if b == [] {
      assert a + b == a;
    } else {
      var init, last := b[..|b| - 1], b[|b| - 1];
      UnmatchedConcat(a, init, data);
      assert (a + b)[..|a + b| - 1] == a + init;
      assert (a + b)[|a + b| - 1] == last;
    }
  }

  /** A frame that matches no entry leaves the list unchanged. */
  lemma {:induction false} UnmatchedNoMatch(es: seq<Entry>, data: Bytes)
    requires forall i :: 0 <= i < |es| ==> !Matches(es[i].prefix, data)
    ensures Unmatched(es, data) == es
  {
    if es != [] {
      UnmatchedNoMatch(es[..|es| - 1], data);
      assert es == es[..|es| - 1] + [es[|es| - 1]];
    }
  }

  /** `list.remove(x)`: drops the first element equal to `x` (Python raises
      when there is none, which no caller here allows). */
  function RemoveFirst(s: seq<Entry>, x: Entry): seq<Entry>
    requires x in s
  {
    if s[0] == x then s[1..] else [s[0]] + RemoveFirst(s[1..], x)
  }

  /** Removing an element that first occurs after `a` leaves `a` and the
      rest of the list, in order. */
  lemma {:induction false} RemoveFirstAt(a: seq<Entry>, x: Entry, b: seq<Entry>)
    requires x !in a
    ensures x in a + [x] + b
    ensures RemoveFirst(a + [x] + b, x) == a + b
  {
    var s := a + [x] + b;
    if a == [] {
      assert s[0] == x && s[1..] == b;
    } else {
      assert s[0] == a[0] && a[0] != x;
      assert s[1..] == a[1..] + [x] + b;
      RemoveFirstAt(a[1..], x, b);
      assert [a[0]] + (a[1..] + b) == a + b;
    }
  }

  /** Removing an element keeps only elements that were there. */
  lemma {:induction false} RemoveFirstMembers(s: seq<Entry>, x: Entry)
    requires x in s
    ensures forall y :: y in RemoveFirst(s, x) ==> y in s
  {
    if s[0] != x {
      RemoveFirstMembers(s[1..], x);
    }
  }

  /** One step of the handler's walk over a snapshot of the list: with
      the cursor at `i`, the entry under it is removed when it matches and
      kept when it does not. */
  lemma WalkStep(snapshot: seq<Entry>, i: nat, data: Bytes)
    requires i < |snapshot|
    ensures var e, cur := snapshot[i], Unmatched(snapshot[..i], data) + snapshot[i..];
            Matches(e.prefix, data) ==>
              e in cur && RemoveFirst(cur, e) == Unmatched(snapshot[..i + 1], data) + snapshot[i + 1..]
    ensures var e, cur := snapshot[i], Unmatched(snapshot[..i], data) + snapshot[i..];
            !Matches(e.prefix, data) ==>
              cur == Unmatched(snapshot[..i + 1], data) + snapshot[i + 1..]
  {
    var e, done, rest := snapshot[i], snapshot[..i], snapshot[i + 1..];
    assert snapshot[..i + 1] == done + [e];
    assert snapshot[i..] == [e] + rest;
    UnmatchedSnoc(done, e, data);
    if Matches(e.prefix, data) {
      UnmatchedMembers(done, data);
      RemoveFirstAt(Unmatched(done, data), e, rest);
      assert Unmatched(done, data) + [e] + rest == Unmatched(done, data) + ([e] + rest);
    }
  }

  /** The slots after one more step of the walk. */
  lemma SettleStep(slots: map<FutureId, Slot>, snapshot: seq<Entry>, i: nat, data: Bytes)
    requires i < |snapshot|
    ensures Settle(slots, snapshot[..i + 1], data) ==
            var s, e := Settle(slots, snapshot[..i], data), snapshot[i];
            if Matches(e.prefix, data) && e.fut in s && s[e.fut].Pending? then s[e.fut := Resolved(data)] else s
    ensures Settle(slots, snapshot[..i], data).Keys == slots.Keys
  {
    assert snapshot[..i + 1] == snapshot[..i] + [snapshot[i]];
    SettleSnoc(slots, snapshot[..i], snapshot[i], data);
    SettleKeys(slots, snapshot[..i], data);
  }

  /** Some entry for future `f` matches the frame. */
  predicate HasMatch(es: seq<Entry>, f: FutureId, data: Bytes) {
    exists e :: e in es && e.fut == f && Matches(e.prefix, data)
  }

  /** The slots after the handler's walk over `es`: each matching entry
      whose future is not yet done gets the frame. */
  function Settle(slots: map<FutureId, Slot>, es: seq<Entry>, data: Bytes): map<FutureId, Slot> {
    if es == [] then slots
    else
      var s := Settle(slots, es[..|es| - 1], data);
      var e := es[|es| - 1];
      if Matches(e.prefix, data) && e.fut in s && s[e.fut].Pending? then s[e.fut := Resolved(data)] else s
  }

  /** Settling one more entry at the end of the walk. */
  lemma SettleSnoc(slots: map<FutureId, Slot>, es: seq<Entry>, e: Entry, data: Bytes)
    ensures Settle(slots, es + [e], data) ==
            var s := Settle(slots, es, data);
            if Matches(e.prefix, data) && e.fut in s && s[e.fut].Pending? then s[e.fut := Resolved(data)] else s
  {
    assert (es + [e])[..|es|] == es;
  }

  /** Settle adds and drops no future. */
  lemma {:induction false} SettleKeys(slots: map<FutureId, Slot>, es: seq<Entry>, data: Bytes)
    ensures Settle(slots, es, data).Keys == slots.Keys
  {
    if es != [] {
      SettleKeys(slots, es[..|es| - 1], data);
    }
  }

  /** What a frame does to one slot: a pending future with a matching entry
      gets the frame; every other slot, and in particular every slot already
      done, is left as it was. So no slot is ever set twice. */
  lemma {:induction false} SettleAt(slots: map<FutureId, Slot>, es: seq<Entry>, data: Bytes, f: FutureId)
    requires f in slots
    ensures f in Settle(slots, es, data)
    ensures Settle(slots, es, data)[f] ==
            if slots[f].Pending? && HasMatch(es, f, data) then Resolved(data) else slots[f]
  {
    if es != [] {
      var init, last := es[..|es| - 1], es[|es| - 1];
      SettleAt(slots, init, data, f);
      assert es == init + [last];
      if HasMatch(init, f, data) {
        var e :| e in init && e.fut == f && Matches(e.prefix, data);
        assert e in es;
      }
      if last.fut == f && Matches(last.prefix, data) {
        assert last in es;
      }
      if HasMatch(es, f, data) && !HasMatch(init, f, data) {
        var e :| e in es && e.fut == f && Matches(e.prefix, data);
        assert e == last;
      }
    }
  }

  /** Adding a future that no entry names commutes with the walk. */
  lemma {:induction false} SettleFresh(slots: map<FutureId, Slot>, es: seq<Entry>, data: Bytes, f: FutureId, v: Slot)
    requires forall i :: 0 <= i < |es| ==> es[i].fut != f
    ensures Settle(slots[f := v], es, data) == Settle(slots, es, data)[f := v]
  {
    if es != [] {
      SettleFresh(slots, es[..|es| - 1], data, f, v);
    }
  }

  /** The registry's whole state: the pending list and the futures' slots. */
  datatype Registry = Registry(pending: seq<Entry>, slots: map<FutureId, Slot>)

  /** One call of `notification_handler`. */
  function Notify(reg: Registry, data: Bytes): Registry {
    Registry(Unmatched(reg.pending, data), Settle(reg.slots, reg.pending, data))
  }

  /** A run of notifications, oldest first. */
  function NotifyAll(reg: Registry, frames: seq<Bytes>): Registry {
    if frames == [] then reg
    else Notify(NotifyAll(reg, frames[..|frames| - 1]), frames[|frames| - 1])
  }

  /** Every entry is for a future that has a slot. */
  predicate WellFormed(reg: Registry) {
    forall i :: 0 <= i < |reg.pending| ==> reg.pending[i].fut in reg.slots
  }

  /** A notification keeps the registry well formed, drops no slot, adds
      no entry, and never touches a slot that is already done. */
  lemma NotifyKeeps(reg: Registry, data: Bytes)
    requires WellFormed(reg)
    ensures WellFormed(Notify(reg, data))
    ensures Notify(reg, data).slots.Keys == reg.slots.Keys
    ensures forall e :: e in Notify(reg, data).pending ==> e in reg.pending
    ensures forall f :: f in reg.slots && reg.slots[f].Done() ==> Notify(reg, data).slots[f] == reg.slots[f]
  {
    var after := Notify(reg, data);
    UnmatchedMembers(reg.pending, data);
    SettleKeys(reg.slots, reg.pending, data);
    forall i | 0 <= i < |after.pending|
      ensures after.pending[i].fut in after.slots
    {
      assert after.pending[i] in reg.pending;
    }
    forall f | f in reg.slots && reg.slots[f].Done()
      ensures after.slots[f] == reg.slots[f]
    {
      SettleAt(reg.slots, reg.pending, data, f);
    }
  }

  /** The same for a run of notifications. */
  lemma {:induction false} NotifyAllKeeps(reg: Registry, frames: seq<Bytes>)
    requires WellFormed(reg)
    ensures WellFormed(NotifyAll(reg, frames))
    ensures NotifyAll(reg, frames).slots.Keys == reg.slots.Keys
    ensures forall e :: e in NotifyAll(reg, frames).pending ==> e in reg.pending
    ensures forall f :: f in reg.slots && reg.slots[f].Done() ==> NotifyAll(reg, frames).slots[f] == reg.slots[f]
  {
    if frames != [] {
      NotifyAllKeeps(reg, frames[..|frames| - 1]);
      NotifyKeeps(NotifyAll(reg, frames[..|frames| - 1]), frames[|frames| - 1]);
    }
  }

  /** A frame delivered while a send waits on the newest entry `e0`: the
      rest of the registry evolves as without it, and `e0` is removed with
      its future given the frame when the frame starts with its prefix, and
      stays pending at the end of the list otherwise. */
  lemma AwaitStep(cur: Registry, e0: Entry, frame: Bytes)
    requires e0.prefix.Some?
    requires forall j :: 0 <= j < |cur.pending| ==> cur.pending[j].fut != e0.fut
    ensures StartsWith(frame, e0.prefix.value) ==>
              Notify(Registry(cur.pending + [e0], cur.slots[e0.fut := Pending]), frame) ==
              Registry(Notify(cur, frame).pending, Notify(cur, frame).slots[e0.fut := Resolved(frame)])
    ensures !StartsWith(frame, e0.prefix.value) ==>
              Notify(Registry(cur.pending + [e0], cur.slots[e0.fut := Pending]), frame) ==
              Registry(Notify(cur, frame).pending + [e0], Notify(cur, frame).slots[e0.fut := Pending])
  {
    UnmatchedSnoc(cur.pending, e0, frame);
    SettleSnoc(cur.slots[e0.fut := Pending], cur.pending, e0, frame);
    SettleFresh(cur.slots, cur.pending, frame, e0.fut, Pending);
  }

  /** The registry with the awaited newest entry `e0` appended and its
      future pending. */
  function WithAwaited(reg: Registry, e0: Entry): Registry {
    Registry(reg.pending + [e0], reg.slots[e0.fut := Pending])
  }

  /** One frame delivered during a wait: the rest of the registry takes the
      next step of the run, and `e0` is resolved when the frame starts with
      its prefix and stays awaited otherwise. */
  lemma DeliverStep(start: Registry, e0: Entry, frames: seq<Bytes>, k: nat)
    requires WellFormed(start) && e0.prefix.Some? && e0.fut !in start.slots
    requires k < |frames|
    ensures NotifyAll(start, frames[..k + 1]) == Notify(NotifyAll(start, frames[..k]), frames[k])
    ensures var cur, next := NotifyAll(start, frames[..k]), NotifyAll(start, frames[..k + 1]);
            Notify(WithAwaited(cur, e0), frames[k]) ==
              if StartsWith(frames[k], e0.prefix.value) then Registry(next.pending, next.slots[e0.fut := Resolved(frames[k])])
              else WithAwaited(next, e0)
  {
    var cur := NotifyAll(start, frames[..k]);
    assert frames[..k + 1][..k] == frames[..k];
    NotifyAllKeeps(start, frames[..k]);
    forall j | 0 <= j < |cur.pending|
      ensures cur.pending[j].fut != e0.fut
    {
      assert cur.pending[j] in start.pending;
    }
    AwaitStep(cur, e0, frames[k]);
  }
}
