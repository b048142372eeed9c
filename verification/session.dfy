/** The `pyFurby` session object: the device address, whether a BLE client
    exists and is connected, the keep-alive task, the `connected` flag, and
    the two send operations built on `send_command`. The BLE calls are
    outcomes given as parameters; the order in which the link is opened,
    subscribed, kept alive and closed is kept in a ghost log. */
module Session {
  import opened Protocol
  import opened Correlation
  import opened Link

  /** One call on the BLE client or the keep-alive task, in the order the
      session makes them. */
  datatype LinkStep =
    | OpenLink          // `client.connect`
    | Subscribe         // `client.start_notify`
    | StartKeepAlive    // `asyncio.create_task(keep_alive_task(...))`
    | CancelKeepAlive   // `keep_alive.cancel()`
    | AwaitKeepAlive    // `await keep_alive`
    | Unsubscribe       // `client.stop_notify`
    | CloseLink         // `client.disconnect`

  predicate IsTaskStep(s: LinkStep) {
    s == CancelKeepAlive || s == AwaitKeepAlive
  }

  predicate IsLinkStep(s: LinkStep) {
    s == Unsubscribe || s == CloseLink
  }

  /** The shutdown sequence shared by `pyFurby.disconnect` and the `finally`
      block of the console program: the keep-alive task, when there is one,
      is cancelled and awaited before notifications are stopped and the
      link is closed, which happens only while the link is up. */
  function CleanupSteps(hasTask: bool, linkOpen: bool): (s: seq<LinkStep>)
    ensures CancelKeepAlive in s <==> hasTask
    ensures AwaitKeepAlive in s <==> hasTask
    ensures Unsubscribe in s <==> linkOpen
    ensures CloseLink in s <==> linkOpen
    ensures OpenLink !in s && Subscribe !in s && StartKeepAlive !in s
    ensures forall i, j :: 0 <= i < |s| && 0 <= j < |s| && IsTaskStep(s[i]) && IsLinkStep(s[j]) ==> i < j
    ensures forall i :: 0 <= i < |s| && s[i] == AwaitKeepAlive ==> 0 < i && s[i - 1] == CancelKeepAlive
    ensures forall i :: 0 <= i < |s| && s[i] == CloseLink ==> 0 < i && s[i - 1] == Unsubscribe
  {
    (if hasTask then [CancelKeepAlive, AwaitKeepAlive] else []) +
    (if linkOpen then [Unsubscribe, CloseLink] else [])
  }

  /** `not self.address` is false: an address is set and is not empty. */
  predicate HasAddress(address: Option<string>) {
    address.Some? && address.value != []
  }

  /** How a send operation of the session ends: the frame was written, the
      command was refused before any write, or the write raised. */
  datatype CommandOutcome = Sent | Rejected | WriteRaised

  class Furby {
    /** The module-level command state every send goes through. */
    const link: CommandLink
    /** `self.address` */
    var address: Option<string>
    /** `self.client is not None` */
    var hasClient: bool
    /** `self.client.is_connected` */
    var linkUp: bool
    /** `self.keep_alive` holds a task. */
    var keepAlive: bool
    /** That task is still running: it has been neither cancelled nor
        ended by an exception. */
    var keepAliveRunning: bool
    /** That task ended with the exception of a keep-alive write that
        raised (`keep_alive_task` catches only cancellation), and awaiting
        it raises that exception again. */
    var keepAliveFailed: bool
    /** `self.connected` */
    var connected: bool
    /** Calls made on the client and the keep-alive task, oldest first. */
    ghost var log: seq<LinkStep>

    ghost predicate Valid()
      reads this, link
    {
      link.Valid() &&
      (keepAliveRunning ==> keepAlive) && (keepAliveFailed ==> keepAlive && !keepAliveRunning) &&
      (linkUp ==> hasClient) &&
      (connected ==> address.Some? && hasClient)
    }

    /** `pyFurby(address)`: nothing is connected yet. */
    constructor (address: Option<string>, link: CommandLink)
      requires link.Valid()
      ensures Valid()
      ensures this.address == address && this.link == link
      ensures !hasClient && !linkUp && !keepAlive && !keepAliveRunning && !keepAliveFailed
      ensures !connected && log == []
    {
      this.link := link;
      this.address := address;
      hasClient := false;
      linkUp := false;
      keepAlive := false;
      keepAliveRunning := false;
      keepAliveFailed := false;
      connected := false;
      log := [];
    }

    /** `connect`: without a usable address, scans and takes the first
        device named like a Furby, or fails when there is none; then opens
        a new client. `linkComesUp` is `client.is_connected` after the
        connection attempt. Only when it is up are notifications subscribed,
        the keep-alive task started and `connected` set, in that order. */
    method Connect(devices: seq<Device>, linkComesUp: bool) returns (ok: bool)
      requires Valid()
      modifies this
      ensures Valid()
      ensures ok <==> (HasAddress(old(address)) || PickFurby(devices).Some?) && linkComesUp
      ensures HasAddress(old(address)) ==> address == old(address)
      ensures !HasAddress(old(address)) && PickFurby(devices).Some? ==>
                address == Some(devices[PickFurby(devices).value].address)
      ensures !HasAddress(old(address)) && PickFurby(devices).None? ==>
                address == old(address) && hasClient == old(hasClient) && linkUp == old(linkUp) &&
                log == old(log)
      ensures HasAddress(old(address)) || PickFurby(devices).Some? ==>
                hasClient && linkUp == linkComesUp
      ensures HasAddress(old(address)) || PickFurby(devices).Some? ==>
                log == old(log) + [OpenLink] + (if ok then [Subscribe, StartKeepAlive] else [])
      ensures ok ==> connected && keepAlive && keepAliveRunning && !keepAliveFailed
      ensures !ok ==> connected == old(connected) && keepAlive == old(keepAlive) &&
                      keepAliveRunning == old(keepAliveRunning) && keepAliveFailed == old(keepAliveFailed)
    {
      if !HasAddress(address) {
        var pick := PickFurby(devices);
        if pick.None? {
          return false;
        }
        address := Some(devices[pick.value].address);
      }
      hasClient := true;
      log := log + [OpenLink];
      linkUp := linkComesUp;
      if !linkUp {
        return false;
      }
      log := log + [Subscribe];
      keepAlive, keepAliveRunning, keepAliveFailed := true, true, false;
      log := log + [StartKeepAlive];
      connected := true;
      return true;
    }

    /** One pass of the session's keep-alive task, `keep_alive_task` on
        the session's client. A keep-alive write that raises ends the task;
        the exception stays in the task until it is awaited. */
    method KeepAlivePass(now: int, wroteAt: int, writeOk: bool, replies: seq<Bytes>) returns (tick: KeepAliveTick)
      requires Valid() && keepAliveRunning
      modifies this, link
      ensures Valid()
      ensures tick.Quiet? <==> now - old(link.lastCommandTime) <= IdleThreshold
      ensures tick.Died? <==> now - old(link.lastCommandTime) > IdleThreshold && !writeOk
      ensures tick.Died? ==> keepAliveFailed && !keepAliveRunning
      ensures !tick.Died? ==> keepAliveRunning && keepAliveFailed == old(keepAliveFailed)
      ensures keepAlive && address == old(address) && hasClient == old(hasClient) && linkUp == old(linkUp)
      ensures connected == old(connected) && log == old(log)
      ensures tick.Quiet? ==> tick.sleep == IdleCheckInterval
      ensures tick.Quiet? ==> link.State() == old(link.State()) && link.written == old(link.written)
      ensures tick.Quiet? ==> link.lastCommandTime == old(link.lastCommandTime) && link.nextFuture == old(link.nextFuture)
      ensures tick.Died? ==> link.written == old(link.written) && link.lastCommandTime == old(link.lastCommandTime)
      ensures tick.Died? ==> link.pending == old(link.pending) + [Entry(old(link.nextFuture), Some(KeepAliveRespPrefix))]
      ensures tick.Died? ==> link.slots == old(link.slots)[old(link.nextFuture) := Pending]
      ensures !tick.Quiet? ==> link.nextFuture == old(link.nextFuture) + 1 && old(link.nextFuture) !in old(link.slots)
      ensures tick.Pinged? ==> tick.sleep == ActiveInterval
      ensures tick.Pinged? ==> tick.reply == FirstReply(replies, KeepAliveRespPrefix)
      ensures tick.Pinged? ==> link.written == old(link.written) + [KeepAliveCmd] && link.lastCommandTime == wroteAt
      ensures tick.Pinged? ==>
                link.pending == NotifyAll(old(link.State()), replies[..Consumed(replies, KeepAliveRespPrefix)]).pending &&
                link.slots == NotifyAll(old(link.State()), replies[..Consumed(replies, KeepAliveRespPrefix)]).slots
                              [old(link.nextFuture) := WaitOutcome(replies, KeepAliveRespPrefix)]
      ensures tick.Pinged? ==> Entry(old(link.nextFuture), Some(KeepAliveRespPrefix)) !in link.pending
    {
      tick := link.KeepAliveStep(now, wroteAt, writeOk, replies);
      if tick.Died? {
        keepAliveRunning, keepAliveFailed := false, true;
      }
    }

    /** `disconnect`: cancels and awaits the keep-alive task if there is
        one. Awaiting a task that ended with an exception raises it again
        (cancelling a finished task does nothing), and the method stops
        there. Otherwise it stops notifications and closes the link if it
        is up, and clears `connected`. `ok` is false when it raised. */
    method Disconnect() returns (ok: bool)
      requires Valid()
      modifies this
      ensures Valid()
      ensures ok <==> !old(keepAliveFailed)
      ensures ok ==> log == old(log) + CleanupSteps(old(keepAlive), old(hasClient) && old(linkUp))
      ensures ok ==> !connected && !linkUp
      ensures !ok ==> log == old(log) + [CancelKeepAlive, AwaitKeepAlive]
      ensures !ok ==> connected == old(connected) && linkUp == old(linkUp)
      ensures !keepAliveRunning && keepAliveFailed == old(keepAliveFailed)
      ensures keepAlive == old(keepAlive) && hasClient == old(hasClient) && address == old(address)
    {
      if keepAlive {
        keepAliveRunning := false;
        log := log + [CancelKeepAlive, AwaitKeepAlive];
        if keepAliveFailed {
          return false;
        }
      }
      if hasClient && linkUp {
        log := log + [Unsubscribe, CloseLink];
        linkUp := false;
      }
      connected := false;
      return true;
    }

    /** `send_named_command`: a known name writes its table frame with no
        response prefix; an unknown name writes nothing. Without a client
        the write raises; otherwise `writeOk` says whether it returns, and
        `at` is the time it does. */
    method SendNamedCommand(name: string, writeOk: bool, at: int) returns (out: CommandOutcome)
      requires Valid()
      modifies link
      ensures Valid()
      ensures out.Rejected? <==> name !in CommandNames
      ensures out.WriteRaised? <==> name in CommandNames && !(hasClient && writeOk)
      ensures out.Sent? ==> link.written == old(link.written) + [NamedCommand(name).value]
      ensures out.Sent? ==> link.lastCommandTime == at
      ensures !out.Sent? ==> link.written == old(link.written) && link.lastCommandTime == old(link.lastCommandTime)
      ensures link.State() == old(link.State()) && link.nextFuture == old(link.nextFuture)
    {
      var frame := NamedCommand(name);
      if frame.None? {
        return Rejected;
      }
      var r := link.SendCommand(frame.value, None, hasClient && writeOk, at, []);
      if r.Raised? {
        return WriteRaised;
      }
      return Sent;
    }

    /** `send_custom_command`: four values in 0..255 are written as
        `[0x13, 0x00] + nums` with no response prefix; anything else writes
        nothing. */
    method SendCustomCommand(nums: seq<int>, writeOk: bool, at: int) returns (out: CommandOutcome)
      requires Valid()
      modifies link
      ensures Valid()
      ensures out.Rejected? <==> !ValidCustom(nums)
      ensures out.WriteRaised? <==> ValidCustom(nums) && !(hasClient && writeOk)
      ensures out.Sent? ==> link.written == old(link.written) + [ActionHeader + nums]
      ensures out.Sent? ==> link.lastCommandTime == at
      ensures !out.Sent? ==> link.written == old(link.written) && link.lastCommandTime == old(link.lastCommandTime)
      ensures link.State() == old(link.State()) && link.nextFuture == old(link.nextFuture)
    {
      var frame := CustomFrame(nums);
      if frame.None? {
        return Rejected;
      }
      var r := link.SendCommand(frame.value, None, hasClient && writeOk, at, []);
      if r.Raised? {
        return WriteRaised;
      }
      return Sent;
    }
  }
}
