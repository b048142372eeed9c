/** The tool server: one `pyFurby` session and the module-level
    `furby_connected` flag that guards its four tools. Each tool answers a
    fixed string; an exception raised inside the session reaches the caller
    of the tool instead. */
module Tools {
  import opened Protocol
  import opened Link
  import opened Session
  import Text

  /** What a tool call gives back: its reply text, or the exception that
      escaped it. */
  datatype ToolReply = Reply(text: string) | Raises

  const AlreadyConnected: string := "Furby already connected."
  const ConnectFailed: string := "Failed to connect to Furby."
  const NotConnected: string := "Furby is not connected."
  const Disconnected: string := "Disconnected from Furby."

  /** `f"Connected to Furby at {myFurby.address}"` */
  function ConnectedReply(address: string): string {
    "Connected to Furby at " + address
  }

  /** `f"Sent command: {command}"` */
  function SentReply(command: string): string {
    "Sent command: " + command
  }

  /** `f"Sent custom command: {[w, x, y, z]}"` */
  function SentCustomReply(w: int, x: int, y: int, z: int): string {
    "Sent custom command: " + Text.ShowIntList([w, x, y, z])
  }

  class ToolServer {
    /** The global `pyFurby` instance. */
    const furby: Furby
    /** `furby_connected` */
    var furbyConnected: bool

    /** The server's flag and the session's own `connected` flag agree: the
        server is the session's only user, connects only when the flag is
        false and disconnects only when it is true. */
    ghost predicate Valid()
      reads this, furby, furby.link
    {
      furby.Valid() && furbyConnected == furby.connected
    }

    constructor (furby: Furby)
      requires furby.Valid() && !furby.connected
      ensures Valid() && this.furby == furby && !furbyConnected
    {
      this.furby := furby;
      furbyConnected := false;
    }

    /** `connect_furby`: refuses while connected, without touching the
        session; otherwise connects and sets the flag only on success. */
    method ConnectFurby(devices: seq<Device>, linkComesUp: bool) returns (reply: string)
      requires Valid()
      modifies this, furby
      ensures Valid()
      ensures old(furbyConnected) ==> reply == AlreadyConnected && furbyConnected && unchanged(furby)
      ensures !old(furbyConnected) ==>
                (furbyConnected <==> (HasAddress(old(furby.address)) || PickFurby(devices).Some?) && linkComesUp)
      ensures !old(furbyConnected) && furbyConnected ==>
                furby.address.Some? && reply == ConnectedReply(furby.address.value)
      ensures !furbyConnected ==> reply == ConnectFailed
      ensures !old(furbyConnected) && HasAddress(old(furby.address)) ==> furby.address == old(furby.address)
      ensures !old(furbyConnected) && !HasAddress(old(furby.address)) && PickFurby(devices).Some? ==>
                furby.address == Some(devices[PickFurby(devices).value].address)
      ensures !old(furbyConnected) && !HasAddress(old(furby.address)) && PickFurby(devices).None? ==>
                furby.address == old(furby.address) && furby.hasClient == old(furby.hasClient) &&
                furby.log == old(furby.log)
      ensures !old(furbyConnected) && (HasAddress(old(furby.address)) || PickFurby(devices).Some?) ==>
                furby.hasClient && furby.linkUp == linkComesUp &&
                furby.log == old(furby.log) + [OpenLink] + (if furbyConnected then [Subscribe, StartKeepAlive] else [])
      ensures !old(furbyConnected) && furbyConnected ==>
                furby.keepAlive && furby.keepAliveRunning && !furby.keepAliveFailed
      ensures !old(furbyConnected) && !furbyConnected ==>
                furby.keepAlive == old(furby.keepAlive) && furby.keepAliveRunning == old(furby.keepAliveRunning) &&
                furby.keepAliveFailed == old(furby.keepAliveFailed)
    {
      if furbyConnected {
        return AlreadyConnected;
      }
      var ok := furby.Connect(devices, linkComesUp);
      if ok {
        furbyConnected := true;
        return ConnectedReply(furby.address.value);
      }
      return ConnectFailed;
    }

    /** `disconnect_furby`: refuses while disconnected, without touching the
        session; otherwise disconnects and clears the flag. When the
        session's disconnect raises, because its keep-alive task ended with
        a write's exception, the exception reaches the caller and the flag
        stays set, so every later call raises again. */
    method DisconnectFurby() returns (reply: ToolReply)
      requires Valid()
      modifies this, furby
      ensures Valid()
      ensures !old(furbyConnected) ==> reply == Reply(NotConnected) && !furbyConnected && unchanged(furby)
      ensures old(furbyConnected) ==> (reply == Raises <==> old(furby.keepAliveFailed))
      ensures old(furbyConnected) && reply != Raises ==>
                reply == Reply(Disconnected) && !furbyConnected &&
                furby.log == old(furby.log) + CleanupSteps(old(furby.keepAlive), old(furby.hasClient) && old(furby.linkUp))
      ensures reply == Raises ==>
                furbyConnected && furby.log == old(furby.log) + [CancelKeepAlive, AwaitKeepAlive]
      ensures old(furbyConnected) && reply != Raises ==> !furby.linkUp
      ensures reply == Raises ==> furby.linkUp == old(furby.linkUp)
      ensures old(furbyConnected) ==>
                !furby.keepAliveRunning && furby.keepAliveFailed == old(furby.keepAliveFailed) &&
                furby.keepAlive == old(furby.keepAlive) && furby.hasClient == old(furby.hasClient) &&
                furby.address == old(furby.address)
    {
      if !furbyConnected {
        return Reply(NotConnected);
      }
      var ok := furby.Disconnect();
      if !ok {
        return Raises;
      }
      furbyConnected := false;
      return Reply(Disconnected);
    }

    /** `send_named_command`: refuses while disconnected; otherwise hands
        the name to the session and reports it as sent whether or not the
        session knows the name. A write that raises reaches the caller. */
    method SendNamedCommand(command: string, writeOk: bool, at: int) returns (reply: ToolReply)
      requires Valid()
      modifies furby.link
      ensures Valid()
      ensures !furbyConnected ==> reply == Reply(NotConnected) && furby.link.written == old(furby.link.written)
      ensures furbyConnected ==> (reply == Raises <==> command in CommandNames && !writeOk)
      ensures furbyConnected && reply != Raises ==> reply == Reply(SentReply(command))
      ensures furbyConnected && command in CommandNames && writeOk ==>
                furby.link.written == old(furby.link.written) + [NamedCommand(command).value]
      ensures furbyConnected && command in CommandNames && writeOk ==> furby.link.lastCommandTime == at
      ensures !(furbyConnected && command in CommandNames && writeOk) ==>
                furby.link.written == old(furby.link.written) &&
                furby.link.lastCommandTime == old(furby.link.lastCommandTime)
      ensures furby.link.State() == old(furby.link.State()) && furby.link.nextFuture == old(furby.link.nextFuture)
    {
      if !furbyConnected {
        return Reply(NotConnected);
      }
      var out := furby.SendNamedCommand(command, writeOk, at);
      if out.WriteRaised? {
        return Raises;
      }
      return Reply(SentReply(command));
    }

    /** `send_custom_command`: refuses while disconnected; otherwise hands
        `[w, x, y, z]`, in that order, to the session and reports it as
        sent whether or not the values pass the range check. */
    method SendCustomCommand(w: int, x: int, y: int, z: int, writeOk: bool, at: int) returns (reply: ToolReply)
      requires Valid()
      modifies furby.link
      ensures Valid()
      ensures !furbyConnected ==> reply == Reply(NotConnected) && furby.link.written == old(furby.link.written)
      ensures furbyConnected ==> (reply == Raises <==> ValidCustom([w, x, y, z]) && !writeOk)
      ensures furbyConnected && reply != Raises ==> reply == Reply(SentCustomReply(w, x, y, z))
      ensures furbyConnected && ValidCustom([w, x, y, z]) && writeOk ==>
                furby.link.written == old(furby.link.written) + [[0x13, 0x00, w, x, y, z]]
      ensures furbyConnected && ValidCustom([w, x, y, z]) && writeOk ==> furby.link.lastCommandTime == at
      ensures !(furbyConnected && ValidCustom([w, x, y, z]) && writeOk) ==>
                furby.link.written == old(furby.link.written) &&
                furby.link.lastCommandTime == old(furby.link.lastCommandTime)
      ensures furby.link.State() == old(furby.link.State()) && furby.link.nextFuture == old(furby.link.nextFuture)
    {
      if !furbyConnected {
        return Reply(NotConnected);
      }
      var out := furby.SendCustomCommand([w, x, y, z], writeOk, at);
      assert ActionHeader + [w, x, y, z] == [0x13, 0x00, w, x, y, z];
      if out.WriteRaised? {
        return Raises;
      }
      return Reply(SentCustomReply(w, x, y, z));
    }
  }
}
