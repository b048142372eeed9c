/** The console program's `main`: the scan and connect, the command loop
    that reads one line per turn and dispatches it, and the cleanup in the
    `finally` block. Reading the line and `int()` parsing are inputs: each
    turn gives the line already stripped and lower-cased, and the list the
    comma-separated parse produced, or None when `int()` raised. */
module Repl {
  import opened Protocol
  import opened Correlation
  import opened Link
  import opened Session

  /** One turn of the loop: the command line, its parse as `W,X,Y,Z`, and
      the outcome and time of the write it may cause. */
  datatype Turn = Turn(cmd: string, parsed: Option<seq<int>>, writeOk: bool, at: int)

  /** What the loop does with a line. */
  datatype Action =
    | Quit
    | SendNamed(frame: Bytes)
    | SendCustom(frame: Bytes)
    | OutOfRange
    | BadFormat

  /** The branch the loop takes for a line. */
  function Dispatch(cmd: string, parsed: Option<seq<int>>): Action {
    if cmd == "quit" then Quit
    else if NamedCommand(cmd).Some? then SendNamed(NamedCommand(cmd).value)
    else if parsed.None? then BadFormat
    else if CustomFrame(parsed.value).Some? then SendCustom(CustomFrame(parsed.value).value)
    else OutOfRange
  }

  /** The five branches: `quit`, a table name (sending its frame), four
      values in 0..255 (sending `[0x13, 0x00] + nums`), a parsed list that
      fails the range check, or a line that does not parse. Only the two
      send branches write, and what they write is an action frame. */
  lemma DispatchCases(cmd: string, parsed: Option<seq<int>>)
    ensures var a := Dispatch(cmd, parsed);
            (a.Quit? <==> cmd == "quit") &&
            (a.SendNamed? <==> cmd in CommandNames) &&
            (a.SendNamed? ==> NamedCommand(cmd) == Some(a.frame)) &&
            (a.SendCustom? <==> cmd != "quit" && cmd !in CommandNames && parsed.Some? && ValidCustom(parsed.value)) &&
            (a.SendCustom? ==> a.frame == ActionHeader + parsed.value) &&
            (a.OutOfRange? <==> cmd != "quit" && cmd !in CommandNames && parsed.Some? && !ValidCustom(parsed.value)) &&
            (a.BadFormat? <==> cmd != "quit" && cmd !in CommandNames && parsed.None?) &&
            (a.SendNamed? || a.SendCustom? ==> IsActionFrame(a.frame))
  {
  }

  /** A turn after which the loop reads no further line: `quit`, or a named
      command whose write raised (the exception leaves the loop). */
  predicate Stops(t: Turn) {
    t.cmd == "quit" || (t.cmd in CommandNames && !t.writeOk)
  }

  /** The frame a turn writes, if any: a named or custom command whose
      write returns. A custom command whose write raises is caught by the
      inner handler and writes nothing. */
  function Writes(t: Turn): (w: seq<Bytes>)
    ensures |w| <= 1
  {
    match Dispatch(t.cmd, t.parsed)
    case SendNamed(f) => if t.writeOk then [f] else []
    case SendCustom(f) => if t.writeOk then [f] else []
    case _ => []
  }

  /** The frames a run of turns writes, in order. */
  function AllWrites(ts: seq<Turn>): seq<Bytes> {
    if ts == [] then [] else Writes(ts[0]) + AllWrites(ts[1..])
  }

  /** The console loop only ever writes six-byte action frames. */
  lemma {:induction false} AllWritesAreActions(ts: seq<Turn>)
    ensures forall i :: 0 <= i < |AllWrites(ts)| ==> IsActionFrame(AllWrites(ts)[i])
  {
    if ts != [] {
      AllWritesAreActions(ts[1..]);
      var w, rest := Writes(ts[0]), AllWrites(ts[1..]);
      assert AllWrites(ts) == w + rest;
      forall i | 0 <= i < |w + rest|
        ensures IsActionFrame((w + rest)[i])
      {
        if i >= |w| {
          assert (w + rest)[i] == rest[i - |w|];
        }
      }
    }
  }

  /** Why the loop ended: `quit` was typed, a named command's write raised
      (that exception is caught only outside the loop), or the input ran
      out (`input()` raises at end of file and is caught in the same
      place). */
  datatype Exit = QuitTyped | WriteFailed | EndOfInput

  /** What a run of the loop amounts to: the frames written, how it ended,
      and how many lines it read. */
  datatype Trace = Trace(wrote: seq<Bytes>, exit: Exit, used: nat)

  /** The loop over a sequence of turns: lines are read until one stops
      the loop or the input runs out. */
  function Run(turns: seq<Turn>): (t: Trace)
    ensures t.used <= |turns|
    ensures t.exit == EndOfInput ==> t.used == |turns|
  {
    if turns == [] then Trace([], EndOfInput, 0)
    else
      var t, rest := turns[0], Run(turns[1..]);
      match Dispatch(t.cmd, t.parsed)
      case Quit => Trace([], QuitTyped, 1)
      case SendNamed(f) =>
        if t.writeOk then Trace([f] + rest.wrote, rest.exit, rest.used + 1)
        else Trace([], WriteFailed, 1)
      case SendCustom(f) =>
        if t.writeOk then Trace([f] + rest.wrote, rest.exit, rest.used + 1)
        else Trace(rest.wrote, rest.exit, rest.used + 1)
      case _ => Trace(rest.wrote, rest.exit, rest.used + 1)
  }

  /** The loop reads lines up to and including the first one that stops
      it, and reads them all when none does; the exit says which stop it
      was. */
  lemma {:induction false} RunEndsAtFirstStop(turns: seq<Turn>)
    ensures var t := Run(turns);
            (t.exit == EndOfInput <==> forall i :: 0 <= i < |turns| ==> !Stops(turns[i])) &&
            (t.exit != EndOfInput ==> 0 < t.used && Stops(turns[t.used - 1])) &&
            (forall i :: 0 <= i < t.used - 1 ==> !Stops(turns[i])) &&
            (t.exit == QuitTyped ==> turns[t.used - 1].cmd == "quit") &&
            (t.exit == WriteFailed ==> turns[t.used - 1].cmd in CommandNames && !turns[t.used - 1].writeOk)
  {
    if turns != [] {
      RunEndsAtFirstStop(turns[1..]);
      assert forall i :: 1 <= i < |turns| ==> turns[i] == turns[1..][i - 1];
    }
  }

  /** The frames the loop writes are exactly those of the lines it read,
      in order; the line that stops it writes nothing. */
  lemma {:induction false} RunWrites(turns: seq<Turn>)
    ensures Run(turns).wrote == AllWrites(turns[..Run(turns).used])
  {
    if turns != [] {
      var t, rest := turns[0], Run(turns[1..]);
      RunWrites(turns[1..]);
      var a := Dispatch(t.cmd, t.parsed);
      if a.Quit? || (a.SendNamed? && !t.writeOk) {
        assert turns[..1][1..] == [];
      } else {
        assert turns[..rest.used + 1][1..] == turns[1..][..rest.used];
      }
    }
  }

  /** `quit` as the first stopping line: the loop ends there, having
      written the frames of the lines before it and nothing for `quit`. */
  lemma {:induction false} QuitEndsLoop(turns: seq<Turn>, i: nat)
    requires i < |turns| && turns[i].cmd == "quit"
    requires forall j :: 0 <= j < i ==> !Stops(turns[j])
    ensures Run(turns).exit == QuitTyped && Run(turns).used == i + 1
    ensures Run(turns).wrote == AllWrites(turns[..i])
  {
    if i > 0 {
      assert !Stops(turns[0]);
      QuitEndsLoop(turns[1..], i - 1);
      RunStep(turns);
      assert turns[..i][1..] == turns[1..][..i - 1];
    }
  }

  /** A line that does not stop the loop adds its own write, if any, in
      front of the rest of the run. */
  lemma RunStep(turns: seq<Turn>)
    requires turns != [] && !Stops(turns[0])
    ensures Run(turns) ==
            Trace(Writes(turns[0]) + Run(turns[1..]).wrote, Run(turns[1..]).exit, Run(turns[1..]).used + 1)
  {
  }

  /** `last_command_time` after the first `n` turns, starting from `t0`:
      the time of the last of them whose write returned, or `t0` when none
      did. */
  function LastWriteTime(turns: seq<Turn>, n: nat, t0: int): int
    requires n <= |turns|
  {
    if n == 0 then t0
    else if Writes(turns[n - 1]) != [] then turns[n - 1].at
    else LastWriteTime(turns, n - 1, t0)
  }

  /** The timestamp after the first `n` turns is that of the last of them
      whose write returned; when none wrote, it is the starting value. */
  lemma {:induction false} LastWriteTimeIsLastWrite(turns: seq<Turn>, n: nat, t0: int)
    requires n <= |turns|
    ensures (forall i :: 0 <= i < n ==> Writes(turns[i]) == []) ==> LastWriteTime(turns, n, t0) == t0
    ensures forall i :: 0 <= i < n && Writes(turns[i]) != [] && (forall j :: i < j < n ==> Writes(turns[j]) == []) ==>
              LastWriteTime(turns, n, t0) == turns[i].at
  {
    if n > 0 {
      LastWriteTimeIsLastWrite(turns, n - 1, t0);
    }
  }

  /** A line that stops the loop ends the run there, writing nothing. */
  lemma RunStops(turns: seq<Turn>)
    requires turns != [] && Stops(turns[0])
    ensures Writes(turns[0]) == []
    ensures Run(turns) == Trace([], if turns[0].cmd == "quit" then QuitTyped else WriteFailed, 1)
  {
    DispatchCases(turns[0].cmd, turns[0].parsed);
  }

  /** One turn of the loop: the branch the line takes and the write it
      makes with no response prefix. `stop` says whether the loop reads no
      further line. */
  method DoTurn(link: CommandLink, t: Turn) returns (stop: bool)
    requires link.Valid()
    modifies link
    ensures link.Valid()
    ensures stop <==> Stops(t)
    ensures stop ==> Writes(t) == []
    ensures link.written == old(link.written) + Writes(t)
    ensures link.lastCommandTime == if Writes(t) != [] then t.at else old(link.lastCommandTime)
    ensures link.State() == old(link.State()) && link.nextFuture == old(link.nextFuture)
  {
    DispatchCases(t.cmd, t.parsed);
    match Dispatch(t.cmd, t.parsed) {
      case Quit =>
        return true;
      case SendNamed(f) =>
        var r := link.SendCommand(f, None, t.writeOk, t.at, []);
        return r.Raised?;
      case SendCustom(f) =>
        var r := link.SendCommand(f, None, t.writeOk, t.at, []);
        return false;
      case OutOfRange =>
        return false;
      case BadFormat =>
        return false;
    }
  }

  /** The frames of one more turn come after those of the earlier ones. */
  lemma {:induction false} AllWritesSnoc(ts: seq<Turn>, t: Turn)
    ensures AllWrites(ts + [t]) == AllWrites(ts) + Writes(t)
  {
    if ts != [] {
      AllWritesSnoc(ts[1..], t);
      assert (ts + [t])[1..] == ts[1..] + [t];
    }
  }

  /** The same, for the first `i + 1` lines of the input. */
  lemma AllWritesPrefix(turns: seq<Turn>, i: nat)
    requires i < |turns|
    ensures AllWrites(turns[..i + 1]) == AllWrites(turns[..i]) + Writes(turns[i])
  {
    assert turns[..i + 1] == turns[..i] + [turns[i]];
    AllWritesSnoc(turns[..i], turns[i]);
  }

  /** The run in terms of where it stops: when no line before `i` stops
      the loop and line `i` does (or the input ends at `i`), the loop
      writes the frames of the first `i` lines and ends there. */
  lemma {:induction false} RunUpTo(turns: seq<Turn>, i: nat)
    requires i <= |turns| && forall j :: 0 <= j < i ==> !Stops(turns[j])
    requires i < |turns| ==> Stops(turns[i])
    ensures i == |turns| ==> Run(turns) == Trace(AllWrites(turns), EndOfInput, i)
    ensures i < |turns| ==>
              Run(turns) == Trace(AllWrites(turns[..i]), if turns[i].cmd == "quit" then QuitTyped else WriteFailed, i + 1)
  {
    if i == 0 {
      if turns != [] {
        RunStops(turns);
      }
    } else {
      RunUpTo(turns[1..], i - 1);
      RunStep(turns);
      assert turns[..i][1..] == turns[1..][..i - 1];
    }
  }

  /** The command loop of `main` over the given turns, writing through the
      shared command state with no response prefix. */
  method CommandLoop(link: CommandLink, turns: seq<Turn>) returns (exit: Exit, used: nat)
    requires link.Valid()
    modifies link
    ensures link.Valid()
    ensures exit == Run(turns).exit && used == Run(turns).used
    ensures link.written == old(link.written) + Run(turns).wrote
    ensures used <= |turns| && link.lastCommandTime == LastWriteTime(turns, used, old(link.lastCommandTime))
    ensures link.State() == old(link.State()) && link.nextFuture == old(link.nextFuture)
  {
    var i := 0;
    while i < |turns|
      invariant 0 <= i <= |turns|
      invariant forall j :: 0 <= j < i ==> !Stops(turns[j])
      invariant link.Valid() && link.State() == old(link.State()) && link.nextFuture == old(link.nextFuture)
      invariant link.written == old(link.written) + AllWrites(turns[..i])
      invariant link.lastCommandTime == LastWriteTime(turns, i, old(link.lastCommandTime))
    {
      var t := turns[i];
      AllWritesPrefix(turns, i);
      var stop := DoTurn(link, t);
      if stop {
        RunUpTo(turns, i);
        return if t.cmd == "quit" then QuitTyped else WriteFailed, i + 1;
      }
      i := i + 1;
    }
    assert turns[..i] == turns;
    RunUpTo(turns, i);
    return EndOfInput, i;
  }

  /** `main`: the scan picks the first Furby or the program returns before
      its `try`; the client is opened; when it is up, notifications are
      subscribed, the keep-alive task is started and the loop runs. The
      `finally` block then cleans up: the task only if it was created, the
      link only if `stillUp` (`client.is_connected` at that point).
      `taskFailed` says whether the keep-alive task has ended with a
      write's exception by then: awaiting it raises that exception out of
      `main` (`raised`) before the link is touched. */
  method RunMain(link: CommandLink, devices: seq<Device>, linkComesUp: bool, turns: seq<Turn>,
                 taskFailed: bool, stillUp: bool)
    returns (exit: Option<Exit>, raised: bool, ghost steps: seq<LinkStep>)
    requires link.Valid()
    modifies link
    ensures link.Valid()
    ensures PickFurby(devices).None? ==> steps == [] && exit == None
    ensures PickFurby(devices).Some? && !linkComesUp ==> steps == [OpenLink] && exit == None
    ensures raised <==> PickFurby(devices).Some? && linkComesUp && taskFailed
    ensures PickFurby(devices).Some? && linkComesUp ==>
              steps == [OpenLink, Subscribe, StartKeepAlive] +
                       (if taskFailed then [CancelKeepAlive, AwaitKeepAlive] else CleanupSteps(true, stillUp))
    ensures PickFurby(devices).Some? && linkComesUp ==>
              exit == Some(Run(turns).exit) && link.written == old(link.written) + Run(turns).wrote &&
              link.lastCommandTime == LastWriteTime(turns, Run(turns).used, old(link.lastCommandTime))
    ensures exit.None? ==> link.written == old(link.written) && link.lastCommandTime == old(link.lastCommandTime)
    ensures link.State() == old(link.State()) && link.nextFuture == old(link.nextFuture)
  {
    var pick := PickFurby(devices);
    if pick.None? {
      return None, false, [];
    }
    steps := [OpenLink];
    if !linkComesUp {
      steps := steps + CleanupSteps(false, false);
      return None, false, steps;
    }
    steps := steps + [Subscribe, StartKeepAlive];
    var e, used := CommandLoop(link, turns);
    if taskFailed {
      steps := steps + [CancelKeepAlive, AwaitKeepAlive];
      return Some(e), true, steps;
    }
    steps := steps + CleanupSteps(true, stillUp);
    return Some(e), false, steps;
  }
}
