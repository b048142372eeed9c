# Furby command layer, modelled in Dafny

This project models the command layer of a small Python library for a
Bluetooth Low Energy Furby toy. The layer has four parts:

- **Wire vocabulary.** The four pre-selected six-byte action frames. The custom action
  rule (four values in 0..255 sent as `[0x13, 0x00, W, X, Y, Z]`). The
  keep-alive command `[0x20, 0x06]` and its acknowledgment prefix `[0x22]`.
  The first-device-named-Furby pick after a scan (`protocol.dfy`).
- **Response correlation** (`correlation.dfy`, `link.dfy`):
  - The module-level list `pending_responses` of `(future, prefix)` entries.
  - The completion slots of those futures.
  - `last_command_time`.
  - The three routines that change them: `notification_handler`, `send_command`, and one
  pass of `keep_alive_task`.

  Module `Correlation` gives the effect of a frame as functions on values.
  Class `Link.CommandLink` holds the same state in fields, and its methods are
  proved to agree with those functions.
- **The session object** `pyFurby` (`session.dfy`). It holds the address, the client, the
  keep-alive task, the `connected` flag and the two send operations. The
  console program's `main` (`repl.dfy`) adds command dispatch, the loop and the
  ordered cleanup.
- **The tool server's** `furby_connected` guard (`tools.dfy`). Its four tools
  return fixed strings; `text.dfy` renders the integer list that one of them
  returns, and reads it back.

The same handler, `send_command` and keep-alive code appears twice, in
`pyFurby.py:27-65` and `bleak_furby_test.py:23-63`. It is modelled once, and
the table cites the `pyFurby.py` copy.

### How the environment enters the model

- Time is integer milliseconds. The idle threshold is 3000 and the comparison is
  strict. The pauses are 1000 and 500.
- A BLE write is a parameter `writeOk`. When it is false the write raises.
  `written` is a ghost log of the frames that were delivered.
- The wait in `send_command` is modelled by `replies`: the frames notified
  between the write and the timeout. They are handled in order until the
  awaited future is done. If none of them starts with the prefix, the wait
  times out, the future is cancelled and its entry is removed.
- Scanning is a sequence of devices. A connection attempt is a boolean
  (`client.is_connected` after `connect`).
- A console line is given already stripped and lower-cased, together with its
  `W,X,Y,Z` parse (None when `int()` raised).

### Behaviour of the code that the model keeps on purpose

- **All matches removed.** One frame removes every matching entry, not just the first. A
  matching entry whose future is already done is removed without a second
  result. (`Correlation.UnmatchedMembers`, `Correlation.SettleAt`.)
- **Write raises after registration.** The entry is registered before the write. If the write raises, the entry stays
  in the list, with its future pending, until a frame with its prefix arrives; that frame resolves the future and
  removes the entry like any other. `last_command_time` is unchanged.
  (`Link.CommandLink.SendCommand`, `Correlation.UnmatchedMembers`.)
- **Console loop exits.** In the console loop, a named command whose write raises leaves the loop
  through the outer `except`. A custom command whose write raises is caught
  by the inner `except` and the loop goes on. (`Repl.Run`,
  `Repl.RunEndsAtFirstStop`.)
- **Tool replies.** The tool server answers `"Sent command: …"` for names the session
  rejects. It answers `"Sent custom command: [w, x, y, z]"` for values that
  fail the range check. (`Tools.ToolServer.SendNamedCommand`,
  `Tools.ToolServer.SendCustomCommand`.)
- **Strict idle test.** The keep-alive fires when the idle time is strictly greater than 3.0 seconds; at
  exactly 3.0 the pass stays quiet. (`Link.CommandLink.KeepAliveStep`.)
- **A failed keep-alive task poisons disconnect.** `keep_alive_task` catches only cancellation, so a keep-alive
  write that raises ends the task with that exception. `disconnect` then cancels the finished task, which does
  nothing, and awaiting it raises the exception again: notifications stay on, the link stays open and
  `connected` stays true. In the tool server `furby_connected` stays true too, so every later `disconnect_furby`
  raises again and every `connect_furby` answers "Furby already connected.". The console program's `finally`
  block raises in the same place. (`Session.Furby.KeepAlivePass`, `Session.Furby.Disconnect`,
  `Tools.ToolServer.DisconnectFurby`, `Repl.RunMain`.)

## Model

| member | source | states |
|---|---|---|
| Protocol.NamedCommand | pyFurby.py:11-16 | a frame exists exactly for the four table names, and each is a six-byte action frame starting `0x13, 0x00` |
| Protocol.NamedIsCustom | pyFurby.py:11-16 | every table frame is the custom encoding of its own four arguments |
| Protocol.CustomFrame | pyFurby.py:115-122 | a frame is produced exactly when there are four values in 0..255, and it is an action frame whose arguments are those values in order |
| Protocol.ActionArgs | pyFurby.py:117 | decoding succeeds exactly on action frames, and header plus arguments gives back the frame |
| Protocol.ActionFrameRoundTrip | pyFurby.py:117 | encoding the decoded arguments of any action frame gives back that frame |
| Protocol.FirstIndex | pyFurby.py:81 | the result is the first index whose element satisfies the test, or None when no element does |
| Protocol.ContainsAt | pyFurby.py:81 | the `in` test on strings holds exactly when the substring occurs at some index |
| Protocol.PickFurby | pyFurby.py:81 | the pick is the first device whose name is set, non-empty and contains "Furby"; None when there is no such device |
| Correlation.UnmatchedMembers | pyFurby.py:30-34 | after a frame, an entry is still pending exactly when it was pending and its prefix does not match the frame |
| Correlation.UnmatchedConcat | pyFurby.py:30-34 | the kept entries keep their order: the filter distributes over concatenation |
| Correlation.UnmatchedNoMatch | pyFurby.py:30-34 | a frame matching no entry leaves the list unchanged |
| Correlation.RemoveFirst | pyFurby.py:34 | `list.remove`, called only on an element that is present; it has no contract of its own, and `RemoveFirstAt` and `RemoveFirstMembers` state what it does |
| Correlation.RemoveFirstAt | pyFurby.py:34 | `list.remove` drops the first occurrence and keeps everything else in order |
| Correlation.WalkStep | pyFurby.py:30-34 | one step of the walk over the snapshot removes the entry under the cursor exactly when it matches |
| Correlation.SettleAt | pyFurby.py:31-33 | a future gets the frame exactly when it is pending and has a matching entry; a future already done keeps its result, so no slot is set twice |
| Correlation.SettleFresh | pyFurby.py:38-39 | registering a new future commutes with handling a frame for the older entries |
| Correlation.Notify | pyFurby.py:27-34 | one call of `notification_handler` on the registry: the unmatched entries stay and matching pending futures get the frame; no contract of its own, its properties are `NotifyKeeps`, `UnmatchedMembers` and `SettleAt` |
| Correlation.NotifyAll | pyFurby.py:27-34 | a run of notifications, oldest frame first; no contract of its own, its properties are `NotifyAllKeeps` and `DeliverStep` |
| Correlation.NotifyKeeps | pyFurby.py:27-34 | a frame keeps every entry tied to a slot, drops no slot, adds no entry and never changes a done slot |
| Correlation.NotifyAllKeeps | pyFurby.py:27-34 | the same holds over any run of frames |
| Correlation.AwaitStep | pyFurby.py:38-46 | while a send waits on the newest entry, the rest of the registry evolves as without it; the entry is resolved by a frame with its prefix and stays last otherwise |
| Correlation.DeliverStep | pyFurby.py:44-46 | one frame delivered during a wait advances the rest of the registry by one notification, and resolves the awaited entry or keeps it pending |
| Link.ReplyAt | pyFurby.py:44-46 | the wait returns the first frame with the prefix, having consumed the frames up to it |
| Link.NoReply | pyFurby.py:47-50 | with no frame carrying the prefix, the wait consumes all frames and ends cancelled with None |
| Link.HandleFrame | pyFurby.py:27-34 | the walk over the snapshot leaves exactly the unmatched entries and settles the slots as the settle function says |
| Link.CommandLink.constructor | pyFurby.py:18-25 | empty list, no futures, last command time 0, nothing written |
| Link.CommandLink.OnFrame | pyFurby.py:27-34 | the new registry is one notification of the old one; the timestamp and the write log are untouched |
| Link.CommandLink.SendCommand | pyFurby.py:36-50 | without a prefix the registry is untouched and None is returned after the write; with one, the entry is appended before the write, the answer is the first reply with the prefix or None on timeout, the entry is gone afterwards and the future holds the reply or is cancelled; a raising write leaves the entry and the timestamp; a returning write sets the timestamp |
| Link.CommandLink.AwaitResponse | pyFurby.py:43-50 | the wait's final registry and answer are those of the frames it consumed, with the awaited future resolved or cancelled |
| Link.CommandLink.DeliverUntilDone | pyFurby.py:45 | frames are handled one by one until the awaited future is done or they run out; the rest of the registry follows the notification run |
| Link.CommandLink.CancelWait | pyFurby.py:47-48 | on timeout the future is cancelled and its entry removed |
| Link.CommandLink.KeepAliveStep | pyFurby.py:52-65 | the keep-alive is written with prefix `0x22` and a pause of 1000 exactly when idle time exceeds 3000 (strictly), otherwise nothing is written, nothing changes and the pause is 500; after a ping the keep-alive future holds the reply or is cancelled, its entry is gone and the rest of the registry is the notification run; a raising write ends the task and leaves the entry and its pending future behind; either way one future identity is used up |
| Text.ShowNat | mcp_server_furby_actions.py:61 | the decimal text is non-empty, all digits, with no leading zero |
| Text.ShowNatRoundTrip | mcp_server_furby_actions.py:61 | reading back the decimal digits gives the number |
| Text.ShowIntRoundTrip | mcp_server_furby_actions.py:61 | reading back a rendered integer, sign included, gives the integer |
| Text.JoinIntsRoundTrip | mcp_server_furby_actions.py:61 | integers joined by ", " read back as the same list, in order |
| Text.ShowIntListRoundTrip | mcp_server_furby_actions.py:61 | the bracketed list text of the custom-command reply reads back as exactly the four values sent, in order and with their signs |
| Session.CleanupSteps | pyFurby.py:97-105 | the keep-alive task is cancelled then awaited, before notifications are stopped and the link closed; each pair appears exactly when it applies |
| Session.Furby.constructor | pyFurby.py:70-75 | a new session has no client, no task (running or failed) and is not connected |
| Session.Furby.Connect | pyFurby.py:77-95 | succeeds exactly when an address is set or a Furby is found, and the link comes up; the log shows the client opened, then on success notifications subscribed and the keep-alive started, after which `connected` is set and the new task is running; a failure leaves `connected` and the task as they were |
| Session.Furby.KeepAlivePass | pyFurby.py:52-67 | one pass of the session's keep-alive task: quiet exactly when idle time is at most 3000; a raising keep-alive write ends the task with an exception (only cancellation is caught), and the session's other fields are unchanged; the link's new state is the one the link's keep-alive step gives: the 1000/500 ms pause, the written frame and time, the future counter, and the pending list and slots after a ping (the keep-alive entry gone, its slot resolved or cancelled) or after a raising write (the entry left behind, its slot pending) |
| Session.Furby.Disconnect | pyFurby.py:97-105 | cancels and awaits the task if there is one; if the task had ended with an exception, the await raises it and nothing else happens (`connected` and the link unchanged); otherwise stops notifications and closes the link when it is up, and clears `connected` |
| Session.Furby.SendNamedCommand | pyFurby.py:107-113 | writes the table frame exactly for a known name, with no prefix; an unknown name writes nothing; the registry is untouched |
| Session.Furby.SendCustomCommand | pyFurby.py:115-122 | writes `[0x13, 0x00] + nums` exactly for four values in 0..255; anything else writes nothing |
| Repl.DispatchCases | bleak_furby_test.py:95-115 | each line takes exactly one branch: quit, a table name, a valid custom list, an out-of-range list or an unparsable line; only the two send branches carry a frame, and it is an action frame |
| Repl.Dispatch | bleak_furby_test.py:95-115 | the branch a line takes; no contract of its own, its five branches are stated by `Repl.DispatchCases` |
| Repl.RunEndsAtFirstStop | bleak_furby_test.py:91-118 | the loop reads lines up to the first `quit` or failed named write, or all of them; the exit says which |
| Repl.RunWrites | bleak_furby_test.py:91-115 | the frames written are exactly those of the lines read, in order |
| Repl.RunStep | bleak_furby_test.py:99-115 | a line that does not stop the loop contributes its own write in front of the rest |
| Repl.QuitEndsLoop | bleak_furby_test.py:96-98 | `quit` ends the loop right there and writes nothing |
| Repl.AllWritesAreActions | bleak_furby_test.py:99-111 | the loop only ever writes six-byte action frames |
| Repl.Run | bleak_furby_test.py:91-118 | the loop as a function of its input lines: it reads no more lines than it is given, and all of them when the input runs out; where it stops and what it writes are stated by `RunEndsAtFirstStop`, `RunWrites` and `RunUpTo` |
| Repl.RunStops | bleak_furby_test.py:96-98 | a line that stops the loop writes nothing and ends the run after one line, with the matching exit |
| Repl.RunUpTo | bleak_furby_test.py:91-118 | given where the first stopping line is (or that there is none), the run writes the frames of the lines before it and ends there with the matching exit |
| Repl.AllWritesSnoc | bleak_furby_test.py:99-111 | the frames of one more line come after those of the earlier lines |
| Repl.LastWriteTimeIsLastWrite | pyFurby.py:41-42 | `last_command_time` after a run of lines is the time of the last line whose write returned, or its old value when none did |
| Repl.DoTurn | bleak_furby_test.py:95-115 | one line: it stops the loop exactly for `quit` or a raising named write, writes exactly that line's frame, sets the timestamp exactly when a write returns, and leaves the registry alone |
| Repl.CommandLoop | bleak_furby_test.py:91-115 | the loop's exit, lines read and frames written are those of the run function; `last_command_time` is the time of the last returning write among the lines read; the registry and future counter are untouched |
| Repl.RunMain | bleak_furby_test.py:65-128 | no Furby means no call at all; a link that does not come up means no loop and no cleanup call; otherwise subscribe, start the keep-alive, run the loop, then cancel and await the task; a task that ended with an exception makes `main` raise there, otherwise notifications are stopped and the link closed when it is still up; the frames and timestamp are the loop's |
| Tools.ToolServer.constructor | mcp_server_furby_actions.py:17-18 | the flag starts false, matching the session |
| Tools.ToolServer.ConnectFurby | mcp_server_furby_actions.py:20-32 | while connected it answers "Furby already connected." and touches nothing; otherwise the flag becomes exactly the session's connect result, with the matching reply, and the session's address, client, link state, log and keep-alive task are those its connect leaves: a running, not failed task after success, and the task fields unchanged after a failed connect |
| Tools.ToolServer.DisconnectFurby | mcp_server_furby_actions.py:34-43 | while disconnected it answers "Furby is not connected." and touches nothing; otherwise it raises exactly when the session's keep-alive task had failed, leaving the flag set; else it runs the session's cleanup, closes the link, clears the flag and answers "Disconnected from Furby."; a raise leaves the link as it was; in both cases the task is no longer running, its failure flag is kept, and the client and address are unchanged |
| Tools.ToolServer.SendNamedCommand | mcp_server_furby_actions.py:45-52 | refuses while disconnected; while connected it answers "Sent command: " plus the name for known and unknown names alike, raises when a known name's write raises, and writes and sets `last_command_time` only for known names whose write returns |
| Tools.ToolServer.SendCustomCommand | mcp_server_furby_actions.py:54-61 | refuses while disconnected; while connected it forwards `[w, x, y, z]` in order, writes and sets `last_command_time` only when they pass the range check and the write returns, raises exactly when such a write raises, and otherwise answers "Sent custom command: " plus the rendered list, range check passed or not |

## Left out

- BLE transport (bleak scanning, `BleakClient`, `start_notify`/`stop_notify`, `write_gatt_char`). These are foreign library calls. Writes and connection attempts are outcome parameters, and subscribing and closing are steps in a ghost log.
- Exceptions raised by `client.connect`, `start_notify`, `stop_notify` or `disconnect`. Only a raising write is modelled, together with the failed keep-alive task it can leave behind.
- `Repl.RunMain`: whether the keep-alive task has failed by cleanup time is the parameter `taskFailed`, because the console program's keep-alive passes run concurrently with the loop and their interleaving is not modelled.
- asyncio scheduling and interleavings. Keep-alive passes, frames and console turns are each taken as atomic steps. Nothing models a keep-alive pass running between two console turns, or a frame arriving while a write is in flight.
- Cancellation of a keep-alive task in the middle of its own wait. It can leave the keep-alive entry in the list. The model's keep-alive pass is atomic, so it never does.
- The timeout value (2.0 seconds). Only its effect, the frames delivered before it, is modelled.
- Wall-clock float time and float sleeps, replaced by integer milliseconds.
- `input()`, `str.strip().lower()` and `int()` parsing of `W,X,Y,Z`. A turn carries their results.
- All `print` output.
- The `__main__` block of `pyFurby.py`. It repeats the console loop of `bleak_furby_test.py` through the session's send methods, with the same branches and the same exception handling.
- `Session.Furby.Connect`: does not model the old client and keep-alive task that a second successful connect leaves running. The model keeps one link flag and one task flag.
- `Tools.ToolServer.ConnectFurby`: a raising `connect` would reach the tool's caller. The model's connect cannot raise, for the reason above.
- `load_action_list`, `list_furby_actions`, the other tool server, the scan script and the MCP clients. They are JSON and file I/O, audio playback and network clients.
