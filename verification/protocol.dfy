/** Wire-level vocabulary of the Furby command layer: byte frames, the
    named-command table, the custom action rule, the keep-alive constants,
    byte-prefix matching and the device pick made after a scan. */
module Protocol {

  datatype Option<T> = None | Some(value: T)

  /** An unsigned byte, as Python's `bytes` holds them. */
  type Byte = b: int | 0 <= b < 256

  /** One frame written to, or notified by, the device. */
  type Bytes = seq<Byte>

  /** The two leading bytes of every action command. */
  const ActionHeader: Bytes := [0x13, 0x00]

  /** Keep-alive command and the one-byte prefix of its acknowledgment. */
  const KeepAliveCmd: Bytes := [0x20, 0x06]
  const KeepAliveRespPrefix: Bytes := [0x22]

  /** Keep-alive timing in milliseconds: idle threshold, pause after a
      keep-alive, pause after a quiet check. */
  const IdleThreshold: int := 3000
  const ActiveInterval: nat := 1000
  const IdleCheckInterval: nat := 500

  /** `data.startswith(prefix)` on byte strings. */
  predicate StartsWith<T(==)>(data: seq<T>, prefix: seq<T>) {
    |prefix| <= |data| && data[..|prefix|] == prefix
  }

  /** A six-byte action frame `[0x13, 0x00, W, X, Y, Z]`. */
  predicate IsActionFrame(f: Bytes) {
    |f| == 6 && StartsWith(f, ActionHeader)
  }

  /** The names of the pre-selected commands. */
  const CommandNames: set<string> := {"fart", "snore", "toot", "laugh"}

  /** The `FURBY_COMMANDS` dictionary: the frame for a known name, None for
      any other name. */
  function NamedCommand(name: string): (r: Option<Bytes>)
    ensures r.Some? <==> name in CommandNames
    ensures r.Some? ==> IsActionFrame(r.value)
  {
    if name == "fart" then Some([0x13, 0x00, 0x01, 0x02, 0x01, 0x04])
    else if name == "snore" then Some([0x13, 0x00, 0x4a, 0x00, 0x00, 0x01])
    else if name == "toot" then Some([0x13, 0x00, 0x07, 0x00, 0x01, 0x02])
    else if name == "laugh" then Some([0x13, 0x00, 0x02, 0x00, 0x00, 0x00])
    else None
  }

  /** The custom-command check: exactly four values, each in 0..255. */
  predicate ValidCustom(nums: seq<int>) {
    |nums| == 4 && forall i :: 0 <= i < |nums| ==> 0 <= nums[i] <= 255
  }

  /** `bytes([0x13, 0x00] + nums)` when the check passes, None (no write)
      otherwise. */
  function CustomFrame(nums: seq<int>): (r: Option<Bytes>)
    ensures r.Some? <==> ValidCustom(nums)
    ensures r.Some? ==> IsActionFrame(r.value) && ActionArgs(r.value) == Some(nums)
  {
    if ValidCustom(nums) then
      var f: Bytes := [0x13, 0x00, nums[0], nums[1], nums[2], nums[3]];
      assert f[2..] == nums;
      Some(f)
    else None
  }

  /** Inverse of CustomFrame: the four arguments of an action frame. */
  function ActionArgs(f: Bytes): (r: Option<seq<int>>)
    ensures r.Some? <==> IsActionFrame(f)
    ensures r.Some? ==> |r.value| == 4 && ActionHeader + r.value == f
  {
    if IsActionFrame(f) then
      assert ActionHeader + f[2..] == f[..2] + f[2..];
      Some(f[2..])
    else None
  }

  /** Every action frame is the encoding of its own arguments. */
  lemma ActionFrameRoundTrip(f: Bytes)
    requires IsActionFrame(f)
    ensures ActionArgs(f).Some? && CustomFrame(ActionArgs(f).value) == Some(f)
  {
    var args := ActionArgs(f).value;
    assert ValidCustom(args);
    assert CustomFrame(args).value == [0x13, 0x00, args[0], args[1], args[2], args[3]];
    assert f == [f[0], f[1], f[2], f[3], f[4], f[5]];
  }

  /** A named command sends the same bytes as the custom command with its
      four arguments. */
  lemma NamedIsCustom(name: string)
    requires name in CommandNames
    ensures NamedCommand(name).Some?
    ensures ActionArgs(NamedCommand(name).value).Some?
    ensures CustomFrame(ActionArgs(NamedCommand(name).value).value) == NamedCommand(name)
  {
    ActionFrameRoundTrip(NamedCommand(name).value);
  }

  /** The first index of `s` whose element satisfies `p`. */
  function FirstIndex<T>(s: seq<T>, p: T -> bool): (r: Option<nat>)
    ensures r.Some? ==> r.value < |s| && p(s[r.value])
    ensures r.Some? ==> forall j :: 0 <= j < r.value ==> !p(s[j])
    ensures r.None? ==> forall j :: 0 <= j < |s| ==> !p(s[j])
  {
    if s == [] then None
    else if p(s[0]) then Some(0)
    else
      match FirstIndex(s[1..], p)
      case None => None
      case Some(k) => Some(k + 1)
  }

  /** `sub in s` for Python strings. */
  predicate Contains(s: string, sub: string)
    decreases |s|
  {
    StartsWith(s, sub) || (s != [] && Contains(s[1..], sub))
  }

  /** `sub` occurs in `s` starting at index `i`. */
  predicate OccursAt(s: string, sub: string, i: nat) {
    i + |sub| <= |s| && s[i..i + |sub|] == sub
  }

  /** Contains is the usual substring relation. */
  lemma {:induction false} ContainsAt(s: string, sub: string)
    ensures Contains(s, sub) <==> exists i: nat :: OccursAt(s, sub, i)
    decreases |s|
  {
    if StartsWith(s, sub) {
      assert OccursAt(s, sub, 0);
    } else if s != [] {
      ContainsAt(s[1..], sub);
      if exists i: nat :: OccursAt(s[1..], sub, i) {
        var i: nat :| OccursAt(s[1..], sub, i);
        assert s[i + 1..i + 1 + |sub|] == s[1..][i..i + |sub|];
        assert OccursAt(s, sub, i + 1);
      }
      if exists i: nat :: OccursAt(s, sub, i) {
        var i: nat :| OccursAt(s, sub, i);
        assert i > 0;
        assert s[1..][i - 1..i - 1 + |sub|] == s[i..i + |sub|];
        assert OccursAt(s[1..], sub, i - 1);
      }
    }
  }

  /** A device found by the scan: an optional advertised name and an address. */
  datatype Device = Device(name: Option<string>, address: string)

  /** `d.name and "Furby" in d.name`. */
  predicate IsFurby(d: Device) {
    d.name.Some? && d.name.value != [] && Contains(d.name.value, "Furby")
  }

  /** The device the scan picks: the first whose name is non-empty and
      contains "Furby". */
  function PickFurby(devices: seq<Device>): (r: Option<nat>)
    ensures r.Some? ==> r.value < |devices| && IsFurby(devices[r.value])
    ensures r.Some? ==> forall j :: 0 <= j < r.value ==> !IsFurby(devices[j])
    ensures r.None? ==> forall j :: 0 <= j < |devices| ==> !IsFurby(devices[j])
  {
    FirstIndex(devices, IsFurby)
  }
}
