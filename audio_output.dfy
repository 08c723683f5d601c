/** The audio-output bridge of src/audio_output.h: the device callbacks of
    a process that plays what the parent sends. Each device callback asks
    the parent for the next block and copies it into the device's output
    channels; the device-info frame reports the device; a small set of
    flags decides when the process exits and with which code. The device,
    the device manager and the shared-memory API are collaborators whose
    answers arrive as parameters. */
module AudioOutput {
  import opened Wire
  import opened Streams
  import opened HostProtocol
  import PluginHost

  // ---------------------------------------------------------------------
  // The device-info frame (audioDeviceAboutToStart)
  // ---------------------------------------------------------------------

  const IoRequestOpcode: Byte := 0
  const DeviceInfoOpcode: Byte := 1

  /** What audioDeviceAboutToStart asks of the device. Sample rates are the
      device's values already converted to int. */
  datatype Device = Device(
    typeName: seq<Byte>, name: seq<Byte>,
    inputLatency: Int32, outputLatency: Int32, sampleRate: Int32, bufferSize: Int32,
    sampleRates: seq<Int32>, bufferSizes: seq<Int32>, hasControlPanel: bool)

  /** "[" + type name + "] " + device name. */
  function Label(d: Device): seq<Byte>
  {
    [0x5B] + d.typeName + [0x5D, 0x20] + d.name
  }

  /** Varints one after the other. */
  function VarsBytes(vs: seq<Int32>): seq<Byte>
  {
    if vs == [] then [] else VarBytes(vs[0]) + VarsBytes(vs[1..])
  }

  /** A list as the frame carries it: its size as a varint, then each
      element as a varint. */
  function VarListBytes(vs: seq<Int32>): seq<Byte>
  {
    VarBytes(ToInt32(|vs|)) + VarsBytes(vs)
  }

  /** Opcode 1, the label, the input and output latencies, the current
      sample rate and buffer size, the available sample rates and buffer
      sizes, and whether the device has a control panel. */
  function DeviceInfoFrame(d: Device): seq<Byte>
  {
    [DeviceInfoOpcode] + StringBytes(Label(d))
      + VarBytes(d.inputLatency) + VarBytes(d.outputLatency) + VarBytes(d.sampleRate) + VarBytes(d.bufferSize)
      + VarListBytes(d.sampleRates) + VarListBytes(d.bufferSizes) + [BoolByte(d.hasControlPanel)]
  }

  /** What the parent learns from a device-info frame. */
  datatype DeviceReport = DeviceReport(
    name: seq<Byte>, inputLatency: Int32, outputLatency: Int32, sampleRate: Int32, bufferSize: Int32,
    sampleRates: seq<Int32>, bufferSizes: seq<Int32>, hasControlPanel: bool)

  function ReportOf(d: Device): DeviceReport
  {
    DeviceReport(Label(d), d.inputLatency, d.outputLatency, d.sampleRate, d.bufferSize,
                 d.sampleRates, d.bufferSizes, d.hasControlPanel)
  }

  /** One varint and what follows it. */
  function NextVar(s: seq<Byte>): (Int32, seq<Byte>)
  {
    DecodeVarIntSize(s);
    (DecodeVarInt(s).value, s[DecodeVarInt(s).size..])
  }

  /** count varints in order. */
  function DecodeVars(s: seq<Byte>, count: nat): (r: (seq<Int32>, seq<Byte>))
    ensures |r.0| == count
  {
    if count == 0 then ([], s)
    else
      var (v, s1) := NextVar(s);
      var (vs, s2) := DecodeVars(s1, count - 1);
      ([v] + vs, s2)
  }

  /** A size-prefixed list; None for a negative size. */
  function DecodeVarList(s: seq<Byte>): Option<(seq<Int32>, seq<Byte>)>
  {
    var (n, s1) := NextVar(s);
    if n < 0 then None else Some(DecodeVars(s1, n))
  }

  /** How the parent reads a device-info frame. */
  function DecodeDeviceInfo(s: seq<Byte>): Option<(DeviceReport, seq<Byte>)>
  {
    if s == [] || s[0] != DeviceInfoOpcode then None
    else
      match DecodeString(s[1..])
      case None => None
      case Some(title) =>
        DecodeStringSize(s[1..]);
        DecodeFields(title.value, s[1..][title.size..])
  }

  /** The fields after the label. */
  function DecodeFields(title: seq<Byte>, s: seq<Byte>): Option<(DeviceReport, seq<Byte>)>
  {
    var (inLatency, s1) := NextVar(s);
    var (outLatency, s2) := NextVar(s1);
    var (rate, s3) := NextVar(s2);
    var (size, s4) := NextVar(s3);
    match DecodeVarList(s4)
    case None => None
    case Some((rates, s5)) =>
      match DecodeVarList(s5)
      case None => None
      case Some((sizes, s6)) =>
        var panel := DecodeBool(s6);
        Some((DeviceReport(title, inLatency, outLatency, rate, size, rates, sizes, panel.value), s6[panel.size..]))
  }

  lemma {:induction false} NextVarOf(v: int, rest: seq<Byte>)
    requires 0 <= v < 0x8000_0000
    ensures NextVar(VarBytes(v) + rest) == (v, rest)
  {
    VarIntRoundTrip(v, rest);
    assert (VarBytes(v) + rest)[|VarBytes(v)|..] == rest;
  }

  predicate NonNegative(vs: seq<Int32>)
  {
    forall i :: 0 <= i < |vs| ==> vs[i] >= 0
  }

  lemma {:induction false} DecodeVarsCons(v: int, t: seq<Byte>, count: nat)
    requires 0 <= v < 0x8000_0000 && count > 0
    ensures DecodeVars(VarBytes(v) + t, count) == ([v] + DecodeVars(t, count - 1).0, DecodeVars(t, count - 1).1)
  {
    NextVarOf(v, t);
  }

  lemma {:induction false} VarsRoundTrip(vs: seq<Int32>, rest: seq<Byte>)
    requires NonNegative(vs)
    ensures DecodeVars(VarsBytes(vs) + rest, |vs|) == (vs, rest)
    decreases |vs|
  {
    if vs != [] {
      var t := VarsBytes(vs[1..]) + rest;
      Concat3(VarBytes(vs[0]), VarsBytes(vs[1..]), rest);
      DecodeVarsCons(vs[0], t, |vs|);
      assert NonNegative(vs[1..]);
      VarsRoundTrip(vs[1..], rest);
      HeadTail(vs);
    } else {
      assert VarsBytes(vs) + rest == rest;
    }
  }

  /** A list of non-negative values, shorter than 2^31, reads back exactly. */
  lemma {:induction false} VarListRoundTrip(vs: seq<Int32>, rest: seq<Byte>)
    requires NonNegative(vs) && |vs| < 0x8000_0000
    ensures DecodeVarList(VarListBytes(vs) + rest) == Some((vs, rest))
  {
    ToInt32InRange(|vs|);
    Concat3(VarBytes(|vs|), VarsBytes(vs), rest);
    NextVarOf(|vs|, VarsBytes(vs) + rest);
    VarsRoundTrip(vs, rest);
  }

  lemma {:induction false} Nest10(a: seq<Byte>, b: seq<Byte>, c: seq<Byte>, d: seq<Byte>, e: seq<Byte>,
                                  f: seq<Byte>, g: seq<Byte>, h: seq<Byte>, i: seq<Byte>, j: seq<Byte>)
    ensures a + b + c + d + e + f + g + h + i + j == a + (b + (c + (d + (e + (f + (g + (h + (i + j))))))))
  {
  }

  /** The frame after its opcode, nested to the right. */
  function FieldsBytes(d: Device, rest: seq<Byte>): seq<Byte>
  {
    VarBytes(d.inputLatency) + (VarBytes(d.outputLatency) + (VarBytes(d.sampleRate) + (VarBytes(d.bufferSize)
      + (VarListBytes(d.sampleRates) + (VarListBytes(d.bufferSizes) + ([BoolByte(d.hasControlPanel)] + rest))))))
  }

  lemma {:induction false} FieldsRoundTrip(d: Device, rest: seq<Byte>)
    requires d.inputLatency >= 0 && d.outputLatency >= 0 && d.sampleRate >= 0 && d.bufferSize >= 0
    requires NonNegative(d.sampleRates) && |d.sampleRates| < 0x8000_0000
    requires NonNegative(d.bufferSizes) && |d.bufferSizes| < 0x8000_0000
    ensures DecodeFields(Label(d), FieldsBytes(d, rest)) == Some((ReportOf(d), rest))
  {
    var t6 := [BoolByte(d.hasControlPanel)] + rest;
    var t5 := VarListBytes(d.bufferSizes) + t6;
    var t4 := VarListBytes(d.sampleRates) + t5;
    var t3 := VarBytes(d.bufferSize) + t4;
    var t2 := VarBytes(d.sampleRate) + t3;
    var t1 := VarBytes(d.outputLatency) + t2;
    NextVarOf(d.inputLatency, t1);
    NextVarOf(d.outputLatency, t2);
    NextVarOf(d.sampleRate, t3);
    NextVarOf(d.bufferSize, t4);
    VarListRoundTrip(d.sampleRates, t5);
    VarListRoundTrip(d.bufferSizes, t6);
    BoolRoundTrip(d.hasControlPanel, rest);
    assert t6[1..] == rest;
  }

  /** The parent reads back every field of the device-info frame, provided
      the label holds no NUL, the numbers and list elements are not
      negative and the lists are shorter than 2^31. */
  lemma {:induction false} DeviceInfoRoundTrip(d: Device, rest: seq<Byte>)
    requires NoNul(Label(d)) && |Label(d)| < OverflowingLength
    requires d.inputLatency >= 0 && d.outputLatency >= 0 && d.sampleRate >= 0 && d.bufferSize >= 0
    requires NonNegative(d.sampleRates) && |d.sampleRates| < 0x8000_0000
    requires NonNegative(d.bufferSizes) && |d.bufferSizes| < 0x8000_0000
    ensures DecodeDeviceInfo(DeviceInfoFrame(d) + rest) == Some((ReportOf(d), rest))
  {
    var t1 := FieldsBytes(d, rest);
    var t0 := StringBytes(Label(d)) + t1;
    Nest10([DeviceInfoOpcode], StringBytes(Label(d)), VarBytes(d.inputLatency), VarBytes(d.outputLatency),
           VarBytes(d.sampleRate), VarBytes(d.bufferSize), VarListBytes(d.sampleRates), VarListBytes(d.bufferSizes),
           [BoolByte(d.hasControlPanel)], rest);
    assert DeviceInfoFrame(d) + rest == [DeviceInfoOpcode] + t0;
    assert ([DeviceInfoOpcode] + t0)[1..] == t0;
    StringRoundTrip(Label(d), t1);
    FieldsRoundTrip(d, rest);
  }

  // ---------------------------------------------------------------------
  // Command 0: filling the device's output channels
  // ---------------------------------------------------------------------

  /** Command 0's copy into output channels i .. n-1, each taking its first
      size floats (4 bytes each) from the mapping's bytes at float offset
      i * size when there is a mapping, and from the stream otherwise; the
      rest of each channel keeps its bytes. None where the C++ is undefined:
      a channel index past the device's channels, a negative size, a
      channel shorter than size floats, or a copy past the mapping. */
  function Filled(s: seq<Byte>, outs: seq<seq<Byte>>, i: nat, n: int, size: int, mapping: Option<seq<Byte>>)
    : (r: Option<(seq<seq<Byte>>, seq<Byte>)>)
    ensures r.Some? ==> |r.value.0| == |outs| && forall j :: 0 <= j < |outs| ==> |r.value.0[j]| == |outs[j]|
    decreases n - i
  {
    if i >= n then Some((outs, s))
    else if i >= |outs| || size < 0 || 4 * size > |outs[i]| then None
    else
      match mapping
      case Some(m) =>
        MulAtLeastZero(i, size);
        var at := 4 * (i * size);
        if at + 4 * size > |m| then None
        else Filled(s, outs[i := m[at..at + 4 * size] + outs[i][4 * size..]], i + 1, n, size, mapping)
      case None =>
        var (c, s1) := ReadFixed(s, outs[i][..4 * size]);
        Filled(s1, outs[i := c + outs[i][4 * size..]], i + 1, n, size, mapping)
  }

  /** Without a mapping, when every channel's floats are in the stream,
      channels i .. |blocks|-1 start with exactly the floats sent, every
      other channel and every byte past size floats keep their value, and
      exactly those bytes are consumed. */
  lemma {:induction false} StreamedFill(blocks: seq<seq<Byte>>, rest: seq<Byte>, outs: seq<seq<Byte>>, i: nat, size: nat)
    requires i <= |blocks| <= |outs|
    requires forall j :: i <= j < |blocks| ==> |blocks[j]| == 4 * size <= |outs[j]|
    ensures var r := Filled(Flatten(blocks[i..]) + rest, outs, i, |blocks|, size, None);
      && r.Some? && r.value.1 == rest && |r.value.0| == |outs|
      && (forall j :: 0 <= j < |outs| && !(i <= j < |blocks|) ==> r.value.0[j] == outs[j])
      && (forall j :: i <= j < |blocks| ==> r.value.0[j] == blocks[j] + outs[j][4 * size..])
    decreases |blocks| - i
  {
    if i == |blocks| {
      assert blocks[i..] == [];
      assert Flatten(blocks[i..]) + rest == rest;
    } else {
      FlattenCons(blocks, i);
      Concat3(blocks[i], Flatten(blocks[i + 1..]), rest);
      ReadFixedFull(blocks[i], Flatten(blocks[i + 1..]) + rest, outs[i][..4 * size]);
      var outs1 := outs[i := blocks[i] + outs[i][4 * size..]];
      StreamedFill(blocks, rest, outs1, i + 1, size);
    }
  }

  /** With a mapping, command 0 leaves the stream alone and gives the
      channels exactly what a streamed fill would give if the stream held
      the mapping's bytes from channel i's offset on: channel j gets the
      floats at offset j * size. */
  lemma {:induction false} MappedFill(s: seq<Byte>, outs: seq<seq<Byte>>, i: nat, n: nat, size: nat, m: seq<Byte>)
    requires i <= n <= |outs| && 4 * (n * size) <= |m|
    requires forall j :: i <= j < n ==> 4 * size <= |outs[j]|
    ensures 4 * (i * size) <= |m|
    ensures var streamed := Filled(m[4 * (i * size)..], outs, i, n, size, None);
      streamed.Some? && Filled(s, outs, i, n, size, Some(m)) == Some((streamed.value.0, s))
    decreases n - i
  {
    if i == n {
    } else {
      ChannelBounds(i, n, size);
      var at := 4 * (i * size);
      assert (i + 1) * size == i * size + size;
      var next := m[at + 4 * size..];
      assert m[at..] == m[at..at + 4 * size] + next;
      ReadFixedFull(m[at..at + 4 * size], next, outs[i][..4 * size]);
      var outs1 := outs[i := m[at..at + 4 * size] + outs[i][4 * size..]];
      MappedFill(s, outs1, i + 1, n, size, m);
    }
  }

  // ---------------------------------------------------------------------
  // The exit flags
  // ---------------------------------------------------------------------

  /** isRestarting, isErrorExit, and whether exit() has been called (it
      stops the message loop, after which the process ends). */
  datatype Flags = Flags(isRestarting: bool, isErrorExit: bool, exitRequested: bool)

  /** What moves the flags: a restart (command 2, or a control panel that
      changed the settings), audioDeviceStopped, audioDeviceError, and any
      other call of exit(). */
  datatype DeviceEvent = Restart | Stop | Fail | Exit

  function After(f: Flags, e: DeviceEvent): Flags
  {
    match e
    case Restart => f.(isRestarting := true)
    case Stop => if f.isRestarting then f.(isRestarting := false) else f.(exitRequested := true)
    case Fail => f.(isErrorExit := true, exitRequested := true)
    case Exit => f.(exitRequested := true)
  }

  function AfterAll(f: Flags, es: seq<DeviceEvent>): Flags
    decreases |es|
  {
    if es == [] then f else AfterAll(After(f, es[0]), es[1..])
  }

  /** getExitCode: the error flag as an int. */
  function ExitCode(f: Flags): (code: int)
    ensures code == 1 <==> f.isErrorExit
    ensures code == 0 || code == 1
  {
    if f.isErrorExit then 1 else 0
  }

  const Initial := Flags(false, false, false)

  /** A restart makes exactly the next stop harmless: that stop clears the
      flag and requests nothing, the one after it requests exit. */
  lemma {:induction false} StopClearsRestartOnce(f: Flags)
    ensures AfterAll(f, [Restart, Stop]) == f.(isRestarting := false)
    ensures AfterAll(f, [Restart, Stop, Stop]).exitRequested
  {
    assert [Restart, Stop][1..] == [Stop];
    assert [Restart, Stop, Stop][1..] == [Stop, Stop];
    assert [Stop, Stop][1..] == [Stop];
    assert [Stop][1..] == [];
  }

  /** Once requested, exit stays requested; an error or an explicit exit
      among the events requests it. */
  lemma {:induction false} ExitRequested(f: Flags, es: seq<DeviceEvent>)
    ensures f.exitRequested || Fail in es || Exit in es ==> AfterAll(f, es).exitRequested
    decreases |es|
  {
    if es != [] {
      ExitRequested(After(f, es[0]), es[1..]);
      assert es == [es[0]] + es[1..];
    }
  }

  /** The process exits with code 1 exactly when audioDeviceError was
      called at some point. */
  lemma {:induction false} ErrorExitCode(f: Flags, es: seq<DeviceEvent>)
    ensures ExitCode(AfterAll(f, es)) == 1 <==> f.isErrorExit || Fail in es
    decreases |es|
  {
    if es != [] {
      ErrorExitCode(After(f, es[0]), es[1..]);
      assert es == [es[0]] + es[1..];
    }
  }

  /** Only a stop without a pending restart, an error or an explicit exit
      requests exit: restarts and stops in pairs keep the process alive. */
  lemma {:induction false} RestartsKeepRunning(f: Flags, k: nat)
    requires !f.exitRequested
    ensures !AfterAll(f, Pairs(k)).exitRequested
    decreases k
  {
    if k > 0 {
      assert Pairs(k)[1..] == [Stop] + Pairs(k - 1);
      assert ([Stop] + Pairs(k - 1))[1..] == Pairs(k - 1);
      RestartsKeepRunning(f.(isRestarting := false), k - 1);
    }
  }

  /** k restarts, each followed by the stop it causes. */
  function Pairs(k: nat): (es: seq<DeviceEvent>)
    ensures |es| == 2 * k
  {
    if k == 0 then [] else [Restart, Stop] + Pairs(k - 1)
  }

  // ---------------------------------------------------------------------
  // The restart thread
  // ---------------------------------------------------------------------

  /** The restart thread reads command bytes one at a time, restarting the
      last device after each, and stops after reading 3; at the end of the
      input it requests exit instead. Gives the number of restarts, whether
      exit was requested, and the input left. */
  function RestartReads(s: seq<Byte>): (r: (nat, bool, seq<Byte>))
    decreases |s|
  {
    if s == [] then (0, true, s)
    else
      var next := if Int8Of(s[..1]) == 3 then (0, false, s[1..]) else RestartReads(s[1..]);
      (next.0 + 1, next.1, next.2)
  }

  /** Whether byte b reads as the int8 3. */
  predicate IsResume(b: Byte)
  {
    Int8Of([b]) == 3
  }

  /** The thread stops right after the first 3, having restarted once per
      byte up to and including it. */
  lemma {:induction false} RestartReadsFirstResume(s: seq<Byte>, k: nat)
    requires k < |s| && IsResume(s[k])
    requires forall j :: 0 <= j < k ==> !IsResume(s[j])
    ensures RestartReads(s) == (k + 1, false, s[k + 1..])
    decreases k
  {
    assert s[..1] == [s[0]];
    if k > 0 {
      assert !IsResume(s[0]);
      assert s[1..][k - 1] == s[k];
      assert forall j :: 0 <= j < k - 1 ==> s[1..][j] == s[j + 1];
      RestartReadsFirstResume(s[1..], k - 1);
      assert s[1..][k..] == s[k + 1..];
    }
  }

  /** With no 3 in the input, the thread restarts once per byte and then
      requests exit. */
  lemma {:induction false} RestartReadsNoResume(s: seq<Byte>)
    requires forall k :: 0 <= k < |s| ==> !IsResume(s[k])
    ensures RestartReads(s) == (|s|, true, [])
    decreases |s|
  {
    if s != [] {
      assert s[..1] == [s[0]];
      assert !IsResume(s[0]);
      assert forall k :: 0 <= k < |s[1..]| ==> s[1..][k] == s[k + 1];
      RestartReadsNoResume(s[1..]);
    }
  }

  // ---------------------------------------------------------------------
  // The bridge's state and its callbacks, as functions
  // ---------------------------------------------------------------------

  /** Calls on the device manager: closeAudioDevice,
      restartLastAudioDevice, and posting openControlPanel to the message
      thread. */
  datatype DeviceCall = CloseDevice | RestartDevice | OpenControlPanel

  /** The mapping (if any), setup.bufferSize, the flags, and the calls made
      so far. */
  datatype Bridge = Bridge(shm: Option<PluginHost.Mapping>, bufferSize: Int32, flags: Flags, calls: seq<DeviceCall>)

  /** The constructor: a non-empty name opens the mapping, and when that
      fails exit is requested. */
  function Constructed(shmName: seq<Byte>, memorySize: Int32, bufferSize: Int32, opens: bool): Bridge
  {
    if shmName == [] then Bridge(None, bufferSize, Initial, [])
    else if opens then Bridge(Some(PluginHost.Mapping(shmName, memorySize)), bufferSize, Initial, [])
    else Bridge(None, bufferSize, After(Initial, Exit), [])
  }

  /** A mapping exists exactly when one was named and opened, and exit is
      requested exactly when one was named and did not open. */
  lemma {:induction false} ConstructedMapping(shmName: seq<Byte>, memorySize: Int32, bufferSize: Int32, opens: bool)
    ensures var b := Constructed(shmName, memorySize, bufferSize, opens);
      && (b.shm.Some? <==> shmName != [] && opens)
      && (b.shm.Some? ==> b.shm.value == PluginHost.Mapping(shmName, memorySize))
      && (b.flags.exitRequested <==> shmName != [] && !opens)
      && !b.flags.isRestarting && ExitCode(b.flags) == 0 && b.calls == []
  {
  }

  /** One device callback after its request byte: the command read, and
      what it does to the bridge, to the device's output channels outs and
      to the input; contents are the mapping's bytes. None where the C++ is
      undefined. */
  function Served(b: Bridge, s: seq<Byte>, outs: seq<seq<Byte>>, contents: seq<Byte>)
    : Option<(Bridge, seq<seq<Byte>>, seq<Byte>)>
  {
    if s == [] then Some((b.(flags := After(b.flags, Exit)), outs, s))
    else
      var id := Int8Of(s[..1]);
      if id == 0 then Played(b, s[1..], outs, contents)
      else if id == 1 then Some((b.(calls := b.calls + [OpenControlPanel]), outs, s[1..]))
      else if id == 2 then Some((b.(flags := After(b.flags, Restart), calls := b.calls + [CloseDevice]), outs, s[1..]))
      else Some((b.(flags := After(b.flags, Exit)), outs, s[1..]))
  }

  /** Command 0 after its command byte: the int8 channel count, then the
      fill. */
  function Played(b: Bridge, s: seq<Byte>, outs: seq<seq<Byte>>, contents: seq<Byte>)
    : Option<(Bridge, seq<seq<Byte>>, seq<Byte>)>
  {
    var (count, s1) := ReadFixed(s, Zeros(1));
    var mapping := if b.shm.Some? then Some(contents) else None;
    match Filled(s1, outs, 0, Int8Of(count), b.bufferSize, mapping)
    case None => None
    case Some((filled, s2)) => Some((b, filled, s2))
  }

  /** A callback keeps the mapping and the buffer size; it requests exit
      exactly on a failed read or an unknown command; only command 0 touches
      the channels or reads past the command byte. */
  lemma {:induction false} ServedCommands(b: Bridge, s: seq<Byte>, outs: seq<seq<Byte>>, contents: seq<Byte>)
    requires !b.flags.exitRequested
    ensures var r := Served(b, s, outs, contents);
      && (r.Some? ==> r.value.0.shm == b.shm && r.value.0.bufferSize == b.bufferSize)
      && (r.Some? ==> (r.value.0.flags.exitRequested <==> s == [] || Int8Of(s[..1]) !in {0, 1, 2}))
      && (r.None? ==> s != [] && Int8Of(s[..1]) == 0)
      && (s != [] && Int8Of(s[..1]) != 0 ==> r.Some? && r.value.1 == outs && r.value.2 == s[1..])
  {
  }

  /** Without a mapping, a command 0 carrying n channels of bufferSize
      floats each plays exactly those floats and consumes exactly them. */
  lemma {:induction false} PlayedStreamed(b: Bridge, blocks: seq<seq<Byte>>, rest: seq<Byte>, outs: seq<seq<Byte>>, contents: seq<Byte>)
    requires b.shm.None? && b.bufferSize >= 0
    requires |blocks| <= |outs| && |blocks| < 0x80
    requires forall j :: 0 <= j < |blocks| ==> |blocks[j]| == 4 * b.bufferSize <= |outs[j]|
    ensures var r := Played(b, LittleEndian(|blocks|, 1) + (Flatten(blocks) + rest), outs, contents);
      && r.Some? && r.value.0 == b && r.value.2 == rest && |r.value.1| == |outs|
      && (forall j :: |blocks| <= j < |outs| ==> r.value.1[j] == outs[j])
      && (forall j :: 0 <= j < |blocks| ==> r.value.1[j] == blocks[j] + outs[j][4 * b.bufferSize..])
  {
    ReadFixedFull(LittleEndian(|blocks|, 1), Flatten(blocks) + rest, Zeros(1));
    Int8RoundTrip(|blocks|);
    StreamedFill(blocks, rest, outs, 0, b.bufferSize);
    assert blocks[0..] == blocks;
  }

  /** With a mapping, a command 0 for n channels consumes only the count
      and plays the mapping's floats as a streamed fill of its bytes
      would. */
  lemma {:induction false} PlayedMapped(b: Bridge, n: Int8, rest: seq<Byte>, outs: seq<seq<Byte>>, contents: seq<Byte>)
    requires b.shm.Some? && b.bufferSize >= 0 && 0 <= n <= |outs| && 4 * (n * b.bufferSize) <= |contents|
    requires forall j :: 0 <= j < n ==> 4 * b.bufferSize <= |outs[j]|
    ensures var streamed := Filled(contents, outs, 0, n, b.bufferSize, None);
      && streamed.Some?
      && Played(b, LittleEndian(n, 1) + rest, outs, contents) == Some((b, streamed.value.0, rest))
  {
    ReadFixedFull(LittleEndian(n, 1), rest, Zeros(1));
    Int8RoundTrip(n);
    MappedFill(rest, outs, 0, n, b.bufferSize, contents);
    assert contents[4 * (0 * b.bufferSize)..] == contents;
  }

  /** Command byte 0 is command 0. */
  lemma {:induction false} ServedPlays(b: Bridge, rest: seq<Byte>, outs: seq<seq<Byte>>, contents: seq<Byte>)
    ensures Served(b, [0] + rest, outs, contents) == Played(b, rest, outs, contents)
  {
    assert ([0] + rest)[..1] == [0];
    assert ([0] + rest)[1..] == rest;
    Int8RoundTrip(0);
  }

  /** k restarts of the last device. */
  function Restarts(k: nat): (calls: seq<DeviceCall>)
    ensures |calls| == k && forall j :: 0 <= j < k ==> calls[j] == RestartDevice
  {
    seq(k, _ => RestartDevice)
  }

  /** What the restart thread does to the bridge and the input. */
  function Resumed(b: Bridge, s: seq<Byte>): (Bridge, seq<Byte>)
  {
    var (k, exits, rest) := RestartReads(s);
    (b.(flags := if exits then After(b.flags, Exit) else b.flags, calls := b.calls + Restarts(k)), rest)
  }

  /** The control panel posted by command 1: when the device has one and
      showing it changed the settings, the device is restarted. */
  function PanelShown(b: Bridge, hasPanel: bool, changed: bool): Bridge
  {
    if hasPanel && changed then b.(flags := After(b.flags, Restart), calls := b.calls + [CloseDevice, RestartDevice])
    else b
  }

  /** audioDeviceAboutToStart after its frame: the raw int reply, then the
      new buffer size and the rule for re-opening the mapping. */
  function Started(b: Bridge, d: Device, s: seq<Byte>, opens: bool): (Bridge, seq<Byte>)
  {
    var (raw, s1) := ReadFixed(s, Zeros(4));
    var outBufferSize := Int32Of(raw);
    var shm :=
      if b.shm.Some? && outBufferSize != 0 then
        if opens then Some(PluginHost.Mapping(b.shm.value.name, outBufferSize)) else None
      else b.shm;
    (b.(bufferSize := d.bufferSize, shm := shm), s1)
  }

  /** With the parent's reply x in the input, the buffer size becomes the
      device's, the mapping is re-opened under its own name with size x
      exactly when there is one and x is not 0, a failed re-open drops it,
      and nothing else changes. */
  lemma {:induction false} StartedReopens(b: Bridge, d: Device, x: Int32, rest: seq<Byte>, opens: bool)
    ensures var (b1, s1) := Started(b, d, LittleEndian(x, 4) + rest, opens);
      && s1 == rest && b1.bufferSize == d.bufferSize && b1.flags == b.flags && b1.calls == b.calls
      && (b1.shm.Some? <==> b.shm.Some? && (x == 0 || opens))
      && (b1.shm.Some? ==> b1.shm.value.name == b.shm.value.name)
      && (b1.shm.Some? ==> b1.shm.value.size == if x == 0 then b.shm.value.size else x)
  {
    ReadFixedFull(LittleEndian(x, 4), rest, Zeros(4));
    Int32RoundTrip(x);
  }

  /** Varints appended one at a time. */
  lemma {:induction false} VarsBytesSnoc(vs: seq<Int32>, i: nat)
    requires i < |vs|
    ensures VarsBytes(vs[..i + 1]) == VarsBytes(vs[..i]) + VarBytes(vs[i])
    decreases i
  {
    if i == 0 {
      assert vs[..1] == [vs[0]];
      assert vs[..1][1..] == [];
    } else {
      assert vs[..i + 1][1..] == vs[1..][..i];
      assert vs[..i][1..] == vs[1..][..i - 1];
      VarsBytesSnoc(vs[1..], i - 1);
      assert vs[1..][i - 1] == vs[i];
      Concat3(VarBytes(vs[0]), VarsBytes(vs[1..][..i - 1]), VarBytes(vs[i]));
    }
  }

  // ---------------------------------------------------------------------
  // The callback object
  // ---------------------------------------------------------------------

  class AudioBridge {
    const input: InputStream
    const output: OutputStream
    var shm: Option<PluginHost.Mapping>
    /** setup.bufferSize. */
    var bufferSize: Int32
    var isRestarting: bool
    var isErrorExit: bool
    var exitRequested: bool
    var calls: seq<DeviceCall>

    ghost predicate Valid()
      reads this, input, output
    {
      input.Valid() && output.Valid()
    }

    function State(): Bridge
      reads this
    {
      Bridge(shm, bufferSize, Flags(isRestarting, isErrorExit, exitRequested), calls)
    }

    /** opens is whether jshm::shared_memory::open succeeds. */
    constructor (input: InputStream, output: OutputStream, shmName: seq<Byte>, memorySize: Int32, bufferSize: Int32, opens: bool)
      requires input.Valid() && output.Valid()
      ensures Valid() && this.input == input && this.output == output
      ensures State() == Constructed(shmName, memorySize, bufferSize, opens)
    {
      this.input := input;
      this.output := output;
      this.bufferSize := bufferSize;
      isRestarting := false;
      isErrorExit := false;
      exitRequested := false;
      calls := [];
      if shmName == [] {
        shm := None;
      } else if opens {
        shm := Some(PluginHost.Mapping(shmName, memorySize));
      } else {
        shm := None;
        exitRequested := true;
      }
    }

    /** audioDeviceIOCallbackWithContext: request a block with opcode 0,
        flush, then serve the command read. */
    method IoCallback(outs: seq<seq<Byte>>, contents: seq<Byte>) returns (ok: bool, r: seq<seq<Byte>>)
      requires Valid()
      modifies this, input, output
      ensures Valid() && output.bytes == old(output.bytes) + [IoRequestOpcode] && output.flushed == |output.bytes|
      ensures ok <==> Served(old(State()), old(input.Remaining()), outs, contents).Some?
      ensures ok ==> (State(), r, input.Remaining()) == Served(old(State()), old(input.Remaining()), outs, contents).value
    {
      output.Write([IoRequestOpcode]);
      output.Flush();
      var got, id := PluginHost.ReadOpcodeFrom(input);
      r := outs;
      ok := true;
      if !got {
        exitRequested := true;
        return;
      }
      if id == 0 {
        ok, r := Play(outs, contents);
      } else if id == 1 {
        calls := calls + [OpenControlPanel];
      } else if id == 2 {
        isRestarting := true;
        calls := calls + [CloseDevice];
      } else {
        exitRequested := true;
      }
    }

    /** Command 0 after its command byte. */
    method Play(outs: seq<seq<Byte>>, contents: seq<Byte>) returns (ok: bool, r: seq<seq<Byte>>)
      requires input.Valid()
      modifies input
      ensures input.Valid()
      ensures var p := Played(State(), old(input.Remaining()), outs, contents);
        && (ok <==> p.Some?)
        && (ok ==> (r, input.Remaining()) == (p.value.1, p.value.2))
    {
      var count := PluginHost.ReadFixedFrom(input, Zeros(1));
      ok, r := FillOutputs(Int8Of(count), outs, contents);
    }

    /** Command 0's loop over channels 0 .. n-1. */
    method FillOutputs(n: int, outs: seq<seq<Byte>>, contents: seq<Byte>) returns (ok: bool, r: seq<seq<Byte>>)
      requires input.Valid()
      modifies input
      ensures input.Valid()
      ensures var f := Filled(old(input.Remaining()), outs, 0, n, bufferSize, if shm.Some? then Some(contents) else None);
        && (ok <==> f.Some?)
        && (ok ==> (r, input.Remaining()) == f.value)
    {
      var mapping := if shm.Some? then Some(contents) else None;
      r := outs;
      var i: nat := 0;
      while i < n
        invariant input.Valid()
        invariant Filled(old(input.Remaining()), outs, 0, n, bufferSize, mapping)
               == Filled(input.Remaining(), r, i, n, bufferSize, mapping)
        decreases n - i
      {
        if i >= |r| || bufferSize < 0 || 4 * bufferSize > |r[i]| {
          return false, r;
        }
        var size := 4 * bufferSize;
        if shm.Some? {
          MulAtLeastZero(i, bufferSize);
          var at := 4 * (i * bufferSize);
          if at + size > |contents| {
            return false, r;
          }
          r := r[i := contents[at..at + size] + r[i][size..]];
        } else {
          var c := PluginHost.ReadFixedFrom(input, r[i][..size]);
          r := r[i := c + r[i][size..]];
        }
        i := i + 1;
      }
      ok := true;
    }

    /** The detached restart thread, run to its end. */
    method AwaitRestart()
      requires input.Valid()
      modifies this, input
      ensures input.Valid() && (State(), input.Remaining()) == Resumed(old(State()), old(input.Remaining()))
    {
      ghost var whole := RestartReads(input.Remaining());
      ghost var k: nat := 0;
      while true
        invariant input.Valid()
        invariant k + RestartReads(input.Remaining()).0 == whole.0
        invariant RestartReads(input.Remaining()).1 == whole.1 && RestartReads(input.Remaining()).2 == whole.2
        invariant calls == old(calls) + Restarts(k)
        invariant State().(calls := old(calls)) == old(State()).(calls := old(calls))
        decreases |input.Remaining()|
      {
        ghost var before := input.Remaining();
        var got, id := PluginHost.ReadOpcodeFrom(input);
        if !got {
          exitRequested := true;
          return;
        }
        calls := calls + [RestartDevice];
        k := k + 1;
        if id == 3 {
          assert RestartReads(before) == (1, false, before[1..]);
          assert calls == old(calls) + Restarts(whole.0);
          return;
        }
      }
    }

    /** The control-panel message posted by command 1; hasPanel is whether
        there is a current device with a control panel, changed what
        showControlPanel returned. */
    method ShowControlPanel(hasPanel: bool, changed: bool)
      modifies this
      ensures State() == PanelShown(old(State()), hasPanel, changed)
    {
      if hasPanel && changed {
        isRestarting := true;
        calls := calls + [CloseDevice, RestartDevice];
      }
    }

    /** audioDeviceStopped. */
    method Stopped()
      modifies this
      ensures State() == old(State()).(flags := After(old(State()).flags, Stop))
    {
      if isRestarting {
        isRestarting := false;
      } else {
        exitRequested := true;
      }
    }

    /** audioDeviceError; the message goes to stderr. */
    method Error(message: seq<Byte>)
      modifies this
      ensures State() == old(State()).(flags := After(old(State()).flags, Fail))
    {
      isErrorExit := true;
      exitRequested := true;
    }

    /** audioDeviceAboutToStart: the device-info frame, flushed, then the
        parent's reply. */
    method AboutToStart(d: Device, opens: bool)
      requires Valid()
      modifies this, input, output
      ensures Valid() && output.bytes == old(output.bytes) + DeviceInfoFrame(d) && output.flushed == |output.bytes|
      ensures (State(), input.Remaining()) == Started(old(State()), d, old(input.Remaining()), opens)
    {
      WriteDeviceInfo(d);
      output.Flush();
      var raw := PluginHost.ReadFixedFrom(input, Zeros(4));
      var outBufferSize := Int32Of(raw);
      bufferSize := d.bufferSize;
      if shm.Some? && outBufferSize != 0 {
        shm := if opens then Some(PluginHost.Mapping(shm.value.name, outBufferSize)) else None;
      }
    }

    method WriteDeviceInfo(d: Device)
      requires output.Valid()
      modifies output
      ensures output.Valid() && output.bytes == old(output.bytes) + DeviceInfoFrame(d) && output.flushed == old(output.flushed)
    {
      ghost var b0 := output.bytes;
      output.Write([DeviceInfoOpcode]);
      ghost var p := [DeviceInfoOpcode];
      output.WriteString(Label(d));
      Concat3(b0, p, StringBytes(Label(d)));
      p := p + StringBytes(Label(d));
      output.WriteVarInt(d.inputLatency);
      Concat3(b0, p, VarBytes(d.inputLatency));
      p := p + VarBytes(d.inputLatency);
      output.WriteVarInt(d.outputLatency);
      Concat3(b0, p, VarBytes(d.outputLatency));
      p := p + VarBytes(d.outputLatency);
      output.WriteVarInt(d.sampleRate);
      Concat3(b0, p, VarBytes(d.sampleRate));
      p := p + VarBytes(d.sampleRate);
      output.WriteVarInt(d.bufferSize);
      Concat3(b0, p, VarBytes(d.bufferSize));
      p := p + VarBytes(d.bufferSize);
      WriteVarList(d.sampleRates);
      Concat3(b0, p, VarListBytes(d.sampleRates));
      p := p + VarListBytes(d.sampleRates);
      WriteVarList(d.bufferSizes);
      Concat3(b0, p, VarListBytes(d.bufferSizes));
      p := p + VarListBytes(d.bufferSizes);
      output.WriteBool(d.hasControlPanel);
      Concat3(b0, p, [BoolByte(d.hasControlPanel)]);
    }

    /** The size as a varint, then each element as a varint. */
    method WriteVarList(vs: seq<Int32>)
      requires output.Valid()
      modifies output
      ensures output.Valid() && output.bytes == old(output.bytes) + VarListBytes(vs) && output.flushed == old(output.flushed)
    {
      output.WriteVarInt(ToInt32(|vs|));
      var i := 0;
      while i < |vs|
        invariant output.Valid() && 0 <= i <= |vs| && output.flushed == old(output.flushed)
        invariant output.bytes == old(output.bytes) + VarBytes(ToInt32(|vs|)) + VarsBytes(vs[..i])
      {
        VarsBytesSnoc(vs, i);
        Concat3(old(output.bytes) + VarBytes(ToInt32(|vs|)), VarsBytes(vs[..i]), VarBytes(vs[i]));
        output.WriteVarInt(vs[i]);
        i := i + 1;
      }
      assert vs[..i] == vs;
      Concat3(old(output.bytes), VarBytes(ToInt32(|vs|)), VarsBytes(vs));
    }
  }
}
