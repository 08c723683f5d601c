/** The plugin-host session of src/plugin_host.h: the fields run() and the
    listener callbacks update, each handler as a method proved against the
    decoders and frames of HostProtocol. The plugin, the clock, the locks and
    the shared-memory API are collaborators whose answers arrive as
    parameters. */
module PluginHost {
  import opened Wire
  import opened Streams
  import opened HostProtocol

  const HostBufferSize := 8192
  const BlockReplyOpcode: Byte := 1
  const TransportPlayOpcode: Byte := 2

  /** The loaded plugin as the session sees it. */
  datatype Plugin = Plugin(numInputs: nat, numOutputs: nat, parameters: seq<ParameterInfo>)

  /** What the session asks of the plugin and of the message thread, in order. */
  datatype PluginCall =
    | PrepareToPlay(sampleRate: Int32, bufferSize: Int32)
    | SetNonRealtime(nonRealtime: bool)
    | ProcessBlock(midi: seq<MidiEvent>)
    | ToggleEditor
    | SaveState(path: seq<Byte>)
    | LoadState(path: seq<Byte>)

  /** A shared-memory mapping, opened under a name with a requested size. */
  datatype Mapping = Mapping(name: seq<Byte>, size: Int32)

  /** The playhead state processBlock sees (the time in seconds and the
      quarter-note position derived from it are floating point). */
  datatype Position = Position(isPlaying: bool, isLooping: bool, isRecording: bool, bpm: Float64, timeInSamples: Int64)

  /** What the other threads and the collaborators decide while one command
      is handled. */
  datatype Env = Env(
    callbacks: seq<Callback>,
    shouldExit: bool,
    lockGained: bool,
    tryLock: bool,
    now: nat,
    shmOpens: bool,
    process: (seq<seq<Byte>>, seq<MidiEvent>, nat, nat) -> Byte)

  /** A listener callback from the plugin's own threads: transportPlay or
      audioProcessorParameterChanged, with what try_lock and the clock said. */
  datatype Callback =
    | TransportPlayCall(shouldStartPlaying: bool, locked: bool)
    | ParameterChangedCall(index: Int32, value: Float32, now: nat, locked: bool)

  /** How a command ends: run() goes on, returns without quit() because the
      message-manager lock was not gained, or hit undefined behaviour. */
  datatype Outcome = Continue | LockNotGained | Undefined

  /** The state the host keeps besides the coalescer and the host buffer. */
  datatype Session = Session(
    isRealtime: bool, sampleRate: Int32, bufferSize: Int32, shm: Option<Mapping>,
    channels: seq<seq<Byte>>, mapped: bool, offsets: seq<int>, position: Position, calls: seq<PluginCall>)

  /** processBlock on the inner buffer: the plugin's output bytes, one per
      sample byte of each channel; the buffer keeps its shape. */
  function Render(chs: seq<seq<Byte>>, midi: seq<MidiEvent>, f: (seq<seq<Byte>>, seq<MidiEvent>, nat, nat) -> Byte): (r: seq<seq<Byte>>)
    ensures |r| == |chs| && forall i :: 0 <= i < |chs| ==> |r[i]| == |chs[i]|
  {
    seq(|chs|, i requires 0 <= i < |chs| => seq(|chs[i]|, j requires 0 <= j < |chs[i]| => f(chs, midi, i, j)))
  }

  /** One parameter-change frame: opcode 3, the index, the value. */
  method WriteChange(output: OutputStream, index: Int32, value: Float32)
    requires output.Valid()
    modifies output
    ensures output.Valid() && output.bytes == old(output.bytes) + ChangeFrame(index, value)
    ensures output.flushed == old(output.flushed)
  {
    output.Write([ParameterChangeOpcode]);
    output.WriteVarInt(index);
    output.Write(value);
    Concat3(old(output.bytes), [ParameterChangeOpcode] + VarBytes(index), value);
  }

  /** The loop of writeAllParameterChanges over the map, erasing as it goes. */
  method FlushDue(output: OutputStream, pending: map<Int32, Pending>, now: nat) returns (remaining: map<Int32, Pending>, order: seq<Int32>)
    requires output.Valid()
    modifies output
    ensures remaining == NotDue(pending, now)
    ensures forall k :: k in order <==> k in pending && pending[k].due <= now
    ensures Distinct(order)
    ensures output.Valid() && output.bytes == old(output.bytes) + ChangeFrames(order, pending)
    ensures output.flushed == old(output.flushed)
  {
    remaining := pending;
    var keys := pending.Keys;
    order := [];
    while keys != {}
      invariant keys <= pending.Keys && output.Valid() && output.flushed == old(output.flushed)
      invariant forall k :: k in remaining <==> k in pending && (k in keys || pending[k].due > now)
      invariant forall k :: k in remaining ==> remaining[k] == pending[k]
      invariant forall k :: k in order <==> k in pending && k !in keys && pending[k].due <= now
      invariant Distinct(order)
      invariant output.bytes == old(output.bytes) + ChangeFrames(order, pending)
      decreases keys
    {
      var k :| k in keys;
      keys := keys - {k};
      if remaining[k].due <= now {
        WriteChange(output, k, remaining[k].value);
        ChangeFramesSnoc(order, k, pending);
        Concat3(old(output.bytes), ChangeFrames(order, pending), ChangeFrame(k, pending[k].value));
        DistinctSnoc(order, k);
        remaining := remaining - {k};
        order := order + [k];
      }
    }
    assert remaining == NotDue(pending, now);
  }

  /** read<T> into an object whose bytes are prior. */
  method ReadFixedFrom(input: InputStream, prior: seq<Byte>) returns (r: seq<Byte>)
    requires input.Valid()
    modifies input
    ensures old(input.pos) <= input.pos
    ensures input.Valid() && (r, input.Remaining()) == ReadFixed(old(input.Remaining()), prior)
  {
    var ok;
    ok, r := input.ReadInto(prior);
    DropOfRest(input.data, old(input.pos), Min(|prior|, |input.data| - old(input.pos)));
    ReadFixedSlices(old(input.Remaining()), prior);
  }

  /** readBool, leaving the input after the byte read. */
  method ReadBoolFrom(input: InputStream) returns (v: bool)
    requires input.Valid()
    modifies input
    ensures old(input.pos) <= input.pos
    ensures input.Valid() && v == DecodeBool(old(input.Remaining())).value
    ensures input.Remaining() == old(input.Remaining())[DecodeBool(old(input.Remaining())).size..]
  {
    v := input.ReadBool();
    DropOfRest(input.data, old(input.pos), input.pos - old(input.pos));
  }

  /** readVarLong, leaving the input after the bytes read. */
  method ReadVarLongFrom(input: InputStream) returns (v: Int64)
    requires input.Valid()
    modifies input
    ensures old(input.pos) <= input.pos
    ensures input.Valid() && v == DecodeVarLong(old(input.Remaining())).value
    ensures DecodeVarLong(old(input.Remaining())).size <= |old(input.Remaining())|
    ensures input.Remaining() == old(input.Remaining())[DecodeVarLong(old(input.Remaining())).size..]
  {
    ghost var k := DecodeVarLong(input.Remaining()).size;
    v := input.ReadVarLong();
    DropOfRest(input.data, old(input.pos), k);
  }

  /** readString, leaving the input after the bytes read; None for the
      negative length whose allocation is undefined behaviour. */
  method ReadStringFrom(input: InputStream) returns (r: Option<seq<Byte>>)
    requires input.Valid()
    modifies input
    ensures old(input.pos) <= input.pos
    ensures input.Valid()
    ensures r.None? <==> DecodeString(old(input.Remaining())).None?
    ensures r.Some? ==> && r.value == DecodeString(old(input.Remaining())).value.value
                        && DecodeString(old(input.Remaining())).value.size <= |old(input.Remaining())|
                        && input.Remaining() == old(input.Remaining())[DecodeString(old(input.Remaining())).value.size..]
  {
    r := input.ReadString();
    if r.Some? {
      DropOfRest(input.data, old(input.pos), input.pos - old(input.pos));
    }
  }

  /** Float offset of each mapped channel: channel i at i * size. */
  function Offsets(n: nat, size: int): (r: seq<int>)
    ensures |r| == n
  {
    seq(n, i => i * size)
  }

  /** The loop that builds the channel pointers into the mapping. */
  method MapChannels(n: nat, size: Int32) returns (offsets: seq<int>)
    ensures offsets == Offsets(n, size)
  {
    offsets := [];
    var i := 0;
    while i < n
      invariant 0 <= i <= n && offsets == Offsets(i, size)
    {
      offsets := offsets + [i * size];
      i := i + 1;
    }
  }

  /** With a non-negative size the mapped channels lie side by side: each
      starts where the previous one ends, and together they span n * size
      floats from the start of the mapping. */
  lemma {:induction false} MappedChannelsDisjoint(n: nat, size: int)
    requires size >= 0
    ensures forall i :: 0 <= i < n ==> 0 <= Offsets(n, size)[i] && Offsets(n, size)[i] + size <= n * size
    ensures forall i, j :: 0 <= i < j < n ==> Offsets(n, size)[i] + size <= Offsets(n, size)[j]
  {
    forall i | 0 <= i < n
      ensures 0 <= Offsets(n, size)[i] && Offsets(n, size)[i] + size <= n * size
    {
      ChannelBounds(i, n, size);
    }
    forall i, j | 0 <= i < j < n
      ensures Offsets(n, size)[i] + size <= Offsets(n, size)[j]
    {
      ChannelBounds(i, j, size);
    }
  }

  /** The rule for the inner buffer: it is allocated unless shared memory is
      enabled and either a mapping exists and the size sent is 0, or a name
      was given and the mapping opened. */
  predicate AllocatesInner(enabled: bool, hasMapping: bool, shmSize: Int32, named: bool, opens: bool)
  {
    !(enabled && ((hasMapping && shmSize == 0) || (named && opens)))
  }

  /** A fresh inner buffer: n channels of size samples each. The source's
      `juce::AudioBuffer<float>(channels, bufferSize)` does not clear them;
      the model takes them to be zero, as it does any uninitialised memory. */
  function ZeroChannels(n: nat, size: int): (c: seq<seq<Byte>>)
    requires size >= 0
    ensures |c| == n && forall i :: 0 <= i < n ==> c[i] == Zeros(4 * size)
  {
    seq(n, _ => Zeros(4 * size))
  }

  /** The rest of Prepare on session s, whose sample rate and buffer size
      are already the new ones: the buffer is set up, then the plugin is
      prepared. None when the buffer size is negative and a buffer must be
      built. */
  function Prepared(s: Session, enabled: bool, shmSize: Int32, name: seq<Byte>, opens: bool, n: nat): Option<Session>
  {
    var s' := s.(calls := s.calls + [PrepareToPlay(s.sampleRate, s.bufferSize)]);
    if enabled && s.shm.Some? && shmSize == 0 then Some(s')
    else if s.bufferSize < 0 then None
    else if enabled && name != [] && opens then
      Some(s'.(shm := Some(Mapping(name, shmSize)), mapped := true, offsets := Offsets(n, s.bufferSize)))
    else
      Some(s'.(shm := if enabled then None else s.shm, mapped := false, channels := ZeroChannels(n, s.bufferSize)))
  }

  /** What Prepare does to the buffer (and that it prepares the plugin
      once, touching nothing else): undefined exactly for a negative size
      when a buffer is built; a fresh inner buffer of n zeroed channels
      exactly when AllocatesInner holds (dropping a mapping if shared memory
      was enabled); otherwise the mapping kept, or the new mapping with
      channel i at float offset i * bufferSize. */
  lemma {:induction false} PreparedBuffer(s: Session, enabled: bool, shmSize: Int32, name: seq<Byte>, opens: bool, n: nat)
    ensures Prepared(s, enabled, shmSize, name, opens, n).None?
            <==> s.bufferSize < 0 && !(enabled && s.shm.Some? && shmSize == 0)
    ensures var r := Prepared(s, enabled, shmSize, name, opens, n);
            r.Some? && AllocatesInner(enabled, s.shm.Some?, shmSize, name != [], opens) ==>
              && !r.value.mapped && |r.value.channels| == n
              && (forall i :: 0 <= i < n ==> r.value.channels[i] == Zeros(4 * s.bufferSize))
              && r.value.shm == (if enabled then None else s.shm)
    ensures var r := Prepared(s, enabled, shmSize, name, opens, n);
            r.Some? && !AllocatesInner(enabled, s.shm.Some?, shmSize, name != [], opens) ==>
              && r.value.channels == s.channels && r.value.shm.Some?
              && (s.shm.Some? && shmSize == 0 ==> r.value.mapped == s.mapped && r.value.offsets == s.offsets && r.value.shm == s.shm)
              && (s.shm.None? || shmSize != 0 ==>
                    r.value.shm == Some(Mapping(name, shmSize)) && r.value.mapped
                    && forall i :: 0 <= i < n ==> r.value.offsets[i] == i * s.bufferSize)
    ensures var r := Prepared(s, enabled, shmSize, name, opens, n);
            r.Some? ==>
              && r.value.calls == s.calls + [PrepareToPlay(s.sampleRate, s.bufferSize)]
              && r.value.(shm := s.shm, mapped := s.mapped, offsets := s.offsets, channels := s.channels, calls := s.calls) == s
  {
  }

  /** Prepare always leaves a consistent buffer, whatever the session held
      before: without a mapping, every channel of the inner buffer holds
      bufferSize samples. */
  lemma {:induction false} PreparedShaped(s: Session, enabled: bool, shmSize: Int32, name: seq<Byte>, opens: bool, n: nat)
    ensures Prepared(s, enabled, shmSize, name, opens, n).Some? ==> Shaped(Prepared(s, enabled, shmSize, name, opens, n).value)
  {
  }

  /** Without a mapping the audio buffer is the inner one, and each of its
      channels holds bufferSize samples. */
  predicate Shaped(s: Session)
  {
    s.shm.None? ==> !s.mapped && 0 <= s.bufferSize && forall i :: 0 <= i < |s.channels| ==> |s.channels[i]| == 4 * s.bufferSize
  }

  /** ProcessBlock up to the MIDI events: the realtime switch (the plugin is
      told only on a change), the playhead, and the buffer as read. */
  function Received(s: Session, r: BlockRequest): Session
  {
    var t := TransportOf(r.header.flags);
    s.(isRealtime := t.isRealtime,
       calls := s.calls + (if s.isRealtime != t.isRealtime then [SetNonRealtime(!t.isRealtime)] else []),
       position := Position(t.isPlaying, t.isLooping, t.isRecording, r.header.bpm, r.header.timeInSamples),
       channels := r.channels)
  }

  /** processBlock: the plugin renders the inner buffer; a mapped buffer is
      the parent's shared memory, which the model does not hold. */
  function Rendered(s: Session, midi: seq<MidiEvent>, f: (seq<seq<Byte>>, seq<MidiEvent>, nat, nat) -> Byte): Session
  {
    s.(calls := s.calls + [ProcessBlock(midi)], channels := if s.mapped then s.channels else Render(s.channels, midi, f))
  }

  /** The reply after processBlock: action 1, then without shared memory
      the first numOutputs channels; None when one is past the buffer. */
  function BlockReply(s: Session, numOutputs: Int8): Option<seq<Byte>>
  {
    if s.shm.Some? then Some([BlockReplyOpcode])
    else
      var out := ChannelBytes(s.channels, numOutputs);
      if out.None? then None else Some([BlockReplyOpcode] + out.value)
  }

  /** What the drain before a reply wrote. */
  function DrainedBytes(buffered: seq<Byte>, pending: map<Int32, Pending>, order: seq<Int32>, drained: bool): seq<Byte>
    requires forall k :: k in order ==> k in pending
  {
    if drained then buffered + ChangeFrames(order, pending) else []
  }

  /** The flags byte of a block request is the playhead's transport state,
      and its realtime bit the session's; the plugin hears of a realtime
      change exactly when the bit differs from before, and processBlock is
      the last call. */
  lemma {:induction false} ReceivedTransport(s: Session, r: BlockRequest, t: Transport, f: (seq<seq<Byte>>, seq<MidiEvent>, nat, nat) -> Byte)
    requires r.header.flags == FlagsOf(t)
    ensures var s' := Rendered(Received(s, r), r.midi, f);
      && s'.position == Position(t.isPlaying, t.isLooping, t.isRecording, r.header.bpm, r.header.timeInSamples)
      && s'.isRealtime == t.isRealtime
      && s'.calls == s.calls + (if s.isRealtime != t.isRealtime then [SetNonRealtime(!t.isRealtime)] else []) + [ProcessBlock(r.midi)]
  {
    TransportRoundTrip(t);
  }

  /** A block keeps the buffer consistent when the request's channels have
      the buffer's shape (as ParseBlock guarantees). */
  lemma {:induction false} ReceivedShaped(s: Session, r: BlockRequest)
    requires Shaped(s) && |r.channels| == |s.channels|
    requires forall j :: 0 <= j < |s.channels| ==> |r.channels[j]| == |s.channels[j]|
    ensures Shaped(Received(s, r))
  {
  }

  lemma {:induction false} RenderedShaped(s: Session, midi: seq<MidiEvent>, f: (seq<seq<Byte>>, seq<MidiEvent>, nat, nat) -> Byte)
    requires Shaped(s)
    ensures Shaped(Rendered(s, midi, f))
  {
  }

  /** Without shared memory the parent receives exactly numOutputs channels
      of bufferSize floats after the action byte, or nothing is defined. */
  lemma {:induction false} BlockReplySize(s: Session, numOutputs: Int8)
    requires Shaped(s) && s.shm.None?
    ensures BlockReply(s, numOutputs).Some? <==> numOutputs <= |s.channels|
    ensures BlockReply(s, numOutputs).Some? ==>
              |BlockReply(s, numOutputs).value| == 1 + (if numOutputs <= 0 then 0 else numOutputs * (4 * s.bufferSize))
  {
    if 0 < numOutputs <= |s.channels| {
      FlattenLength(s.channels[..numOutputs], 4 * s.bufferSize);
    }
  }

  lemma {:induction false} FlattenLength(ss: seq<seq<Byte>>, m: nat)
    requires forall i :: 0 <= i < |ss| ==> |ss[i]| == m
    ensures |Flatten(ss)| == |ss| * m
    decreases |ss|
  {
    if ss != [] {
      FlattenLength(ss[1..], m);
    }
  }

  /** in >> flags >> bpm >> midiEvents, then readVarLong. */
  method ReadBlockHeaderFrom(input: InputStream) returns (h: BlockHeader)
    requires input.Valid()
    modifies input
    ensures old(input.pos) <= input.pos
    ensures input.Valid() && (h, input.Remaining()) == ParseBlockHeader(old(input.Remaining()))
  {
    var f := ReadFixedFrom(input, Zeros(1));
    var b := ReadFixedFrom(input, Zeros(8));
    var m := ReadFixedFrom(input, Zeros(2));
    var time := ReadVarLongFrom(input);
    var bpm: Float64 := b;
    h := BlockHeader(Int8Of(f), bpm, Int16Of(m), time);
  }

  /** readArray into channels 0 .. n-1 of chs; false when a channel index
      is past the buffer. */
  method FillFrom(input: InputStream, chs: seq<seq<Byte>>, n: int) returns (ok: bool, r: seq<seq<Byte>>)
    requires input.Valid()
    modifies input
    ensures old(input.pos) <= input.pos
    ensures input.Valid()
    ensures ok <==> FillChannels(old(input.Remaining()), chs, 0, n).Some?
    ensures ok ==> (r, input.Remaining()) == FillChannels(old(input.Remaining()), chs, 0, n).value
  {
    r := chs;
    var i: int := 0;
    while i < n
      invariant input.Valid() && 0 <= i && (i <= n || i == 0) && old(input.pos) <= input.pos
      invariant FillChannels(old(input.Remaining()), chs, 0, n) == FillChannels(input.Remaining(), r, i, n)
      decreases n - i
    {
      if i >= |r| {
        return false, r;
      }
      var c := ReadFixedFrom(input, r[i]);
      r := r[i := c];
      i := i + 1;
    }
    ok := true;
  }

  /** One MIDI event: int data, then short time, into fresh locals; done
      are the events read before it, count those still to read. */
  method ReadMidiEvent(input: InputStream, ghost done: seq<MidiEvent>, ghost count: int) returns (e: MidiEvent)
    requires input.Valid() && count > 0
    modifies input
    ensures old(input.pos) <= input.pos
    ensures input.Valid()
    ensures (done + ParseMidi(old(input.Remaining()), count).0, ParseMidi(old(input.Remaining()), count).1)
      == (done + [e] + ParseMidi(input.Remaining(), count - 1).0, ParseMidi(input.Remaining(), count - 1).1)
  {
    ghost var s := input.Remaining();
    var d := ReadFixedFrom(input, Zeros(4));
    var t := ReadFixedFrom(input, Zeros(2));
    e := MidiEvent(MidiOfWord(Int32Of(d)), Int16Of(t));
    ParseMidiAppend(done, s, count);
  }

  /** The MIDI events, count times; a non-positive count reads nothing. */
  method ReadMidiFrom(input: InputStream, count: Int16) returns (events: seq<MidiEvent>)
    requires input.Valid()
    modifies input
    ensures old(input.pos) <= input.pos
    ensures input.Valid() && (events, input.Remaining()) == ParseMidi(old(input.Remaining()), count)
  {
    var left: int := count;
    events := [];
    ghost var whole := ParseMidi(input.Remaining(), left);
    assert [] + whole.0 == whole.0;
    while left > 0
      invariant input.Valid() && old(input.pos) <= input.pos
      invariant whole == (events + ParseMidi(input.Remaining(), left).0, ParseMidi(input.Remaining(), left).1)
    {
      var e := ReadMidiEvent(input, events, left);
      events := events + [e];
      left := left - 1;
    }
    ParseMidiDone(events, input.Remaining(), left);
  }

  /** writeArray of channels 0 .. n-1; false when one is past the buffer. */
  method WriteChannels(output: OutputStream, chs: seq<seq<Byte>>, n: int) returns (ok: bool)
    requires output.Valid()
    modifies output
    ensures output.Valid() && output.flushed == old(output.flushed)
    ensures ok <==> ChannelBytes(chs, n).Some?
    ensures ok ==> output.bytes == old(output.bytes) + ChannelBytes(chs, n).value
  {
    var i := 0;
    while i < n
      invariant output.Valid() && output.flushed == old(output.flushed)
      invariant 0 <= i && (i <= n || i == 0) && i <= |chs|
      invariant output.bytes == old(output.bytes) + Flatten(chs[..i])
      decreases n - i
    {
      if i >= |chs| {
        return false;
      }
      output.Write(chs[i]);
      FlattenSnoc(chs, i);
      Concat3(old(output.bytes), Flatten(chs[..i]), chs[i]);
      i := i + 1;
    }
    ok := n <= |chs|;
    assert n <= 0 ==> i == 0 && chs[..i] == [];
  }

  /** The channel counts and input channels of a block request, as read
      after the header: (numOutputs, buffer, rest); None when an input
      channel is past the buffer. */
  function ReadInputsSpec(s: seq<Byte>, hasShm: bool, chs: seq<seq<Byte>>): Option<(Int8, seq<seq<Byte>>, seq<Byte>)>
  {
    if hasShm then Some((0, chs, s))
    else
      var (ni, s1) := ReadFixed(s, Zeros(1));
      var (no, s2) := ReadFixed(s1, Zeros(1));
      var filled := FillChannels(s2, chs, 0, Int8Of(ni));
      if filled.None? then None else Some((Int8Of(no), filled.value.0, filled.value.1))
  }

  /** ParseBlock is the header, then ReadInputsSpec, then the events. */
  lemma {:induction false} ParseBlockInputs(s: seq<Byte>, hasShm: bool, chs: seq<seq<Byte>>, h: BlockHeader, s1: seq<Byte>)
    requires ParseBlockHeader(s) == (h, s1)
    ensures var inputs := ReadInputsSpec(s1, hasShm, chs);
      && (ParseBlock(s, hasShm, chs).None? <==> inputs.None?)
      && (inputs.Some? ==>
            ParseBlock(s, hasShm, chs).value
              == (BlockRequest(h, inputs.value.0, inputs.value.1, ParseMidi(inputs.value.2, h.midiEvents).0), ParseMidi(inputs.value.2, h.midiEvents).1))
  {
  }

  // ---------------------------------------------------------------------
  // Listener callbacks between commands
  // ---------------------------------------------------------------------

  /** The bytes the callbacks leave in the host buffer: [2, shouldStartPlaying]
      for each transportPlay that got the lock. */
  function HostEvents(cbs: seq<Callback>): seq<Byte>
  {
    if cbs == [] then [] else HostEvents(cbs[..|cbs| - 1]) + EventOf(cbs[|cbs| - 1])
  }

  /** What one callback buffers. */
  function EventOf(cb: Callback): seq<Byte>
  {
    match cb
    case TransportPlayCall(play, true) => [TransportPlayOpcode, BoolByte(play)]
    case _ => []
  }

  /** The coalescer after the parameter callbacks, in order. */
  function ChangesAfter(c: Coalescer, cbs: seq<Callback>): Coalescer
  {
    if cbs == [] then c else ChangeOf(ChangesAfter(c, cbs[..|cbs| - 1]), cbs[|cbs| - 1])
  }

  /** What one callback does to the coalescer. */
  function ChangeOf(c: Coalescer, cb: Callback): Coalescer
  {
    match cb
    case ParameterChangedCall(index, value, now, locked) => Changed(c, index, value, now, locked)
    case _ => c
  }

  lemma {:induction false} CallbacksSnoc(c: Coalescer, cbs: seq<Callback>, i: nat)
    requires i < |cbs|
    ensures HostEvents(cbs[..i + 1]) == HostEvents(cbs[..i]) + EventOf(cbs[i])
    ensures ChangesAfter(c, cbs[..i + 1]) == ChangeOf(ChangesAfter(c, cbs[..i]), cbs[i])
  {
    assert cbs[..i + 1][..i] == cbs[..i];
  }

  /** The parent reads the buffered host events as (2, bool) pairs: every
      even position holds the transportPlay opcode, every odd one 0 or 1. */
  lemma {:induction false} HostEventsPairs(cbs: seq<Callback>)
    ensures |HostEvents(cbs)| % 2 == 0
    ensures forall k :: 0 <= k < |HostEvents(cbs)| && k % 2 == 0 ==> HostEvents(cbs)[k] == TransportPlayOpcode
    ensures forall k :: 0 <= k < |HostEvents(cbs)| && k % 2 == 1 ==> HostEvents(cbs)[k] <= 1
    decreases |cbs|
  {
    if cbs != [] {
      HostEventsPairs(cbs[..|cbs| - 1]);
    }
  }

  /** However the callbacks interleave, every pending value stays the latest
      value seen for its index. */
  lemma {:induction false} ChangesAfterCoherent(c: Coalescer, cbs: seq<Callback>)
    requires Coherent(c)
    ensures Coherent(ChangesAfter(c, cbs))
    decreases |cbs|
  {
    if cbs != [] {
      var c' := ChangesAfter(c, cbs[..|cbs| - 1]);
      ChangesAfterCoherent(c, cbs[..|cbs| - 1]);
      match cbs[|cbs| - 1]
      case ParameterChangedCall(index, value, now, locked) =>
        ChangedKeepsCoherent(c', index, value, now, locked);
      case _ =>
    }
  }

  // ---------------------------------------------------------------------
  // The command loop and start-up
  // ---------------------------------------------------------------------

  /** `in.read(id) == 1`: one byte, read as int8; false at the end of the
      input, which then stays as it was. */
  method ReadOpcodeFrom(input: InputStream) returns (ok: bool, id: Int8)
    requires input.Valid()
    modifies input
    ensures input.Valid() && old(input.pos) <= input.pos
    ensures ok <==> old(input.Remaining()) != []
    ensures ok ==> id == Int8Of(old(input.Remaining())[..1]) && input.Remaining() == old(input.Remaining())[1..]
                   && old(input.pos) < input.pos
    ensures !ok ==> input.Remaining() == old(input.Remaining())
  {
    var got := input.ReadUpTo(1);
    DropOfRest(input.data, old(input.pos), |got|);
    ok := |got| == 1;
    id := if ok then Int8Of(got) else 0;
  }

  /** How run() ends: quit() after the loop, a return without quit() when
      the message-manager lock was not gained, or undefined behaviour. */
  datatype RunEnd = Quit | Returned | Stuck

  /** What run() carries from one command to the next: the session, the
      parameter coalescer, the buffered host events and the unread input. */
  datatype Snapshot = Snapshot(session: Session, changes: Coalescer, buffered: seq<Byte>, rem: seq<Byte>)

  /** The listener callbacks that ran before a command, applied to a. */
  function AfterCallbacks(a: Snapshot, cbs: seq<Callback>): Snapshot
  {
    a.(changes := ChangesAfter(a.changes, cbs), buffered := a.buffered + HostEvents(cbs))
  }

  /** One command of run(), opcode id, on snapshot a whose unread input
      starts after the opcode byte; name is the memory name and n the
      plugin's channel count. Its outcome, and the snapshot it leaves when
      it continues (a itself otherwise). */
  function Command(a: Snapshot, id: Int8, env: Env, name: seq<Byte>, n: nat): (Outcome, Snapshot)
  {
    var s := a.session;
    if id == 0 then
      if !env.lockGained then (LockNotGained, a)
      else
        var (c, rest) := ParsePrepare(a.rem, s.sampleRate, s.bufferSize);
        var enabled := c.enableSharedMemory;
        var p := Prepared(s.(sampleRate := c.sampleRate, bufferSize := c.bufferSize), enabled, ShmSizeOf(rest, enabled), name, env.shmOpens, n);
        if p.None? then (Undefined, a)
        else (Continue, a.(session := p.value, rem := if enabled then ReadFixed(rest, Zeros(4)).1 else rest))
    else if id == 1 then
      var p := ParseBlock(a.rem, s.shm.Some?, s.channels);
      if p.None? then (Undefined, a)
      else
        var (r, rest) := p.value;
        var s' := Rendered(Received(s, r), r.midi, env.process);
        if BlockReply(s', r.numOutputs).None? then (Undefined, a)
        else
          var drained := (a.buffered != [] || a.changes.pending != map[]) && env.tryLock;
          (Continue, Snapshot(s', a.changes.(pending := if drained then NotDue(a.changes.pending, env.now) else a.changes.pending),
                              if drained then [] else a.buffered, rest))
    else if id == 3 || id == 4 then
      if !env.lockGained then (LockNotGained, a)
      else
        var d := DecodeString(a.rem);
        if d.None? then (Undefined, a)
        else
          DecodeStringSize(a.rem);
          var call := if id == 3 then SaveState(d.value.value) else LoadState(d.value.value);
          (Continue, a.(session := s.(calls := s.calls + [call]), rem := a.rem[d.value.size..]))
    else (Continue, a.(session := s.(calls := s.calls + (if id == 2 then [ToggleEditor] else []))))
  }

  /** Every pass recorded in trace but the last ran a command that
      continued, from each snapshot to the next. */
  ghost predicate Continued(trace: seq<Snapshot>, envs: nat -> Env, name: seq<Byte>, n: nat)
  {
    forall k :: 0 <= k < |trace| - 1 ==> Step(trace[k], envs(k), name, n) == Some((Continue, trace[k + 1]))
  }

  lemma {:induction false} ContinuedSnoc(trace: seq<Snapshot>, envs: nat -> Env, name: seq<Byte>, n: nat, b: Snapshot)
    requires 0 < |trace| && Continued(trace, envs, name, n)
    requires Step(trace[|trace| - 1], envs(|trace| - 1), name, n) == Some((Continue, b))
    ensures Continued(trace + [b], envs, name, n)
  {
    var t := trace + [b];
    forall k | 0 <= k < |t| - 1
      ensures Step(t[k], envs(k), name, n) == Some((Continue, t[k + 1]))
    {
      if k < |trace| - 1 {
        assert t[k] == trace[k] && t[k + 1] == trace[k + 1];
      }
    }
  }

  /** One pass of run()'s loop from snapshot a: the callbacks, then None
      when the loop stops before a command (the host buffer overran, the
      thread was told to exit, or the opcode read failed), otherwise the
      command read. */
  function Step(a: Snapshot, env: Env, name: seq<Byte>, n: nat): Option<(Outcome, Snapshot)>
  {
    var b := AfterCallbacks(a, env.callbacks);
    if |b.buffered| > HostBufferSize || env.shouldExit || b.rem == [] then None
    else Some(Command(b.(rem := b.rem[1..]), Int8Of(b.rem[..1]), env, name, n))
  }

  /** One parameter descriptor of writeInitInfomation: flags, default value,
      category, number of steps, name, label and value strings. */
  method WriteParameter(output: OutputStream, p: ParameterInfo)
    requires output.Valid()
    modifies output
    ensures output.Valid() && output.bytes == old(output.bytes) + ParameterBytes(p)
    ensures output.flushed == old(output.flushed)
  {
    var flags, category, steps := LittleEndian(ParameterFlags(p), 1), LittleEndian(p.category, 4), LittleEndian(p.numSteps, 4);
    ghost var b0 := output.bytes;
    output.Write(flags);
    output.Write(p.defaultValue);
    Concat3(b0, flags, p.defaultValue);
    output.Write(category);
    Concat3(b0, flags + p.defaultValue, category);
    output.Write(steps);
    Concat3(b0, flags + p.defaultValue + category, steps);
    output.WriteString(p.name);
    Concat3(b0, flags + p.defaultValue + category + steps, StringBytes(p.name));
    output.WriteString(p.unitLabel);
    Concat3(b0, flags + p.defaultValue + category + steps + StringBytes(p.name), StringBytes(p.unitLabel));
    output.WriteStringArray(p.valueStrings);
    Concat3(b0, flags + p.defaultValue + category + steps + StringBytes(p.name) + StringBytes(p.unitLabel),
            StringArrayBytes(p.valueStrings));
  }

  /** A command-line value "#" means: read the value from stdin. */
  const StdinMarker: seq<Byte> := [0x23]

  /** The shared-memory size Prepare reads after the command: the raw int
      when shared memory is enabled, 0 (nothing read) otherwise. */
  function ShmSizeOf(rest: seq<Byte>, enabled: bool): Int32
  {
    if enabled then Int32Of(ReadFixed(rest, Zeros(4)).0) else 0
  }

  /** The value of the -L or -P option: the option itself, or the string
      read from stdin when it is "#" (None for a negative length), with
      what is left of stdin. */
  function ArgumentValue(s: seq<Byte>, arg: seq<Byte>): Option<(seq<Byte>, seq<Byte>)>
  {
    if arg != StdinMarker then Some((arg, s))
    else
      match DecodeString(s)
      case None => None
      case Some(d) => DecodeStringSize(s); Some((d.value, s[d.size..]))
  }

  /** readString for "#", or the option itself. */
  method ReadArgument(input: InputStream, arg: seq<Byte>) returns (r: Option<seq<Byte>>)
    requires input.Valid()
    modifies input
    ensures input.Valid() && old(input.pos) <= input.pos
    ensures r.None? <==> ArgumentValue(old(input.Remaining()), arg).None?
    ensures r.Some? ==> (r.value, input.Remaining()) == ArgumentValue(old(input.Remaining()), arg).value
  {
    if arg != StdinMarker {
      return Some(arg);
    }
    r := ReadStringFrom(input);
  }

  /** How initialise() ends when nothing undefined happens. */
  datatype Start = Started | LoadFailed

  /** The -P option: no call without it; otherwise loadState on the path
      (read from stdin when it is "#"), with what is left of stdin. */
  function Preset(s: seq<Byte>, presetArg: Option<seq<Byte>>): Option<(seq<PluginCall>, seq<Byte>)>
  {
    if presetArg.None? then Some(([], s))
    else
      match ArgumentValue(s, presetArg.value)
      case None => None
      case Some((path, rest)) => Some(([LoadState(path)], rest))
  }

  /** initialise(): the byte-order word; the plugin description, read from
      stdin when -L is "#"; on a load error the error frame and nothing else;
      otherwise the preset, then the InitInfo frame. The result holds how it
      ends, what it writes, what it asks of the plugin and what is left of
      stdin; None when a string read from stdin has a negative length. */
  function Initialised(s: seq<Byte>, loadArg: seq<Byte>, presetArg: Option<seq<Byte>>, error: seq<Byte>, p: Plugin)
    : Option<(Start, seq<Byte>, seq<PluginCall>, seq<Byte>)>
  {
    match ArgumentValue(s, loadArg)
    case None => None
    case Some((_, s1)) =>
      if error != [] then Some((LoadFailed, ByteOrderMessage() + ErrorFrame(error), [], s1))
      else
        match Preset(s1, presetArg)
        case None => None
        case Some((calls, s2)) =>
          Some((Started, ByteOrderMessage() + InitInfoFrame(p.numInputs, p.numOutputs, p.parameters), calls, s2))
  }

  /** With both values sent on stdin, the description and the preset path
      are consumed exactly, the preset is loaded from that path, and the
      parent receives the byte-order word and InitInfo. */
  lemma {:induction false} InitialisedFromStdin(json: seq<Byte>, path: seq<Byte>, rest: seq<Byte>, p: Plugin)
    requires NoNul(json) && |json| < OverflowingLength && NoNul(path) && |path| < OverflowingLength
    ensures Initialised(StringBytes(json) + StringBytes(path) + rest, StdinMarker, Some(StdinMarker), [], p)
              == Some((Started, ByteOrderMessage() + InitInfoFrame(p.numInputs, p.numOutputs, p.parameters), [LoadState(path)], rest))
  {
    Concat3(StringBytes(json), StringBytes(path), rest);
    StringRoundTrip(json, StringBytes(path) + rest);
    StringRoundTrip(path, rest);
    assert (StringBytes(json) + (StringBytes(path) + rest))[|StringBytes(json)|..] == StringBytes(path) + rest;
    assert (StringBytes(path) + rest)[|StringBytes(path)|..] == rest;
  }

  /** A load error reaches the parent as the error frame right after the
      byte-order word, and the plugin is asked nothing. */
  lemma {:induction false} LoadErrorReported(s: seq<Byte>, loadArg: seq<Byte>, presetArg: Option<seq<Byte>>, error: seq<Byte>, p: Plugin)
    requires NoNul(error) && 0 < |error| < OverflowingLength
    requires ArgumentValue(s, loadArg).Some?
    ensures var r := Initialised(s, loadArg, presetArg, error, p);
      && r.Some? && r.value.0 == LoadFailed && r.value.2 == []
      && r.value.1[..2] == ByteOrderMessage() && DecodeErrorFrame(r.value.1[2..]) == Some(error)
  {
    var out := ByteOrderMessage() + ErrorFrame(error);
    ByteOrderMessageValue();
    ErrorFrameRoundTrip(error, []);
    assert out[2..] == ErrorFrame(error) + [];
  }

  class Host {
    const input: InputStream
    const output: OutputStream
    const plugin: Plugin
    /** The -M option: the shared-memory name, possibly empty. */
    const memoryName: seq<Byte>
    const hostBuffer: array<Byte>

    var isRealtime: bool
    var sampleRate: Int32
    var bufferSize: Int32
    var shm: Option<Mapping>
    /** The inner buffer's channels, 4 bytes per sample. */
    var channels: seq<seq<Byte>>
    /** Whether the audio buffer refers to the mapping rather than to channels. */
    var mapped: bool
    /** Float offset of each channel in the mapping. */
    var offsets: seq<int>
    var position: Position
    var prev: map<Int32, Float32>
    var pending: map<Int32, Pending>
    var hostBufferPos: nat
    /** Set when writeToHostBuffer would have written past the array. */
    var overrun: bool
    var calls: seq<PluginCall>

    ghost predicate Valid()
      reads this, input, output
    {
      Ready() && Shaped(State())
    }

    /** Valid but for the buffer shape, which Prepare re-establishes. */
    ghost predicate Ready()
      reads this, input, output
    {
      && input.Valid() && output.Valid()
      && hostBuffer.Length == HostBufferSize && hostBufferPos <= HostBufferSize
      && Coherent(Changes())
    }

    function State(): Session
      reads this
    {
      Session(isRealtime, sampleRate, bufferSize, shm, channels, mapped, offsets, position, calls)
    }

    function Changes(): Coalescer
      reads this
    {
      Coalescer(prev, pending)
    }

    /** The host-event bytes waiting for the next block reply. */
    function Buffered(): seq<Byte>
      reads this, hostBuffer
      requires hostBufferPos <= hostBuffer.Length
    {
      hostBuffer[..hostBufferPos]
    }

    /** What run() carries between commands, as a value. */
    function Snap(): Snapshot
      reads this, hostBuffer, input
      requires hostBufferPos <= hostBuffer.Length && input.Valid()
    {
      Snapshot(State(), Changes(), Buffered(), input.Remaining())
    }

    constructor (input: InputStream, output: OutputStream, plugin: Plugin, memoryName: seq<Byte>)
      requires input.Valid() && output.Valid()
      ensures Valid() && fresh(hostBuffer)
      ensures this.input == input && this.output == output && this.plugin == plugin && this.memoryName == memoryName
      ensures State() == Session(true, 48000, 1024, None, [], false, [], Position(false, false, false, Zeros(8), 0), [])
      ensures Changes() == Coalescer(map[], map[]) && Buffered() == [] && !overrun
    {
      this.input := input;
      this.output := output;
      this.plugin := plugin;
      this.memoryName := memoryName;
      hostBuffer := new Byte[HostBufferSize](_ => 0);
      isRealtime := true;
      sampleRate := 48000;
      bufferSize := 1024;
      shm := None;
      channels := [];
      mapped := false;
      offsets := [];
      position := Position(false, false, false, Zeros(8), 0);
      prev := map[];
      pending := map[];
      hostBufferPos := 0;
      overrun := false;
      calls := [];
    }

    /** writeToHostBuffer: the bytes of the value at hostBufferPos, one at a
        time. Nothing checks the capacity; writing past the array is
        undefined behaviour, recorded in overrun. */
    method WriteToHostBuffer(data: seq<Byte>)
      requires Valid()
      modifies this, hostBuffer
      ensures Valid() && State() == old(State()) && Changes() == old(Changes())
      ensures old(hostBufferPos) + |data| <= HostBufferSize ==>
                Buffered() == old(Buffered()) + data && overrun == old(overrun)
      ensures old(hostBufferPos) + |data| > HostBufferSize ==> overrun
    {
      var i := 0;
      while i < |data|
        invariant 0 <= i <= |data| && hostBufferPos == old(hostBufferPos) + i <= HostBufferSize
        invariant hostBuffer[..hostBufferPos] == old(Buffered()) + data[..i]
        invariant State() == old(State()) && Changes() == old(Changes()) && overrun == old(overrun)
      {
        if hostBufferPos == HostBufferSize {
          overrun := true;
          return;
        }
        hostBuffer[hostBufferPos] := data[i];
        hostBufferPos := hostBufferPos + 1;
        i := i + 1;
        assert hostBuffer[..hostBufferPos] == hostBuffer[..hostBufferPos - 1] + [data[i - 1]];
      }
      assert data[..i] == data;
    }

    /** transportPlay: when the lock is free, the event [2, shouldStartPlaying]
        is buffered for the parent; otherwise nothing happens. */
    method TransportPlay(shouldStartPlaying: bool, locked: bool)
      requires Valid()
      modifies this, hostBuffer
      ensures Valid() && State() == old(State()) && Changes() == old(Changes())
      ensures !locked ==> Buffered() == old(Buffered()) && overrun == old(overrun)
      ensures locked && old(hostBufferPos) + 2 <= HostBufferSize ==>
                Buffered() == old(Buffered()) + [TransportPlayOpcode, BoolByte(shouldStartPlaying)] && overrun == old(overrun)
      ensures locked && old(hostBufferPos) + 2 > HostBufferSize ==> overrun
    {
      if !locked {
        return;
      }
      WriteToHostBuffer([TransportPlayOpcode]);
      WriteToHostBuffer([BoolByte(shouldStartPlaying)]);
    }

    /** audioProcessorParameterChanged, with the last value winning. The
        lookup in the guard inserts a 0.0f entry for a new index. */
    method ParameterChanged(index: Int32, value: Float32, now: nat, locked: bool)
      requires Valid()
      modifies this
      ensures Valid() && State() == old(State()) && Buffered() == old(Buffered()) && overrun == old(overrun)
      ensures Changes() == Changed(old(Changes()), index, value, now, locked)
    {
      ghost var c := Changes();
      ChangedKeepsCoherent(c, index, value, now, locked);
      var last: Float32 := if index in prev then prev[index] else ZeroFloat;
      assert last == LastSeen(c.prev, index);
      prev := prev[index := last];
      assert prev == Touch(c.prev, index);
      if last == value || !locked {
        return;
      }
      prev := prev[index := value];
      assert prev == c.prev[index := value];
      pending := pending[index := Pending(value, now + DebounceMs)];
    }

    /** writeAllParameterChanges: every entry due by now is written once and
        erased; the others stay. The map's iteration order is unspecified and
        returned as order. */
    method WriteAllParameterChanges(now: nat) returns (order: seq<Int32>)
      requires Valid()
      modifies this, output
      ensures Valid() && State() == old(State()) && Buffered() == old(Buffered()) && overrun == old(overrun)
      ensures prev == old(prev) && pending == NotDue(old(pending), now)
      ensures forall k :: k in order <==> k in old(pending) && old(pending)[k].due <= now
      ensures Distinct(order)
      ensures output.bytes == old(output.bytes) + ChangeFrames(order, old(pending))
      ensures output.flushed == old(output.flushed)
    {
      var remaining;
      remaining, order := FlushDue(output, pending, now);
      FlushKeepsCoherent(Changes(), now);
      pending := remaining;
    }
    /** The drain before each block reply: when there is something to send
        and the lock is free, the buffered host events verbatim, then the
        due parameter changes. */
    method Drain(locked: bool, now: nat) returns (drained: bool, order: seq<Int32>)
      requires Valid()
      modifies this, output
      ensures Valid() && State() == old(State()) && prev == old(prev) && overrun == old(overrun)
      ensures drained == ((old(hostBufferPos) > 0 || old(pending) != map[]) && locked)
      ensures !drained ==> output.bytes == old(output.bytes) && pending == old(pending)
                           && Buffered() == old(Buffered()) && order == []
      ensures drained ==>
                && (forall k :: k in order <==> k in old(pending) && old(pending)[k].due <= now)
                && Distinct(order)
                && output.bytes == old(output.bytes) + old(Buffered()) + ChangeFrames(order, old(pending))
                && Buffered() == [] && pending == NotDue(old(pending), now)
      ensures output.flushed == old(output.flushed)
    {
      order := [];
      var hasChanges := pending != map[];
      drained := (hostBufferPos > 0 || hasChanges) && locked;
      if !drained {
        return;
      }
      if hostBufferPos > 0 {
        output.Write(hostBuffer[..hostBufferPos]);
        hostBufferPos := 0;
      }
      if hasChanges {
        order := WriteAllParameterChanges(now);
      } else {
        assert pending == NotDue(pending, now);
      }
    }

    /** max(inputs, outputs): the channels of the audio buffer. */
    function ChannelCount(): nat
    {
      if plugin.numInputs >= plugin.numOutputs then plugin.numInputs else plugin.numOutputs
    }

    /** The buffer set-up of Prepare, branch by branch, then prepareToPlay. */
    method SetUpBuffer(enabled: bool, shmSize: Int32, opens: bool) returns (outcome: Outcome)
      modifies this
      ensures outcome != LockNotGained
      ensures outcome == Undefined <==> Prepared(old(State()), enabled, shmSize, memoryName, opens, ChannelCount()).None?
      ensures outcome == Continue ==> Shaped(State()) && State() == Prepared(old(State()), enabled, shmSize, memoryName, opens, ChannelCount()).value
      ensures hostBufferPos == old(hostBufferPos) && Changes() == old(Changes()) && overrun == old(overrun)
    {
      var n := ChannelCount();
      PreparedShaped(State(), enabled, shmSize, memoryName, opens, n);
      if enabled && shm.Some? && shmSize == 0 {
        // the existing mapping is kept
      } else if bufferSize < 0 {
        return Undefined;
      } else if enabled && memoryName != [] && opens {
        shm := Some(Mapping(memoryName, shmSize));
        offsets := MapChannels(n, bufferSize);
        mapped := true;
      } else {
        if enabled {
          shm := None;
        }
        channels := ZeroChannels(n, bufferSize);
        mapped := false;
      }
      calls := calls + [PrepareToPlay(sampleRate, bufferSize)];
      outcome := Continue;
    }

    /** The head of Prepare: the sample rate and buffer size are read
        straight into the fields, then the shared-memory switch. */
    method ReadPrepare() returns (command: PrepareCommand)
      requires Valid()
      modifies this, input
      ensures old(input.pos) <= input.pos
      ensures Ready()
      ensures (command, input.Remaining()) == ParsePrepare(old(input.Remaining()), old(sampleRate), old(bufferSize))
      ensures State() == old(State()).(sampleRate := command.sampleRate, bufferSize := command.bufferSize)
      ensures hostBufferPos == old(hostBufferPos) && Changes() == old(Changes()) && overrun == old(overrun)
      ensures Buffered() == old(Buffered())
    {
      var sr := ReadFixedFrom(input, LittleEndian(sampleRate, 4));
      sampleRate := Int32Of(sr);
      var bs := ReadFixedFrom(input, LittleEndian(bufferSize, 4));
      bufferSize := Int32Of(bs);
      var enabled := ReadBoolFrom(input);
      command := PrepareCommand(sampleRate, bufferSize, enabled);
    }

    /** The shared-memory size, read only when shared memory is enabled. */
    method ReadShmSize(enabled: bool) returns (shmSize: Int32)
      requires input.Valid()
      modifies input
      ensures old(input.pos) <= input.pos
      ensures input.Valid()
      ensures enabled ==> (shmSize, input.Remaining()) == (Int32Of(ReadFixed(old(input.Remaining()), Zeros(4)).0), ReadFixed(old(input.Remaining()), Zeros(4)).1)
      ensures !enabled ==> shmSize == 0 && input.Remaining() == old(input.Remaining())
    {
      shmSize := 0;
      if enabled {
        var b := ReadFixedFrom(input, Zeros(4));
        shmSize := Int32Of(b);
      }
    }

    /** Prepare (opcode 0). The sample rate and buffer size are read into the
        fields; without the message-manager lock run() returns; with shared
        memory enabled its size is read next; then the buffer is set up and
        the plugin prepared. */
    method Prepare(env: Env) returns (outcome: Outcome, command: PrepareCommand, shmSize: Int32)
      requires Valid()
      modifies this, input
      ensures old(input.pos) <= input.pos
      ensures input.Valid() && hostBufferPos <= hostBuffer.Length
      ensures outcome == Continue ==> Valid()
      ensures var (c, rest) := ParsePrepare(old(input.Remaining()), old(sampleRate), old(bufferSize));
              && command == c
              && (env.lockGained && c.enableSharedMemory ==> (shmSize, input.Remaining()) == (Int32Of(ReadFixed(rest, Zeros(4)).0), ReadFixed(rest, Zeros(4)).1))
              && (!(env.lockGained && c.enableSharedMemory) ==> input.Remaining() == rest)
              && (env.lockGained ==> shmSize == ShmSizeOf(rest, c.enableSharedMemory))
      ensures outcome == LockNotGained <==> !env.lockGained
      ensures var s := old(State()).(sampleRate := command.sampleRate, bufferSize := command.bufferSize);
              && (!env.lockGained ==> State() == s)
              && (env.lockGained ==> (outcome == Undefined <==> Prepared(s, command.enableSharedMemory, shmSize, memoryName, env.shmOpens, ChannelCount()).None?))
              && (outcome == Continue ==> State() == Prepared(s, command.enableSharedMemory, shmSize, memoryName, env.shmOpens, ChannelCount()).value)
      ensures Changes() == old(Changes()) && Buffered() == old(Buffered()) && overrun == old(overrun)
    {
      command := ReadPrepare();
      if !env.lockGained {
        return LockNotGained, command, 0;
      }
      shmSize := ReadShmSize(command.enableSharedMemory);
      outcome := SetUpBuffer(command.enableSharedMemory, shmSize, env.shmOpens);
    }

    /** The realtime switch and the playhead of a block header. */
    method ApplyHeader(h: BlockHeader)
      requires Valid()
      modifies this
      ensures Valid() && State() == Received(old(State()), BlockRequest(h, 0, old(channels), []))
      ensures shm == old(shm) && channels == old(channels)
      ensures hostBufferPos == old(hostBufferPos) && Changes() == old(Changes()) && overrun == old(overrun)
      ensures Buffered() == old(Buffered())
    {
      var t := TransportOf(h.flags);
      if isRealtime != t.isRealtime {
        calls := calls + [SetNonRealtime(!t.isRealtime)];
        isRealtime := t.isRealtime;
      }
      position := Position(t.isPlaying, t.isLooping, t.isRecording, h.bpm, h.timeInSamples);
    }

    /** Without shared memory: both channel counts, then the input channels
        into the buffer. */
    method ReadInputs() returns (ok: bool, numOutputs: Int8)
      requires Valid()
      modifies this, input
      ensures old(input.pos) <= input.pos
      ensures var filled := ReadInputsSpec(old(input.Remaining()), old(shm).Some?, old(channels));
              && input.Valid() && (ok <==> filled.Some?)
              && (ok ==> Valid() && (numOutputs, channels, input.Remaining()) == filled.value
                         && State() == old(State()).(channels := channels))
      ensures hostBufferPos == old(hostBufferPos) && Changes() == old(Changes()) && overrun == old(overrun)
      ensures Buffered() == old(Buffered())
    {
      numOutputs := 0;
      if shm.Some? {
        return true, numOutputs;
      }
      var ni := ReadFixedFrom(input, Zeros(1));
      var no := ReadFixedFrom(input, Zeros(1));
      numOutputs := Int8Of(no);
      var filled;
      ok, filled := FillFrom(input, channels, Int8Of(ni));
      if ok {
        channels := filled;
      }
    }

    /** ProcessBlock (opcode 1) up to the MIDI events. */
    method ReadBlock() returns (ok: bool, request: BlockRequest)
      requires Valid()
      modifies this, input
      ensures old(input.pos) <= input.pos
      ensures var p := ParseBlock(old(input.Remaining()), old(shm).Some?, old(channels));
              && input.Valid() && (ok <==> p.Some?)
              && (ok ==> Valid() && (request, input.Remaining()) == p.value && State() == Received(old(State()), request))
      ensures hostBufferPos == old(hostBufferPos) && Changes() == old(Changes()) && overrun == old(overrun)
      ensures Buffered() == old(Buffered())
    {
      ghost var s0, shm0, chs0 := input.Remaining(), shm, channels;
      var h := ReadBlockHeaderFrom(input);
      ghost var s1 := input.Remaining();
      ParseBlockInputs(s0, shm0.Some?, chs0, h, s1);
      ApplyHeader(h);
      var numOutputs;
      ok, numOutputs := ReadInputs();
      if !ok {
        return false, BlockRequest(h, numOutputs, channels, []);
      }
      var midi := ReadMidiFrom(input, h.midiEvents);
      request := BlockRequest(h, numOutputs, channels, midi);
    }

    /** processBlock: the plugin renders into the inner buffer unless the
        audio buffer refers to the mapping. */
    method Process(midi: seq<MidiEvent>, process: (seq<seq<Byte>>, seq<MidiEvent>, nat, nat) -> Byte)
      requires Valid()
      modifies this
      ensures Valid() && State() == Rendered(old(State()), midi, process)
      ensures Changes() == old(Changes()) && overrun == old(overrun) && hostBufferPos == old(hostBufferPos)
    {
      ghost var s := State();
      calls := calls + [ProcessBlock(midi)];
      if !mapped {
        channels := Render(channels, midi, process);
      }
      RenderedShaped(s, midi, process);
    }

    /** processBlock on the request's events, then the flushed reply: the
        block opcode and, unless the channels are shared, the output
        channels. */
    method Reply(request: BlockRequest, env: Env) returns (outcome: Outcome)
      requires Valid()
      modifies this, output
      ensures Valid() && outcome != LockNotGained
      ensures State() == Rendered(old(State()), request.midi, env.process)
      ensures outcome == Undefined <==> BlockReply(State(), request.numOutputs).None?
      ensures Changes() == old(Changes()) && overrun == old(overrun)
      ensures hostBufferPos == old(hostBufferPos)
      ensures outcome == Continue ==>
                && output.bytes == old(output.bytes) + BlockReply(State(), request.numOutputs).value
                && output.flushed == |output.bytes|
    {
      Process(request.midi, env.process);
      ghost var before := output.bytes;
      output.Write([BlockReplyOpcode]);
      if shm.None? {
        var ok := WriteChannels(output, channels, request.numOutputs);
        if !ok {
          return Undefined;
        }
        Concat3(before, [BlockReplyOpcode], ChannelBytes(channels, request.numOutputs).value);
      }
      output.Flush();
      outcome := Continue;
    }

    /** ProcessBlock (opcode 1) after the events: the drain of host events,
        then the reply. */
    method Respond(request: BlockRequest, env: Env) returns (outcome: Outcome, drained: bool, order: seq<Int32>)
      requires Valid()
      modifies this, output
      ensures Valid() && outcome != LockNotGained
      ensures State() == Rendered(old(State()), request.midi, env.process)
      ensures outcome == Undefined <==> BlockReply(State(), request.numOutputs).None?
      ensures prev == old(prev) && overrun == old(overrun)
      ensures drained == ((old(hostBufferPos) > 0 || old(pending) != map[]) && env.tryLock)
      ensures forall k :: k in order <==> drained && k in old(pending) && old(pending)[k].due <= env.now
      ensures Distinct(order)
      ensures pending == (if drained then NotDue(old(pending), env.now) else old(pending))
      ensures Buffered() == if drained then [] else old(Buffered())
      ensures outcome == Continue ==>
                && output.bytes == old(output.bytes) + DrainedBytes(old(Buffered()), old(pending), order, drained)
                                   + BlockReply(State(), request.numOutputs).value
                && output.flushed == |output.bytes|
    {
      ghost var buffered, pending0 := Buffered(), pending;
      drained, order := Drain(env.tryLock, env.now);
      assert output.bytes == old(output.bytes) + DrainedBytes(buffered, pending0, order, drained);
      ghost var afterDrain := Buffered();
      outcome := Reply(request, env);
      assert Buffered() == afterDrain;
    }

    /** The listener callbacks that ran since the last command, in order:
        transportPlay buffers its event, audioProcessorParameterChanged
        feeds the coalescer. Nothing else changes. */
    method ApplyCallbacks(cbs: seq<Callback>)
      requires Valid()
      modifies this, hostBuffer
      ensures Valid() && State() == old(State())
      ensures Changes() == ChangesAfter(old(Changes()), cbs)
      ensures old(hostBufferPos) + |HostEvents(cbs)| <= HostBufferSize ==>
                Buffered() == old(Buffered()) + HostEvents(cbs) && overrun == old(overrun)
      ensures old(hostBufferPos) + |HostEvents(cbs)| > HostBufferSize ==> overrun
      decreases |cbs|
    {
      if cbs == [] {
        return;
      }
      var n := |cbs| - 1;
      ApplyCallbacks(cbs[..n]);
      ApplyCallback(cbs[n]);
      CallbacksSnoc(old(Changes()), cbs, n);
      assert cbs[..n + 1] == cbs;
      if old(hostBufferPos) + |HostEvents(cbs)| <= HostBufferSize {
        Concat3(old(Buffered()), HostEvents(cbs[..n]), EventOf(cbs[n]));
      }
    }

    /** One listener callback. */
    method ApplyCallback(cb: Callback)
      requires Valid()
      modifies this, hostBuffer
      ensures Valid() && State() == old(State()) && Changes() == ChangeOf(old(Changes()), cb)
      ensures old(hostBufferPos) + |EventOf(cb)| <= HostBufferSize ==>
                Buffered() == old(Buffered()) + EventOf(cb) && overrun == old(overrun)
      ensures old(hostBufferPos) + |EventOf(cb)| > HostBufferSize ==> overrun
    {
      match cb {
        case TransportPlayCall(play, locked) =>
          TransportPlay(play, locked);
        case ParameterChangedCall(index, value, now, locked) =>
          ParameterChanged(index, value, now, locked);
      }
    }

    /** writeInitInfomation: the InitInfo frame, flushed. */
    method WriteInitInfo()
      requires Valid()
      modifies output
      ensures Valid()
      ensures output.bytes == old(output.bytes) + InitInfoFrame(plugin.numInputs, plugin.numOutputs, plugin.parameters)
      ensures output.flushed == |output.bytes|
    {
      var ps := plugin.parameters;
      var ins, outs := LittleEndian(ToInt8(plugin.numInputs), 1), LittleEndian(ToInt8(plugin.numOutputs), 1);
      ghost var b0 := output.bytes;
      output.Write([InitInfoOpcode]);
      output.Write(ins);
      Concat3(b0, [InitInfoOpcode], ins);
      output.Write(outs);
      Concat3(b0, [InitInfoOpcode] + ins, outs);
      output.WriteVarInt(ToInt32(|ps|));
      ghost var head := [InitInfoOpcode] + ins + outs + VarBytes(ToInt32(|ps|));
      Concat3(b0, [InitInfoOpcode] + ins + outs, VarBytes(ToInt32(|ps|)));
      var i := 0;
      while i < |ps|
        invariant 0 <= i <= |ps| && output.Valid()
        invariant output.bytes == b0 + head + ParametersBytes(ps[..i])
        invariant output.flushed == old(output.flushed)
      {
        WriteParameter(output, ps[i]);
        ParametersBytesSnoc(ps, i);
        Concat3(b0 + head, ParametersBytes(ps[..i]), ParameterBytes(ps[i]));
        i := i + 1;
      }
      assert ps[..i] == ps;
      Concat3(b0, head, ParametersBytes(ps));
      output.Flush();
    }

    /** initialise(): see Initialised. The plugin description and the load
        error are the plugin loader's; the JSON is not interpreted. */
    method Initialise(loadArg: seq<Byte>, presetArg: Option<seq<Byte>>, error: seq<Byte>) returns (ok: bool, start: Start)
      requires Valid()
      modifies this, input, output
      ensures input.Valid() && old(input.pos) <= input.pos
      ensures var r := Initialised(old(input.Remaining()), loadArg, presetArg, error, plugin);
              && (ok <==> r.Some?)
              && (ok ==> && Valid() && start == r.value.0
                         && output.bytes == old(output.bytes) + r.value.1 && output.flushed == |output.bytes|
                         && State() == old(State()).(calls := old(calls) + r.value.2)
                         && input.Remaining() == r.value.3)
      ensures hostBufferPos == old(hostBufferPos) && Changes() == old(Changes()) && Buffered() == old(Buffered())
      ensures overrun == old(overrun)
    {
      ghost var b0 := output.bytes;
      output.WriteByteOrderMessage();
      var desc := ReadArgument(input, loadArg);
      if desc.None? {
        return false, LoadFailed;
      }
      if error != [] {
        output.WriteError(error);
        Concat3(b0, ByteOrderMessage(), ErrorFrame(error));
        return true, LoadFailed;
      }
      ok := LoadPreset(presetArg);
      if !ok {
        return false, Started;
      }
      WriteInitInfo();
      Concat3(b0, ByteOrderMessage(), InitInfoFrame(plugin.numInputs, plugin.numOutputs, plugin.parameters));
      start := Started;
    }

    /** The preset part of initialise(): see Preset. */
    method LoadPreset(presetArg: Option<seq<Byte>>) returns (ok: bool)
      requires Valid()
      modifies this, input
      ensures input.Valid() && old(input.pos) <= input.pos
      ensures var r := Preset(old(input.Remaining()), presetArg);
              && (ok <==> r.Some?)
              && (ok ==> Valid() && calls == old(calls) + r.value.0 && input.Remaining() == r.value.1)
      ensures State().(calls := old(calls)) == old(State())
      ensures hostBufferPos == old(hostBufferPos) && Changes() == old(Changes()) && overrun == old(overrun)
    {
      if presetArg.None? {
        return true;
      }
      var path := ReadArgument(input, presetArg.value);
      if path.None? {
        return false;
      }
      calls := calls + [LoadState(path.value)];
      ok := true;
    }

    /** ProcessBlock (opcode 1): the request is read, then answered; a
        request the decoder refuses is undefined behaviour. */
    method Block(env: Env) returns (outcome: Outcome, request: BlockRequest, drained: bool, order: seq<Int32>)
      requires Valid()
      modifies this, input, output
      ensures input.Valid() && old(input.pos) <= input.pos
      ensures outcome != LockNotGained && overrun == old(overrun) && prev == old(prev)
      ensures var p := ParseBlock(old(input.Remaining()), old(shm).Some?, old(channels));
              && (p.None? ==> outcome == Undefined)
              && (p.Some? ==>
                    && (request, input.Remaining()) == p.value && Valid()
                    && State() == Rendered(Received(old(State()), request), request.midi, env.process)
                    && (outcome == Undefined <==> BlockReply(State(), request.numOutputs).None?)
                    && drained == ((old(hostBufferPos) > 0 || old(pending) != map[]) && env.tryLock)
                    && (forall k :: k in order <==> drained && k in old(pending) && old(pending)[k].due <= env.now)
                    && Distinct(order)
                    && pending == (if drained then NotDue(old(pending), env.now) else old(pending))
                    && Buffered() == (if drained then [] else old(Buffered()))
                    && (outcome == Continue ==>
                          output.bytes == old(output.bytes) + DrainedBytes(old(Buffered()), old(pending), order, drained)
                                          + BlockReply(State(), request.numOutputs).value))
    {
      var ok;
      ok, request := ReadBlock();
      if !ok {
        return Undefined, request, false, [];
      }
      outcome, drained, order := Respond(request, env);
    }

    /** Opcodes 3 and 4: under the message-manager lock, the path is read
        and the plugin state saved to it (3) or loaded from it (4). */
    method StateFile(save: bool, env: Env) returns (outcome: Outcome)
      requires Valid()
      modifies this, input
      ensures input.Valid() && old(input.pos) <= input.pos
      ensures outcome == LockNotGained <==> !env.lockGained
      ensures !env.lockGained ==> Valid() && State() == old(State()) && input.pos == old(input.pos)
      ensures env.lockGained ==>
                var d := DecodeString(old(input.Remaining()));
                && (outcome == Undefined <==> d.None?)
                && (d.Some? ==> && Valid() && outcome == Continue
                                && input.Remaining() == old(input.Remaining())[d.value.size..]
                                && State() == old(State()).(calls := old(calls) + [if save then SaveState(d.value.value) else LoadState(d.value.value)]))
      ensures hostBufferPos == old(hostBufferPos) && Changes() == old(Changes()) && Buffered() == old(Buffered())
      ensures overrun == old(overrun)
    {
      if !env.lockGained {
        return LockNotGained;
      }
      var path := ReadStringFrom(input);
      if path.None? {
        return Undefined;
      }
      calls := calls + [if save then SaveState(path.value) else LoadState(path.value)];
      outcome := Continue;
    }

    /** One command of run(), by opcode; an unknown opcode is skipped. */
    method Dispatch(id: Int8, env: Env) returns (outcome: Outcome)
      requires Valid()
      modifies this, input, output
      ensures input.Valid() && old(input.pos) <= input.pos
      ensures outcome == Continue ==> Valid()
      ensures outcome == LockNotGained <==> (id == 0 || id == 3 || id == 4) && !env.lockGained
      ensures !(0 <= id <= 4) || id == 2 ==>
                && outcome == Continue && input.pos == old(input.pos) && output.bytes == old(output.bytes)
                && State() == old(State()).(calls := old(calls) + (if id == 2 then [ToggleEditor] else []))
                && Changes() == old(Changes()) && Buffered() == old(Buffered())
      ensures id == 0 && env.lockGained ==>
                var (c, rest) := ParsePrepare(old(input.Remaining()), old(sampleRate), old(bufferSize));
                var s := old(State()).(sampleRate := c.sampleRate, bufferSize := c.bufferSize);
                var p := Prepared(s, c.enableSharedMemory, ShmSizeOf(rest, c.enableSharedMemory), memoryName, env.shmOpens, ChannelCount());
                && (outcome == Undefined <==> p.None?)
                && (p.Some? ==> State() == p.value)
      ensures id == 1 ==>
                var p := ParseBlock(old(input.Remaining()), old(shm).Some?, old(channels));
                && (p.None? ==> outcome == Undefined)
                && (p.Some? ==>
                      var s := Rendered(Received(old(State()), p.value.0), p.value.0.midi, env.process);
                      && State() == s && input.Remaining() == p.value.1
                      && (outcome == Undefined <==> BlockReply(s, p.value.0.numOutputs).None?))
      ensures (id == 3 || id == 4) && env.lockGained ==>
                var d := DecodeString(old(input.Remaining()));
                && (outcome == Undefined <==> d.None?)
                && (d.Some? ==> State() == old(State()).(calls := old(calls) + [if id == 3 then SaveState(d.value.value) else LoadState(d.value.value)]))
      ensures var (o, b) := Command(old(Snap()), id, env, memoryName, ChannelCount());
              && outcome == o && (o == Continue ==> Snap() == b)
      ensures overrun == old(overrun)
    {
      if id == 0 {
        var command, shmSize;
        outcome, command, shmSize := Prepare(env);
      } else if id == 1 {
        var request, drained, order;
        outcome, request, drained, order := Block(env);
      } else if id == 2 {
        calls := calls + [ToggleEditor];
        outcome := Continue;
      } else if id == 3 || id == 4 {
        outcome := StateFile(id == 3, env);
      } else {
        outcome := Continue;
      }
    }

    /** run(): until the thread is told to exit or stdin ends, apply the
        callbacks that ran meanwhile, read an opcode and dispatch it;
        envs(k) is what the other threads and collaborators do around the
        k-th command. trace holds the state at the start of each pass, and
        last the outcome of the last command. The loop ends because every
        command consumes its opcode byte. */
    method Run(envs: nat -> Env) returns (end: RunEnd, commands: nat, ghost last: Outcome, ghost trace: seq<Snapshot>)
      requires Valid() && !overrun
      modifies this, input, output, hostBuffer
      ensures end == Quit ==> Valid() && (envs(commands).shouldExit || input.Remaining() == []) && last == Continue
      ensures end == Returned ==> 0 < commands && !envs(commands - 1).lockGained && last == LockNotGained
      ensures end == Stuck ==> overrun || (0 < commands && last == Undefined)
      ensures end != Stuck ==> !overrun
      ensures 0 < |trace| && trace[0] == old(Snap())
      ensures Continued(trace, envs, memoryName, ChannelCount())
      ensures var k := |trace| - 1;
              var after := AfterCallbacks(trace[k], envs(k).callbacks);
              var step := Step(trace[k], envs(k), memoryName, ChannelCount());
              && (end == Quit ==> commands == k && step.None? && |after.buffered| <= HostBufferSize && Snap() == after)
              && (end == Returned ==> commands == k + 1 && step.Some? && step.value.0 == LockNotGained)
              && (end == Stuck ==> (commands == k && |after.buffered| > HostBufferSize)
                                   || (commands == k + 1 && step.Some? && step.value.0 == Undefined))
    {
      commands := 0;
      last := Continue;
      trace := [Snap()];
      while true
        invariant Valid() && !overrun && last == Continue
        invariant |trace| == commands + 1 && trace[0] == old(Snap()) && trace[commands] == Snap()
        invariant Continued(trace, envs, memoryName, ChannelCount())
        decreases |input.data| - input.pos
      {
        var env := envs(commands);
        var outcome := Pass(env);
        if outcome.None? {
          return if overrun then Stuck else Quit, commands, last, trace;
        }
        commands := commands + 1;
        last := outcome.value;
        if outcome.value == LockNotGained {
          return Returned, commands, last, trace;
        }
        if outcome.value == Undefined {
          return Stuck, commands, last, trace;
        }
        ContinuedSnoc(trace, envs, memoryName, ChannelCount(), Snap());
        trace := trace + [Snap()];
      }
    }

    /** One pass of run()'s loop, as Step gives it: the callbacks that ran
        meanwhile; then, unless the host buffer overran, the thread was told
        to exit or the opcode read failed (None), the command read. */
    method Pass(env: Env) returns (outcome: Option<Outcome>)
      requires Valid() && !overrun
      modifies this, input, output, hostBuffer
      ensures input.Valid() && old(input.pos) <= input.pos
      ensures var step := Step(old(Snap()), env, memoryName, ChannelCount());
              && (outcome.None? <==> step.None?)
              && (outcome.Some? ==> outcome.value == step.value.0 && old(input.pos) < input.pos && overrun == old(overrun))
              && (outcome == Some(Continue) ==> Valid() && Snap() == step.value.1)
      ensures var after := AfterCallbacks(old(Snap()), env.callbacks);
              outcome.None? ==>
                && (overrun <==> |after.buffered| > HostBufferSize)
                && (!overrun ==> Valid() && Snap() == after && (env.shouldExit || input.Remaining() == []))
      ensures outcome.Some? && outcome.value == LockNotGained ==> !env.lockGained
    {
      ghost var after := AfterCallbacks(Snap(), env.callbacks);
      ApplyCallbacks(env.callbacks);
      if overrun {
        return None;
      }
      assert Snap() == after;
      if env.shouldExit {
        return None;
      }
      var ok, id := ReadOpcodeFrom(input);
      if !ok {
        return None;
      }
      assert Snap() == after.(rem := after.rem[1..]);
      var o := Dispatch(id, env);
      outcome := Some(o);
    }
  }
}
