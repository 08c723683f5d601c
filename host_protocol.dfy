/** The value-level part of the plugin host (src/plugin_host.h): the
    ProcessBlock flag bits, the MIDI word, the parameter flag byte and the
    InitInfo frame, the parameter-change frame, and the parameter-change
    coalescer with its debounce. */
module HostProtocol {
  import opened Wire

  // ---------------------------------------------------------------------
  // Bits of a two's complement value
  // ---------------------------------------------------------------------

  function Pow2(k: nat): (r: nat)
    ensures r >= 1
  {
    if k == 0 then 1 else 2 * Pow2(k - 1)
  }

  /** Bit k of x in two's complement: `(x & (1 << k)) != 0`. Dafny's division
      by a positive number floors, like an arithmetic shift. */
  function Bit(x: int, k: nat): bool
  {
    (x / Pow2(k)) % 2 == 1
  }

  /** The mask a set flag contributes: `flags |= mask` when b holds. */
  function Flag(b: bool, mask: nat): nat
  {
    if b then mask else 0
  }

  function Digit(b: bool): nat
  {
    if b then 1 else 0
  }

  lemma {:induction false} Pow2Small()
    ensures Pow2(0) == 1 && Pow2(1) == 2 && Pow2(2) == 4 && Pow2(3) == 8 && Pow2(4) == 16
  {
  }

  /** The bits of a + 2d + 4b + 8m + 16q for single-bit a, d, b, m. */
  lemma {:induction false} Digits(a: int, d: int, b: int, m: int, q: int)
    requires 0 <= a < 2 && 0 <= d < 2 && 0 <= b < 2 && 0 <= m < 2
    ensures var f := a + 2 * d + 4 * b + 8 * m + 16 * q;
      && Bit(f, 0) == (a == 1) && Bit(f, 1) == (d == 1) && Bit(f, 2) == (b == 1) && Bit(f, 3) == (m == 1)
      && f / 16 == q && Bit(f, 4) == (q % 2 == 1)
  {
    Pow2Small();
    var f := a + 2 * d + 4 * b + 8 * m + 16 * q;
    DivModUnique(f, 1, f, 0);
    DivModUnique(f, 2, d + 2 * b + 4 * m + 8 * q, a);
    DivModUnique(f, 4, b + 2 * m + 4 * q, a + 2 * d);
    DivModUnique(f, 8, m + 2 * q, a + 2 * d + 4 * b);
    DivModUnique(f, 16, q, a + 2 * d + 4 * b + 8 * m);
    DivModUnique(f, 2, f / 2, a);
    DivModUnique(d + 2 * b + 4 * m + 8 * q, 2, b + 2 * m + 4 * q, d);
    DivModUnique(b + 2 * m + 4 * q, 2, m + 2 * q, b);
    DivModUnique(m + 2 * q, 2, q, m);
  }

  // ---------------------------------------------------------------------
  // ProcessBlock flags
  // ---------------------------------------------------------------------

  const FlagsIsPlaying := 1
  const FlagsIsLooping := 2
  const FlagsIsRecording := 4
  const FlagsIsRealtime := 8

  datatype Transport = Transport(isPlaying: bool, isLooping: bool, isRecording: bool, isRealtime: bool)

  /** The four transport flags of a ProcessBlock command, bits 0 to 3. */
  function TransportOf(flags: Int8): Transport
  {
    Transport(Bit(flags, 0), Bit(flags, 1), Bit(flags, 2), Bit(flags, 3))
  }

  /** The flags byte that carries a transport state. */
  function FlagsOf(t: Transport): Int8
  {
    Flag(t.isPlaying, FlagsIsPlaying) + Flag(t.isLooping, FlagsIsLooping)
      + Flag(t.isRecording, FlagsIsRecording) + Flag(t.isRealtime, FlagsIsRealtime)
  }

  /** A transport state survives the flags byte. */
  lemma {:induction false} TransportRoundTrip(t: Transport)
    ensures TransportOf(FlagsOf(t)) == t
  {
    Digits(Digit(t.isPlaying), Digit(t.isLooping), Digit(t.isRecording), Digit(t.isRealtime), 0);
  }

  /** The flags are exactly the low four bits: bits 4 to 7 are ignored and
      every combination of the low four is a distinct transport state. */
  lemma {:induction false} TransportOfLowBits(flags: Int8)
    ensures FlagsOf(TransportOf(flags)) == flags % 16
  {
    var r := flags % 16;
    var a, d, b, m := r % 2, (r / 2) % 2, (r / 4) % 2, r / 8;
    assert r == a + 2 * d + 4 * b + 8 * m;
    Digits(a, d, b, m, flags / 16);
  }

  // ---------------------------------------------------------------------
  // MIDI events
  // ---------------------------------------------------------------------

  datatype MidiMessage = MidiMessage(status: Byte, data1: Byte, data2: Byte)
  datatype MidiEvent = MidiEvent(message: MidiMessage, time: Int16)

  /** The three MIDI bytes packed in a ProcessBlock event word, low byte
      first: `data & 0xFF`, `(data >> 8) & 0xFF`, `(data >> 16) & 0xFF`. */
  function MidiOfWord(data: Int32): MidiMessage
  {
    MidiMessage(data % 0x100, (data / 0x100) % 0x100, (data / 0x1_0000) % 0x100)
  }

  /** Packing three bytes (and anything in the top byte) into the word
      gives them back. */
  lemma {:induction false} MidiWordRoundTrip(m: MidiMessage, top: Int8)
    ensures -0x8000_0000 <= m.status + 0x100 * m.data1 + 0x1_0000 * m.data2 + 0x100_0000 * top < 0x8000_0000
    ensures MidiOfWord(m.status + 0x100 * m.data1 + 0x1_0000 * m.data2 + 0x100_0000 * top) == m
  {
    var w := m.status + 0x100 * m.data1 + 0x1_0000 * m.data2 + 0x100_0000 * top;
    DivModUnique(w, 0x100, m.data1 + 0x100 * m.data2 + 0x1_0000 * top, m.status);
    DivModUnique(w, 0x1_0000, m.data2 + 0x100 * top, m.status + 0x100 * m.data1);
    DivModUnique(m.data1 + 0x100 * m.data2 + 0x1_0000 * top, 0x100, m.data2 + 0x100 * top, m.data1);
    DivModUnique(m.data2 + 0x100 * top, 0x100, top, m.data2);
  }

  // ---------------------------------------------------------------------
  // InitInfo: parameter descriptors
  // ---------------------------------------------------------------------

  /** What the plugin reports about one parameter. `name` is what
      getName(256) returns; `valueStrings` is getAllValueStrings(). */
  datatype ParameterInfo = ParameterInfo(
    automatable: bool, discrete: bool, boolean: bool, meta: bool, orientationInverted: bool,
    defaultValue: Float32, category: Int32, numSteps: Int32,
    name: seq<Byte>, unitLabel: seq<Byte>, valueStrings: seq<seq<Byte>>)

  const ParameterIsAutomatable := 1
  const ParameterIsDiscrete := 2
  const ParameterIsBoolean := 4
  const ParameterIsMeta := 8
  const ParameterIsOrientationInverted := 16

  /** The flag byte of a parameter: one bit per property, OR-ed together. */
  function ParameterFlags(p: ParameterInfo): Int8
  {
    Flag(p.automatable, ParameterIsAutomatable) + Flag(p.discrete, ParameterIsDiscrete)
      + Flag(p.boolean, ParameterIsBoolean) + Flag(p.meta, ParameterIsMeta)
      + Flag(p.orientationInverted, ParameterIsOrientationInverted)
  }

  /** Each bit of the flag byte is set exactly when its property holds, and
      bits 5 to 7 are clear. */
  lemma {:induction false} ParameterFlagsBits(p: ParameterInfo)
    ensures 0 <= ParameterFlags(p) < 32
    ensures Bit(ParameterFlags(p), 0) == p.automatable
    ensures Bit(ParameterFlags(p), 1) == p.discrete
    ensures Bit(ParameterFlags(p), 2) == p.boolean
    ensures Bit(ParameterFlags(p), 3) == p.meta
    ensures Bit(ParameterFlags(p), 4) == p.orientationInverted
  {
    Digits(Digit(p.automatable), Digit(p.discrete), Digit(p.boolean), Digit(p.meta), Digit(p.orientationInverted));
  }

  /** One parameter descriptor of the InitInfo frame: flags, default value,
      category, number of steps, name, label and value strings. */
  function ParameterBytes(p: ParameterInfo): seq<Byte>
  {
    LittleEndian(ParameterFlags(p), 1) + p.defaultValue + LittleEndian(p.category, 4)
      + LittleEndian(p.numSteps, 4) + StringBytes(p.name) + StringBytes(p.unitLabel)
      + StringArrayBytes(p.valueStrings)
  }

  function ParametersBytes(ps: seq<ParameterInfo>): seq<Byte>
  {
    if ps == [] then [] else ParametersBytes(ps[..|ps| - 1]) + ParameterBytes(ps[|ps| - 1])
  }

  lemma {:induction false} ParametersBytesSnoc(ps: seq<ParameterInfo>, i: nat)
    requires i < |ps|
    ensures ParametersBytes(ps[..i + 1]) == ParametersBytes(ps[..i]) + ParameterBytes(ps[i])
  {
    assert ps[..i + 1][..i] == ps[..i];
  }

  const InitInfoOpcode: Byte := 0

  /** writeInitInfomation: opcode 0, the input and output channel counts as
      int8, the parameter count as a varint, then each descriptor. */
  function InitInfoFrame(numInputs: int, numOutputs: int, ps: seq<ParameterInfo>): seq<Byte>
  {
    [InitInfoOpcode] + LittleEndian(ToInt8(numInputs), 1) + LittleEndian(ToInt8(numOutputs), 1)
      + VarBytes(ToInt32(|ps|)) + ParametersBytes(ps)
  }

  /** How the parent reads the head of InitInfo: the opcode, both channel
      counts (wrapped to int8), and the number of descriptors that follow. */
  lemma {:induction false} InitInfoHeader(numInputs: int, numOutputs: int, ps: seq<ParameterInfo>)
    requires |ps| < 0x8000_0000
    ensures var f := InitInfoFrame(numInputs, numOutputs, ps);
      && ToInt32(|ps|) == |ps|
      && |f| == 3 + |VarBytes(|ps|)| + |ParametersBytes(ps)| && f[0] == InitInfoOpcode
      && SignedOf(f[1..2]) == ToInt8(numInputs)
      && SignedOf(f[2..3]) == ToInt8(numOutputs)
      && DecodeVarInt(f[3..]) == Decoded(|ps|, |VarBytes(|ps|)|)
      && f[3 + |VarBytes(|ps|)|..] == ParametersBytes(ps)
  {
    ToInt32InRange(|ps|);
    InitInfoHead(numInputs, numOutputs, |ps|, ParametersBytes(ps));
  }

  lemma {:induction false} InitInfoHead(numInputs: int, numOutputs: int, n: nat, rest: seq<Byte>)
    requires n < 0x8000_0000
    ensures var f := [InitInfoOpcode] + LittleEndian(ToInt8(numInputs), 1) + LittleEndian(ToInt8(numOutputs), 1)
                     + VarBytes(n) + rest;
      && |f| >= 3 && f[0] == InitInfoOpcode
      && SignedOf(f[1..2]) == ToInt8(numInputs)
      && SignedOf(f[2..3]) == ToInt8(numOutputs)
      && DecodeVarInt(f[3..]) == Decoded(n, |VarBytes(n)|)
      && f[3 + |VarBytes(n)|..] == rest
  {
    var i, o := LittleEndian(ToInt8(numInputs), 1), LittleEndian(ToInt8(numOutputs), 1);
    HeaderSlices(InitInfoOpcode, i, o, VarBytes(n), rest);
    FixedWidthRoundTrip(ToInt8(numInputs), 1);
    FixedWidthRoundTrip(ToInt8(numOutputs), 1);
    VarIntRoundTrip(n, rest);
  }

  lemma {:induction false} HeaderSlices(a: Byte, i: seq<Byte>, o: seq<Byte>, v: seq<Byte>, rest: seq<Byte>)
    requires |i| == 1 && |o| == 1
    ensures var f := [a] + i + o + v + rest;
      && f[0] == a && f[1..2] == i && f[2..3] == o && f[3..] == v + rest && f[3 + |v|..] == rest
  {
  }

  /** A descriptor starts with its flag byte, which the parent reads as the
      five properties. */
  lemma {:induction false} ParameterFlagsFirst(p: ParameterInfo)
    ensures ParameterBytes(p)[0] == ParameterFlags(p)
    ensures Bit(ParameterBytes(p)[0], 0) == p.automatable && Bit(ParameterBytes(p)[0], 4) == p.orientationInverted
  {
    ParameterFlagsBits(p);
    DivModUnique(ParameterFlags(p), 0x100, 0, ParameterFlags(p));
  }

  // ---------------------------------------------------------------------
  // Parameter-change frames: writeAllParameterChanges
  // ---------------------------------------------------------------------

  const ParameterChangeOpcode: Byte := 3

  /** One flushed change: opcode 3, the index as a varint, the float value. */
  function ChangeFrame(index: Int32, value: Float32): seq<Byte>
  {
    [ParameterChangeOpcode] + VarBytes(index) + value
  }

  /** How the parent reads a change frame: the index, the value and the
      frame's size. */
  function DecodeChangeFrame(s: seq<Byte>): Option<(Int32, Float32, nat)>
  {
    if s == [] || s[0] != ParameterChangeOpcode then None
    else
      var index := DecodeVarInt(s[1..]);
      if 1 + index.size + 4 > |s| then None
      else
        var value: Float32 := s[1 + index.size..1 + index.size + 4];
        var size: nat := 1 + index.size + 4;
        Some((index.value, value, size))
  }

  lemma {:induction false} ChangeFrameRoundTrip(index: Int32, value: Float32, rest: seq<Byte>)
    requires index >= 0
    ensures DecodeChangeFrame(ChangeFrame(index, value) + rest) == Some((index, value, |ChangeFrame(index, value)|))
  {
    var v := VarBytes(index);
    var s := ChangeFrame(index, value) + rest;
    assert s[1..] == v + (value + rest);
    VarIntRoundTrip(index, value + rest);
    assert s[1 + |v|..1 + |v| + 4] == value;
  }

  predicate Distinct(s: seq<Int32>)
  {
    forall i, j :: 0 <= i < j < |s| ==> s[i] != s[j]
  }

  lemma {:induction false} DistinctSnoc(s: seq<Int32>, k: Int32)
    requires Distinct(s) && k !in s
    ensures Distinct(s + [k])
  {
  }

  /** The frames written for the indices in order. */
  function ChangeFrames(order: seq<Int32>, pending: map<Int32, Pending>): seq<Byte>
    requires forall k :: k in order ==> k in pending
  {
    if order == [] then []
    else ChangeFrame(order[0], pending[order[0]].value) + ChangeFrames(order[1..], pending)
  }

  lemma {:induction false} ChangeFramesSnoc(order: seq<Int32>, k: Int32, pending: map<Int32, Pending>)
    requires forall j :: j in order ==> j in pending
    requires k in pending
    ensures ChangeFrames(order + [k], pending) == ChangeFrames(order, pending) + ChangeFrame(k, pending[k].value)
  {
    if order == [] {
      assert [k][1..] == [];
    } else {
      assert (order + [k])[1..] == order[1..] + [k];
      ChangeFramesSnoc(order[1..], k, pending);
    }
  }

  // ---------------------------------------------------------------------
  // The parameter-change coalescer: audioProcessorParameterChanged
  // ---------------------------------------------------------------------

  /** A pending change: the value to report and the millisecond time from
      which it may be flushed. */
  datatype Pending = Pending(value: Float32, due: nat)

  const DebounceMs := 500

  /** prevParameterChanges (last value seen per index) and parameterChanges
      (what is waiting to be flushed). */
  datatype Coalescer = Coalescer(prev: map<Int32, Float32>, pending: map<Int32, Pending>)

  /** prevParameterChanges[i]: a missing entry reads as 0.0f. */
  function LastSeen(prev: map<Int32, Float32>, i: Int32): Float32
  {
    if i in prev then prev[i] else ZeroFloat
  }

  /** The lookup in the guard inserts a 0.0f entry for an index not seen yet. */
  function Touch(prev: map<Int32, Float32>, i: Int32): map<Int32, Float32>
  {
    if i in prev then prev else prev[i := ZeroFloat]
  }

  /** audioProcessorParameterChanged as the source writes it: the guard
      drops a change equal to the last value seen or arriving while the lock
      is taken; otherwise the value becomes the last seen, and try_emplace
      adds a pending entry, or, when one exists, only moves its due time. */
  function ChangedAsWritten(c: Coalescer, index: Int32, value: Float32, now: nat, locked: bool): Coalescer
  {
    if LastSeen(c.prev, index) == value || !locked then Coalescer(Touch(c.prev, index), c.pending)
    else
      var due := now + DebounceMs;
      Coalescer(c.prev[index := value],
        if index in c.pending then c.pending[index := Pending(c.pending[index].value, due)]
        else c.pending[index := Pending(value, due)])
  }

  /** The same with the last value winning: the pending entry always carries
      the latest value and the new due time. */
  function Changed(c: Coalescer, index: Int32, value: Float32, now: nat, locked: bool): Coalescer
  {
    if LastSeen(c.prev, index) == value || !locked then Coalescer(Touch(c.prev, index), c.pending)
    else Coalescer(c.prev[index := value], c.pending[index := Pending(value, now + DebounceMs)])
  }

  /** Every pending value is the latest value seen for its index. */
  predicate Coherent(c: Coalescer)
  {
    forall i :: i in c.pending ==> LastSeen(c.prev, i) == c.pending[i].value
  }

  /** A dropped change (same value, or lock unavailable) changes nothing
      that can be observed: every last-seen value and the pending map stay. */
  lemma {:induction false} ChangedDropped(c: Coalescer, index: Int32, value: Float32, now: nat, locked: bool)
    requires LastSeen(c.prev, index) == value || !locked
    ensures Changed(c, index, value, now, locked).pending == c.pending
    ensures forall i :: LastSeen(Changed(c, index, value, now, locked).prev, i) == LastSeen(c.prev, i)
  {
  }

  /** An accepted change records the value as last seen and leaves it
      pending until now + 500 ms; no other index is affected. */
  lemma {:induction false} ChangedAccepted(c: Coalescer, index: Int32, value: Float32, now: nat)
    requires LastSeen(c.prev, index) != value
    ensures var c' := Changed(c, index, value, now, true);
      && LastSeen(c'.prev, index) == value
      && index in c'.pending && c'.pending[index] == Pending(value, now + DebounceMs)
      && (forall i :: i != index ==> LastSeen(c'.prev, i) == LastSeen(c.prev, i))
      && (forall i :: i != index ==> (i in c'.pending <==> i in c.pending))
      && (forall i :: i != index && i in c.pending ==> c'.pending[i] == c.pending[i])
  {
  }

  /** As written, a dropped change (same value, or lock unavailable)
      likewise changes no last-seen value and no pending entry. */
  lemma {:induction false} ChangedAsWrittenDropped(c: Coalescer, index: Int32, value: Float32, now: nat, locked: bool)
    requires LastSeen(c.prev, index) == value || !locked
    ensures ChangedAsWritten(c, index, value, now, locked).pending == c.pending
    ensures forall i :: LastSeen(ChangedAsWritten(c, index, value, now, locked).prev, i) == LastSeen(c.prev, i)
  {
  }

  /** As written, an accepted change records the value as last seen and
      makes the index due at now + 500 ms, but an entry already pending
      keeps its original value: only its due time moves. No other index is
      affected. */
  lemma {:induction false} ChangedAsWrittenAccepted(c: Coalescer, index: Int32, value: Float32, now: nat)
    requires LastSeen(c.prev, index) != value
    ensures var c' := ChangedAsWritten(c, index, value, now, true);
      && LastSeen(c'.prev, index) == value
      && index in c'.pending
      && c'.pending[index] == Pending(if index in c.pending then c.pending[index].value else value, now + DebounceMs)
      && (forall i :: i != index ==> LastSeen(c'.prev, i) == LastSeen(c.prev, i))
      && (forall i :: i != index ==> (i in c'.pending <==> i in c.pending))
      && (forall i :: i != index && i in c.pending ==> c'.pending[i] == c.pending[i])
  {
  }

  /** As written, a second accepted change to a pending index leaves the
      coalescer incoherent: the pending value is not the last one seen. */
  lemma {:induction false} ChangedAsWrittenGoesStale(c: Coalescer, index: Int32, value: Float32, now: nat)
    requires LastSeen(c.prev, index) != value && index in c.pending && c.pending[index].value != value
    ensures !Coherent(ChangedAsWritten(c, index, value, now, true))
  {
    var c' := ChangedAsWritten(c, index, value, now, true);
    ChangedAsWrittenAccepted(c, index, value, now);
    assert index in c'.pending && LastSeen(c'.prev, index) != c'.pending[index].value;
  }

  /** Last write wins: the coalescer never holds a stale value. */
  lemma {:induction false} ChangedKeepsCoherent(c: Coalescer, index: Int32, value: Float32, now: nat, locked: bool)
    requires Coherent(c)
    ensures Coherent(Changed(c, index, value, now, locked))
  {
    var c' := Changed(c, index, value, now, locked);
    forall i | i in c'.pending
      ensures LastSeen(c'.prev, i) == c'.pending[i].value
    {
      if i != index {
        assert i in c.pending;
      }
    }
  }

  /** The entries writeAllParameterChanges leaves: those not yet due. */
  function NotDue(pending: map<Int32, Pending>, now: nat): map<Int32, Pending>
  {
    map i | i in pending && pending[i].due > now :: pending[i]
  }

  /** Flushing keeps the coalescer coherent. */
  lemma {:induction false} FlushKeepsCoherent(c: Coalescer, now: nat)
    requires Coherent(c)
    ensures Coherent(Coalescer(c.prev, NotDue(c.pending, now)))
  {
  }

  /** Debounce floor: after an accepted change at `now`, the index is not
      flushed at any time before now + 500 ms. */
  lemma {:induction false} DebounceFloor(c: Coalescer, index: Int32, value: Float32, now: nat, t: nat)
    requires LastSeen(c.prev, index) != value && t < now + DebounceMs
    ensures index in NotDue(Changed(c, index, value, now, true).pending, t)
  {
  }

  /** 0.1f and 0.2f as little-endian IEEE 754 bytes. */
  const PointOne: Float32 := [0xCD, 0xCC, 0xCC, 0x3D]
  const PointTwo: Float32 := [0xCD, 0xCC, 0x4C, 0x3E]

  /** As written, a second change within the debounce window is lost: the
      index changes to 0.1 and then to 0.2 ten milliseconds later; the flush
      at 510 ms reports 0.1, and since 0.2 is already the last value seen,
      setting 0.2 again is dropped, so 0.2 is never reported. */
  lemma {:induction false} AsWrittenReportsStaleValue()
    ensures var c1 := ChangedAsWritten(Coalescer(map[], map[]), 7, PointOne, 0, true);
      var c2 := ChangedAsWritten(c1, 7, PointTwo, 10, true);
      var c3 := Coalescer(c2.prev, NotDue(c2.pending, 510));
      && 7 in c2.pending && c2.pending[7] == Pending(PointOne, 510)
      && LastSeen(c2.prev, 7) == PointTwo
      && !Coherent(c2)
      && 7 !in c3.pending
      && ChangedAsWritten(c3, 7, PointTwo, 600, true) == c3
  {
    var c1 := ChangedAsWritten(Coalescer(map[], map[]), 7, PointOne, 0, true);
    assert LastSeen(c1.prev, 7) == PointOne != PointTwo;
  }

  /** Corrected, the same two changes leave 0.2 pending. */
  lemma {:induction false} CorrectedReportsLatest()
    ensures var c1 := Changed(Coalescer(map[], map[]), 7, PointOne, 0, true);
      var c2 := Changed(c1, 7, PointTwo, 10, true);
      && 7 in c2.pending && c2.pending[7] == Pending(PointTwo, 510)
      && Coherent(c2)
  {
    var c1 := Changed(Coalescer(map[], map[]), 7, PointOne, 0, true);
    assert LastSeen(c1.prev, 7) == PointOne != PointTwo;
  }

  // ---------------------------------------------------------------------
  // Commands from the parent: what run() reads for Prepare and ProcessBlock
  // ---------------------------------------------------------------------

  function ToInt16(x: int): Int16
  {
    var u := x % 0x1_0000;
    if u < 0x8000 then u else u - 0x1_0000
  }

  /** A native fixed-width integer of the given bytes. */
  function Int8Of(b: seq<Byte>): Int8 { ToInt8(UnsignedOf(b)) }
  function Int16Of(b: seq<Byte>): Int16 { ToInt16(UnsignedOf(b)) }
  function Int32Of(b: seq<Byte>): Int32 { ToInt32(UnsignedOf(b)) }

  function Zeros(n: nat): (r: seq<Byte>)
    ensures |r| == n
  {
    seq(n, _ => 0)
  }

  /** fread into an object whose bytes are prior: the bytes that arrive
      overwrite its front and the rest keep their value. Gives the object's
      new bytes and the input left. Uninitialised locals start as zeros. */
  function ReadFixed(s: seq<Byte>, prior: seq<Byte>): (r: (seq<Byte>, seq<Byte>))
    ensures |r.0| == |prior|
    decreases |prior|
  {
    if prior == [] then ([], s)
    else if s == [] then (prior, [])
    else
      var next := ReadFixed(s[1..], prior[1..]);
      ([s[0]] + next.0, next.1)
  }

  /** The bytes available overwrite the front of the object, the rest keep
      their value, and exactly the bytes taken are consumed. */
  lemma {:induction false} ReadFixedSlices(s: seq<Byte>, prior: seq<Byte>)
    ensures var k := Min(|prior|, |s|);
      ReadFixed(s, prior) == (s[..k] + prior[k..], s[k..])
    decreases |prior|
  {
    if prior == [] {
    } else if s == [] {
      assert s[..0] + prior[0..] == prior;
    } else {
      ReadFixedSlices(s[1..], prior[1..]);
      var k := Min(|prior|, |s|);
      assert [s[0]] + (s[1..][..k - 1] + prior[1..][k - 1..]) == s[..k] + prior[k..];
    }
  }

  /** When the whole object is there, it is read as sent. */
  lemma {:induction false} ReadFixedFull(x: seq<Byte>, rest: seq<Byte>, prior: seq<Byte>)
    requires |x| == |prior|
    ensures ReadFixed(x + rest, prior) == (x, rest)
  {
    ReadFixedSlices(x + rest, prior);
    assert Min(|prior|, |x + rest|) == |x|;
    assert (x + rest)[..|x|] == x;
    assert (x + rest)[|x|..] == rest;
    assert prior[|x|..] == [];
    assert x + [] == x;
  }

  /** Native fixed-width integers read back as written. */
  lemma {:induction false} Int8RoundTrip(x: Int8)
    ensures Int8Of(LittleEndian(x, 1)) == x
  {
    UnsignedOfLittleEndian(x, 1);
    ModWidth(x, 0x100);
  }

  lemma {:induction false} Int16RoundTrip(x: Int16)
    ensures Int16Of(LittleEndian(x, 2)) == x
  {
    UnsignedOfLittleEndian(x, 2);
    ModWidth(x, 0x1_0000);
  }

  lemma {:induction false} Int32RoundTrip(x: Int32)
    ensures Int32Of(LittleEndian(x, 4)) == x
  {
    UnsignedOfLittleEndian(x, 4);
    assert Pow256(4) == 0x1_0000_0000 by {
      assert Pow256(2) == 0x1_0000;
    }
    ModWidth(x, 0x1_0000_0000);
  }

  /** x mod P for x in the signed range of width P. */
  lemma {:induction false} ModWidth(x: int, P: int)
    requires P >= 2 && -P <= 2 * x < P
    ensures x % P == if x >= 0 then x else x + P
    ensures (x % P) % P == x % P
  {
    if x >= 0 {
      DivModUnique(x, P, 0, x);
      DivModUnique(x, P, 0, x);
    } else {
      DivModUnique(x, P, -1, x + P);
      DivModUnique(x + P, P, 0, x + P);
    }
  }

  /** The fixed part of Prepare (opcode 0): sample rate, buffer size, and
      whether shared memory is enabled. */
  datatype PrepareCommand = PrepareCommand(sampleRate: Int32, bufferSize: Int32, enableSharedMemory: bool)

  /** `in >> sampleRate >> bufferSize >> enabledSharedMemory`, reading into
      the current sampleRate and bufferSize fields. */
  function ParsePrepare(s: seq<Byte>, sampleRate: Int32, bufferSize: Int32): (PrepareCommand, seq<Byte>)
  {
    var (sr, s1) := ReadFixed(s, LittleEndian(sampleRate, 4));
    var (bs, s2) := ReadFixed(s1, LittleEndian(bufferSize, 4));
    var enabled := DecodeBool(s2);
    (PrepareCommand(Int32Of(sr), Int32Of(bs), enabled.value), s2[enabled.size..])
  }

  function PrepareBytes(c: PrepareCommand): seq<Byte>
  {
    LittleEndian(c.sampleRate, 4) + LittleEndian(c.bufferSize, 4) + [BoolByte(c.enableSharedMemory)]
  }

  /** A complete Prepare command is read as sent, whatever the fields held. */
  lemma {:induction false} PrepareRoundTrip(c: PrepareCommand, rest: seq<Byte>, sampleRate: Int32, bufferSize: Int32)
    ensures ParsePrepare(PrepareBytes(c) + rest, sampleRate, bufferSize) == (c, rest)
  {
    var a, b := LittleEndian(c.sampleRate, 4), LittleEndian(c.bufferSize, 4);
    var t := [BoolByte(c.enableSharedMemory)] + rest;
    assert PrepareBytes(c) + rest == a + (b + t);
    ReadFixedFull(a, b + t, LittleEndian(sampleRate, 4));
    ReadFixedFull(b, t, LittleEndian(bufferSize, 4));
    Int32RoundTrip(c.sampleRate);
    Int32RoundTrip(c.bufferSize);
    assert t[1..] == rest;
  }

  /** The fixed part of ProcessBlock (opcode 1). */
  datatype BlockHeader = BlockHeader(flags: Int8, bpm: Float64, midiEvents: Int16, timeInSamples: Int64)

  /** `in >> flags >> bpm >> midiEvents`, then readVarLong(timeInSamples). */
  function ParseBlockHeader(s: seq<Byte>): (BlockHeader, seq<Byte>)
  {
    var (f, s1) := ReadFixed(s, Zeros(1));
    var (b, s2) := ReadFixed(s1, Zeros(8));
    var (m, s3) := ReadFixed(s2, Zeros(2));
    var time := DecodeVarLong(s3);
    var bpm: Float64 := b;
    (BlockHeader(Int8Of(f), bpm, Int16Of(m), time.value), s3[Min(time.size, |s3|)..])
  }

  function BlockHeaderBytes(h: BlockHeader): seq<Byte>
  {
    LittleEndian(h.flags, 1) + h.bpm + LittleEndian(h.midiEvents, 2) + VarBytes(h.timeInSamples)
  }

  /** A complete header with a non-negative time is read as sent. */
  lemma {:induction false} BlockHeaderRoundTrip(h: BlockHeader, rest: seq<Byte>)
    requires h.timeInSamples >= 0
    ensures ParseBlockHeader(BlockHeaderBytes(h) + rest) == (h, rest)
  {
    var f, m, v := LittleEndian(h.flags, 1), LittleEndian(h.midiEvents, 2), VarBytes(h.timeInSamples);
    assert BlockHeaderBytes(h) + rest == f + (h.bpm + (m + (v + rest)));
    ReadFixedFull(f, h.bpm + (m + (v + rest)), Zeros(1));
    ReadFixedFull(h.bpm, m + (v + rest), Zeros(8));
    ReadFixedFull(m, v + rest, Zeros(2));
    Int8RoundTrip(h.flags);
    Int16RoundTrip(h.midiEvents);
    VarLongRoundTrip(h.timeInSamples, rest);
    assert (v + rest)[|v|..] == rest;
  }

  /** One MIDI event, `in >> data >> time` into fresh locals. */
  function ParseMidiEvent(s: seq<Byte>): (MidiEvent, seq<Byte>)
  {
    var (d, s1) := ReadFixed(s, Zeros(4));
    var (t, s2) := ReadFixed(s1, Zeros(2));
    (MidiEvent(MidiOfWord(Int32Of(d)), Int16Of(t)), s2)
  }

  /** `count` MIDI events, one after the other. A non-positive count reads
      nothing. */
  function ParseMidi(s: seq<Byte>, count: int): (r: (seq<MidiEvent>, seq<Byte>))
    ensures |r.0| == if count < 0 then 0 else count
    decreases count
  {
    if count <= 0 then ([], s)
    else
      var (e, s1) := ParseMidiEvent(s);
      var next := ParseMidi(s1, count - 1);
      ([e] + next.0, next.1)
  }

  /** Reading one more event after those already read. */
  lemma {:induction false} ParseMidiAppend(done: seq<MidiEvent>, s: seq<Byte>, count: int)
    requires count > 0
    ensures var (e, s1) := ParseMidiEvent(s);
      (done + ParseMidi(s, count).0, ParseMidi(s, count).1)
        == (done + [e] + ParseMidi(s1, count - 1).0, ParseMidi(s1, count - 1).1)
  {
    var (e, s1) := ParseMidiEvent(s);
    AppendAssoc(done, [e], ParseMidi(s1, count - 1).0);
  }

  lemma AppendAssoc<T>(a: seq<T>, b: seq<T>, c: seq<T>)
    ensures a + (b + c) == a + b + c
  {
  }

  /** Once the count is spent, nothing more is read. */
  lemma {:induction false} ParseMidiDone(done: seq<MidiEvent>, s: seq<Byte>, count: int)
    requires count <= 0
    ensures (done + ParseMidi(s, count).0, ParseMidi(s, count).1) == (done, s)
  {
    assert done + [] == done;
  }

  /** One event as the parent sends it: the packed word, then the time. */
  function MidiEventBytes(word: Int32, time: Int16): seq<Byte>
  {
    LittleEndian(word, 4) + LittleEndian(time, 2)
  }

  /** Reading one event off the front of a count > 0. */
  lemma {:induction false} ParseMidiStep(word: Int32, time: Int16, rest: seq<Byte>, count: int)
    requires count > 0
    ensures ParseMidi(MidiEventBytes(word, time) + rest, count)
      == ([MidiEvent(MidiOfWord(word), time)] + ParseMidi(rest, count - 1).0, ParseMidi(rest, count - 1).1)
  {
    var d, t := LittleEndian(word, 4), LittleEndian(time, 2);
    var s := d + (t + rest);
    assert MidiEventBytes(word, time) + rest == s;
    ReadFixedFull(d, t + rest, Zeros(4));
    ReadFixedFull(t, rest, Zeros(2));
    Int32RoundTrip(word);
    Int16RoundTrip(time);
    assert ReadFixed(s, Zeros(4)) == (d, t + rest);
    assert ReadFixed(t + rest, Zeros(2)) == (t, rest);
  }

  /** Events as the parent sends them: (packed word, time) pairs. */
  function MidiBytes(words: seq<(Int32, Int16)>): seq<Byte>
  {
    if words == [] then [] else MidiEventBytes(words[0].0, words[0].1) + MidiBytes(words[1..])
  }

  function MidiOfWords(words: seq<(Int32, Int16)>): seq<MidiEvent>
  {
    if words == [] then [] else [MidiEvent(MidiOfWord(words[0].0), words[0].1)] + MidiOfWords(words[1..])
  }

  /** The events sent are the events read, in order, and nothing more is
      consumed. */
  lemma {:induction false} MidiRoundTrip(words: seq<(Int32, Int16)>, rest: seq<Byte>)
    ensures ParseMidi(MidiBytes(words) + rest, |words|) == (MidiOfWords(words), rest)
    decreases |words|
  {
    if words != [] {
      MidiCons(words, rest);
      MidiRoundTrip(words[1..], rest);
    } else {
      assert MidiBytes(words) + rest == rest;
    }
  }

  lemma {:induction false} MidiCons(words: seq<(Int32, Int16)>, rest: seq<Byte>)
    requires words != []
    ensures var next := ParseMidi(MidiBytes(words[1..]) + rest, |words| - 1);
      ParseMidi(MidiBytes(words) + rest, |words|) == ([MidiEvent(MidiOfWord(words[0].0), words[0].1)] + next.0, next.1)
  {
    var r1 := MidiBytes(words[1..]) + rest;
    assert MidiBytes(words) + rest == MidiEventBytes(words[0].0, words[0].1) + r1;
    ParseMidiStep(words[0].0, words[0].1, r1, |words|);
  }

  /** readArray into channels i .. n-1 in turn; None when a channel index
      is past the buffer (getWritePointer out of range). */
  function FillChannels(s: seq<Byte>, chs: seq<seq<Byte>>, i: nat, n: int): (r: Option<(seq<seq<Byte>>, seq<Byte>)>)
    ensures r.Some? ==> |r.value.0| == |chs| && forall j :: 0 <= j < |chs| ==> |r.value.0[j]| == |chs[j]|
    decreases n - i
  {
    if i >= n then Some((chs, s))
    else if i >= |chs| then None
    else
      var (c, s1) := ReadFixed(s, chs[i]);
      FillChannels(s1, chs[i := c], i + 1, n)
  }

  /** When every channel's worth of samples is there, the first n channels
      take exactly the samples sent, in order, and the others keep theirs. */
  lemma {:induction false} FillChannelsFull(blocks: seq<seq<Byte>>, rest: seq<Byte>, chs: seq<seq<Byte>>, i: nat)
    requires i <= |blocks| <= |chs|
    requires forall j :: i <= j < |blocks| ==> |blocks[j]| == |chs[j]|
    ensures FillChannels(Flatten(blocks[i..]) + rest, chs, i, |blocks|)
      == Some((chs[..i] + blocks[i..] + chs[|blocks|..], rest))
    decreases |blocks| - i
  {
    if i == |blocks| {
      assert blocks[i..] == [];
      assert Flatten(blocks[i..]) + rest == rest;
      assert chs[..i] + blocks[i..] + chs[|blocks|..] == chs;
    } else {
      var s := Flatten(blocks[i..]) + rest;
      FlattenCons(blocks, i);
      assert s == blocks[i] + (Flatten(blocks[i + 1..]) + rest);
      ReadFixedFull(blocks[i], Flatten(blocks[i + 1..]) + rest, chs[i]);
      FillChannelsFull(blocks, rest, chs[i := blocks[i]], i + 1);
      assert chs[i := blocks[i]][..i + 1] + blocks[i + 1..] == chs[..i] + blocks[i..];
      assert chs[i := blocks[i]][|blocks|..] == chs[|blocks|..];
    }
  }

  function Flatten(ss: seq<seq<Byte>>): seq<Byte>
  {
    if ss == [] then [] else ss[0] + Flatten(ss[1..])
  }

  lemma {:induction false} FlattenCons(ss: seq<seq<Byte>>, i: nat)
    requires i < |ss|
    ensures Flatten(ss[i..]) == ss[i] + Flatten(ss[i + 1..])
  {
    assert ss[i..][1..] == ss[i + 1..];
  }

  lemma {:induction false} FlattenSnoc(ss: seq<seq<Byte>>, i: nat)
    requires i < |ss|
    ensures Flatten(ss[..i + 1]) == Flatten(ss[..i]) + ss[i]
    decreases i
  {
    if i == 0 {
      assert ss[..1] == [ss[0]];
      assert ss[..1][1..] == [];
    } else {
      assert ss[..i + 1][1..] == ss[1..][..i];
      assert ss[..i][1..] == ss[1..][..i - 1];
      FlattenSnoc(ss[1..], i - 1);
      assert ss[1..][i - 1] == ss[i];
    }
  }

  /** writeArray of channels 0 .. n-1 after processBlock; None when a
      channel index is past the buffer. */
  function ChannelBytes(chs: seq<seq<Byte>>, n: int): Option<seq<Byte>>
  {
    if n <= 0 then Some([])
    else if n > |chs| then None
    else Some(Flatten(chs[..n]))
  }

  /** The payload of ProcessBlock (opcode 1) as run() reads it. */
  datatype BlockRequest = BlockRequest(header: BlockHeader, numOutputs: Int8, channels: seq<seq<Byte>>, midi: seq<MidiEvent>)

  /** The header; without shared memory the two channel counts (numOutputs
      starts at 0, the input count is an uninitialised local) and the input
      channels into the buffer chs; then the MIDI events. None when an input
      channel index is past the buffer. With shared memory the buffer is not
      read and the output count stays 0. */
  function ParseBlock(s: seq<Byte>, hasShm: bool, chs: seq<seq<Byte>>): (r: Option<(BlockRequest, seq<Byte>)>)
    ensures r.Some? ==> |r.value.0.midi| == if r.value.0.header.midiEvents < 0 then 0 else r.value.0.header.midiEvents as int
    ensures r.Some? ==> |r.value.0.channels| == |chs| && forall j :: 0 <= j < |chs| ==> |r.value.0.channels[j]| == |chs[j]|
    ensures hasShm ==> r.Some? && r.value.0.channels == chs && r.value.0.numOutputs == 0
  {
    var (h, s1) := ParseBlockHeader(s);
    if hasShm then
      var (m, s2) := ParseMidi(s1, h.midiEvents);
      Some((BlockRequest(h, 0, chs, m), s2))
    else
      var (ni, s2) := ReadFixed(s1, Zeros(1));
      var (no, s3) := ReadFixed(s2, Zeros(1));
      var filled := FillChannels(s3, chs, 0, Int8Of(ni));
      if filled.None? then None
      else
        var (m, s4) := ParseMidi(filled.value.1, h.midiEvents);
        Some((BlockRequest(h, Int8Of(no), filled.value.0, m), s4))
  }

  /** A block request as the parent sends it without shared memory. */
  function BlockBytes(h: BlockHeader, inputs: seq<seq<Byte>>, numOutputs: Int8, words: seq<(Int32, Int16)>): seq<Byte>
    requires |inputs| < 0x80
  {
    BlockHeaderBytes(h) + LittleEndian(|inputs|, 1) + LittleEndian(numOutputs, 1) + Flatten(inputs) + MidiBytes(words)
  }

  /** A request whose input channels fit the buffer is read as sent: the
      first channels take the samples sent, the others keep theirs. */
  lemma {:induction false} BlockRoundTrip(h: BlockHeader, inputs: seq<seq<Byte>>, numOutputs: Int8, words: seq<(Int32, Int16)>, chs: seq<seq<Byte>>, rest: seq<Byte>)
    requires h.timeInSamples >= 0 && h.midiEvents as int == |words|
    requires |inputs| < 0x80 && |inputs| <= |chs|
    requires forall j :: 0 <= j < |inputs| ==> |inputs[j]| == |chs[j]|
    ensures ParseBlock(BlockBytes(h, inputs, numOutputs, words) + rest, false, chs)
      == Some((BlockRequest(h, numOutputs, inputs + chs[|inputs|..], MidiOfWords(words)), rest))
  {
    var ni, no := LittleEndian(|inputs|, 1), LittleEndian(numOutputs, 1);
    var tail := MidiBytes(words) + rest;
    var s3 := Flatten(inputs) + tail;
    var s := BlockBytes(h, inputs, numOutputs, words) + rest;
    Concat6(BlockHeaderBytes(h), ni, no, Flatten(inputs), MidiBytes(words), rest);
    BlockHeaderRoundTrip(h, ni + (no + s3));
    UnsharedBlock(s, chs, h, ni, no, s3);
    Int8RoundTrip(|inputs|);
    Int8RoundTrip(numOutputs);
    FillAll(inputs, tail, chs);
    MidiRoundTrip(words, rest);
  }

  lemma {:induction false} FillAll(inputs: seq<seq<Byte>>, rest: seq<Byte>, chs: seq<seq<Byte>>)
    requires |inputs| <= |chs|
    requires forall j :: 0 <= j < |inputs| ==> |inputs[j]| == |chs[j]|
    ensures FillChannels(Flatten(inputs) + rest, chs, 0, |inputs|) == Some((inputs + chs[|inputs|..], rest))
  {
    assert inputs[0..] == inputs;
    FillChannelsFull(inputs, rest, chs, 0);
    assert chs[..0] + inputs + chs[|inputs|..] == inputs + chs[|inputs|..];
  }

  /** ParseBlock without shared memory, once the header and both counts
      are known. */
  lemma {:induction false} UnsharedBlock(s: seq<Byte>, chs: seq<seq<Byte>>, h: BlockHeader, ni: seq<Byte>, no: seq<Byte>, s3: seq<Byte>)
    requires |ni| == 1 && |no| == 1 && ParseBlockHeader(s) == (h, ni + (no + s3))
    ensures var filled := FillChannels(s3, chs, 0, Int8Of(ni));
      ParseBlock(s, false, chs)
        == if filled.None? then None
           else Some((BlockRequest(h, Int8Of(no), filled.value.0, ParseMidi(filled.value.1, h.midiEvents).0), ParseMidi(filled.value.1, h.midiEvents).1))
  {
    ReadFixedFull(ni, no + s3, Zeros(1));
    ReadFixedFull(no, s3, Zeros(1));
  }

  /** With shared memory the request is the header and the events alone. */
  lemma {:induction false} SharedBlockRoundTrip(h: BlockHeader, words: seq<(Int32, Int16)>, chs: seq<seq<Byte>>, rest: seq<Byte>)
    requires h.timeInSamples >= 0 && h.midiEvents as int == |words|
    ensures ParseBlock(BlockHeaderBytes(h) + MidiBytes(words) + rest, true, chs)
      == Some((BlockRequest(h, 0, chs, MidiOfWords(words)), rest))
  {
    var s := BlockHeaderBytes(h) + MidiBytes(words) + rest;
    Concat3(BlockHeaderBytes(h), MidiBytes(words), rest);
    BlockHeaderRoundTrip(h, MidiBytes(words) + rest);
    SharedBlock(s, chs, h, MidiBytes(words) + rest);
    MidiRoundTrip(words, rest);
  }

  /** ParseBlock with shared memory, once the header is known. */
  lemma {:induction false} SharedBlock(s: seq<Byte>, chs: seq<seq<Byte>>, h: BlockHeader, s1: seq<Byte>)
    requires ParseBlockHeader(s) == (h, s1)
    ensures ParseBlock(s, true, chs) == Some((BlockRequest(h, 0, chs, ParseMidi(s1, h.midiEvents).0), ParseMidi(s1, h.midiEvents).1))
  {
  }
}
