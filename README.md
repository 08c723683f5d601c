# EIMHost child processes: a Dafny model

EIMHost runs audio plugins and audio devices in child processes on behalf of
the EchoInMirror workstation. The parent talks to each child over the
child's stdin and stdout using a small binary protocol. Fixed-width values
go as native bytes. Integers go as 7-bit varints. Strings carry a varint
length. Each frame starts with an opcode. Sample data can also pass through
a named shared-memory block.

This project models the child side of that protocol in five modules.

- `Wire` (wire.dfy) holds the codec of `src/utils.h` as byte-level
  functions:
  - fixed-width little-endian values and bools;
  - `writeVarInt`/`writeVarLong` and their readers;
  - strings, string arrays, the byte-order word and the error frame.

  It proves round trips and shape lemmas about them.
- `Streams` (streams.dfy) holds the two stream classes of `src/utils.h`.
  - `OutputStream` appends to a `bytes` sequence and records how much was
    flushed.
  - `InputStream` is a cursor over the bytes of stdin.

  Every write or read method is proved against the `Wire` function that
  defines its encoding. The loops of `writeVarInt`, `readVarInt` and
  `readString` are kept as loops.
- `HostProtocol` (host_protocol.dfy) holds what `src/plugin_host.h` puts on
  the wire and the pure parts of its state:
  - the ProcessBlock transport flags and MIDI words;
  - the parameter flag byte and the InitInfo frame;
  - parameter-change frames and the parameter-change coalescer;
  - the Prepare and ProcessBlock command parsers.
- `PluginHost` (plugin_host.dfy) holds the plugin-host session as a class
  `Host`:
  - its fields are the coalescer maps, the 8192-byte `hostBuffer` array
    with `hostBufferPos`, the realtime flag, the mapping and the audio
    buffer;
  - its methods are `initialise`, the `run` loop with one method per
    command, and the plugin callbacks `transportPlay` and
    `audioProcessorParameterChanged`.

  Each method is proved against a function of the session state.
- `AudioOutput` (audio_output.dfy) holds the audio-output bridge of
  `src/audio_output.h` as a class `AudioBridge`:
  - the device callback;
  - the command-0 channel fill, from the stream or from the mapping;
  - the restart thread, the stop and error handlers, and the exit code;
  - the device-info frame and the rule for re-opening the mapping.

The collaborators become parameters. These are the plugin, its
`processBlock` as a function, the clock, the outcome of `try_lock` and of
the message-manager lock, whether a mapping opens, and the mapping's
contents.

Modelling conventions:

- A byte is an `int` in 0..255. `Int8` … `Int64` are the signed ranges, and
  the casts of the source (`(juce::int8)`, `(int)`) are written out as
  wrap-around.
- A float is its four (or eight) bytes, compared only for equality.
- Native byte order is taken to be little-endian.
- A short read of a fixed-width value overwrites the leading bytes of the
  destination and leaves the rest as it was. An uninitialised local is
  taken to hold zeros, and so are the samples of the fresh
  `juce::AudioBuffer` that command 0 allocates, which the source does not
  clear.
- A read of the varint readers at end of input reads as 0. That stops the
  varint and consumes nothing.
- Undefined behaviour that the input can reach is modelled as its own
  outcome (`None`, or `Outcome.Undefined`) that ends the modelled run. The
  cases are a negative string length, the string length 2^31 - 1 (whose
  allocation size `len + 1` overflows `int`), a channel index past the
  audio buffer, a negative buffer size and a copy past the mapping.

The code and the protocol description disagree in one place, and the model
follows the code. The description says a varint longer than 5 bytes (10 for
a long) is malformed. `readVarInt` and `readVarLong` simply stop after 5
(10) bytes and return what they accumulated, and `Wire.DecodeVarInt` and
`Wire.DecodeVarLong` do the same.

## Model

| member | source | states |
|---|---|---|
| Wire.LittleEndian | src/utils.h:32 | a fixed-width value is exactly n bytes |
| Wire.UnsignedOfLittleEndian | src/utils.h:32 | the n bytes written read back as the value modulo 256^n |
| Wire.FixedWidthRoundTrip | src/utils.h:32 | a value that fits n signed bytes is read back unchanged |
| Wire.VarBytesShape | src/utils.h:48-62 | the varint is at least one byte; every byte but the last has bit 7 set; for a non-negative value the last is below 0x80 |
| Wire.VarBytesLength | src/utils.h:48-62 | for v >= 0 the varint is the shortest 7-bit encoding: v < 128^len, and 128^(len-1) <= v unless one byte |
| Wire.VarBytesAtMost | src/utils.h:48-62 | a value below 128^k takes at most k bytes, so an int32 takes at most 5 and an int64 at most 10 |
| Wire.NegativeVarIntLost | src/utils.h:49-53 | a negative value skips the loop, is written as its low byte alone, and does not read back |
| Wire.VarGroupsStops | src/utils.h:118-135 | the reader takes at most maxBytes bytes, stops at the first byte below 0x80, and every byte before it has bit 7 set |
| Wire.VarGroupsOfVarBytes | src/utils.h:118-135 | the groups of an encoded non-negative value sum back to the value, consuming exactly its bytes |
| Wire.VarIntRoundTrip | src/utils.h:48-54 | for 0 <= v < 2^31 readVarInt of writeVarInt(v) yields v and consumes exactly the bytes written |
| Wire.VarLongRoundTrip | src/utils.h:56-62 | for 0 <= v < 2^63 readVarLong of writeVarLong(v) yields v and consumes exactly the bytes written |
| Wire.DecodeVarIntSize | src/utils.h:118-126 | a varint read never consumes more than the input |
| Wire.BoolRoundTrip | src/utils.h:31 | a bool is written as byte 0 or 1, and readBool gives it back consuming one byte |
| Wire.CStrShape | src/utils.h:68-69 | the C string of a buffer is its prefix up to the first NUL, and it contains no NUL |
| Wire.CStrOfNoNul | src/utils.h:68-69 | a buffer without NUL is its own C string |
| Wire.StringBytesOfNoNul | src/utils.h:63-72 | a non-empty string without NUL is written as varint(length) and then its bytes, with no terminator |
| Wire.StringRoundTrip | src/utils.h:63-72 | readString of a written NUL-free string shorter than 2^31 - 1 bytes yields the string and consumes exactly its bytes; "" is the single byte 0 |
| Wire.OverflowingLengthUndefined | src/utils.h:136-140 | the length 2^31 - 1, varint FF FF FF FF 07, is read whole and the string read is then undefined, whatever follows |
| Wire.StringParts | src/utils.h:63-72 | a written string splits into its varint length n and then the bytes |
| Wire.StringAfterLength | src/utils.h:136-145 | once the length varint is read and all len bytes are there, readString gives the C string of those bytes |
| Wire.StringTruncated | src/utils.h:140-143 | when the input ends early readString consumes the rest and returns what was available, up to its first NUL |
| Wire.DecodeStringSize | src/utils.h:136-145 | readString never consumes more than the input |
| Wire.StringsBytesAppend | src/utils.h:33-40 | the strings of an array are written one after the other |
| Wire.StringsRoundTrip | src/utils.h:33-40 | count strings read back in order |
| Wire.FirstStringRoundTrip | src/utils.h:33-40 | the first string of an array is read first and the others follow |
| Wire.StringArrayRoundTrip | src/utils.h:33-40 | a string array, varint count then the strings, reads back as written |
| Wire.StringArrayCount | src/utils.h:33-40 | a string array starts with the varint count of its strings |
| Wire.ByteOrderMessageValue | src/utils.h:74-77 | the byte-order word is bytes 02 01, the little-endian 16-bit value 0x0102 |
| Wire.ErrorFrameRoundTrip | src/utils.h:78-83 | the error frame is opcode 127 then the message string, and the parent reads the message back |
| Streams.Strlen | src/utils.h:68-69 | the loop's n is the length of the C string: no NUL before n, and s[n] is NUL when n < length |
| Streams.OutputStream.constructor | src/utils.h:23-29 | a fresh stream has written and flushed nothing |
| Streams.OutputStream.Write | src/utils.h:32 | appends exactly the value's bytes, flushes nothing |
| Streams.OutputStream.WriteBool | src/utils.h:31 | appends 1 for true, 0 for false |
| Streams.OutputStream.WriteVarInt | src/utils.h:48-54 | the loop appends exactly VarBytes(v) |
| Streams.OutputStream.WriteVarLong | src/utils.h:56-62 | the loop appends exactly VarBytes(v) |
| Streams.OutputStream.WriteString | src/utils.h:63-72 | appends exactly the string's encoding: 0 for "", else varint of the C-string length and its bytes |
| Streams.OutputStream.WriteStringArray | src/utils.h:33-40 | appends the varint count and each string in order |
| Streams.OutputStream.Flush | src/utils.h:85 | every byte written so far is flushed and none is added |
| Streams.OutputStream.WriteByteOrderMessage | src/utils.h:74-77 | appends the 0x0102 word and flushes |
| Streams.OutputStream.WriteError | src/utils.h:78-83 | appends byte 127 and the message string, and flushes |
| Streams.InputStream.constructor | src/utils.h:97-103 | a fresh stream is at the start of stdin |
| Streams.InputStream.ReadUpTo | src/utils.h:141 | reads min(n, available) bytes and advances by that many |
| Streams.InputStream.ReadInto | src/utils.h:110-113 | fread of a fixed value: the available bytes overwrite the destination's leading bytes, the rest stay, and it succeeds exactly when all were available |
| Streams.InputStream.ReadByte | src/utils.h:110 | gives the next byte and advances by one; at end of input gives 0 and stays |
| Streams.InputStream.ReadBool | src/utils.h:105-109 | true exactly when a byte was read and it is non-zero |
| Streams.InputStream.ReadGroups | src/utils.h:118-135 | the loop sums the 7-bit groups as VarGroups does and advances by the bytes it took |
| Streams.InputStream.ReadVarInt | src/utils.h:118-126 | reads the varint DecodeVarInt gives, advancing by its size |
| Streams.InputStream.ReadVarLong | src/utils.h:127-135 | reads the varint DecodeVarLong gives, advancing by its size |
| Streams.InputStream.ReadString | src/utils.h:136-145 | reads the string DecodeString gives, and is undefined (None) exactly for a negative length or the length 2^31 - 1 |
| HostProtocol.TransportRoundTrip | src/plugin_host.h:6-9 | a transport state packed into the flags byte unpacks to itself |
| HostProtocol.TransportOfLowBits | src/plugin_host.h:104-111 | bits 0-3 are isPlaying, isLooping, isRecording, isRealtime; bits 4-7 are ignored |
| HostProtocol.MidiWordRoundTrip | src/plugin_host.h:123-126 | status, data1, data2 packed low byte first into the event word come back from `& 0xFF`, `>> 8`, `>> 16`, whatever the top byte |
| HostProtocol.ParameterFlagsBits | src/plugin_host.h:11-15 | the parameter flag byte has bits 0-4 set exactly for automatable, discrete, boolean, meta, orientation-inverted, and nothing above |
| HostProtocol.ParameterFlagsFirst | src/plugin_host.h:239-245 | a parameter descriptor starts with that flag byte |
| HostProtocol.ParametersBytesSnoc | src/plugin_host.h:238-247 | descriptors are written one after another in parameter order |
| HostProtocol.InitInfoHeader | src/plugin_host.h:234-237 | InitInfo is opcode 0, int8 inputs, int8 outputs (wrapped), the varint parameter count, then the descriptors |
| HostProtocol.ChangeFrameRoundTrip | src/plugin_host.h:258-260 | a parameter-change frame is opcode 3, varint index, float, and reads back |
| HostProtocol.ChangeFramesSnoc | src/plugin_host.h:253-262 | frames for flushed entries are written in iteration order |
| HostProtocol.ChangedDropped | src/plugin_host.h:191 | a change equal to the last value seen, or arriving while the lock is taken, changes no last-seen value and no pending entry |
| HostProtocol.ChangedAccepted | src/plugin_host.h:192-194 | corrected coalescer: an accepted change records the value as last seen and leaves it pending until now + 500, touching no other index |
| HostProtocol.ChangedAsWrittenDropped | src/plugin_host.h:191 | as written: a change equal to the last value seen, or arriving while the lock is taken, changes no last-seen value and no pending entry |
| HostProtocol.ChangedAsWrittenAccepted | src/plugin_host.h:192-194 | as written: an accepted change records the value as last seen; the pending entry keeps its earlier value if the index was pending (the new value otherwise) and is due at now + 500; no other index changes |
| HostProtocol.ChangedAsWrittenGoesStale | src/plugin_host.h:190-196 | as written: a new value for an index pending with a different value leaves the coalescer incoherent |
| HostProtocol.ChangedKeepsCoherent | src/plugin_host.h:190-196 | corrected coalescer: every pending value stays the latest value seen for its index |
| HostProtocol.FlushKeepsCoherent | src/plugin_host.h:251-263 | removing the due entries keeps the coalescer coherent |
| HostProtocol.DebounceFloor | src/plugin_host.h:193 | an accepted change is not flushed before now + 500 ms |
| HostProtocol.AsWrittenReportsStaleValue | src/plugin_host.h:194 | as written, 0.1 then 0.2 within 500 ms leaves 0.1 pending, the flush reports 0.1, and 0.2 is never reported |
| HostProtocol.CorrectedReportsLatest | src/plugin_host.h:194 | corrected, the same two changes leave 0.2 pending |
| HostProtocol.ReadFixed | src/utils.h:110 | a fixed read keeps the destination's width |
| HostProtocol.ReadFixedFull | src/utils.h:110 | a fixed read with all bytes available takes exactly them |
| HostProtocol.Int8RoundTrip | src/utils.h:32 | an int8 written reads back |
| HostProtocol.Int16RoundTrip | src/utils.h:32 | an int16 written reads back |
| HostProtocol.Int32RoundTrip | src/utils.h:32 | an int32 written reads back |
| HostProtocol.PrepareRoundTrip | src/plugin_host.h:68 | a Prepare command (sample rate, buffer size, shared-memory bool) is read as sent |
| HostProtocol.BlockHeaderRoundTrip | src/plugin_host.h:100-101 | a ProcessBlock header (flags, bpm, event count, varlong time) is read as sent |
| HostProtocol.ParseMidi | src/plugin_host.h:122-127 | exactly max(0, count) events are read |
| HostProtocol.ParseMidiStep | src/plugin_host.h:123-126 | one event is the int32 word then the int16 time, unpacked as MidiOfWord |
| HostProtocol.MidiRoundTrip | src/plugin_host.h:122-127 | the events sent are read in order and nothing more is consumed |
| HostProtocol.FillChannels | src/plugin_host.h:119 | filling input channels keeps every channel's width |
| HostProtocol.FillChannelsFull | src/plugin_host.h:119 | with all samples present the first n channels take them in order and the rest keep theirs |
| HostProtocol.ParseBlock | src/plugin_host.h:100-127 | the event count is the header's, channel widths are kept, and with shared memory no channel is read and the output count stays 0 |
| HostProtocol.BlockRoundTrip | src/plugin_host.h:100-127 | without shared memory a request whose channels fit is read exactly as sent |
| HostProtocol.SharedBlockRoundTrip | src/plugin_host.h:100-127 | with shared memory a request is the header and events alone |
| PluginHost.Render | src/plugin_host.h:137 | processBlock leaves the buffer's shape unchanged |
| PluginHost.WriteChange | src/plugin_host.h:258-260 | writes exactly one change frame |
| PluginHost.FlushDue | src/plugin_host.h:251-263 | the loop writes one frame for each entry due by now, each once, and keeps exactly the entries not yet due |
| PluginHost.ReadFixedFrom | src/utils.h:110 | reads a fixed-width value as ReadFixed defines |
| PluginHost.ReadBoolFrom | src/utils.h:115 | reads a bool as DecodeBool defines |
| PluginHost.ReadVarLongFrom | src/plugin_host.h:101 | reads the time as DecodeVarLong defines |
| PluginHost.ReadStringFrom | src/utils.h:136-145 | reads a string as DecodeString defines, None on a negative length or the length 2^31 - 1 |
| PluginHost.Offsets | src/plugin_host.h:83 | one offset per channel |
| PluginHost.MapChannels | src/plugin_host.h:82-83 | the loop gives channel i the float offset i * bufferSize |
| PluginHost.MappedChannelsDisjoint | src/plugin_host.h:83 | mapped channels lie inside n * bufferSize floats and do not overlap |
| PluginHost.ZeroChannels | src/plugin_host.h:91 | a fresh inner buffer is n channels of bufferSize floats, taken to be zero (the source leaves them uncleared) |
| PluginHost.PreparedBuffer | src/plugin_host.h:71-92 | an inner buffer is built exactly unless shared memory is enabled and the mapping is kept (size 0) or a named mapping opens; mapped channel i starts at i * bufferSize; a negative size is undefined exactly when a buffer is built; prepareToPlay is called once |
| PluginHost.PreparedShaped | src/plugin_host.h:71-92 | after Prepare an unmapped buffer has bufferSize floats per channel |
| PluginHost.ReceivedTransport | src/plugin_host.h:103-113 | the playhead takes the flag bits, bpm and time; setNonRealtime(!rt) is called exactly when the realtime bit differs from the stored one; processBlock comes last |
| PluginHost.ReceivedShaped | src/plugin_host.h:117-120 | reading input channels keeps the buffer's shape |
| PluginHost.RenderedShaped | src/plugin_host.h:137 | processing keeps the buffer's shape |
| PluginHost.BlockReplySize | src/plugin_host.h:139-140 | without a mapping the reply is defined exactly when numOutputs fits the buffer, and is opcode 1 then numOutputs × bufferSize floats |
| PluginHost.ReadBlockHeaderFrom | src/plugin_host.h:100-101 | reads the header as ParseBlockHeader defines |
| PluginHost.FillFrom | src/plugin_host.h:119 | the loop fills the input channels as FillChannels defines, failing exactly where it is undefined |
| PluginHost.ReadMidiFrom | src/plugin_host.h:122-127 | the loop reads the events as ParseMidi defines |
| PluginHost.WriteChannels | src/plugin_host.h:140 | the loop writes the first n channels in order, failing exactly when one is past the buffer |
| PluginHost.ParseBlockInputs | src/plugin_host.h:117-127 | the block parse is the header, then the inputs part, then the events |
| PluginHost.HostEventsPairs | src/plugin_host.h:183-188 | buffered host events are pairs [2, 0 or 1] |
| PluginHost.ChangesAfterCoherent | src/plugin_host.h:190-196 | corrected coalescer: any run of callbacks keeps the coalescer coherent |
| PluginHost.ReadOpcodeFrom | src/plugin_host.h:63-64 | an opcode is read exactly when a byte is available, consuming it |
| PluginHost.WriteParameter | src/plugin_host.h:239-246 | writes exactly one parameter descriptor |
| PluginHost.ReadArgument | src/plugin_host.h:32-33 | an option value "#" is read from stdin as a string, any other value is taken as is |
| PluginHost.InitialisedFromStdin | src/plugin_host.h:29-57 | with both values on stdin, the description and the preset path are consumed exactly, the preset is loaded, and the parent gets the byte-order word then InitInfo |
| PluginHost.LoadErrorReported | src/plugin_host.h:44-47 | a load error reaches the parent as the error frame right after the byte-order word, and the plugin is asked nothing |
| PluginHost.Host.constructor | src/plugin_host.h:207-212 | starts realtime at 48000 Hz, 1024 samples, no mapping, empty maps and an empty host buffer |
| PluginHost.Host.WriteToHostBuffer | src/plugin_host.h:265-268 | appends exactly the bytes given at hostBufferPos; past 8192 bytes it is undefined (overrun), since nothing checks the capacity |
| PluginHost.Host.TransportPlay | src/plugin_host.h:183-188 | buffers exactly [2, shouldStartPlaying] when the lock is obtained, and nothing otherwise |
| PluginHost.Host.ParameterChanged | src/plugin_host.h:190-196 | the maps become Changed(old maps, …), the corrected coalescer |
| PluginHost.Host.WriteAllParameterChanges | src/plugin_host.h:251-263 | one frame per due entry, each once, and the pending map keeps exactly the entries not yet due |
| PluginHost.Host.Drain | src/plugin_host.h:128-136 | runs exactly when bytes are buffered or changes pending and the lock is obtained; then writes the buffered bytes verbatim, empties the buffer and flushes due changes |
| PluginHost.Host.SetUpBuffer | src/plugin_host.h:71-92 | the session becomes Prepared(old session, …), undefined exactly when Prepared is |
| PluginHost.Host.ReadPrepare | src/plugin_host.h:68 | reads the Prepare command into sampleRate and bufferSize |
| PluginHost.Host.ReadShmSize | src/plugin_host.h:73-75 | the shared-memory size is read only when shared memory is enabled |
| PluginHost.Host.Prepare | src/plugin_host.h:66-93 | command 0: reads the command; gives up exactly when the lock is not gained; otherwise reads the shared-memory size as ShmSizeOf says and sets up the buffer as Prepared does |
| PluginHost.Host.ApplyHeader | src/plugin_host.h:103-115 | applies the header's realtime bit and playhead to the session |
| PluginHost.Host.ReadInputs | src/plugin_host.h:117-120 | without a mapping reads both channel counts and the input channels |
| PluginHost.Host.ReadBlock | src/plugin_host.h:100-127 | reads the request as ParseBlock defines and applies it to the session |
| PluginHost.Host.Process | src/plugin_host.h:137 | the plugin renders the inner buffer |
| PluginHost.Host.Reply | src/plugin_host.h:137-141 | writes opcode 1, the output channels when unmapped, and flushes; undefined exactly when a channel is past the buffer |
| PluginHost.Host.Respond | src/plugin_host.h:128-141 | the drain, then processBlock, then the reply, in that order on the wire |
| PluginHost.Host.ApplyCallbacks | src/plugin_host.h:183-196 | callbacks that ran between commands update the coalescer and append their host events in order |
| PluginHost.Host.ApplyCallback | src/plugin_host.h:183-196 | one callback: transportPlay or a parameter change |
| PluginHost.Host.WriteInitInfo | src/plugin_host.h:232-249 | writes exactly the InitInfo frame and flushes |
| PluginHost.Host.Initialise | src/plugin_host.h:29-57 | writes and asks the plugin exactly what Initialised gives for the input and the loader's error |
| PluginHost.Host.LoadPreset | src/plugin_host.h:51-54 | loads the preset only when -P is given, reading its path from stdin for "#" |
| PluginHost.Host.Block | src/plugin_host.h:95-143 | command 1: parse, playhead, drain, processBlock and reply, with every undefined case named |
| PluginHost.Host.StateFile | src/plugin_host.h:151-163 | commands 3 and 4: give up without the lock; otherwise read a path and save or load the state |
| PluginHost.Host.Dispatch | src/plugin_host.h:65-165 | gives up only for commands 0, 3, 4 without the lock; with it, command 0 is undefined exactly when Prepared is and otherwise leaves Prepared's session; command 1 is undefined exactly when ParseBlock or BlockReply fails and otherwise leaves the rendered session; commands 3 and 4 are undefined exactly when the path does not decode and otherwise record SaveState or LoadState of it; an unknown opcode consumes nothing more and changes nothing; command 2 only toggles the editor; in all, the outcome and the state left are those Command gives for the state before |
| PluginHost.Host.Run | src/plugin_host.h:62-168 | the run follows Step from the state it starts in: each pass but the last runs a command that continues and leaves the next state; the loop quits (and quit() runs) exactly when the last pass stops before a command because the thread was told to exit or the opcode read failed, leaving the state after the callbacks; it returns early exactly when the last command did not gain its lock; it is stuck exactly when a callback overran the host buffer or the last command was undefined |
| PluginHost.Host.Pass | src/plugin_host.h:64-165 | one pass of the loop does what Step gives: the callbacks, then no command when the host buffer overran, the thread was told to exit or the opcode read failed, otherwise the command read, with its outcome and the state it leaves |
| AudioOutput.DecodeVars | src/audio_output.h:71-74 | the parent's reader takes exactly count varints |
| AudioOutput.VarsRoundTrip | src/audio_output.h:72 | non-negative varints written one after another read back in order |
| AudioOutput.VarListRoundTrip | src/audio_output.h:71-74 | a list, varint count then its varints, reads back |
| AudioOutput.FieldsRoundTrip | src/audio_output.h:67-75 | the numeric fields of the device frame read back |
| AudioOutput.DeviceInfoRoundTrip | src/audio_output.h:65-75 | the device-info frame is opcode 1, "[type] name", four varints, two varint lists and the control-panel bool, and reads back |
| AudioOutput.Filled | src/audio_output.h:31-35 | the fill keeps every channel's width |
| AudioOutput.StreamedFill | src/audio_output.h:35 | without a mapping channels i..n-1 take exactly the floats sent, the others keep theirs, and exactly those bytes are consumed |
| AudioOutput.MappedFill | src/audio_output.h:31-34 | with a mapping channel i is copied from float offset i × bufferSize, and the stream is untouched |
| AudioOutput.ExitCode | src/audio_output.h:112 | the exit code is 1 exactly when isErrorExit is set, and 0 otherwise |
| AudioOutput.StopClearsRestartOnce | src/audio_output.h:83-86 | a stop after a restart clears the flag once; a second stop requests exit |
| AudioOutput.ExitRequested | src/audio_output.h:88-92 | once requested, exit stays requested, and an error or exit always requests it |
| AudioOutput.ErrorExitCode | src/audio_output.h:88-112 | the exit code is 1 exactly when an error was reported |
| AudioOutput.RestartsKeepRunning | src/audio_output.h:41-86 | any number of restart/stop pairs never request exit |
| AudioOutput.RestartReadsFirstResume | src/audio_output.h:44-53 | the restart thread restarts once per byte up to and including the first 3, then stops without exiting |
| AudioOutput.RestartReadsNoResume | src/audio_output.h:44-53 | without a 3 the thread restarts once per byte and then requests exit |
| AudioOutput.ConstructedMapping | src/audio_output.h:8-14 | a mapping exists exactly when a name was given and it opened; exit is requested exactly when a named mapping fails to open |
| AudioOutput.ServedCommands | src/audio_output.h:22-58 | a callback requests exit exactly on a failed read or an unknown command; only command 0 touches the channels or reads past the command byte |
| AudioOutput.PlayedStreamed | src/audio_output.h:29-35 | without a mapping command 0 plays exactly the floats sent for n channels and consumes exactly them |
| AudioOutput.PlayedMapped | src/audio_output.h:29-34 | with a mapping command 0 consumes only the count and copies each channel from the mapping |
| AudioOutput.ServedPlays | src/audio_output.h:27-28 | command byte 0 selects the fill |
| AudioOutput.StartedReopens | src/audio_output.h:77-80 | the buffer size becomes the device's; the mapping is re-opened under its own name with the new size only when one exists and the reply is not 0; nothing else changes |
| AudioOutput.AudioBridge.constructor | src/audio_output.h:8-14 | the bridge starts as Constructed describes |
| AudioOutput.AudioBridge.IoCallback | src/audio_output.h:19-59 | writes opcode 0 and flushes before reading the command, then does what Served gives |
| AudioOutput.AudioBridge.Play | src/audio_output.h:28-37 | command 0 as Played gives |
| AudioOutput.AudioBridge.FillOutputs | src/audio_output.h:31-35 | the channel loop fills as Filled gives, failing exactly where it is undefined |
| AudioOutput.AudioBridge.AwaitRestart | src/audio_output.h:44-54 | the restart loop ends in the state Resumed gives |
| AudioOutput.AudioBridge.ShowControlPanel | src/audio_output.h:94-110 | restarts the device only when it has a control panel and showing it changed the settings |
| AudioOutput.AudioBridge.Stopped | src/audio_output.h:83-86 | clears a pending restart, and otherwise requests exit |
| AudioOutput.AudioBridge.Error | src/audio_output.h:88-92 | sets isErrorExit and requests exit |
| AudioOutput.AudioBridge.AboutToStart | src/audio_output.h:61-81 | writes exactly the device-info frame and flushes, then reads the reply and re-opens as Started gives |
| AudioOutput.AudioBridge.WriteDeviceInfo | src/audio_output.h:65-75 | writes exactly the device-info frame |
| AudioOutput.AudioBridge.WriteVarList | src/audio_output.h:71-74 | the loop writes the count and each varint in order |

## Left out

- Concurrency is left out. The plugin callbacks (`transportPlay`,
  `audioProcessorParameterChanged`) run on other threads in the source. The
  model applies them between two commands, as the sequence
  `Env.callbacks`. `std::mutex::try_lock` and `MessageManagerLock` become
  boolean inputs. The `volatile hostBufferPos` and any data race on it are
  not modelled.
- The detached restart thread of command 2 is not run concurrently. It
  becomes the method `AudioBridge.AwaitRestart`, which the caller runs
  after a command 2. The device manager's own calls to
  `audioDeviceStopped` while it closes a device are left to the caller.
- The posted tasks (`callAsync`) are modelled as calls that happen at once
  (`ToggleEditor`, `AudioBridge.ShowControlPanel`). The editor window itself
  is not modelled.
- Floating point is not modelled. `timeInSeconds` and the ppq position,
  the `(int)` cast of the sample rate and all sample arithmetic are left
  out. A float is its bytes. NaN and signed zero therefore compare by bits
  where the source compares `==` on floats, in
  `audioProcessorParameterChanged`.
- The plugin is a parameter: loading it from its JSON description,
  `processBlock` (a function from buffer and events to samples),
  `getStateInformation` and `setStateInformation`. `processBlock` on a
  mapped buffer writes the parent's shared memory, which the model does
  not hold.
- `loadState` and the `replaceWithData` of command 3 are recorded as calls
  (`LoadState(path)`, `SaveState(path)`). The files are not modelled.
- The clock is a parameter. Wrap-around of the 32-bit millisecond counter
  is not modelled.
- The shared-memory API is a parameter. Whether `open` succeeds is a
  boolean. The mapping's contents are a byte sequence handed to the fill,
  and the model does not tie them to the mapping's size.
- The stream constructors' `FILE*` set-up (`setvbuf`, `freopen`, `dup`) and
  `preventStdout` are left out. Flushing is the `flushed` count, and the
  byte order is taken to be little-endian. The message that `writeError`
  and `audioDeviceError` print to stderr is left out.
- The device's output buffers are a sequence of values, not pointers that
  the device owns. Aliasing between channels is therefore not modelled.
- In command 1 without shared memory, the input-channel count is an
  uninitialised local when the stream ends before it. The model reads it
  as 0.
- `createEditorWindow`, `quit()`, `shutdown` and the GUI files are left out
  as GUI plumbing.
- PluginHost.Host.Run: the loop's contract ties every state and every
  outcome to Step, but not the bytes written to stdout, since the order of
  the parameter-change frames follows the unordered map. The bytes are
  stated command by command on
  `PluginHost.Host.Dispatch`, `PluginHost.Host.Block` and the methods it
  calls.
- HostProtocol.ChangedAccepted and HostProtocol.ChangedKeepsCoherent: they
  state the corrected coalescer, whose pending entry takes the latest value.
  The code as written keeps the first value; that is stated by
  `HostProtocol.ChangedAsWrittenAccepted`.
- PluginHost.ChangesAfterCoherent: it holds for the corrected coalescer
  only. As written, coherence is lost
  (`HostProtocol.ChangedAsWrittenGoesStale`).
- The `juce::MidiBuffer` of command 1 is a sequence of the events in the
  order they arrive, each with all three bytes. The MidiBuffer's own
  storage is not modelled: it keeps events sorted by sample time, trims
  each message to the length its status byte implies, and may not keep a
  message without a status byte.
- PluginHost.Host.ParameterChanged: it models the corrected coalescer, in
  which the latest value wins. The code as written is
  `HostProtocol.ChangedAsWritten`; see Findings.
- Wire.VarIntRoundTrip and Wire.VarLongRoundTrip: they are stated for
  non-negative values only, because a negative value does not round-trip
  (`Wire.NegativeVarIntLost`).

## Findings

| source | as written | input that shows it | evidently intended | confidence | as-written member | corrected member |
|---|---|---|---|---|---|---|
| src/plugin_host.h:194 | `try_emplace` fails for an index already pending, so only the due time moves and the pending entry keeps its first value | index 7 changes to 0.1 at 0 ms and to 0.2 at 10 ms; the flush at 510 ms reports 0.1, and since 0.2 is already the last value seen, a later 0.2 is dropped, so 0.2 is never reported | the pending entry carries the latest value, so that every pending value equals the last value seen | not executed | HostProtocol.AsWrittenReportsStaleValue | HostProtocol.ChangedKeepsCoherent |
