/** The state of a FragmentProto disassembler as a value, and what each event does to it. */
module DisassemblerModel {
  import opened Bytes
  import opened FragmentProto

  datatype Config = Config(inputMtu: nat, outputMtu: nat, chunkMtu: int, latency: int) {
    predicate Valid() {
      inputMtu < 0x1_0000 && outputMtu > HEADER && chunkMtu != 0
    }
  }

  /** `out` is what has been written to the output packet, if there is one. */
  datatype State = State(input: Option<seq<byte>>, used: nat, out: Option<seq<byte>>, timer: bool, frameId: nat)

  const INITIAL := State(None, 0, None, false, 0)

  function ChunkLen(c: Config, avail: nat, room: nat): (len: nat)
    requires c.chunkMtu != 0 && room > 0
    ensures len <= avail && len <= room && (avail > 0 ==> len > 0) && (c.chunkMtu > 0 ==> len <= c.chunkMtu)
    ensures len == avail || len == room || len == c.chunkMtu
  {
    var len := Min(avail, room);
    if c.chunkMtu > 0 then Min(len, c.chunkMtu) else len
  }

  function FirstChunk(c: Config, id: nat, payload: seq<byte>, used: nat, room: nat): (ch: Chunk)
    requires c.chunkMtu != 0 && used <= |payload| && room > 0
    ensures ch.id == id && ch.start == used && used + |ch.data| <= |payload| && |ch.data| <= room
    ensures ch.data == payload[used..used + |ch.data|]
    ensures ch.last <==> used + |ch.data| == |payload|
    ensures ch.data == [] ==> ch.last
  {
    var next := used + ChunkLen(c, |payload| - used, room);
    Chunk(id, used, payload[used..next], next == |payload|)
  }

  /** The loop condition of write_chunks after the chunk. */
  predicate GoesOn(payload: seq<byte>, room: nat, ch: Chunk) {
    ch.start + |ch.data| < |payload| && room - |ch.data| > HEADER
  }

  /** The chunks write_chunks makes from position `used` on, with `room` bytes left after the first header. */
  function Cut(c: Config, id: nat, payload: seq<byte>, used: nat, room: nat): (cs: seq<Chunk>)
    requires c.chunkMtu != 0 && used <= |payload| && room > 0
    decreases |payload| - used
  {
    var ch := FirstChunk(c, id, payload, used, room);
    if GoesOn(payload, room, ch)
    then [ch] + Cut(c, id, payload, used + |ch.data|, room - |ch.data| - HEADER)
    else [ch]
  }

  /** Where in the payload the chunks end. */
  function CutEnd(c: Config, id: nat, payload: seq<byte>, used: nat, room: nat): (e: nat)
    requires c.chunkMtu != 0 && used <= |payload| && room > 0
    ensures used <= e <= |payload|
    decreases |payload| - used
  {
    var ch := FirstChunk(c, id, payload, used, room);
    if GoesOn(payload, room, ch) then CutEnd(c, id, payload, used + |ch.data|, room - |ch.data| - HEADER)
    else used + |ch.data|
  }

  predicate Cuttable(c: Config, id: nat, payload: seq<byte>, used: nat, room: int) {
    c.chunkMtu != 0 && used <= |payload| < 0x1_0000 && room > 0 && id < 0x1_0000
  }

  /** What the chunks put into the packet. */
  function CutBytes(c: Config, id: nat, payload: seq<byte>, used: nat, room: nat): (s: seq<byte>)
    requires Cuttable(c, id, payload, used, room)
    decreases |payload| - used
  {
    var ch := FirstChunk(c, id, payload, used, room);
    if GoesOn(payload, room, ch)
    then EncodeChunk(ch) + CutBytes(c, id, payload, used + |ch.data|, room - |ch.data| - HEADER)
    else EncodeChunk(ch)
  }

  lemma {:induction false} CutBytesAreChunks(c: Config, id: nat, payload: seq<byte>, used: nat, room: nat)
    requires Cuttable(c, id, payload, used, room)
    ensures forall ch :: ch in Cut(c, id, payload, used, room) ==> ch.Fits()
    ensures CutBytes(c, id, payload, used, room) == EncodePacket(Cut(c, id, payload, used, room))
    decreases |payload| - used
  {
    hide EncodeChunk, FirstChunk, EncodePacket;
    var ch := FirstChunk(c, id, payload, used, room);
    if GoesOn(payload, room, ch) {
      CutBytesAreChunks(c, id, payload, used + |ch.data|, room - |ch.data| - HEADER);
      EncodePacketCons(ch, Cut(c, id, payload, used + |ch.data|, room - |ch.data| - HEADER));
    } else {
      EncodePacketOne(ch);
    }
  }

  /** The chunks fill the room unless they finish the payload. */
  lemma {:induction false} CutBytesRoom(c: Config, id: nat, payload: seq<byte>, used: nat, room: nat)
    requires Cuttable(c, id, payload, used, room)
    ensures |CutBytes(c, id, payload, used, room)| <= room + HEADER
    ensures CutEnd(c, id, payload, used, room) < |payload| ==> |CutBytes(c, id, payload, used, room)| >= room
    decreases |payload| - used
  {
    hide EncodeChunk, FirstChunk;
    var ch := FirstChunk(c, id, payload, used, room);
    if GoesOn(payload, room, ch) {
      CutBytesRoom(c, id, payload, used + |ch.data|, room - |ch.data| - HEADER);
    }
  }

  /** What an event makes of the state, and what it finishes. */
  datatype Step = Step(state: State, inputDone: bool, packet: Option<seq<byte>>)

  predicate Ok(c: Config, s: State) {
    && c.Valid() && s.frameId < 0x1_0000
    && (s.input.Some? ==> |s.input.value| <= c.inputMtu && s.used <= |s.input.value|)
    && (s.out.Some? ==> |s.out.value| + HEADER < c.outputMtu)
    && (s.out.Some? && s.input.Some? ==> false)
    && (s.timer ==> s.out.Some? && c.latency >= 0)
  }

  function WriteChunks(c: Config, s: State): Step
    requires Ok(c, s.(out := None, timer := false)) && s.input.Some?
    requires s.out.Some? && |s.out.value| + HEADER < c.outputMtu
  {
    var payload, out := s.input.value, s.out.value;
    var room := c.outputMtu - |out| - HEADER;
    var out' := out + CutBytes(c, s.frameId, payload, s.used, room);
    var used := CutEnd(c, s.frameId, payload, s.used, room);
    var inputDone := used == |payload|;
    var t := s.(used := used,
                input := if inputDone then None else s.input,
                frameId := if inputDone then (s.frameId + 1) % 0x1_0000 else s.frameId);
    if c.outputMtu - |out'| <= HEADER || c.latency < 0 then
      Step(t.(out := None, timer := false), inputDone, Some(out'))
    else
      Step(t.(out := Some(out'), timer := true), inputDone, None)
  }

  datatype Event = Send(payload: seq<byte>) | Cancel | Recv | Timer

  /** What the interfaces around the object demand of an event. */
  predicate Enabled(c: Config, s: State, e: Event) {
    match e
    case Send(payload) => s.input.None? && |payload| <= c.inputMtu
    case Cancel => s.input.Some? && s.out.None?
    case Recv => s.out.None?
    case Timer => s.timer
  }

  /** Cancel drops the input packet and keeps the frame id. */
  function Next(c: Config, s: State, e: Event): Step
    requires Ok(c, s) && Enabled(c, s, e)
  {
    match e
    case Send(payload) =>
      var t := s.(input := Some(payload), used := 0);
      if s.out.None? then Step(t, false, None) else WriteChunks(c, t)
    case Cancel =>
      Step(s.(input := None), true, None)
    case Recv =>
      var t := s.(out := Some([]));
      if s.input.None? then Step(t, false, None) else WriteChunks(c, t)
    case Timer =>
      Step(s.(out := None, timer := false), false, s.out)
  }

  lemma WriteChunksOk(c: Config, s: State)
    requires Ok(c, s.(out := None, timer := false)) && s.input.Some?
    requires s.out.Some? && |s.out.value| + HEADER < c.outputMtu
    ensures Ok(c, WriteChunks(c, s).state)
    ensures WriteChunks(c, s).packet.Some? ==> |WriteChunks(c, s).packet.value| <= c.outputMtu
  {
    hide CutEnd, CutBytes;
    CutBytesRoom(c, s.frameId, s.input.value, s.used, c.outputMtu - |s.out.value| - HEADER);
  }

  /** Input and output are never both waiting, and a kept output packet has room for one more byte. */
  lemma NextOk(c: Config, s: State, e: Event)
    requires Ok(c, s) && Enabled(c, s, e)
    ensures Ok(c, Next(c, s, e).state)
    ensures Next(c, s, e).packet.Some? ==> |Next(c, s, e).packet.value| <= c.outputMtu
  {
    hide WriteChunks;
    match e
    case Send(payload) =>
      if s.out.Some? { WriteChunksOk(c, s.(input := Some(payload), used := 0)); }
    case Cancel =>
    case Recv =>
      if s.input.Some? { WriteChunksOk(c, s.(out := Some([]))); }
    case Timer =>
  }
}
