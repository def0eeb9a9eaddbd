/**
 * FragmentProtoDisassembler: writes chunks of its input packets into the output packet it was
 * given.
 *
 * Every handler is proved against the functions of DisassemblerModel. `View` is the state they are
 * about; the output packet is the receiver's own array, of which the part written so far is in the
 * state.
 */
module FragmentProtoDisassembler {
  import opened Bytes
  import opened FragmentProto
  import opened DisassemblerModel

  class Disassembler {
    const inputMtu: nat
    const outputMtu: nat
    const chunkMtu: int
    const latency: int
    var input: seq<byte>
    var inLen: int
    var inUsed: nat
    var out: array?<byte>
    var outUsed: nat
    var timerRunning: bool
    var frameId: uint16

    ghost function Cfg(): Config { Config(inputMtu, outputMtu, chunkMtu, latency) }

    ghost function View(): State
      reads this, out
    {
      State(if inLen >= 0 then Some(input) else None, inUsed,
            if out != null && outUsed <= out.Length then Some(out[..outUsed]) else None,
            timerRunning, frameId)
    }

    ghost predicate Shaped()
      reads this, out
    {
      && (inLen == -1 || inLen == |input|)
      && (out != null ==> out.Length == outputMtu && outUsed <= outputMtu)
    }

    ghost predicate Valid()
      reads this, out
    {
      Shaped() && Ok(Cfg(), View())
    }

    constructor (inputMtu: nat, outputMtu: nat, chunkMtu: int, latency: int)
      requires Config(inputMtu, outputMtu, chunkMtu, latency).Valid()
      ensures Valid() && Cfg() == Config(inputMtu, outputMtu, chunkMtu, latency)
      ensures View() == INITIAL && out == null
    {
      this.inputMtu, this.outputMtu, this.chunkMtu, this.latency := inputMtu, outputMtu, chunkMtu, latency;
      input, inLen, inUsed := [], -1, 0;
      out, outUsed, timerRunning, frameId := null, 0, false, 0;
    }

    /** OUT_AVAIL */
    function Room(): int
      reads this
    {
      outputMtu - outUsed - HEADER
    }

    /** The do/while loop of write_chunks. */
    method WriteLoop()
      requires Shaped() && Cuttable(Cfg(), frameId, input, inUsed, Room())
      requires out != null && inLen == |input| && inUsed <= inLen
      modifies this`inUsed, this`outUsed, out
      ensures outUsed <= outputMtu
      ensures old(Cuttable(Cfg(), frameId, input, inUsed, Room()))
      ensures inUsed == old(CutEnd(Cfg(), frameId, input, inUsed, Room()))
      ensures out[..outUsed] == old(out[..outUsed] + CutBytes(Cfg(), frameId, input, inUsed, Room()))
    {
      hide CutBytes, CutEnd;
      ghost var goal := out[..outUsed] + CutBytes(Cfg(), frameId, input, inUsed, Room());
      ghost var end := CutEnd(Cfg(), frameId, input, inUsed, Room());
      var again := true;
      while again
        invariant inUsed <= inLen && outUsed <= outputMtu
        invariant again ==>
          && Cuttable(Cfg(), frameId, input, inUsed, Room())
          && goal == out[..outUsed] + CutBytes(Cfg(), frameId, input, inUsed, Room())
          && end == CutEnd(Cfg(), frameId, input, inUsed, Room())
        invariant !again ==> goal == out[..outUsed] && end == inUsed
        decreases again, inLen - inUsed
      {
        again := WriteChunk(goal, end);
      }
    }

    /** The body of the loop. */
    method WriteChunk(ghost goal: seq<byte>, ghost end: nat) returns (again: bool)
      requires Shaped() && Cuttable(Cfg(), frameId, input, inUsed, Room())
      requires out != null && inLen == |input|
      requires goal == out[..outUsed] + CutBytes(Cfg(), frameId, input, inUsed, Room())
      requires end == CutEnd(Cfg(), frameId, input, inUsed, Room())
      modifies this`inUsed, this`outUsed, out
      ensures inUsed <= inLen && outUsed <= outputMtu && (again ==> old(inUsed) < inUsed)
      ensures again ==>
        && Cuttable(Cfg(), frameId, input, inUsed, Room())
        && goal == out[..outUsed] + CutBytes(Cfg(), frameId, input, inUsed, Room())
        && end == CutEnd(Cfg(), frameId, input, inUsed, Room())
      ensures !again ==> goal == out[..outUsed] && end == inUsed
    {
      hide CutBytes, CutEnd, Enc16;
      var inAvail, outAvail := inLen - inUsed, Room();
      var chunkLen := Min(inAvail, outAvail);
      if chunkMtu > 0 {
        chunkLen := Min(chunkLen, chunkMtu);
      }
      ghost var before, ch := out[..outUsed], FirstChunk(Cfg(), frameId, input, inUsed, outAvail);
      CutBytesStep(Cfg(), frameId, input, inUsed, outAvail);
      assert chunkLen == |ch.data|;
      var header := Enc16(frameId) + Enc16(inUsed) + Enc16(chunkLen) + [if chunkLen == inAvail then 1 else 0];
      var data := input[inUsed..inUsed + chunkLen];
      assert header + data == EncodeChunk(ch);
      WriteOut(header, data);
      inUsed := inUsed + chunkLen;
      assert out[..outUsed] == before + EncodeChunk(ch);
      again := inLen - inUsed > 0 && Room() > 0;
    }

    method WriteOut(header: seq<byte>, data: seq<byte>)
      requires Shaped() && out != null && outUsed + |header| + |data| <= outputMtu
      modifies this`outUsed, out
      ensures outUsed == old(outUsed) + |header| + |data|
      ensures out[..outUsed] == old(out[..outUsed]) + (header + data)
    {
      CopyTo(out, outUsed, header);
      CopyTo(out, outUsed + |header|, data);
      assert out[..outUsed + |header| + |data|] == old(out[..outUsed]) + (header + data);
      outUsed := outUsed + |header| + |data|;
    }
  
    /**
     * `inputDone` is PacketPassInterface_Done on the input; `packet` is what the receiver finds in
     * its buffer when PacketRecvInterface_Done reports its length.
     */
    method WriteChunks() returns (inputDone: bool, packet: Option<seq<byte>>)
      requires Shaped() && inLen >= 0 && out != null && Room() > 0
      requires timerRunning ==> latency >= 0
      requires Ok(Cfg(), View().(out := None, timer := false))
      modifies this, out
      ensures Shaped()
      ensures Step(View(), inputDone, packet) == DisassemblerModel.WriteChunks(Cfg(), old(View()))
    {
      hide CutBytes, CutEnd;
      WriteLoop();
      packet := None;
      inputDone := inLen - inUsed == 0;
      if inputDone {
        inLen := -1;
        frameId := if frameId == 0xFFFF then 0 else frameId + 1;
      }
      if Room() <= 0 || latency < 0 {
        packet := Some(out[..outUsed]);
        out := null;
        if latency >= 0 {
          timerRunning := false;
        }
      } else {
        timerRunning := true;
      }
    }

    method InputHandlerSend(data: seq<byte>) returns (inputDone: bool, packet: Option<seq<byte>>)
      requires Valid() && Enabled(Cfg(), View(), Send(data))
      modifies this, out
      ensures Valid() && Step(View(), inputDone, packet) == Next(Cfg(), old(View()), Send(data))
    {
      hide CutBytes, CutEnd;
      NextOk(Cfg(), View(), Send(data));
      inLen := |data|;
      input := data;
      inUsed := 0;
      if out == null {
        return false, None;
      }
      inputDone, packet := WriteChunks();
    }

    method InputHandlerRequestCancel() returns (inputDone: bool)
      requires Valid() && Enabled(Cfg(), View(), Cancel)
      modifies this
      ensures Valid() && Step(View(), inputDone, None) == Next(Cfg(), old(View()), Cancel)
    {
      inLen := -1;
      inputDone := true;
    }

    method OutputHandlerRecv(data: array<byte>) returns (inputDone: bool, packet: Option<seq<byte>>)
      requires Valid() && Enabled(Cfg(), View(), Recv) && data.Length == outputMtu
      modifies this, data
      ensures Valid() && Step(View(), inputDone, packet) == Next(Cfg(), old(View()), Recv)
    {
      hide CutBytes, CutEnd;
      NextOk(Cfg(), View(), Recv);
      out := data;
      outUsed := 0;
      assert data[..0] == [];
      if inLen < 0 {
        return false, None;
      }
      inputDone, packet := WriteChunks();
    }

    method TimerHandler() returns (packet: Option<seq<byte>>)
      requires Valid() && Enabled(Cfg(), View(), Timer)
      modifies this
      ensures Valid() && Step(View(), false, packet) == Next(Cfg(), old(View()), Timer)
    {
      hide CutBytes, CutEnd;
      packet := Some(out[..outUsed]);
      out := null;
      timerRunning := false;
    }
  }

  lemma CutBytesStep(c: Config, id: nat, payload: seq<byte>, used: nat, room: nat)
    requires Cuttable(c, id, payload, used, room)
    ensures var ch := FirstChunk(c, id, payload, used, room);
      if GoesOn(payload, room, ch) then
        && CutBytes(c, id, payload, used, room) ==
           EncodeChunk(ch) + CutBytes(c, id, payload, used + |ch.data|, room - |ch.data| - HEADER)
        && CutEnd(c, id, payload, used, room) == CutEnd(c, id, payload, used + |ch.data|, room - |ch.data| - HEADER)
      else
        && CutBytes(c, id, payload, used, room) == EncodeChunk(ch)
        && CutEnd(c, id, payload, used, room) == used + |ch.data|
  {
    hide EncodeChunk, FirstChunk;
  }
}
