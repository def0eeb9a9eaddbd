/** The work of the encoder and the decoder of SPProto, on their buffers. */
module SPProto {
  import opened Bytes
  import opened SPProtoModel

  class Encoder {
    const p: Params
    const inputMtu: nat
    const buf: array<byte>

    constructor (p: Params, inputMtu: nat)
      ensures this.p == p && this.inputMtu == inputMtu && fresh(buf) && Valid()
    {
      this.p, this.inputMtu := p, inputMtu;
      buf := new byte[if p.blockSize > 0 then AlignUp(p.HeaderLen() + inputMtu + 1, p.blockSize) else 0];
    }

    ghost predicate Valid() {
      p.blockSize > 0 ==> buf.Length == AlignUp(p.HeaderLen() + inputMtu + 1, p.blockSize)
    }

    /** The plaintext is made in the buffer, or in the output packet if it is not encrypted. */
    function PlaintextIn(out: array<byte>): array<byte> {
      if p.blockSize > 0 then buf else out
    }

    /** encode_work_func: the payload is in its place behind the header. */
    method EncodeWork(c: Crypto, otp: Otp, iv: seq<byte>, inLen: nat, out: array<byte>) returns (outLen: nat)
      requires Valid() && CryptoOk(p, c) && OtpOk(p, otp) && |iv| == p.blockSize
      requires inLen <= inputMtu && out.Length == CarrierMtu(p, inputMtu) && out != buf
      requires p.HeaderLen() + inLen <= PlaintextIn(out).Length
      modifies buf, out
      ensures outLen <= out.Length
      ensures out[..outLen] == Encode(p, c, otp, iv, old(PlaintextIn(out)[p.HeaderLen()..p.HeaderLen() + inLen]))
    {
      hide CryptoOk, Pad, Plaintext, AlignUp, CarrierMtu;
      var plaintext := PlaintextIn(out);
      var plaintextLen := p.HeaderLen() + inLen;
      ghost var payload := plaintext[p.HeaderLen()..plaintextLen];
      LengthsFit(p, c, inputMtu, otp, iv, payload);
      EncodeLength(p, c, otp, iv, payload);
      if p.blockSize > 0 { PadLength(Plaintext(p, c, otp, payload), p.blockSize); }
      WriteHeader(c, otp, plaintext, plaintextLen);
      if p.blockSize > 0 {
        var cyphertextLen := AlignUp(plaintextLen + 1, p.blockSize);
        WritePadding(plaintext, plaintextLen, cyphertextLen);
        CopyTo(out, 0, iv);
        CopyTo(out, p.blockSize, c.encrypt(iv, plaintext[..cyphertextLen]));
        outLen := p.blockSize + cyphertextLen;
        assert out[..outLen] == iv + c.encrypt(iv, plaintext[..cyphertextLen]);
      } else {
        outLen := plaintextLen;
      }
    }

    /** The one-time password and the hash, over zeros in place of the hash. */
    method WriteHeader(c: Crypto, otp: Otp, a: array<byte>, len: nat)
      requires CryptoOk(p, c) && OtpOk(p, otp) && p.HeaderLen() <= len <= a.Length
      modifies a
      ensures a[..len] == Plaintext(p, c, otp, old(a[p.HeaderLen()..len]))
      ensures a[len..] == old(a[len..])
    {
      hide OtpBytes;
      ghost var payload := a[p.HeaderLen()..len];
      CopyTo(a, 0, OtpBytes(p, otp));
      if p.hashSize > 0 {
        CopyTo(a, p.OtpLen(), Zeros(p.hashSize));
        assert a[..len] == OtpBytes(p, otp) + Zeros(p.hashSize) + payload;
        var hash := c.hash(a[..len]);
        CopyTo(a, p.OtpLen(), hash);
        assert a[..len] == OtpBytes(p, otp) + hash + payload;
      } else {
        assert a[..len] == OtpBytes(p, otp) + [] + payload;
      }
    }

    method WritePadding(a: array<byte>, len: nat, paddedLen: nat)
      requires p.blockSize > 0 && paddedLen == AlignUp(len + 1, p.blockSize) <= a.Length
      modifies a
      ensures len < paddedLen && a[..paddedLen] == Pad(old(a[..len]), p.blockSize)
    {
      AlignUpIs(len + 1, p.blockSize);
      a[len] := 1;
      var i := len + 1;
      while i < paddedLen
        invariant len + 1 <= i <= paddedLen && a[len] == 1 && a[..len] == old(a[..len])
        invariant forall k :: len < k < i ==> a[k] == 0
      {
        a[i] := 0;
        i := i + 1;
      }
    }
  }

  class Decoder {
    const p: Params
    const outputMtu: nat
    const buf: array<byte>
    var haveEncryptionKey: bool

    constructor (p: Params, outputMtu: nat)
      ensures this.p == p && this.outputMtu == outputMtu && fresh(buf) && Valid() && !haveEncryptionKey
    {
      this.p, this.outputMtu, haveEncryptionKey := p, outputMtu, false;
      buf := new byte[if p.blockSize > 0 then AlignUp(p.HeaderLen() + outputMtu + 1, p.blockSize) else 0];
    }

    ghost predicate Valid() {
      p.blockSize > 0 ==> buf.Length == AlignUp(p.HeaderLen() + outputMtu + 1, p.blockSize)
    }

    /** decode_work_func; the packet is as it was, also when it is its own plaintext. */
    method DecodeWork(c: Crypto, packet: array<byte>, inLen: nat) returns (r: Option<Decoded>)
      requires Valid() && CryptoOk(p, c) && inLen <= packet.Length && inLen <= CarrierMtu(p, outputMtu) && packet != buf
      modifies buf, packet
      ensures packet[..] == old(packet[..])
      ensures r == if p.blockSize > 0 && !haveEncryptionKey then None else Decode(p, c, outputMtu, old(packet[..inLen]))
    {
      hide CryptoOk, ReadPlaintext, FindOne, AlignUp;
      var plaintext, plaintextLen := packet, inLen;
      if p.blockSize > 0 {
        if inLen % p.blockSize != 0 {
          return None;
        }
        if inLen < p.blockSize {
          return None;
        }
        if !haveEncryptionKey {
          return None;
        }
        var ciphertextLen := inLen - p.blockSize;
        SumOfBlocks(ciphertextLen, p.blockSize);
        var decrypted := c.decrypt(packet[..p.blockSize], packet[p.blockSize..inLen]);
        DecryptLength(p, c, packet[..p.blockSize], packet[p.blockSize..inLen]);
        assert packet[..inLen][..p.blockSize] == packet[..p.blockSize] && packet[..inLen][p.blockSize..] == packet[p.blockSize..inLen];
        CopyTo(buf, 0, decrypted);
        assert buf[..ciphertextLen] == decrypted;
        if ciphertextLen < p.blockSize {
          return None;
        }
        plaintext := buf;
        var end := FindPadding(plaintext, ciphertextLen);
        if end.None? {
          return None;
        }
        plaintextLen := end.value;
        assert decrypted[..plaintextLen] == buf[..plaintextLen];
      }
      r := ReadPacket(c, plaintext, plaintextLen);
    }

    /** The loop that reads the padding. */
    method FindPadding(a: array<byte>, len: nat) returns (end: Option<nat>)
      requires 0 < p.blockSize <= len <= a.Length
      ensures end == FindOne(a[..len], len - 1, len - p.blockSize)
    {
      var i := len - 1;
      while i >= len - p.blockSize
        invariant len - p.blockSize - 1 <= i < len
        invariant FindOne(a[..len], len - 1, len - p.blockSize) == FindOne(a[..len], i, len - p.blockSize)
      {
        if a[i] == 1 {
          return Some(i);
        }
        if a[i] != 0 {
          return None;
        }
        i := i - 1;
      }
      end := None;
    }

    /** The hash over zeros in its place is compared with the one in the plaintext, which is then put back. */
    static method CheckHash(c: Crypto, a: array<byte>, len: nat, from: nat, to: nat) returns (ok: bool)
      requires from <= to <= len <= a.Length
      modifies a
      ensures a[..] == old(a[..])
      ensures ok == (old(a[from..to]) == c.hash(old(a[..from]) + Zeros(to - from) + old(a[to..len])))
    {
      var hash := a[from..to];
      ghost var zeroed := a[..from] + Zeros(to - from) + a[to..len];
      CopyTo(a, from, Zeros(to - from));
      assert a[..len] == zeroed;
      var hashCalc := c.hash(a[..len]);
      CopyTo(a, from, hash);
      assert forall k :: 0 <= k < a.Length ==> a[k] == old(a[k]);
      ok := hash == hashCalc;
    }

    /** The header, the length and the hash; the hash in the plaintext is put back after the check. */
    method ReadPacket(c: Crypto, a: array<byte>, len: nat) returns (r: Option<Decoded>)
      requires CryptoOk(p, c) && len <= a.Length
      modifies a
      ensures r == ReadPlaintext(p, c, outputMtu, old(a[..len])) && a[..] == old(a[..])
    {
      hide ReadOtp, Zeros, CryptoOk;
      ghost var s := a[..len];
      if len < p.HeaderLen() {
        return None;
      }
      if len - p.HeaderLen() > outputMtu {
        return None;
      }
      var otp := ReadOtp(p, a[..len]);
      assert s[..p.OtpLen()] == a[..p.OtpLen()] && s[p.HeaderLen()..] == a[p.HeaderLen()..len];
      assert s[p.OtpLen()..p.HeaderLen()] == a[p.OtpLen()..p.HeaderLen()];
      if p.hashSize > 0 {
        var ok := CheckHash(c, a, len, p.OtpLen(), p.HeaderLen());
        if !ok {
          return None;
        }
      }
      r := Some(Decoded(otp, a[p.HeaderLen()..len]));
    }
  }

  lemma DecryptLength(p: Params, c: Crypto, iv: seq<byte>, x: seq<byte>)
    requires CryptoOk(p, c) && p.blockSize > 0 && |iv| == p.blockSize && |x| % p.blockSize == 0
    ensures |c.decrypt(iv, x)| == |x|
  {
  }
}
