/**
 * SPProto packets as values: a header with a one-time password and a hash, the payload, padding and
 * encryption, each of which may be left out. Cipher and hash function are parameters.
 */
module SPProtoModel {
  import opened Bytes
  import opened Counting

  /** hashSize is 0 if there is no hash, blockSize is 0 if there is no encryption. */
  datatype Params = Params(hashSize: nat, blockSize: nat, haveOtp: bool) {
    function OtpLen(): nat {
      if haveOtp then 6 else 0
    }

    /** SPPROTO_HEADER_LEN */
    function HeaderLen(): nat {
      OtpLen() + hashSize
    }
  }

  datatype Crypto = Crypto(hash: seq<byte> -> seq<byte>,
                           encrypt: (seq<byte>, seq<byte>) -> seq<byte>, decrypt: (seq<byte>, seq<byte>) -> seq<byte>)

  /** For each initialization vector the cipher permutes the strings of whole blocks of each length. */
  ghost predicate CryptoOk(p: Params, c: Crypto) {
    && (forall x :: |c.hash(x)| == p.hashSize)
    && (forall iv, x :: |iv| == p.blockSize && p.blockSize > 0 && |x| % p.blockSize == 0 ==>
          && |c.encrypt(iv, x)| == |x| && c.decrypt(iv, c.encrypt(iv, x)) == x)
    && (forall iv, x :: |iv| == p.blockSize && p.blockSize > 0 && |x| % p.blockSize == 0 ==>
          && |c.decrypt(iv, x)| == |x| && c.encrypt(iv, c.decrypt(iv, x)) == x)
  }

  /** balign_up and balign_down */
  function AlignUp(x: nat, n: nat): (r: nat)
    requires n > 0
  {
    if x % n != 0 then x + (n - x % n) else x
  }

  function AlignDown(x: nat, n: nat): nat
    requires n > 0
  {
    x - x % n
  }

  lemma AlignUpIs(x: nat, n: nat)
    requires n > 0
    ensures AlignUp(x, n) % n == 0 && x <= AlignUp(x, n) < x + n
  {
    if x % n != 0 {
      var q := x / n + 1;
      assert n * q == n * (x / n) + n;
      assert x == n * (x / n) + x % n;
      assert AlignUp(x, n) == n * q + 0;
      QuotientUnique(AlignUp(x, n), n, q, 0);
      assert AlignUp(x, n) % n == AlignUp(x, n) - n * (AlignUp(x, n) / n);
    }
  }

  /** The aligned numbers between which there is less than a block are the same. */
  lemma AlignedUnique(a: nat, b: nat, n: nat)
    requires n > 0 && a % n == 0 && b % n == 0 && a < b + n && b < a + n
    ensures a == b
  {
    var d := a / n - b / n;
    assert a == n * (a / n) && b == n * (b / n);
    assert a - b == n * d && b - a == n * -d;
    if d >= 1 {
      MulAtLeast(n, d);
    } else if d <= -1 {
      MulAtLeast(n, -d);
    }
  }

  // ---------------------------------------------------------------- padding

  function Pad(s: seq<byte>, blockSize: nat): seq<byte>
    requires blockSize > 0
  {
    AlignUpIs(|s| + 1, blockSize);
    s + [1] + Zeros(AlignUp(|s| + 1, blockSize) - (|s| + 1))
  }

  /** The scan for the end of the padding, from i downwards to lowest. */
  function FindOne(s: seq<byte>, i: int, lowest: nat): (r: Option<nat>)
    requires lowest - 1 <= i < |s|
    ensures r.Some? ==> lowest <= r.value <= i
    decreases i
  {
    if i < lowest then None
    else if s[i] == 1 then Some(i)
    else if s[i] != 0 then None
    else FindOne(s, i - 1, lowest)
  }

  /** The decoder looks for the padding in the last block only. */
  function Unpad(s: seq<byte>, blockSize: nat): Option<seq<byte>>
    requires 0 < blockSize <= |s|
  {
    match FindOne(s, |s| - 1, |s| - blockSize)
    case None => None
    case Some(i) => Some(s[..i])
  }

  lemma {:induction false} FindOneIs(s: seq<byte>, i: int, lowest: nat)
    requires lowest - 1 <= i < |s|
    ensures var r := FindOne(s, i, lowest);
      r.Some? ==> lowest <= r.value <= i && s[r.value] == 1 && forall k :: r.value < k <= i ==> s[k] == 0
    ensures forall j: nat {:trigger s[j]} :: lowest <= j <= i && s[j] == 1 && (forall k :: j < k <= i ==> s[k] == 0) ==>
      FindOne(s, i, lowest) == Some(j)
    decreases i
  {
    if i >= lowest && s[i] == 0 {
      FindOneIs(s, i - 1, lowest);
    }
  }

  /** Of strings of whole blocks, exactly the padded ones are accepted, and the padding goes. */
  lemma UnpadExact(padded: seq<byte>, s: seq<byte>, blockSize: nat)
    requires 0 < blockSize <= |padded| && |padded| % blockSize == 0
    ensures Unpad(padded, blockSize) == Some(s) <==> padded == Pad(s, blockSize)
  {
    FindOneIs(padded, |padded| - 1, |padded| - blockSize);
    AlignUpIs(|s| + 1, blockSize);
    var total := AlignUp(|s| + 1, blockSize);
    if padded == Pad(s, blockSize) {
      assert padded[|s|] == 1 && forall k :: |s| < k < |padded| ==> padded[k] == 0;
      assert padded[..|s|] == s;
    }
    if Unpad(padded, blockSize) == Some(s) {
      AlignedUnique(|padded|, total, blockSize);
      assert padded == s + [1] + Zeros(total - (|s| + 1));
    }
  }

  lemma PadLength(s: seq<byte>, blockSize: nat)
    requires blockSize > 0
    ensures |Pad(s, blockSize)| == AlignUp(|s| + 1, blockSize) && |Pad(s, blockSize)| % blockSize == 0
    ensures |Pad(s, blockSize)| >= blockSize
  {
    AlignUpIs(|s| + 1, blockSize);
    SmallMultiple(|Pad(s, blockSize)|, blockSize);
  }

  lemma SmallMultiple(x: nat, n: nat)
    requires n > 0 && x > 0 && x % n == 0
    ensures x >= n
  {
  }

  // ---------------------------------------------------------------- packets

  /** The contents of a struct spproto_otpdata. */
  datatype Otp = Otp(seedId: uint16, otp: seq<byte>)

  predicate OtpOk(p: Params, otp: Otp) {
    |otp.otp| == 4 && (!p.haveOtp ==> otp == NO_OTP)
  }

  const NO_OTP := Otp(0, [0, 0, 0, 0])

  function OtpBytes(p: Params, otp: Otp): (s: seq<byte>)
    requires |otp.otp| == 4
    ensures |s| == p.OtpLen()
  {
    if p.haveOtp then Enc16(otp.seedId) + otp.otp else []
  }

  function ReadOtp(p: Params, s: seq<byte>): (otp: Otp)
    requires |s| >= p.OtpLen()
    ensures OtpOk(p, otp) && OtpBytes(p, otp) == s[..p.OtpLen()]
  {
    if p.haveOtp then Otp(Dec16(s[0], s[1]), s[2..6]) else NO_OTP
  }

  /** The plaintext has its hash in it, taken with zeros in place of the hash. */
  function Plaintext(p: Params, c: Crypto, otp: Otp, payload: seq<byte>): seq<byte>
    requires |otp.otp| == 4
  {
    var hash := if p.hashSize > 0 then c.hash(OtpBytes(p, otp) + Zeros(p.hashSize) + payload) else [];
    OtpBytes(p, otp) + hash + payload
  }

  /** What encode_work_func makes of a payload. */
  function Encode(p: Params, c: Crypto, otp: Otp, iv: seq<byte>, payload: seq<byte>): seq<byte>
    requires |otp.otp| == 4
  {
    var plaintext := Plaintext(p, c, otp, payload);
    if p.blockSize > 0 then iv + c.encrypt(iv, Pad(plaintext, p.blockSize)) else plaintext
  }

  datatype Decoded = Decoded(otp: Otp, payload: seq<byte>)

  /** The checks of decode_work_func on the plaintext. */
  function ReadPlaintext(p: Params, c: Crypto, mtu: nat, s: seq<byte>): Option<Decoded> {
    if |s| < p.HeaderLen() then None
    else if |s| - p.HeaderLen() > mtu then None
    else
      var zeroed := s[..p.OtpLen()] + Zeros(p.hashSize) + s[p.HeaderLen()..];
      if p.hashSize > 0 && s[p.OtpLen()..p.HeaderLen()] != c.hash(zeroed) then None
      else Some(Decoded(ReadOtp(p, s), s[p.HeaderLen()..]))
  }

  /** What decode_work_func makes of a packet; the one-time password is checked later. */
  function Decode(p: Params, c: Crypto, mtu: nat, packet: seq<byte>): Option<Decoded> {
    if p.blockSize == 0 then ReadPlaintext(p, c, mtu, packet)
    else if |packet| % p.blockSize != 0 || |packet| < p.blockSize then None
    else
      var padded := c.decrypt(packet[..p.blockSize], packet[p.blockSize..]);
      if |packet| - p.blockSize < p.blockSize || |padded| < p.blockSize then None
      else
        match Unpad(padded, p.blockSize)
        case None => None
        case Some(s) => ReadPlaintext(p, c, mtu, s)
  }

  /** Of plaintexts, exactly those with the right hash and a payload not too long are accepted. */
  lemma ReadExact(p: Params, c: Crypto, mtu: nat, s: seq<byte>, otp: Otp, payload: seq<byte>)
    requires CryptoOk(p, c)
    ensures ReadPlaintext(p, c, mtu, s) == Some(Decoded(otp, payload)) <==>
      OtpOk(p, otp) && |payload| <= mtu && s == Plaintext(p, c, otp, payload)
  {
    if OtpOk(p, otp) && |payload| <= mtu && s == Plaintext(p, c, otp, payload) {
      var front := OtpBytes(p, otp);
      assert s[..p.OtpLen()] == front && s[p.HeaderLen()..] == payload;
      if p.hashSize > 0 {
        assert s[p.OtpLen()..p.HeaderLen()] == c.hash(front + Zeros(p.hashSize) + payload);
      }
      assert ReadOtp(p, s) == otp by {
        if p.haveOtp {
          assert s[0] == front[0] && s[1] == front[1] && s[2..6] == front[2..6] == otp.otp;
        }
      }
    }
    if ReadPlaintext(p, c, mtu, s) == Some(Decoded(otp, payload)) {
      assert s == s[..p.OtpLen()] + s[p.OtpLen()..p.HeaderLen()] + s[p.HeaderLen()..];
      assert p.hashSize == 0 ==> s[p.OtpLen()..p.HeaderLen()] == [];
    }
  }

  /**
   * The decoder accepts exactly what the encoder makes, for some initialization vector, of a payload
   * that is not too long, and gives back that payload and its one-time password.
   */
  lemma DecodesExactlyEncoded(p: Params, c: Crypto, mtu: nat, packet: seq<byte>, otp: Otp, payload: seq<byte>)
    requires CryptoOk(p, c)
    ensures Decode(p, c, mtu, packet) == Some(Decoded(otp, payload)) <==>
      OtpOk(p, otp) && |payload| <= mtu && exists iv: seq<byte> :: |iv| == p.blockSize && packet == Encode(p, c, otp, iv, payload)
  {
    if OtpOk(p, otp) && |payload| <= mtu && exists iv: seq<byte> :: |iv| == p.blockSize && packet == Encode(p, c, otp, iv, payload) {
      var iv: seq<byte> :| |iv| == p.blockSize && packet == Encode(p, c, otp, iv, payload);
      EncodedDecodes(p, c, mtu, iv, otp, payload);
    }
    if Decode(p, c, mtu, packet) == Some(Decoded(otp, payload)) {
      DecodedIsEncoded(p, c, mtu, packet, otp, payload);
    }
  }

  /** The round trip. */
  lemma EncodedDecodes(p: Params, c: Crypto, mtu: nat, iv: seq<byte>, otp: Otp, payload: seq<byte>)
    requires CryptoOk(p, c) && OtpOk(p, otp) && |payload| <= mtu && |iv| == p.blockSize
    ensures Decode(p, c, mtu, Encode(p, c, otp, iv, payload)) == Some(Decoded(otp, payload))
  {
    var s := Plaintext(p, c, otp, payload);
    ReadExact(p, c, mtu, s, otp, payload);
    if p.blockSize > 0 {
      var padded := Pad(s, p.blockSize);
      var packet := Encode(p, c, otp, iv, payload);
      PadLength(s, p.blockSize);
      UnpadExact(padded, s, p.blockSize);
      assert packet[..p.blockSize] == iv && packet[p.blockSize..] == c.encrypt(iv, padded);
      SumOfBlocks(|padded|, p.blockSize);
    }
  }

  lemma SumOfBlocks(x: nat, n: nat)
    requires n > 0
    ensures (n + x) % n == 0 <==> x % n == 0
  {
    assert x == n * (x / n) + x % n;
    assert n + x == n * (x / n + 1) + x % n;
    QuotientUnique(n + x, n, x / n + 1, x % n);
  }

  lemma DecodedIsEncoded(p: Params, c: Crypto, mtu: nat, packet: seq<byte>, otp: Otp, payload: seq<byte>)
    requires CryptoOk(p, c) && Decode(p, c, mtu, packet) == Some(Decoded(otp, payload))
    ensures OtpOk(p, otp) && |payload| <= mtu
    ensures exists iv: seq<byte> :: |iv| == p.blockSize && packet == Encode(p, c, otp, iv, payload)
  {
    if p.blockSize == 0 {
      ReadExact(p, c, mtu, packet, otp, payload);
      var none: seq<byte> := [];
      assert |none| == p.blockSize && packet == Encode(p, c, otp, none, payload);
    } else {
      var iv, ciphertext := packet[..p.blockSize], packet[p.blockSize..];
      SumOfBlocks(|ciphertext|, p.blockSize);
      var padded := c.decrypt(iv, ciphertext);
      var s := Unpad(padded, p.blockSize).value;
      UnpadExact(padded, s, p.blockSize);
      ReadExact(p, c, mtu, s, otp, payload);
      assert packet == iv + c.encrypt(iv, padded);
    }
  }

  // ---------------------------------------------------------------- lengths

  /** spproto_carrier_mtu_for_payload_mtu and spproto_payload_mtu_for_carrier_mtu, without overflow */
  function CarrierMtu(p: Params, payloadMtu: nat): nat {
    if p.blockSize == 0 then p.HeaderLen() + payloadMtu
    else p.blockSize + AlignUp(p.HeaderLen() + payloadMtu + 1, p.blockSize)
  }

  function PayloadMtu(p: Params, carrierMtu: nat): int {
    if p.blockSize == 0 then carrierMtu - p.HeaderLen()
    else AlignDown(carrierMtu, p.blockSize) - p.blockSize - p.HeaderLen() - 1
  }

  /** The two say the same: the payloads that fit into a carrier packet are those up to the payload MTU. */
  lemma MtusMatch(p: Params, payloadMtu: nat, carrierMtu: nat)
    ensures CarrierMtu(p, payloadMtu) <= carrierMtu <==> payloadMtu <= PayloadMtu(p, carrierMtu)
  {
    if p.blockSize > 0 {
      var b, x := p.blockSize, p.HeaderLen() + payloadMtu + 1;
      AlignUpIs(x, b);
      AlignDownIs(carrierMtu, b);
      if x + b <= AlignDown(carrierMtu, b) {
        SumOfBlocks(AlignUp(x, b), b);
        AlignedBelow(b + AlignUp(x, b), AlignDown(carrierMtu, b), b);
      }
      if b + AlignUp(x, b) <= carrierMtu {
        SumOfBlocks(AlignUp(x, b), b);
        AlignedBelow(b + AlignUp(x, b), AlignDown(carrierMtu, b), b);
      }
    }
  }

  lemma AlignDownIs(x: nat, n: nat)
    requires n > 0
    ensures AlignDown(x, n) % n == 0 && AlignDown(x, n) <= x < AlignDown(x, n) + n
  {
    assert x == n * (x / n) + x % n;
    QuotientUnique(AlignDown(x, n), n, x / n, 0);
    assert AlignDown(x, n) % n == AlignDown(x, n) - n * (AlignDown(x, n) / n);
  }

  /** An aligned number that is less than a block above another is not above it. */
  lemma AlignedBelow(a: nat, b: nat, n: nat)
    requires n > 0 && a % n == 0 && b % n == 0 && a < b + n
    ensures a <= b
  {
    if b < a { AlignedUnique(a, b, n); }
  }

  lemma EncodeLength(p: Params, c: Crypto, otp: Otp, iv: seq<byte>, payload: seq<byte>)
    requires CryptoOk(p, c) && |otp.otp| == 4 && |iv| == p.blockSize
    ensures |Plaintext(p, c, otp, payload)| == p.HeaderLen() + |payload|
    ensures var s := Plaintext(p, c, otp, payload);
      |Encode(p, c, otp, iv, payload)| == if p.blockSize > 0 then p.blockSize + |Pad(s, p.blockSize)| else |s|
  {
    if p.blockSize > 0 {
      PadLength(Plaintext(p, c, otp, payload), p.blockSize);
    }
  }

  /** What the encoder makes fits into its buffers, and what the decoder decrypts into that of the decoder. */
  lemma LengthsFit(p: Params, c: Crypto, mtu: nat, otp: Otp, iv: seq<byte>, payload: seq<byte>)
    requires CryptoOk(p, c) && |otp.otp| == 4 && |iv| == p.blockSize && |payload| <= mtu
    ensures |Encode(p, c, otp, iv, payload)| <= CarrierMtu(p, mtu)
    ensures p.blockSize > 0 ==>
      |Pad(Plaintext(p, c, otp, payload), p.blockSize)| <= AlignUp(p.HeaderLen() + mtu + 1, p.blockSize)
  {
    hide AlignUp, Pad, Plaintext, Encode, CryptoOk;
    EncodeLength(p, c, otp, iv, payload);
    if p.blockSize > 0 {
      var s := Plaintext(p, c, otp, payload);
      PadLength(s, p.blockSize);
      AlignUpIs(|s| + 1, p.blockSize);
      AlignUpIs(p.HeaderLen() + mtu + 1, p.blockSize);
      AlignedBelow(AlignUp(|s| + 1, p.blockSize), AlignUp(p.HeaderLen() + mtu + 1, p.blockSize), p.blockSize);
    }
  }
}
