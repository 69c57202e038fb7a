/** GT06 frames: the in-place decoder, the encoder, and what one says about the other. */
module Protocol {
  import opened Common
  import opened Bytes
  import opened Crc16

  const START_BYTES: seq<Byte> := [0x78, 0x78]
  const STOP_BYTES: seq<Byte> := [0x0D, 0x0A]

  datatype Frame = Frame(protocolNumber: Byte, payload: seq<Byte>, serial: Word)

  datatype ProtocolError =
    | InvalidLength(length: int)
    | InvalidStopBytes
    | ChecksumMismatch
    | InvalidPayload(protocolNumber: Byte, message: string)

  type DecodeResult = Result<Option<Frame>, ProtocolError>

  function FromBigEndian(high: Byte, low: Byte): Word {
    high * 0x100 + low
  }

  function HighByte(value: Word): Byte { value / 0x100 }

  function LowByte(value: Word): Byte { value % 0x100 }

  function BigEndian(value: Word): seq<Byte> {
    [HighByte(value), LowByte(value)]
  }

  lemma BigEndianRoundTrip(value: Word)
    ensures FromBigEndian(HighByte(value), LowByte(value)) == value
  {}

  lemma FromBigEndianRoundTrip(high: Byte, low: Byte)
    ensures HighByte(FromBigEndian(high, low)) == high && LowByte(FromBigEndian(high, low)) == low
  {}

  // ---- The receive buffer and the decoder that consumes it in place ----

  class BytesMut {
    var bytes: seq<Byte>

    constructor ()
      ensures bytes == []
    {
      bytes := [];
    }

    method Extend(chunk: seq<Byte>)
      modifies this
      ensures bytes == old(bytes) + chunk
    {
      bytes := bytes + chunk;
    }

    method Advance(count: nat)
      requires count <= |bytes|
      modifies this
      ensures bytes == old(bytes)[count..]
    {
      bytes := bytes[count..];
    }

    method SplitTo(count: nat) returns (head: seq<Byte>)
      requires count <= |bytes|
      modifies this
      ensures head == old(bytes)[..count] && bytes == old(bytes)[count..]
    {
      head := bytes[..count];
      bytes := bytes[count..];
    }
  }

  /** What the front of a buffer is. `Good` also says how many bytes the frame takes. */
  datatype Verdict =
    | Incomplete
    | Garbage
    | Bad(error: ProtocolError)
    | Good(frame: Frame, size: nat)

  function Inspect(buffer: seq<Byte>): (verdict: Verdict)
    ensures verdict.Good? ==> 10 <= verdict.size <= |buffer|
    ensures verdict.Garbage? || verdict.Bad? ==> buffer != []
  {
    if |buffer| < 2 then Incomplete
    else if buffer[..2] != START_BYTES then Garbage
    else if |buffer| < 5 then Incomplete
    else
      var length: int := buffer[2];
      if length < 5 then Bad(InvalidLength(length))
      else if |buffer| < length + 5 then Incomplete
      else if buffer[length + 3..length + 5] != STOP_BYTES then Bad(InvalidStopBytes)
      else if Checksum(buffer[2..length + 1]) != FromBigEndian(buffer[length + 1], buffer[length + 2]) then
        Bad(ChecksumMismatch)
      else
        Good(Frame(buffer[3], buffer[4..length - 1], FromBigEndian(buffer[length - 1], buffer[length])),
             length + 5)
  }

  /** One call of the decoder: its answer and the buffer it leaves. */
  function Next(buffer: seq<Byte>): (step: (DecodeResult, seq<Byte>))
    ensures |step.1| <= |buffer|
    ensures step.0 != Ok(None) ==> |step.1| < |buffer|
    decreases |buffer|
  {
    match Inspect(buffer)
    case Incomplete => (Ok(None), buffer)
    case Garbage => Next(buffer[1..])
    case Bad(error) => (Err(error), buffer[1..])
    case Good(frame, size) => (Ok(Some(frame)), buffer[size..])
  }

  method NextFrame(buffer: BytesMut) returns (result: DecodeResult)
    modifies buffer
    ensures (result, buffer.bytes) == Next(old(buffer.bytes))
  {
    hide Checksum, FromBigEndian;
    while true
      invariant Next(buffer.bytes) == Next(old(buffer.bytes))
      decreases |buffer.bytes|
    {
      if |buffer.bytes| < 2 {
        return Ok(None);
      }
      if buffer.bytes[0..2] != START_BYTES {
        buffer.Advance(1);
        continue;
      }
      if |buffer.bytes| < 5 {
        return Ok(None);
      }
      var length: int := buffer.bytes[2];
      if length < 5 {
        buffer.Advance(1);
        return Err(InvalidLength(length));
      }
      var totalFrameLen := length + 5;
      if |buffer.bytes| < totalFrameLen {
        return Ok(None);
      }
      if buffer.bytes[totalFrameLen - 2..totalFrameLen] != STOP_BYTES {
        buffer.Advance(1);
        return Err(InvalidStopBytes);
      }
      var crcIndex := totalFrameLen - 4;
      var calculatedCrc := Crc16X25(buffer.bytes[2..crcIndex]);
      var reportedCrc := FromBigEndian(buffer.bytes[crcIndex], buffer.bytes[crcIndex + 1]);
      if calculatedCrc != reportedCrc {
        buffer.Advance(1);
        return Err(ChecksumMismatch);
      }
      ghost var whole := buffer.bytes;
      var frameBytes := buffer.SplitTo(totalFrameLen);
      var payloadEnd := 4 + (length - 5);
      var payload := frameBytes[4..payloadEnd];
      var serial := FromBigEndian(frameBytes[payloadEnd], frameBytes[payloadEnd + 1]);
      assert payload == whole[4..length - 1];
      return Ok(Some(Frame(frameBytes[3], payload, serial)));
    }
  }

  // ---- The encoder ----

  function LengthByte(payload: seq<Byte>): Byte {
    (|payload| + 5) % 0x100
  }

  /** The bytes the checksum covers. */
  function Body(frame: Frame): seq<Byte> {
    [LengthByte(frame.payload), frame.protocolNumber] + frame.payload + BigEndian(frame.serial)
  }

  function Encode(frame: Frame): (bytes: seq<Byte>)
    ensures |bytes| == |frame.payload| + 10
  {
    START_BYTES + Body(frame) + BigEndian(Checksum(Body(frame))) + STOP_BYTES
  }

  method BuildFrame(protocolNumber: Byte, payload: seq<Byte>, serial: Word) returns (bytes: seq<Byte>)
    ensures bytes == Encode(Frame(protocolNumber, payload, serial))
  {
    hide Checksum, LengthByte, BigEndian;
    bytes := [0x78, 0x78, LengthByte(payload), protocolNumber];
    bytes := bytes + payload;
    bytes := bytes + BigEndian(serial);
    assert bytes[2..] == Body(Frame(protocolNumber, payload, serial));
    var crc := Crc16X25(bytes[2..]);
    bytes := bytes + BigEndian(crc);
    bytes := bytes + [0x0D, 0x0A];
  }

  /** An acknowledgement is a frame with an empty payload. */
  method EncodeAck(protocolNumber: Byte, serial: Word) returns (bytes: seq<Byte>)
    ensures bytes == Encode(Frame(protocolNumber, [], serial))
  {
    hide Checksum, BigEndian;
    bytes := START_BYTES;
    bytes := bytes + [0x05];
    bytes := bytes + [protocolNumber];
    bytes := bytes + BigEndian(serial);
    assert bytes[2..] == Body(Frame(protocolNumber, [], serial));
    var crc := Crc16X25(bytes[2..]);
    bytes := bytes + BigEndian(crc);
    bytes := bytes + STOP_BYTES;
  }

  lemma EncodeParts(frame: Frame, rest: seq<Byte>)
    requires |frame.payload| <= 250
    ensures var b := Encode(frame) + rest;
            var n := |frame.payload|;
            && b[..2] == START_BYTES && b[2] == LengthByte(frame.payload) && b[3] == frame.protocolNumber
            && b[4..n + 4] == frame.payload
            && b[n + 4] == HighByte(frame.serial) && b[n + 5] == LowByte(frame.serial)
            && b[2..n + 6] == Body(frame)
            && b[n + 6] == HighByte(Checksum(Body(frame))) && b[n + 7] == LowByte(Checksum(Body(frame)))
            && b[n + 8..n + 10] == STOP_BYTES
            && b[n + 10..] == rest
  {
    hide Checksum, LengthByte, HighByte, LowByte;
  }

  /** A frame and its encoding: the decoder recognises exactly the encoder's output. */
  lemma GoodIffEncoded(buffer: seq<Byte>, frame: Frame)
    ensures Inspect(buffer) == Good(frame, |Encode(frame)|)
       <==> |frame.payload| <= 250 && Encode(frame) <= buffer
  {
    hide Encode, Body, Inspect;
    if |frame.payload| <= 250 && Encode(frame) <= buffer {
      EncodedIsGood(frame, buffer[|Encode(frame)|..]);
      assert buffer == Encode(frame) + buffer[|Encode(frame)|..];
    }
    if Inspect(buffer) == Good(frame, |Encode(frame)|) {
      GoodIsEncoded(buffer);
    }
  }

  lemma EncodedIsGood(frame: Frame, rest: seq<Byte>)
    requires |frame.payload| <= 250
    ensures Inspect(Encode(frame) + rest) == Good(frame, |Encode(frame)|)
  {
    hide Checksum, HighByte, LowByte, FromBigEndian, Body, Encode;
    EncodeParts(frame, rest);
    BigEndianRoundTrip(frame.serial);
    BigEndianRoundTrip(Checksum(Body(frame)));
  }

  /** Whatever the decoder accepts is the encoding of the frame it returns. */
  lemma GoodIsEncoded(buffer: seq<Byte>)
    requires Inspect(buffer).Good?
    ensures var Good(frame, size) := Inspect(buffer);
            && |frame.payload| <= 250
            && size == |Encode(frame)|
            && buffer[..size] == Encode(frame)
  {
    hide Checksum, HighByte, LowByte, FromBigEndian;
    var Good(frame, size) := Inspect(buffer);
    var n := |frame.payload|;
    FromBigEndianRoundTrip(buffer[n + 4], buffer[n + 5]);
    FromBigEndianRoundTrip(buffer[n + 6], buffer[n + 7]);
    assert buffer[2..n + 6] == Body(frame);
    assert buffer[..size] == buffer[..2] + buffer[2..n + 6] + [buffer[n + 6], buffer[n + 7]] + buffer[n + 8..size];
  }

  /** More bytes behind a decided buffer do not change the decision. */
  lemma InspectStable(a: seq<Byte>, b: seq<Byte>)
    requires Inspect(a) != Incomplete
    ensures Inspect(a + b) == Inspect(a)
  {
    hide Checksum, FromBigEndian;
    assert (a + b)[..2] == a[..2];
    if Inspect(a) != Garbage {
      var length: int := a[2];
      if 5 <= length {
        assert length + 5 <= |a|;
        assert (a + b)[length + 3..length + 5] == a[length + 3..length + 5];
        assert (a + b)[2..length + 1] == a[2..length + 1];
        assert (a + b)[4..length - 1] == a[4..length - 1];
      }
    }
  }

  /** An undecided buffer is short. */
  lemma IncompleteIsShort(buffer: seq<Byte>)
    requires Inspect(buffer) == Incomplete
    ensures |buffer| < 260
  {
    hide Checksum, FromBigEndian;
  }

  /** Burst errors of up to sixteen bits in a frame's protocol, payload or serial bytes,
      for every payload length: the decoder answers `ChecksumMismatch` and drops one byte. */
  lemma CorruptionIsDetected(frame: Frame, i: nat, window: seq<Byte>, rest: seq<Byte>)
    requires |frame.payload| <= 250
    requires 3 <= i && i + 3 <= |frame.payload| + 6
    requires Burst(Encode(frame)[i..i + 3], window)
    ensures var corrupted := Encode(frame)[..i] + window + Encode(frame)[i + 3..] + rest;
            Next(corrupted) == (Err(ChecksumMismatch), corrupted[1..])
  {
    hide Checksum, HighByte, LowByte, FromBigEndian, Body, Encode, Burst;
    var n, e := |frame.payload|, Encode(frame);
    BurstSize(e[i..i + 3], window);
    SpliceParts(e, n, i, window, rest);
    EncodeParts(frame, []);
    assert e + [] == e;
    DetectsBursts(e[2..i], e[i..i + 3], window, e[i + 3..n + 6]);
    BigEndianRoundTrip(Checksum(Body(frame)));
  }

  /** Replacing three bytes of the covered part leaves the rest of a frame in place. */
  lemma SpliceParts(e: seq<Byte>, n: nat, i: nat, window: seq<Byte>, rest: seq<Byte>)
    requires |e| == n + 10 && 3 <= i && i + 3 <= n + 6 && |window| == 3
    ensures var s := e[..i] + window + e[i + 3..] + rest;
            && |s| >= n + 10
            && s[..2] == e[..2] && s[2] == e[2]
            && s[2..n + 6] == e[2..i] + window + e[i + 3..n + 6]
            && s[n + 6] == e[n + 6] && s[n + 7] == e[n + 7]
            && s[n + 8..n + 10] == e[n + 8..n + 10]
    ensures e[2..n + 6] == e[2..i] + e[i..i + 3] + e[i + 3..n + 6]
  {
    var s := e[..i] + window + e[i + 3..] + rest;
    var middle := e[2..i] + window + e[i + 3..n + 6];
    assert s == e[..2] + middle + e[n + 6..] + rest;
    assert s[2..n + 6] == middle;
    assert s[n + 8..n + 10] == e[n + 8..n + 10];
  }

  lemma BurstSize(a: seq<Byte>, b: seq<Byte>)
    requires Burst(a, b)
    ensures |a| == |b| == 3
  {}

  /** In particular, changing one byte or two adjacent bytes there is detected. */
  lemma AdjacentCorruptionIsDetected(frame: Frame, i: nat, x: Byte, y: Byte, rest: seq<Byte>)
    requires |frame.payload| <= 250
    requires 3 <= i && i + 2 <= |frame.payload| + 6
    requires [x, y] != Encode(frame)[i..i + 2]
    ensures var corrupted := Encode(frame)[..i] + [x, y] + Encode(frame)[i + 2..] + rest;
            Next(corrupted) == (Err(ChecksumMismatch), corrupted[1..])
  {
    hide Encode, Next, Burst;
    var e := Encode(frame);
    var j := if i + 3 <= |frame.payload| + 6 then i else i - 1;
    var window := if j == i then [x, y, e[i + 2]] else [e[j], x, y];
    assert e[i..i + 2] == [e[i], e[i + 1]] && (x != e[i] || y != e[i + 1]);
    assert e[j..j + 3] == [e[j], e[j + 1], e[j + 2]];
    AdjacentBytesAreBurst(e[j..j + 3], window);
    CorruptionIsDetected(frame, j, window, rest);
    assert e[..j] + window + e[j + 3..] == e[..i] + [x, y] + e[i + 2..];
  }

  // ---- In bytes ----

  /** The bytes of a frame: 78 78, the length, the protocol number, the payload, the serial and the
      checksum of all since the length, high bytes first, 0D 0A. */
  lemma EncodeLayout(frame: Frame)
    ensures var length, crc := (|frame.payload| + 5) % 0x100, Checksum(Body(frame));
            && Body(frame) == [length, frame.protocolNumber] + frame.payload
                              + [frame.serial / 0x100, frame.serial % 0x100]
            && Encode(frame) == [0x78, 0x78] + Body(frame) + [crc / 0x100, crc % 0x100] + [0x0D, 0x0A]
  {
    hide Checksum;
  }

  /** What the decoder answers to a buffer that starts like a frame, and what it drops. */
  lemma AnswersAtStart(buffer: seq<Byte>)
    requires |buffer| >= 5 && buffer[0] == 0x78 && buffer[1] == 0x78
    ensures var n: int, answer := buffer[2], Next(buffer);
            if n < 5 then answer == (Err(InvalidLength(n)), buffer[1..])
            else if |buffer| < n + 5 then answer == (Ok(None), buffer)
            else if buffer[n + 3] != 0x0D || buffer[n + 4] != 0x0A then answer == (Err(InvalidStopBytes), buffer[1..])
            else if Checksum(buffer[2..n + 1]) != Number(buffer[n + 1], buffer[n + 2]) then
              answer == (Err(ChecksumMismatch), buffer[1..])
            else
              var frame := Frame(buffer[3], buffer[4..n - 1], SerialOf(buffer[n - 1], buffer[n]));
              answer == (Ok(Some(frame)), buffer[n + 5..])
  {
    hide Checksum, Number, SerialOf, Inspect, Next;
    InspectAtStart(buffer);
    NextByVerdict(buffer);
  }

  lemma NextByVerdict(buffer: seq<Byte>)
    ensures Inspect(buffer).Incomplete? ==> Next(buffer) == (Ok(None), buffer)
    ensures Inspect(buffer).Bad? ==> Next(buffer) == (Err(Inspect(buffer).error), buffer[1..])
    ensures Inspect(buffer).Good? ==> Next(buffer) == (Ok(Some(Inspect(buffer).frame)), buffer[Inspect(buffer).size..])
  {
    hide Inspect;
  }

  lemma InspectAtStart(buffer: seq<Byte>)
    requires |buffer| >= 5 && buffer[0] == 0x78 && buffer[1] == 0x78
    ensures var n: int, verdict := buffer[2], Inspect(buffer);
            if n < 5 then verdict == Bad(InvalidLength(n))
            else if |buffer| < n + 5 then verdict == Incomplete
            else if buffer[n + 3] != 0x0D || buffer[n + 4] != 0x0A then verdict == Bad(InvalidStopBytes)
            else if Checksum(buffer[2..n + 1]) != Number(buffer[n + 1], buffer[n + 2]) then
              verdict == Bad(ChecksumMismatch)
            else
              var frame := Frame(buffer[3], buffer[4..n - 1], SerialOf(buffer[n - 1], buffer[n]));
              verdict == Good(frame, n + 5)
  {
    hide Checksum, Number, SerialOf, FromBigEndian, Next;
    assert buffer[..2] == [0x78, 0x78];
    var n: int := buffer[2];
    if 5 <= n <= |buffer| - 5 {
      assert buffer[n + 3..n + 5] == [buffer[n + 3], buffer[n + 4]];
      SameNumber(buffer[n + 1], buffer[n + 2]);
      SameNumber(buffer[n - 1], buffer[n]);
    }
  }

  lemma SameNumber(high: Byte, low: Byte)
    ensures FromBigEndian(high, low) == Number(high, low) == SerialOf(high, low)
  {}

  function Number(high: int, low: int): int {
    high * 0x100 + low
  }

  function SerialOf(high: Byte, low: Byte): Word {
    Number(high, low)
  }

  /** Elsewhere it drops bytes until two in a row are 78, or fewer than two are left; in front of
      a start with fewer than five bytes it waits. */
  lemma AnswersElsewhere(buffer: seq<Byte>)
    ensures |buffer| < 2 ==> Next(buffer) == (Ok(None), buffer)
    ensures |buffer| >= 2 && (buffer[0] != 0x78 || buffer[1] != 0x78) ==> Next(buffer) == Next(buffer[1..])
    ensures 2 <= |buffer| < 5 && buffer[0] == 0x78 && buffer[1] == 0x78 ==> Next(buffer) == (Ok(None), buffer)
  {
    hide Checksum;
    if |buffer| >= 2 {
      assert buffer[..2] == [buffer[0], buffer[1]];
    }
  }
}
