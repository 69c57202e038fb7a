/** What a frame says: login, heartbeat and location packets. */
module Messages {
  import opened Common
  import opened Bytes
  import opened Protocol

  const PROTOCOL_LOGIN: Byte := 0x01
  const PROTOCOL_LOCATION: Byte := 0x12
  const PROTOCOL_HEARTBEAT: Byte := 0x13
  const PROTOCOL_EXTENDED_LOCATION: Byte := 0x22

  datatype HeartbeatPacket = HeartbeatPacket(
    terminalInfo: Byte, voltageLevel: Byte, gsmSignalStrength: Byte, alarmLanguage: Word)

  datatype GpsTimestamp = GpsTimestamp(year: int, month: int, day: int, hour: int, minute: int, second: int)

  /** Coordinates are exact quotients here. */
  datatype LocationPacket = LocationPacket(
    timestamp: GpsTimestamp, gpsInfoLength: Byte, satelliteCount: Byte, latitude: real, longitude: real,
    speedKph: Byte, course: Word, courseStatus: Word, extraData: seq<Byte>)

  datatype Message =
    | Login(imei: string, extra: seq<Byte>)
    | Heartbeat(heartbeat: HeartbeatPacket)
    | Location(location: LocationPacket)
    | Unknown(protocolNumber: Byte, payload: seq<Byte>)

  datatype Encoding = Classic | ConcoxExtended

  function Digit(nibble: int): char
    requires 0 <= nibble < 16
  {
    ('0' as int + nibble) as char
  }

  /** Two digits a byte, high nibble first. */
  function BcdDigits(bytes: seq<Byte>): (digits: string)
    ensures |digits| == 2 * |bytes|
  {
    if bytes == [] then ""
    else
      var last := bytes[|bytes| - 1];
      BcdDigits(bytes[..|bytes| - 1]) + [Digit(last / 16), Digit(last % 16)]
  }

  /** A device number of sixteen digits loses its leading zero. */
  function BcdImei(bytes: seq<Byte>): string {
    var digits := BcdDigits(bytes);
    if |digits| == 16 && digits[0] == '0' then digits[1..] else digits
  }

  method DecodeBcdImei(bytes: seq<Byte>) returns (imei: string)
    ensures imei == BcdImei(bytes)
  {
    imei := "";
    for i := 0 to |bytes|
      invariant imei == BcdDigits(bytes[..i])
    {
      assert bytes[..i + 1][..i] == bytes[..i];
      imei := imei + [Digit(bytes[i] / 16)];
      imei := imei + [Digit(bytes[i] % 16)];
    }
    assert bytes[..|bytes|] == bytes;
    if |imei| == 16 && imei[0] == '0' {
      imei := imei[1..];
    }
  }

  predicate AllDigits(s: string) {
    forall i :: 0 <= i < |s| ==> '0' <= s[i] <= '9'
  }

  function PackDigits(digits: string): (bytes: seq<Byte>)
    requires |digits| % 2 == 0 && AllDigits(digits)
    ensures |bytes| == |digits| / 2
  {
    if digits == "" then []
    else
      var n := |digits|;
      PackDigits(digits[..n - 2]) + [PackedByte(Value(digits[n - 2]), Value(digits[n - 1]))]
  }

  function PackedByte(high: int, low: int): (byte: Byte)
    requires 0 <= high < 16 && 0 <= low < 16
    ensures byte / 16 == high && byte % 16 == low
  {
    high * 16 + low
  }

  function Value(digit: char): (value: int)
    requires '0' <= digit <= '9'
    ensures 0 <= value < 10
  {
    digit as int - '0' as int
  }

  lemma ValueRoundTrip(digit: char)
    requires '0' <= digit <= '9'
    ensures Digit(Value(digit)) == digit
  {}

  lemma OneMoreByte(bytes: seq<Byte>, byte: Byte)
    ensures BcdDigits(bytes + [byte]) == BcdDigits(bytes) + [Digit(byte / 16), Digit(byte % 16)]
  {
    hide Digit;
    assert (bytes + [byte])[..|bytes|] == bytes;
  }

  lemma TwoDigitsReadBack(high: char, low: char)
    requires '0' <= high <= '9' && '0' <= low <= '9'
    ensures var byte := PackedByte(Value(high), Value(low));
            Digit(byte / 16) == high && Digit(byte % 16) == low
  {
    ValueRoundTrip(high);
    ValueRoundTrip(low);
    hide Digit, Value, PackedByte;
  }

  lemma {:induction false} PackedDigitsReadBack(digits: string)
    requires |digits| % 2 == 0 && AllDigits(digits)
    ensures BcdDigits(PackDigits(digits)) == digits
  {
    hide Digit, Value, PackedByte, BcdDigits;
    if digits == "" {
      assert BcdDigits([]) == [] by { NoDigits(); }
    } else {
      var n := |digits|;
      PackedDigitsReadBack(digits[..n - 2]);
      TwoDigitsReadBack(digits[n - 2], digits[n - 1]);
      OneMoreByte(PackDigits(digits[..n - 2]), PackedByte(Value(digits[n - 2]), Value(digits[n - 1])));
      assert digits == digits[..n - 2] + [digits[n - 2], digits[n - 1]];
    }
  }

  lemma NoDigits()
    ensures BcdDigits([]) == []
  {}

  /** Every fifteen-digit IMEI, packed into the eight bytes of a login with a leading zero,
      is read back as it was. */
  lemma ImeiRoundTrip(imei: string)
    requires |imei| == 15 && AllDigits(imei)
    ensures |PackDigits("0" + imei)| == 8 && BcdImei(PackDigits("0" + imei)) == imei
  {
    PackedDigitsReadBack("0" + imei);
  }

  function BcdToDecimal(byte: Byte): int {
    (byte / 16) * 10 + byte % 16
  }

  function DecodeTimestamp(bytes: seq<Byte>, encoding: Encoding): GpsTimestamp
    requires |bytes| == 6
  {
    match encoding
    case Classic =>
      GpsTimestamp(2000 + BcdToDecimal(bytes[0]), BcdToDecimal(bytes[1]), BcdToDecimal(bytes[2]),
                   BcdToDecimal(bytes[3]), BcdToDecimal(bytes[4]), BcdToDecimal(bytes[5]))
    case ConcoxExtended =>
      GpsTimestamp(2000 + bytes[0] as int, bytes[1], bytes[2], bytes[3],
                   BcdToDecimal(bytes[4]), BcdToDecimal(bytes[5]))
  }

  function BigEndian32(bytes: seq<Byte>): int
    requires |bytes| == 4
  {
    FromBigEndian(bytes[0], bytes[1]) * 0x1_0000 + FromBigEndian(bytes[2], bytes[3])
  }

  predicate HasFlag(word: Word, flag: int)
    requires flag > 0
  {
    (word / flag) % 2 == 1
  }

  function DecodeCoordinates(rawLatitude: int, rawLongitude: int, courseStatus: Word, encoding: Encoding)
      : (real, real)
  {
    var latitude := rawLatitude as real / 1800000.0;
    var longitude := rawLongitude as real / 1800000.0;
    match encoding
    case Classic =>
      (if HasFlag(courseStatus, 0x0400) then -latitude else latitude,
       if HasFlag(courseStatus, 0x0800) then -longitude else longitude)
    case ConcoxExtended =>
      (if HasFlag(courseStatus, 0x2000) then latitude else -latitude, longitude)
  }

  function DecodeLocation(frame: Frame, encoding: Encoding): Result<Message, ProtocolError> {
    var p := frame.payload;
    if |p| < 18 then Err(InvalidPayload(frame.protocolNumber, "location payload must be at least 18 bytes"))
    else
      var courseStatus := FromBigEndian(p[16], p[17]);
      var (latitude, longitude) :=
        DecodeCoordinates(BigEndian32(p[7..11]), BigEndian32(p[11..15]), courseStatus, encoding);
      Ok(Location(LocationPacket(
        DecodeTimestamp(p[..6], encoding), p[6] / 16, p[6] % 16, latitude, longitude, p[15],
        courseStatus % 0x400, courseStatus, if encoding.ConcoxExtended? then p[18..] else [])))
  }

  function DecodeMessage(frame: Frame): Result<Message, ProtocolError> {
    var p := frame.payload;
    if frame.protocolNumber == PROTOCOL_LOGIN then
      if |p| < 8 then Err(InvalidPayload(PROTOCOL_LOGIN, "login payload must be at least 8 bytes"))
      else Ok(Login(BcdImei(p[..8]), p[8..]))
    else if frame.protocolNumber == PROTOCOL_HEARTBEAT then
      if |p| < 5 then Err(InvalidPayload(PROTOCOL_HEARTBEAT, "heartbeat payload must be at least 5 bytes"))
      else Ok(Heartbeat(HeartbeatPacket(p[0], p[1], p[2], FromBigEndian(p[3], p[4]))))
    else if frame.protocolNumber == PROTOCOL_LOCATION then DecodeLocation(frame, Classic)
    else if frame.protocolNumber == PROTOCOL_EXTENDED_LOCATION then DecodeLocation(frame, ConcoxExtended)
    else Ok(Unknown(frame.protocolNumber, p))
  }
}
