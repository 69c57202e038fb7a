/** What reaches the event handler: one report for each thing decoded, with the fields the device
    put into its frame. */
module DeviceReports {
  import opened Common
  import opened Bytes
  import opened Protocol
  import opened FrameStream
  import opened Messages
  import opened Connection

  // ---- One report for each item ----

  /** The effect a decoded item must cause, beside its acknowledgement. */
  predicate Reports(effect: Effect, item: Item) {
    match item
    case Err(error) => effect == ErrorLogged(error)
    case Ok(frame) =>
      var decoded := DecodeMessage(frame);
      if decoded.Err? then effect == ErrorLogged(decoded.error)
      else
        match decoded.value
        case Login(imei, _) => effect == LoginEvent(imei, frame.serial)
        case Heartbeat(packet) => effect.HeartbeatEvent? && effect.heartbeat == packet
        case Location(packet) => effect.LocationEvent? && effect.location == packet
        case Unknown(_, _) => effect.UnsupportedLogged? && effect.frame == frame
  }

  /** The effects that are no acknowledgements, in order. */
  function Reported(effects: seq<Effect>): seq<Effect> {
    if effects == [] then []
    else Reported(effects[..|effects| - 1]) + ReportedBy(effects[|effects| - 1])
  }

  function ReportedBy(effect: Effect): seq<Effect> {
    if effect.AckSent? then [] else [effect]
  }

  predicate AllReported(effects: seq<Effect>, items: seq<Item>) {
    && |effects| == |items|
    && forall k :: 0 <= k < |items| ==> Reports(effects[k], items[k])
  }

  lemma ReportedOneMore(before: seq<Effect>, effect: Effect)
    ensures Reported(before + [effect]) == Reported(before) + ReportedBy(effect)
  {
    assert (before + [effect])[..|before|] == before;
  }

  /** A reaction is the report, behind the acknowledgement where there is one. */
  lemma ReactionReports(id: Option<string>, before: seq<Effect>, item: Item)
    ensures var now := React(id, item).1;
            && 1 <= |now| <= 2 && Reports(now[|now| - 1], item)
            && (|now| == 2 <==> Acknowledgement(item) != [])
            && (|now| == 2 ==> now[0].AckSent?) && !now[|now| - 1].AckSent?
            && Reported(before + now) == Reported(before) + [now[|now| - 1]]
  {
    hide Encode, DecodeMessage, Reported;
    var now := React(id, item).1;
    ReportedOneMore(before, now[0]);
    if |now| == 2 {
      ReportedOneMore(before + [now[0]], now[1]);
      assert before + now == before + [now[0]] + [now[1]];
      assert Reported(before) + [] == Reported(before);
    } else {
      assert now == [now[0]];
    }
  }

  lemma {:induction false} ReactionsReport(items: seq<Item>)
    ensures AllReported(Reported(ReactAll(None, items).1), items)
  {
    hide React, Reports, Acknowledgement;
    if items != [] {
      var n := |items| - 1;
      ReactionsReport(items[..n]);
      var (id, before) := ReactAll(None, items[..n]);
      ReactionReports(id, before, items[n]);
    }
  }

  /** However the stream of a connection is cut, the handler is told of every item decoded from
      it, once each and in order: a login with its IMEI and serial, a heartbeat and a location
      with their packets, anything unknown with its frame, and every error. */
  lemma ConnectionReportsEveryItem(chunks: seq<seq<Byte>>)
    ensures AllReported(Reported(FeedAll(INITIAL, chunks).effects), Drain(Flatten(chunks)).0)
  {
    hide Drain, ReactAll, AllReported, Reported;
    ChunksAreOneRead(chunks);
    assert [] + Flatten(chunks) == Flatten(chunks);
    var items := Drain(Flatten(chunks)).0;
    ReactionsReport(items);
    assert [] + ReactAll(None, items).1 == ReactAll(None, items).1;
  }

  /** From the device's side: any frames, with any bytes but 0x78 around them and however the
      stream is cut, cause exactly their reports. */
  lemma DeviceIsHeard(gaps: seq<seq<Byte>>, frames: seq<Frame>, chunks: seq<seq<Byte>>)
    requires |gaps| == |frames| + 1
    requires forall i :: 0 <= i < |gaps| ==> 0x78 !in gaps[i]
    requires forall i :: 0 <= i < |frames| ==> |frames[i].payload| <= 250
    requires Flatten(chunks) == Interleave(gaps, frames)
    ensures AllReported(Reported(FeedAll(INITIAL, chunks).effects), Decoded(frames))
  {
    hide Drain, Reported, AllReported, FeedAll, Interleave;
    FramesRoundTrip(gaps, frames);
    ConnectionReportsEveryItem(chunks);
  }

  // ---- Acknowledged before reported ----

  /** Logins and heartbeats stand directly behind an acknowledgement, nothing else does, and no
      acknowledgement stands last. */
  predicate AcknowledgedFirst(effects: seq<Effect>) {
    && (effects != [] ==> !effects[|effects| - 1].AckSent? && (effects[0].AckSent? || !NeedsAck(effects[0])))
    && forall k :: 1 <= k < |effects| ==> PairOk(effects[k - 1], effects[k])
  }

  predicate NeedsAck(effect: Effect) {
    effect.LoginEvent? || effect.HeartbeatEvent?
  }

  predicate PairOk(first: Effect, second: Effect) {
    first.AckSent? <==> NeedsAck(second)
  }

  lemma ReactionAcknowledges(id: Option<string>, item: Item)
    ensures var now := React(id, item).1;
            if |now| == 2 then now[0].AckSent? && NeedsAck(now[1])
            else |now| == 1 && !now[0].AckSent? && !NeedsAck(now[0])
  {
    hide Encode, DecodeMessage;
  }

  lemma PairsJoin(before: seq<Effect>, now: seq<Effect>)
    requires AcknowledgedFirst(before) && 1 <= |now| <= 2
    requires if |now| == 2 then now[0].AckSent? && NeedsAck(now[1]) else !now[0].AckSent? && !NeedsAck(now[0])
    ensures AcknowledgedFirst(before + now)
  {
    var all := before + now;
    forall k | 1 <= k < |all| ensures PairOk(all[k - 1], all[k]) {
      if k < |before| {
        assert PairOk(before[k - 1], before[k]);
      }
    }
  }

  lemma {:induction false} EventsAreAcknowledgedFirst(items: seq<Item>)
    ensures AcknowledgedFirst(ReactAll(None, items).1)
  {
    hide React, AcknowledgedFirst, PairOk, NeedsAck;
    if items == [] {
      assert AcknowledgedFirst([]) by { NothingToAcknowledge(); }
    } else {
      var n := |items| - 1;
      EventsAreAcknowledgedFirst(items[..n]);
      var (id, before) := ReactAll(None, items[..n]);
      ReactionAcknowledges(id, items[n]);
      PairsJoin(before, React(id, items[n]).1);
    }
  }

  lemma NothingToAcknowledge()
    ensures AcknowledgedFirst([])
  {}

  /** In every connection. */
  lemma ConnectionAcknowledgesFirst(chunks: seq<seq<Byte>>)
    ensures AcknowledgedFirst(FeedAll(INITIAL, chunks).effects)
  {
    hide Drain, ReactAll, AcknowledgedFirst;
    ChunksAreOneRead(chunks);
    var items := Drain([] + Flatten(chunks)).0;
    EventsAreAcknowledgedFirst(items);
    assert [] + ReactAll(None, items).1 == ReactAll(None, items).1;
  }

  // ---- From fields to packets ----

  /** What is refused for being short, and what is not understood. */
  lemma ShortOrUnknown(frame: Frame)
    ensures DecodeMessage(frame).Err? <==>
            || (frame.protocolNumber == 0x01 && |frame.payload| < 8)
            || (frame.protocolNumber == 0x13 && |frame.payload| < 5)
            || (frame.protocolNumber in {0x12, 0x22} && |frame.payload| < 18)
    ensures DecodeMessage(frame).Err? ==>
              && DecodeMessage(frame).error.InvalidPayload?
              && DecodeMessage(frame).error.protocolNumber == frame.protocolNumber
    ensures frame.protocolNumber !in {0x01, 0x12, 0x13, 0x22} <==>
            DecodeMessage(frame) == Ok(Unknown(frame.protocolNumber, frame.payload))
  {
    hide BcdImei, DecodeTimestamp, DecodeCoordinates, BigEndian32;
  }

  function LoginFrame(imei: string, extra: seq<Byte>, serial: Word): Frame
    requires |imei| == 15 && AllDigits(imei)
  {
    Frame(0x01, PackDigits("0" + imei) + extra, serial)
  }

  lemma LoginReadBack(imei: string, extra: seq<Byte>, serial: Word)
    requires |imei| == 15 && AllDigits(imei)
    ensures DecodeMessage(LoginFrame(imei, extra, serial)) == Ok(Login(imei, extra))
  {
    hide BcdImei;
    ImeiRoundTrip(imei);
    var digits := PackDigits("0" + imei);
    assert (digits + extra)[..8] == digits && (digits + extra)[8..] == extra;
  }

  function HeartbeatFrame(packet: HeartbeatPacket, extra: seq<Byte>, serial: Word): Frame {
    Frame(0x13,
          [packet.terminalInfo, packet.voltageLevel, packet.gsmSignalStrength,
           packet.alarmLanguage / 0x100, packet.alarmLanguage % 0x100] + extra,
          serial)
  }

  lemma HeartbeatReadBack(packet: HeartbeatPacket, extra: seq<Byte>, serial: Word)
    ensures DecodeMessage(HeartbeatFrame(packet, extra, serial)) == Ok(Heartbeat(packet))
  {}

  /** A position as a device has it: hemispheres apart from the angles, which are in units of
      1/30 000 of a minute; `bits` are the status bits that carry neither. */
  datatype Fix = Fix(
    year: int, month: int, day: int, hour: int, minute: int, second: int, gpsInfoLength: int, satellites: int,
    latitude: int, longitude: int, south: bool, west: bool, speedKph: Byte, course: int, bits: int)
  {
    predicate Valid() {
      && 2000 <= year < 2100 && 0 <= month < 100 && 0 <= day < 100
      && 0 <= hour < 100 && 0 <= minute < 100 && 0 <= second < 100
      && 0 <= gpsInfoLength < 16 && 0 <= satellites < 16
      && 0 <= latitude < 0x1_0000_0000 && 0 <= longitude < 0x1_0000_0000
      && 0 <= course < 1024 && 0 <= bits < 16
    }
  }

  /** Two decimal digits in a byte. */
  function Bcd(n: int): Byte
    requires 0 <= n < 100
  {
    n / 10 * 16 + n % 10
  }

  lemma BcdReadBack(n: int)
    requires 0 <= n < 100
    ensures BcdToDecimal(Bcd(n)) == n
  {}

  function FourBytes(n: int): (bytes: seq<Byte>)
    requires 0 <= n < 0x1_0000_0000
    ensures |bytes| == 4
  {
    [n / 0x100_0000, n / 0x1_0000 % 0x100, n / 0x100 % 0x100, n % 0x100]
  }

  lemma SplitHalves(n: int)
    requires 0 <= n < 0x1_0000_0000
    ensures n / 0x100_0000 == n / 0x1_0000 / 0x100
    ensures n / 0x100 % 0x100 == n % 0x1_0000 / 0x100
    ensures n % 0x100 == n % 0x1_0000 % 0x100
  {
    var high, low := n / 0x1_0000, n % 0x1_0000;
    assert n == high * 0x1_0000 + low;
    var a, b, c, d := high / 0x100, high % 0x100, low / 0x100, low % 0x100;
    assert high == a * 0x100 + b && low == c * 0x100 + d;
    assert n == a * 0x100_0000 + b * 0x1_0000 + c * 0x100 + d;
    assert n / 0x100 == a * 0x1_0000 + b * 0x100 + c;
  }

  lemma FourBytesReadBack(n: int)
    requires 0 <= n < 0x1_0000_0000
    ensures BigEndian32(FourBytes(n)) == n
  {
    SplitHalves(n);
    var high, low := n / 0x1_0000, n % 0x1_0000;
    assert FourBytes(n) == [high / 0x100, high % 0x100, low / 0x100, low % 0x100];
    HalfReadBack(high);
    HalfReadBack(low);
    hide FourBytes, FromBigEndian;
  }

  lemma HalfReadBack(word: Word)
    ensures FromBigEndian(word / 0x100, word % 0x100) == word
  {}

  /** Course in the ten low bits, then the hemispheres, then the rest. */
  function ClassicStatus(fix: Fix): Word
    requires fix.Valid()
  {
    fix.course + (if fix.south then 0x400 else 0) + (if fix.west then 0x800 else 0) + fix.bits * 0x1000
  }

  lemma ClassicStatusReadBack(fix: Fix)
    requires fix.Valid()
    ensures var status := ClassicStatus(fix);
            status % 1024 == fix.course && HasFlag(status, 0x400) == fix.south && HasFlag(status, 0x800) == fix.west
  {
    var status := ClassicStatus(fix);
    assert status / 0x400 == (if fix.south then 1 else 0) + (if fix.west then 2 else 0) + fix.bits * 4;
    assert status / 0x800 == (if fix.west then 1 else 0) + fix.bits * 2;
  }

  /** The extended frame has the northern hemisphere in bit 13 and no other; the low three of the
      rest lie below it. */
  function ExtendedStatus(fix: Fix): Word
    requires fix.Valid()
  {
    fix.course + fix.bits % 8 * 0x400 + (if fix.south then 0 else 0x2000) + fix.bits / 8 * 0x4000
  }

  lemma ExtendedStatusReadBack(fix: Fix)
    requires fix.Valid()
    ensures var status := ExtendedStatus(fix);
            status % 1024 == fix.course && HasFlag(status, 0x2000) == !fix.south
  {
    var status := ExtendedStatus(fix);
    assert status / 0x2000 == (if fix.south then 0 else 1) + fix.bits / 8 * 2;
  }

  function Position(fix: Fix): seq<Byte>
    requires fix.Valid()
  {
    [fix.gpsInfoLength * 16 + fix.satellites] + FourBytes(fix.latitude) + FourBytes(fix.longitude) + [fix.speedKph]
  }

  function StatusBytes(status: Word): (bytes: seq<Byte>)
    ensures |bytes| == 2
  {
    [status / 0x100, status % 0x100]
  }

  function ClassicHead(fix: Fix): (bytes: seq<Byte>)
    requires fix.Valid()
    ensures |bytes| == 6
  {
    [Bcd(fix.year - 2000), Bcd(fix.month), Bcd(fix.day), Bcd(fix.hour), Bcd(fix.minute), Bcd(fix.second)]
  }

  function ExtendedHead(fix: Fix): (bytes: seq<Byte>)
    requires fix.Valid()
    ensures |bytes| == 6
  {
    [fix.year - 2000, fix.month, fix.day, fix.hour, Bcd(fix.minute), Bcd(fix.second)]
  }

  function LocationFrame(fix: Fix, extra: seq<Byte>, serial: Word): Frame
    requires fix.Valid()
  {
    Frame(0x12, ClassicHead(fix) + Position(fix) + (StatusBytes(ClassicStatus(fix)) + extra), serial)
  }

  function ExtendedLocationFrame(fix: Fix, extra: seq<Byte>, serial: Word): Frame
    requires fix.Valid()
  {
    Frame(0x22, ExtendedHead(fix) + Position(fix) + (StatusBytes(ExtendedStatus(fix)) + extra), serial)
  }

  function Degrees(units: int, negative: bool): real {
    if negative then -(units as real / 1_800_000.0) else units as real / 1_800_000.0
  }

  lemma PositionParts(head: seq<Byte>, fix: Fix, tail: seq<Byte>)
    requires fix.Valid() && |head| == 6 && |tail| >= 2
    ensures var p := head + Position(fix) + tail;
            && |p| >= 18 && p[..6] == head && p[6] / 16 == fix.gpsInfoLength && p[6] % 16 == fix.satellites
            && BigEndian32(p[7..11]) == fix.latitude && BigEndian32(p[11..15]) == fix.longitude
            && p[15] == fix.speedKph && p[16] == tail[0] && p[17] == tail[1] && p[18..] == tail[2..]
  {
    hide FourBytes, BigEndian32;
    var p := head + Position(fix) + tail;
    FourBytesReadBack(fix.latitude);
    FourBytesReadBack(fix.longitude);
    assert p[7..11] == FourBytes(fix.latitude) && p[11..15] == FourBytes(fix.longitude);
  }

  /** The fields of a payload, put together. */
  lemma LocationFields(p: seq<Byte>, protocolNumber: Byte, serial: Word, encoding: Encoding, fix: Fix, status: Word)
    requires protocolNumber == (if encoding.Classic? then 0x12 else 0x22)
    requires |p| >= 18 && p[6] / 16 == fix.gpsInfoLength && p[6] % 16 == fix.satellites && p[15] == fix.speedKph
    requires BigEndian32(p[7..11]) == fix.latitude && BigEndian32(p[11..15]) == fix.longitude
    requires FromBigEndian(p[16], p[17]) == status && status % 1024 == fix.course
    requires DecodeTimestamp(p[..6], encoding) ==
             GpsTimestamp(fix.year, fix.month, fix.day, fix.hour, fix.minute, fix.second)
    requires encoding.Classic? ==> HasFlag(status, 0x400) == fix.south && HasFlag(status, 0x800) == fix.west
    requires encoding.ConcoxExtended? ==> HasFlag(status, 0x2000) == !fix.south
    ensures DecodeMessage(Frame(protocolNumber, p, serial)) == Ok(Location(LocationPacket(
              GpsTimestamp(fix.year, fix.month, fix.day, fix.hour, fix.minute, fix.second),
              fix.gpsInfoLength, fix.satellites, Degrees(fix.latitude, fix.south),
              Degrees(fix.longitude, encoding.Classic? && fix.west), fix.speedKph, fix.course, status,
              if encoding.Classic? then [] else p[18..])))
  {
    hide DecodeTimestamp, BigEndian32, HasFlag, FromBigEndian, BcdImei;
  }

  lemma ClassicTimestamp(fix: Fix)
    requires fix.Valid()
    ensures DecodeTimestamp(ClassicHead(fix), Classic) ==
            GpsTimestamp(fix.year, fix.month, fix.day, fix.hour, fix.minute, fix.second)
  {
    hide Bcd, BcdToDecimal;
    BcdReadBack(fix.year - 2000);
    BcdReadBack(fix.month);
    BcdReadBack(fix.day);
    BcdReadBack(fix.hour);
    BcdReadBack(fix.minute);
    BcdReadBack(fix.second);
  }

  /** Every position a device can put into a location frame is read as it was. */
  lemma LocationReadBack(fix: Fix, extra: seq<Byte>, serial: Word)
    requires fix.Valid()
    ensures DecodeMessage(LocationFrame(fix, extra, serial)) == Ok(Location(LocationPacket(
              GpsTimestamp(fix.year, fix.month, fix.day, fix.hour, fix.minute, fix.second),
              fix.gpsInfoLength, fix.satellites, Degrees(fix.latitude, fix.south), Degrees(fix.longitude, fix.west),
              fix.speedKph, fix.course, ClassicStatus(fix), [])))
  {
    var status := ClassicStatus(fix);
    ClassicTimestamp(fix);
    ClassicStatusReadBack(fix);
    HalfReadBack(status);
    PositionParts(ClassicHead(fix), fix, StatusBytes(status) + extra);
    var frame := LocationFrame(fix, extra, serial);
    hide Position, BigEndian32, ClassicStatus, HasFlag, FromBigEndian, DecodeTimestamp, DecodeMessage, ClassicHead;
    assert frame.payload == ClassicHead(fix) + Position(fix) + (StatusBytes(status) + extra);
    LocationFields(frame.payload, 0x12, serial, Classic, fix, status);
  }

  lemma ExtendedTimestamp(fix: Fix)
    requires fix.Valid()
    ensures DecodeTimestamp(ExtendedHead(fix), ConcoxExtended) ==
            GpsTimestamp(fix.year, fix.month, fix.day, fix.hour, fix.minute, fix.second)
  {
    hide Bcd, BcdToDecimal;
    BcdReadBack(fix.minute);
    BcdReadBack(fix.second);
  }

  /** And so is every position in an extended one, which knows no western hemisphere but keeps
      what follows. */
  lemma ExtendedLocationReadBack(fix: Fix, extra: seq<Byte>, serial: Word)
    requires fix.Valid()
    ensures DecodeMessage(ExtendedLocationFrame(fix, extra, serial)) == Ok(Location(LocationPacket(
              GpsTimestamp(fix.year, fix.month, fix.day, fix.hour, fix.minute, fix.second),
              fix.gpsInfoLength, fix.satellites, Degrees(fix.latitude, fix.south), Degrees(fix.longitude, false),
              fix.speedKph, fix.course, ExtendedStatus(fix), extra)))
  {
    var status := ExtendedStatus(fix);
    ExtendedTimestamp(fix);
    ExtendedStatusReadBack(fix);
    HalfReadBack(status);
    PositionParts(ExtendedHead(fix), fix, StatusBytes(status) + extra);
    assert (StatusBytes(status) + extra)[2..] == extra;
    var frame := ExtendedLocationFrame(fix, extra, serial);
    hide Position, BigEndian32, ExtendedStatus, HasFlag, FromBigEndian, DecodeTimestamp, DecodeMessage, ExtendedHead;
    assert frame.payload == ExtendedHead(fix) + Position(fix) + (StatusBytes(status) + extra);
    LocationFields(frame.payload, 0x22, serial, ConcoxExtended, fix, status);
  }
}
