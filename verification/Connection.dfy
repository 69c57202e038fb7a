/** The connection loop: reads in, acknowledgements and device events out. */
module Connection {
  import opened Common
  import opened Bytes
  import opened Protocol
  import opened FrameStream
  import opened Messages

  /** What a connection does, in order. */
  datatype Effect =
    | AckSent(bytes: seq<Byte>)
    | LoginEvent(imei: string, serial: Word)
    | HeartbeatEvent(deviceId: Option<string>, heartbeat: HeartbeatPacket)
    | LocationEvent(deviceId: Option<string>, location: LocationPacket)
    | UnsupportedLogged(deviceId: Option<string>, frame: Frame)
    | ErrorLogged(error: ProtocolError)

  function React(deviceId: Option<string>, item: Item): (Option<string>, seq<Effect>) {
    match item
    case Err(error) => (deviceId, [ErrorLogged(error)])
    case Ok(frame) =>
      match DecodeMessage(frame)
      case Ok(Login(imei, _)) =>
        (Some(imei), [AckSent(Encode(Frame(PROTOCOL_LOGIN, [], frame.serial))), LoginEvent(imei, frame.serial)])
      case Ok(Heartbeat(packet)) =>
        (deviceId, [AckSent(Encode(Frame(PROTOCOL_HEARTBEAT, [], frame.serial))), HeartbeatEvent(deviceId, packet)])
      case Ok(Location(packet)) => (deviceId, [LocationEvent(deviceId, packet)])
      case Ok(Unknown(_, _)) => (deviceId, [UnsupportedLogged(deviceId, frame)])
      case Err(error) => (deviceId, [ErrorLogged(error)])
  }

  function ReactAll(deviceId: Option<string>, items: seq<Item>): (Option<string>, seq<Effect>) {
    if items == [] then (deviceId, [])
    else
      var (id, before) := ReactAll(deviceId, items[..|items| - 1]);
      var (id', now) := React(id, items[|items| - 1]);
      (id', before + now)
  }

  /** The local variables of the loop, and everything it did so far. */
  datatype State = State(buffer: seq<Byte>, deviceId: Option<string>, effects: seq<Effect>)

  const INITIAL := State([], None, [])

  /** One read and the drain loop behind it. */
  function Feed(state: State, chunk: seq<Byte>): State {
    var (items, rest) := Drain(state.buffer + chunk);
    var (id, effects) := ReactAll(state.deviceId, items);
    State(rest, id, state.effects + effects)
  }

  function FeedAll(state: State, chunks: seq<seq<Byte>>): State {
    if chunks == [] then state
    else Feed(FeedAll(state, chunks[..|chunks| - 1]), chunks[|chunks| - 1])
  }

  /** What a read returns: some bytes, none when the peer has closed, or a failure. */
  datatype Read = Data(bytes: seq<Byte>) | ReadFailed

  /** The reads before the peer closes or a read fails. */
  function UntilClosed(received: seq<Read>): seq<seq<Byte>> {
    if received == [] || received[0].ReadFailed? || received[0].bytes == [] then []
    else [received[0].bytes] + UntilClosed(received[1..])
  }

  /** A read fails before the peer closes. */
  predicate ReadFails(received: seq<Read>) {
    received != [] && (received[0].ReadFailed? || (received[0].bytes != [] && ReadFails(received[1..])))
  }

  function Acks(effects: seq<Effect>): nat {
    if effects == [] then 0
    else Acks(effects[..|effects| - 1]) + if effects[|effects| - 1].AckSent? then 1 else 0
  }

  /** The effects before the first acknowledgement that cannot be written; `writable` says of
      the n-th acknowledgement whether it can. */
  function UpTo(effects: seq<Effect>, writable: nat -> bool): (cut: seq<Effect>)
    ensures cut <= effects
  {
    if effects == [] then []
    else
      var n := |effects| - 1;
      var before := UpTo(effects[..n], writable);
      if |before| < n || (effects[n].AckSent? && !writable(Acks(effects[..n]))) then before else effects
  }

  datatype IoError = IoError

  /** The loop ends well when the peer closes, and with an error when a read or the write of an
      acknowledgement fails; what it did until then is the same in every case, cut short. */
  method HandleConnection(received: seq<Read>, writable: nat -> bool)
    returns (outcome: Result<(), IoError>, deviceId: Option<string>, effects: seq<Effect>, leftover: seq<Byte>)
    ensures var whole := FeedAll(INITIAL, UntilClosed(received));
            && effects == UpTo(whole.effects, writable)
            && (outcome.Ok? <==> !ReadFails(received) && effects == whole.effects)
            && (effects == whole.effects ==> State(leftover, deviceId, effects) == whole)
  {
    hide Drain, Next, React, ReactAll, Encode, DecodeMessage, Acks, UpTo;
    var buffer := new BytesMut();
    deviceId, effects := None, [];
    var writes := 0;
    ghost var chunks: seq<seq<Byte>> := [];
    var i := 0;
    NothingWritable(writable);
    assert [] + UntilClosed(received) == UntilClosed(received) && received[0..] == received;
    while i < |received|
      invariant 0 <= i <= |received|
      invariant UntilClosed(received) == chunks + UntilClosed(received[i..])
      invariant ReadFails(received) == ReadFails(received[i..])
      invariant State(buffer.bytes, deviceId, effects) == FeedAll(INITIAL, chunks)
      invariant writes == Acks(effects) && UpTo(effects, writable) == effects
      modifies buffer
    {
      if received[i].ReadFailed? || |received[i].bytes| == 0 {
        assert chunks + [] == chunks;
        leftover := buffer.bytes;
        outcome := if received[i].ReadFailed? then Err(IoError) else Ok(());
        return;
      }
      var chunk := received[i].bytes;
      OneMoreRead(received, i, chunks);
      buffer.Extend(chunk);
      ghost var start := State(buffer.bytes, deviceId, effects);
      ghost var done: seq<Item> := [];
      BeforeAnyItem(start);
      while true
        invariant Drain(start.buffer) == (done + Drain(buffer.bytes).0, Drain(buffer.bytes).1)
        invariant (deviceId, effects) == After(start, done)
        invariant writes == Acks(effects) && UpTo(effects, writable) == effects
        modifies buffer
        decreases |buffer.bytes|
      {
        DrainOnce(buffer.bytes);
        var step := NextFrame(buffer);
        match step {
          case Ok(None) =>
            break;
          case Ok(Some(frame)) =>
            ReactLast(start, done, Ok(frame));
            AppendPrepend(done, Ok(frame), Drain(buffer.bytes).0);
            done := done + [Ok(frame)];
            ghost var now := React(deviceId, Ok(frame)).1;
            ReactionWritable(deviceId, Ok(frame), effects, writable);
            var ok;
            deviceId, effects, writes, ok := HandleFrame(deviceId, effects, writes, writable, frame);
            if !ok {
              leftover := buffer.bytes;
              AfterExtends(start, done, Drain(buffer.bytes).0);
              FeedAllExtends(chunks + [chunk], UntilClosed(received[i + 1..]));
              FeedLast(chunks, chunk);
              CutStays(effects + now, FeedAll(INITIAL, UntilClosed(received)).effects, writable);
              return Err(IoError), deviceId, effects, leftover;
            }
          case Err(error) =>
            ReactError(deviceId, error);
            ReactionWritable(deviceId, Err(error), effects, writable);
            effects := effects + [ErrorLogged(error)];
            ReactLast(start, done, Err(error));
            AppendPrepend(done, Err(error), Drain(buffer.bytes).0);
            done := done + [Err(error)];
        }
      }
      assert done + [] == done;
      FeedLast(chunks, chunk);
      chunks := chunks + [chunk];
      i := i + 1;
    }
    assert chunks + [] == chunks;
    leftover := buffer.bytes;
    outcome := Ok(());
  }

  /** A frame's acknowledgement comes before anything else it causes. */
  method HandleFrame(deviceId: Option<string>, effects: seq<Effect>, writes: nat, writable: nat -> bool, frame: Frame)
    returns (deviceId': Option<string>, effects': seq<Effect>, writes': nat, ok: bool)
    ensures var (id, now) := React(deviceId, Ok(frame));
            && (ok <==> !(now[0].AckSent? && !writable(writes)))
            && (ok ==> deviceId' == id && effects' == effects + now && writes' == writes + Acks([now[0]]))
            && (!ok ==> deviceId' == deviceId && effects' == effects && writes' == writes)
  {
    hide Encode;
    deviceId', effects', writes', ok := deviceId, effects, writes, true;
    match DecodeMessage(frame) {
      case Ok(Login(imei, _)) =>
        var ack := EncodeAck(PROTOCOL_LOGIN, frame.serial);
        if !writable(writes) {
          ok := false;
          return;
        }
        writes' := writes + 1;
        effects' := effects' + [AckSent(ack)];
        deviceId' := Some(imei);
        effects' := effects' + [LoginEvent(imei, frame.serial)];
      case Ok(Heartbeat(packet)) =>
        var ack := EncodeAck(PROTOCOL_HEARTBEAT, frame.serial);
        if !writable(writes) {
          ok := false;
          return;
        }
        writes' := writes + 1;
        effects' := effects' + [AckSent(ack)];
        effects' := effects' + [HeartbeatEvent(deviceId, packet)];
      case Ok(Location(packet)) =>
        effects' := effects' + [LocationEvent(deviceId, packet)];
      case Ok(Unknown(_, _)) =>
        effects' := effects' + [UnsupportedLogged(deviceId, frame)];
      case Err(error) =>
        effects' := effects' + [ErrorLogged(error)];
    }
  }

  // ---- Steps of the proof of the loop ----

  ghost function After(start: State, done: seq<Item>): (Option<string>, seq<Effect>) {
    var (id, effects) := ReactAll(start.deviceId, done);
    (id, start.effects + effects)
  }

  lemma BeforeAnyItem(start: State)
    ensures After(start, []) == (start.deviceId, start.effects)
    ensures Drain(start.buffer) == ([] + Drain(start.buffer).0, Drain(start.buffer).1)
  {
    hide Drain;
    assert start.effects + [] == start.effects;
    assert [] + Drain(start.buffer).0 == Drain(start.buffer).0;
  }

  lemma AppendPrepend(done: seq<Item>, item: Item, more: seq<Item>)
    ensures done + ([item] + more) == (done + [item]) + more
  {}

  lemma ReactError(deviceId: Option<string>, error: ProtocolError)
    ensures React(deviceId, Err(error)) == (deviceId, [ErrorLogged(error)])
  {}

  lemma ReactLast(start: State, done: seq<Item>, item: Item)
    ensures var (id, effects) := After(start, done);
            var (id', now) := React(id, item);
            After(start, done + [item]) == (id', effects + now)
  {
    hide React;
    assert (done + [item])[..|done|] == done;
    var (id, effects) := ReactAll(start.deviceId, done);
    var (id', now) := React(id, item);
    assert start.effects + (effects + now) == start.effects + effects + now;
  }

  lemma DrainOnce(buffer: seq<Byte>)
    ensures var (step, rest) := Next(buffer);
            && (step == Ok(None) ==> Drain(buffer) == ([], rest))
            && (step.Ok? && step.value.Some? ==> Drain(buffer) == Prepend(Ok(step.value.value), Drain(rest)))
            && (step.Err? ==> Drain(buffer) == Prepend(Err(step.error), Drain(rest)))
  {
    hide Next;
  }

  lemma OneMoreRead(received: seq<Read>, i: nat, chunks: seq<seq<Byte>>)
    requires i < |received| && received[i].Data? && received[i].bytes != []
    ensures chunks + UntilClosed(received[i..]) == chunks + [received[i].bytes] + UntilClosed(received[i + 1..])
    ensures ReadFails(received[i..]) == ReadFails(received[i + 1..])
  {
    assert received[i..][1..] == received[i + 1..];
  }

  lemma FeedLast(chunks: seq<seq<Byte>>, chunk: seq<Byte>)
    ensures FeedAll(INITIAL, chunks + [chunk]) == Feed(FeedAll(INITIAL, chunks), chunk)
  {
    hide Feed;
    assert (chunks + [chunk])[..|chunks|] == chunks;
  }

  lemma {:induction false} FeedAllExtends(chunks: seq<seq<Byte>>, more: seq<seq<Byte>>)
    ensures FeedAll(INITIAL, chunks).effects <= FeedAll(INITIAL, chunks + more).effects
    decreases |more|
  {
    hide Drain, ReactAll;
    if more == [] {
      assert chunks + more == chunks;
    } else {
      var n := |more| - 1;
      assert (chunks + more)[..|chunks + more| - 1] == chunks + more[..n];
      FeedAllExtends(chunks, more[..n]);
    }
  }

  lemma AfterExtends(start: State, items: seq<Item>, more: seq<Item>)
    ensures After(start, items).1 <= After(start, items + more).1
  {
    hide ReactAll;
    ReactAllAppend(start.deviceId, items, more);
  }

  // ---- Where a failed write cuts ----

  lemma NothingWritable(writable: nat -> bool)
    ensures Acks([]) == 0 && UpTo([], writable) == []
  {}

  lemma OneEffect(effects: seq<Effect>, effect: Effect, writable: nat -> bool)
    requires UpTo(effects, writable) == effects
    ensures Acks(effects + [effect]) == Acks(effects) + if effect.AckSent? then 1 else 0
    ensures UpTo(effects + [effect], writable) ==
            if effect.AckSent? && !writable(Acks(effects)) then effects else effects + [effect]
  {
    assert (effects + [effect])[..|effects|] == effects;
  }

  /** A reaction passes as a whole or is cut before its first effect. */
  lemma ReactionWritable(deviceId: Option<string>, item: Item, effects: seq<Effect>, writable: nat -> bool)
    requires UpTo(effects, writable) == effects
    ensures var now := React(deviceId, item).1;
            && now != [] && Acks([now[0]]) == (if now[0].AckSent? then 1 else 0)
            && (if now[0].AckSent? && !writable(Acks(effects)) then UpTo(effects + now, writable) == effects
                else
                  && UpTo(effects + now, writable) == effects + now
                  && Acks(effects + now) == Acks(effects) + Acks([now[0]]))
  {
    hide Encode, UpTo, Acks;
    var now := React(deviceId, item).1;
    NothingWritable(writable);
    OneEffect([], now[0], writable);
    assert [] + [now[0]] == [now[0]];
    OneEffect(effects, now[0], writable);
    if |now| == 1 {
      assert now == [now[0]];
    } else {
      assert effects + now == effects + [now[0]] + [now[1]];
      if now[0].AckSent? && !writable(Acks(effects)) {
        CutStays(effects + [now[0]], effects + now, writable);
      } else {
        OneEffect(effects + [now[0]], now[1], writable);
      }
    }
  }

  /** What comes after a cut does not matter. */
  lemma {:induction false} CutStays(effects: seq<Effect>, longer: seq<Effect>, writable: nat -> bool)
    requires effects <= longer && |UpTo(effects, writable)| < |effects|
    ensures UpTo(longer, writable) == UpTo(effects, writable)
    decreases |longer|
  {
    if |longer| > |effects| {
      CutStays(effects, longer[..|longer| - 1], writable);
    } else {
      assert longer == effects;
    }
  }

  /** The cut is as late as it can be: every acknowledgement in it was written, and it ends
      only before one that was not. */
  lemma {:induction false} CutIsExact(effects: seq<Effect>, writable: nat -> bool)
    ensures var cut := UpTo(effects, writable);
            && (forall k :: 0 <= k < |cut| && effects[k].AckSent? ==> writable(Acks(effects[..k])))
            && (|cut| < |effects| ==> effects[|cut|].AckSent? && !writable(Acks(effects[..|cut|])))
  {
    if effects != [] {
      var n := |effects| - 1;
      CutIsExact(effects[..n], writable);
      assert forall k :: 0 <= k <= n ==> effects[..n][..k] == effects[..k];
    }
  }

  // ---- How the stream was cut does not matter ----

  function Flatten(chunks: seq<seq<Byte>>): seq<Byte> {
    if chunks == [] then [] else Flatten(chunks[..|chunks| - 1]) + chunks[|chunks| - 1]
  }

  lemma {:induction false} ReactAllAppend(deviceId: Option<string>, xs: seq<Item>, ys: seq<Item>)
    ensures var (id, before) := ReactAll(deviceId, xs);
            var (id', after) := ReactAll(id, ys);
            ReactAll(deviceId, xs + ys) == (id', before + after)
  {
    hide React;
    var (id, before) := ReactAll(deviceId, xs);
    if ys == [] {
      assert xs + ys == xs;
      assert before + [] == before;
    } else {
      var n := |ys| - 1;
      assert (xs + ys)[..|xs + ys| - 1] == xs + ys[..n];
      ReactAllAppend(deviceId, xs, ys[..n]);
      var (mid, middle) := ReactAll(id, ys[..n]);
      var (last, now) := React(mid, ys[n]);
      assert before + middle + now == before + (middle + now);
    }
  }

  lemma FeedTwice(state: State, a: seq<Byte>, b: seq<Byte>)
    ensures Feed(Feed(state, a), b) == Feed(state, a + b)
  {
    hide Drain, ReactAll;
    DrainAppend(state.buffer + a, b);
    assert state.buffer + a + b == state.buffer + (a + b);
    var (first, rest) := Drain(state.buffer + a);
    var (second, _) := Drain(rest + b);
    ReactAllAppend(state.deviceId, first, second);
    var (id, before) := ReactAll(state.deviceId, first);
    var (_, after) := ReactAll(id, second);
    assert state.effects + before + after == state.effects + (before + after);
  }

  /** Reading a stream in any number of portions does what reading it at once does: the same
      frames, errors, acknowledgements, events and device number, and the same bytes kept. */
  lemma {:induction false} ChunksAreOneRead(chunks: seq<seq<Byte>>)
    ensures FeedAll(INITIAL, chunks) == Feed(INITIAL, Flatten(chunks))
  {
    hide Drain, Next, ReactAll;
    if chunks == [] {
      NothingReceived();
    } else {
      var n := |chunks| - 1;
      ChunksAreOneRead(chunks[..n]);
      FeedTwice(INITIAL, Flatten(chunks[..n]), chunks[n]);
    }
  }

  lemma NothingReceived()
    ensures Feed(INITIAL, []) == INITIAL
  {
    var nothing: seq<Byte> := [];
    assert nothing + nothing == nothing;
    assert Next([]) == (Ok(None), []);
  }

  lemma SegmentationIndependence(chunks1: seq<seq<Byte>>, chunks2: seq<seq<Byte>>)
    requires Flatten(chunks1) == Flatten(chunks2)
    ensures FeedAll(INITIAL, chunks1) == FeedAll(INITIAL, chunks2)
  {
    hide Feed;
    ChunksAreOneRead(chunks1);
    ChunksAreOneRead(chunks2);
  }

  /** What a connection keeps between reads is always shorter than the longest frame. */
  lemma KeepsLessThanOneFrame(chunks: seq<seq<Byte>>)
    ensures |FeedAll(INITIAL, chunks).buffer| < 260
  {
    hide Drain, ReactAll;
    ChunksAreOneRead(chunks);
    DrainLeavesShortSuffix([] + Flatten(chunks));
  }

  // ---- Events carry the latest login ----

  function LatestLogin(effects: seq<Effect>): Option<string> {
    if effects == [] then None
    else if effects[|effects| - 1].LoginEvent? then Some(effects[|effects| - 1].imei)
    else LatestLogin(effects[..|effects| - 1])
  }

  /** The device number an event is reported with, for those that have one. */
  function CarriedId(effect: Effect): Option<Option<string>> {
    match effect
    case HeartbeatEvent(id, _) => Some(id)
    case LocationEvent(id, _) => Some(id)
    case UnsupportedLogged(id, _) => Some(id)
    case _ => None
  }

  predicate CarriesLatestLogin(effects: seq<Effect>, k: nat)
    requires k < |effects|
  {
    CarriedId(effects[k]).Some? ==> CarriedId(effects[k]).value == LatestLogin(effects[..k])
  }

  /** Every event of every connection, however its stream is cut, carries the IMEI of the
      last login before it, and none before the first login. */
  lemma EventsCarryLatestLogin(chunks: seq<seq<Byte>>)
    ensures var state := FeedAll(INITIAL, chunks);
            && state.deviceId == LatestLogin(state.effects)
            && forall k :: 0 <= k < |state.effects| ==> CarriesLatestLogin(state.effects, k)
  {
    hide Drain, ReactAll, CarriesLatestLogin, LatestLogin;
    ChunksAreOneRead(chunks);
    var items := Drain([] + Flatten(chunks)).0;
    ReactionsCarryLatestLogin(items);
    assert [] + ReactAll(None, items).1 == ReactAll(None, items).1;
  }

  lemma {:induction false} ReactionsCarryLatestLogin(items: seq<Item>)
    ensures var (id, effects) := ReactAll(None, items);
            && id == LatestLogin(effects)
            && forall k :: 0 <= k < |effects| ==> CarriesLatestLogin(effects, k)
  {
    hide React, CarriesLatestLogin;
    if items != [] {
      var n := |items| - 1;
      ReactionsCarryLatestLogin(items[..n]);
      var (id, before) := ReactAll(None, items[..n]);
      var (id', now) := React(id, items[n]);
      ReactionCarriesLatestLogin(id, before, items[n]);
      forall k | 0 <= k < |before| ensures CarriesLatestLogin(before + now, k) {
        EarlierEffectUnchanged(before, now, k);
      }
    }
  }

  lemma EarlierEffectUnchanged(before: seq<Effect>, now: seq<Effect>, k: nat)
    requires k < |before| && CarriesLatestLogin(before, k)
    ensures CarriesLatestLogin(before + now, k)
  {
    assert (before + now)[..k] == before[..k];
  }

  lemma ReactionCarriesLatestLogin(id: Option<string>, before: seq<Effect>, item: Item)
    requires id == LatestLogin(before)
    ensures var (id', now) := React(id, item);
            && id' == LatestLogin(before + now)
            && forall k :: |before| <= k < |before + now| ==> CarriesLatestLogin(before + now, k)
  {
    hide Encode, DecodeMessage, LatestLogin, CarriesLatestLogin;
    var (id', now) := React(id, item);
    if |now| == 2 {
      assert before + now == before + [now[0]] + [now[1]];
      OneMoreEffect(before, now[0]);
      OneMoreEffect(before + [now[0]], now[1]);
      EarlierEffectUnchanged(before + [now[0]], [now[1]], |before|);
    } else {
      assert now == [now[0]];
      OneMoreEffect(before, now[0]);
    }
  }

  lemma OneMoreEffect(before: seq<Effect>, effect: Effect)
    ensures LatestLogin(before + [effect]) == if effect.LoginEvent? then Some(effect.imei) else LatestLogin(before)
    ensures CarriesLatestLogin(before + [effect], |before|)
       <==> (CarriedId(effect).Some? ==> CarriedId(effect).value == LatestLogin(before))
  {
    assert (before + [effect])[..|before|] == before;
  }

  // ---- The device can read its acknowledgements ----

  /** The bytes written to the peer. */
  function Written(effects: seq<Effect>): seq<Byte> {
    if effects == [] then []
    else Written(effects[..|effects| - 1]) + WrittenBy(effects[|effects| - 1])
  }

  function WrittenBy(effect: Effect): seq<Byte> {
    if effect.AckSent? then effect.bytes else []
  }

  /** The logins and heartbeats among the items, each as the frame that acknowledges it. */
  function Acknowledgements(items: seq<Item>): seq<Frame> {
    if items == [] then []
    else Acknowledgements(items[..|items| - 1]) + Acknowledgement(items[|items| - 1])
  }

  function Acknowledgement(item: Item): seq<Frame> {
    if item.Ok? && DecodeMessage(item.value).Ok?
       && (DecodeMessage(item.value).value.Login? || DecodeMessage(item.value).value.Heartbeat?)
    then [Frame(item.value.protocolNumber, [], item.value.serial)]
    else []
  }

  /** Decoding everything the server wrote gives back exactly one empty frame for each login
      and heartbeat, with its protocol number and serial, in order. */
  lemma {:induction false} AcksReadBack(items: seq<Item>)
    ensures Drain(Written(ReactAll(None, items).1)) == (Decoded(Acknowledgements(items)), [])
  {
    hide Drain, Next, Encode, React, Written, Acknowledgement;
    if items == [] {
      NothingWritten();
    } else {
      var n := |items| - 1;
      AcksReadBack(items[..n]);
      var (id, before) := ReactAll(None, items[..n]);
      WrittenByReaction(id, before, items[n]);
      var written := Written(before);
      if Acknowledgement(items[n]) == [] {
        assert written + [] == written;
        assert Acknowledgements(items[..n]) + [] == Acknowledgements(items[..n]);
      } else {
        var ack := Acknowledgement(items[n])[0];
        AcknowledgementIsEmpty(items[n]);
        assert Acknowledgements(items) == Acknowledgements(items[..n]) + [ack];
        DrainAppend(written, Encode(ack));
        assert [] + Encode(ack) == Encode(ack);
        RoundTripIffShort(ack);
        DecodedOneMore(Acknowledgements(items[..n]), ack);
      }
    }
  }

  lemma NothingWritten()
    ensures Written([]) == [] && Drain([]) == ([], [])
  {}

  lemma AcknowledgementIsEmpty(item: Item)
    requires Acknowledgement(item) != []
    ensures |Acknowledgement(item)| == 1 && Acknowledgement(item)[0].payload == []
  {}

  lemma {:induction false} DecodedOneMore(frames: seq<Frame>, frame: Frame)
    ensures Decoded(frames + [frame]) == Decoded(frames) + [Ok(frame)]
  {
    if frames == [] {
      assert Decoded([frame]) == [Ok(frame)] + Decoded([]);
    } else {
      assert (frames + [frame])[1..] == frames[1..] + [frame];
      DecodedOneMore(frames[1..], frame);
    }
  }

  lemma WrittenByReaction(id: Option<string>, before: seq<Effect>, item: Item)
    ensures Written(before + React(id, item).1) ==
            Written(before) + if Acknowledgement(item) == [] then [] else Encode(Acknowledgement(item)[0])
  {
    hide Encode, Written, DecodeMessage;
    var now := React(id, item).1;
    if item.Ok? && DecodeMessage(item.value).Ok? {
      DecodedKind(item);
    }
    WrittenOneMore(before, now[0]);
    if |now| == 2 {
      WrittenOneMore(before + [now[0]], now[1]);
      assert before + now == before + [now[0]] + [now[1]];
    } else {
      assert now == [now[0]];
    }
  }

  lemma DecodedKind(item: Item)
    requires item.Ok? && DecodeMessage(item.value).Ok?
    ensures DecodeMessage(item.value).value.Login? ==> item.value.protocolNumber == PROTOCOL_LOGIN
    ensures DecodeMessage(item.value).value.Heartbeat? ==> item.value.protocolNumber == PROTOCOL_HEARTBEAT
  {}

  lemma WrittenOneMore(before: seq<Effect>, effect: Effect)
    ensures Written(before + [effect]) == Written(before) + WrittenBy(effect)
  {
    assert (before + [effect])[..|before|] == before;
  }
}
