/** What repeated decoding makes of a byte stream. */
module FrameStream {
  import opened Common
  import opened Bytes
  import opened Protocol

  type Item = Result<Frame, ProtocolError>

  /** The answers of the decoder until it asks for more bytes, and the bytes it keeps. */
  function Drain(buffer: seq<Byte>): (drained: (seq<Item>, seq<Byte>))
    decreases |buffer|
  {
    match Next(buffer)
    case (Ok(None), rest) => ([], rest)
    case (Ok(Some(frame)), rest) => Prepend(Ok(frame), Drain(rest))
    case (Err(error), rest) => Prepend(Err(error), Drain(rest))
  }

  function Prepend(item: Item, drained: (seq<Item>, seq<Byte>)): (seq<Item>, seq<Byte>) {
    ([item] + drained.0, drained.1)
  }

  function Frames(items: seq<Item>): seq<Frame> {
    if items == [] then []
    else (if items[0].Ok? then [items[0].value] else []) + Frames(items[1..])
  }

  /** One byte or one frame at a time. */
  lemma DrainStep(buffer: seq<Byte>)
    ensures var v := Inspect(buffer);
            && (v.Incomplete? ==> Drain(buffer) == ([], buffer))
            && (v.Garbage? ==> Drain(buffer) == Drain(buffer[1..]))
            && (v.Bad? ==> Drain(buffer) == Prepend(Err(v.error), Drain(buffer[1..])))
            && (v.Good? ==> Drain(buffer) == Prepend(Ok(v.frame), Drain(buffer[v.size..])))
  {
    hide Inspect;
  }

  /** Draining in two portions is draining at once. */
  lemma {:induction false} DrainAppend(a: seq<Byte>, b: seq<Byte>)
    ensures var (items, rest) := Drain(a);
            Drain(a + b) == (items + Drain(rest + b).0, Drain(rest + b).1)
    decreases |a|
  {
    hide Inspect, Drain, Next;
    DrainStep(a);
    DrainStep(a + b);
    match Inspect(a)
    case Incomplete =>
      assert [] + Drain(a + b).0 == Drain(a + b).0;
    case Garbage =>
      InspectStable(a, b);
      assert (a + b)[1..] == a[1..] + b;
      DrainAppend(a[1..], b);
    case Bad(error) =>
      InspectStable(a, b);
      assert (a + b)[1..] == a[1..] + b;
      DrainAppend(a[1..], b);
      PrependAppend(Err(error), Drain(a[1..]).0, Drain(Drain(a).1 + b).0);
    case Good(frame, size) =>
      InspectStable(a, b);
      assert (a + b)[size..] == a[size..] + b;
      DrainAppend(a[size..], b);
      PrependAppend(Ok(frame), Drain(a[size..]).0, Drain(Drain(a).1 + b).0);
  }

  lemma PrependAppend(item: Item, xs: seq<Item>, ys: seq<Item>)
    ensures [item] + (xs + ys) == ([item] + xs) + ys
  {}

  /** The loop ends with a suffix shorter than the longest frame. */
  lemma {:induction false} DrainLeavesShortSuffix(buffer: seq<Byte>)
    ensures var rest := Drain(buffer).1;
            |rest| < 260 && |rest| <= |buffer| && rest == buffer[|buffer| - |rest|..] && Inspect(rest) == Incomplete
    decreases |buffer|
  {
    hide Inspect, Drain, Next;
    DrainStep(buffer);
    match Inspect(buffer)
    case Incomplete => IncompleteIsShort(buffer);
    case Garbage => DrainLeavesShortSuffix(buffer[1..]);
    case Bad(_) => DrainLeavesShortSuffix(buffer[1..]);
    case Good(_, size) => DrainLeavesShortSuffix(buffer[size..]);
  }

  // ---- Which frames are found ----

  /** The stream holds the encoding of `frame` at position `i`. */
  ghost predicate FrameAt(stream: seq<Byte>, i: nat, frame: Frame) {
    i <= |stream| && |frame.payload| <= 250 && Encode(frame) <= stream[i..]
  }

  function Size(frame: Frame): nat { |frame.payload| + 10 }

  ghost predicate NoFrameIn(stream: seq<Byte>, from: nat, to: nat) {
    forall i: nat, frame :: from <= i < to ==> !FrameAt(stream, i, frame)
  }

  /** Between `from` and `end`, `frames` are the leftmost frame, then the leftmost frame
      behind it, and so on until there is none; they stand at `starts`. */
  ghost predicate IsLeftmostParse(stream: seq<Byte>, from: nat, end: nat, starts: seq<nat>, frames: seq<Frame>)
    decreases |frames|
  {
    && |starts| == |frames|
    && if frames == [] then NoFrameIn(stream, from, end)
       else
         && from <= starts[0] && starts[0] + Size(frames[0]) <= end
         && NoFrameIn(stream, from, starts[0])
         && FrameAt(stream, starts[0], frames[0])
         && IsLeftmostParse(stream, starts[0] + Size(frames[0]), end, starts[1..], frames[1..])
  }

  lemma FrameAtIffGood(stream: seq<Byte>, i: nat, frame: Frame)
    requires i <= |stream|
    ensures FrameAt(stream, i, frame) <==> Inspect(stream[i..]) == Good(frame, Size(frame))
  {
    hide Inspect, Encode;
    GoodIffEncoded(stream[i..], frame);
  }

  /** The frames the drain loop returns are the leftmost parse of the bytes it consumes. */
  lemma DrainIsLeftmostParse(stream: seq<Byte>, from: nat) returns (starts: seq<nat>)
    requires from <= |stream|
    ensures var (items, rest) := Drain(stream[from..]);
            && |rest| <= |stream| - from
            && IsLeftmostParse(stream, from, |stream| - |rest|, starts, Frames(items))
    decreases |stream| - from
  {
    hide Inspect, Drain, Next, FrameAt;
    var here := stream[from..];
    DrainStep(here);
    if Inspect(here).Incomplete? {
      starts := [];
    } else if Inspect(here).Good? {
      var frame := Inspect(here).frame;
      GoodHasItsSize(here);
      FrameAtIffGood(stream, from, frame);
      assert here[Size(frame)..] == stream[from + Size(frame)..];
      var more := DrainIsLeftmostParse(stream, from + Size(frame));
      var (items, rest) := Drain(stream[from + Size(frame)..]);
      starts := [from] + more;
      FramesOfPrepend(Ok(frame), items);
      StartHere(stream, from, |stream| - |rest|, frame, more, Frames(items));
    } else {
      assert here[1..] == stream[from + 1..];
      starts := DrainIsLeftmostParse(stream, from + 1);
      var (items, rest) := Drain(stream[from + 1..]);
      forall frame ensures !FrameAt(stream, from, frame) {
        FrameAtIffGood(stream, from, frame);
      }
      StartEarlier(stream, from, |stream| - |rest|, starts, Frames(items));
      if Inspect(here).Bad? {
        FramesOfPrepend(Err(Inspect(here).error), items);
      }
    }
  }

  lemma GoodHasItsSize(buffer: seq<Byte>)
    requires Inspect(buffer).Good?
    ensures Inspect(buffer).size == Size(Inspect(buffer).frame) <= |buffer|
  {}

  lemma FramesOfPrepend(item: Item, items: seq<Item>)
    ensures Frames([item] + items) == if item.Ok? then [item.value] + Frames(items) else Frames(items)
  {
    assert ([item] + items)[1..] == items;
  }

  lemma StartEarlier(stream: seq<Byte>, from: nat, end: nat, starts: seq<nat>, frames: seq<Frame>)
    requires from < end && IsLeftmostParse(stream, from + 1, end, starts, frames)
    requires forall frame :: !FrameAt(stream, from, frame)
    ensures IsLeftmostParse(stream, from, end, starts, frames)
  {
    hide FrameAt;
  }

  lemma StartHere(stream: seq<Byte>, from: nat, end: nat, frame: Frame, starts: seq<nat>, frames: seq<Frame>)
    requires FrameAt(stream, from, frame) && from + Size(frame) <= end
    requires IsLeftmostParse(stream, from + Size(frame), end, starts, frames)
    ensures IsLeftmostParse(stream, from, end, [from] + starts, [frame] + frames)
  {
    hide FrameAt;
    assert ([from] + starts)[1..] == starts && ([frame] + frames)[1..] == frames;
  }

  /** A leftmost parse accounts for every place where a frame starts: it is returned, or it
      lies inside a frame that is returned. */
  lemma {:induction false} EveryFrameStartIsCovered(stream: seq<Byte>, from: nat, end: nat, starts: seq<nat>,
                                                    frames: seq<Frame>, i: nat, frame: Frame)
    requires IsLeftmostParse(stream, from, end, starts, frames)
    requires from <= i < end && FrameAt(stream, i, frame)
    ensures exists k :: 0 <= k < |starts| && starts[k] <= i < starts[k] + Size(frames[k])
                     && (starts[k] == i ==> frames[k] == frame)
    decreases |starts|
  {
    hide FrameAt;
    assert frames != [];
    assert starts[0] <= i;
    if i < starts[0] + Size(frames[0]) {
      if i == starts[0] {
        SameFrame(stream, i, frames[0], frame);
      }
    } else {
      EveryFrameStartIsCovered(stream, starts[0] + Size(frames[0]), end, starts[1..], frames[1..], i, frame);
      var k :| 0 <= k < |starts[1..]| && starts[1..][k] <= i < starts[1..][k] + Size(frames[1..][k])
               && (starts[1..][k] == i ==> frames[1..][k] == frame);
      assert starts[k + 1] == starts[1..][k] && frames[k + 1] == frames[1..][k];
    }
  }

  /** There is only one leftmost parse. */
  lemma {:induction false} LeftmostParseIsUnique(stream: seq<Byte>, from: nat, end: nat,
                                                 starts1: seq<nat>, frames1: seq<Frame>,
                                                 starts2: seq<nat>, frames2: seq<Frame>)
    requires IsLeftmostParse(stream, from, end, starts1, frames1)
    requires IsLeftmostParse(stream, from, end, starts2, frames2)
    ensures starts1 == starts2 && frames1 == frames2
    decreases |starts1|
  {
    hide FrameAt;
    if frames1 != [] && frames2 != [] {
      assert starts1[0] == starts2[0];
      SameFrame(stream, starts1[0], frames1[0], frames2[0]);
      LeftmostParseIsUnique(stream, starts1[0] + Size(frames1[0]), end,
                            starts1[1..], frames1[1..], starts2[1..], frames2[1..]);
      assert starts1 == [starts1[0]] + starts1[1..] && starts2 == [starts2[0]] + starts2[1..];
      assert frames1 == [frames1[0]] + frames1[1..] && frames2 == [frames2[0]] + frames2[1..];
    }
  }

  lemma SameFrame(stream: seq<Byte>, i: nat, f: Frame, g: Frame)
    requires FrameAt(stream, i, f) && FrameAt(stream, i, g)
    ensures f == g
  {
    hide Inspect, Encode;
    FrameAtIffGood(stream, i, f);
    FrameAtIffGood(stream, i, g);
  }

  // ---- Frames come back ----

  /** `gaps[0]`, the first frame, `gaps[1]`, the second frame, ..., the last gap. */
  function Interleave(gaps: seq<seq<Byte>>, frames: seq<Frame>): seq<Byte>
    requires |gaps| == |frames| + 1
  {
    if frames == [] then gaps[0]
    else gaps[0] + (Encode(frames[0]) + Interleave(gaps[1..], frames[1..]))
  }

  function Decoded(frames: seq<Frame>): seq<Item> {
    if frames == [] then [] else [Ok(frames[0])] + Decoded(frames[1..])
  }

  function LastByte(gap: seq<Byte>): seq<Byte> {
    if gap == [] then [] else gap[|gap| - 1..]
  }

  lemma {:induction false} SkipGap(gap: seq<Byte>, rest: seq<Byte>)
    requires 0x78 !in gap
    ensures rest != [] ==> Drain(gap + rest) == Drain(rest)
    ensures Drain(gap) == ([], LastByte(gap))
    decreases |gap|
  {
    hide Drain, Next, Inspect;
    if gap == [] {
      assert gap + rest == rest;
      DrainStep(gap);
    } else {
      GapIsGarbage(gap, rest);
      DrainStep(gap + rest);
      DrainStep(gap);
      assert (gap + rest)[1..] == gap[1..] + rest;
      SkipGap(gap[1..], rest);
      if |gap| == 1 {
        assert gap[1..] + rest == rest;
      }
    }
  }

  lemma GapIsGarbage(gap: seq<Byte>, rest: seq<Byte>)
    requires gap != [] && 0x78 !in gap
    ensures Inspect(gap) == if |gap| == 1 then Incomplete else Garbage
    ensures rest != [] ==> Inspect(gap + rest) == Garbage
    ensures Inspect([]) == Incomplete
  {
    assert gap[0] != 0x78;
    assert (gap + rest)[0] == gap[0];
    if |gap + rest| >= 2 {
      assert (gap + rest)[..2][0] != START_BYTES[0];
    }
    if |gap| >= 2 {
      assert gap[..2][0] != START_BYTES[0];
    }
  }

  /** Any frames, encoded with any bytes but 0x78 before, between and after them, come back
      as they were, without an error; of the last gap at most one byte is kept. */
  lemma {:induction false} FramesRoundTrip(gaps: seq<seq<Byte>>, frames: seq<Frame>)
    requires |gaps| == |frames| + 1
    requires forall k :: 0 <= k < |gaps| ==> 0x78 !in gaps[k]
    requires forall k :: 0 <= k < |frames| ==> |frames[k].payload| <= 250
    ensures Drain(Interleave(gaps, frames)) == (Decoded(frames), LastByte(gaps[|frames|]))
    decreases |frames|
  {
    hide Drain, Next, Inspect, Encode;
    if frames == [] {
      SkipGap(gaps[0], []);
    } else {
      var rest := Interleave(gaps[1..], frames[1..]);
      var bytes := Encode(frames[0]) + rest;
      SkipGap(gaps[0], bytes);
      EncodedIsGood(frames[0], rest);
      DrainStep(bytes);
      assert bytes[|Encode(frames[0])|..] == rest;
      FramesRoundTrip(gaps[1..], frames[1..]);
    }
  }

  /** The round trip of one frame needs the payload limit: with more bytes the length
      field wraps around and the frame never comes back. */
  lemma RoundTripIffShort(frame: Frame)
    ensures Drain(Encode(frame)) == ([Ok(frame)], []) <==> |frame.payload| <= 250
  {
    hide Drain, Next, Inspect, Encode;
    var bytes := Encode(frame);
    var item: Item := Ok(frame);
    assert [item] + [] == [item];
    if |frame.payload| <= 250 {
      EncodedIsGood(frame, []);
      assert bytes + [] == bytes;
      DrainStep(bytes);
      assert bytes[|bytes|..] == [];
      SkipGap([], []);
    } else if Drain(bytes) == ([Ok(frame)], []) {
      DrainStep(bytes);
      var starts := DrainIsLeftmostParse(bytes, 0);
      assert bytes[0..] == bytes;
      FramesOfPrepend(Ok(frame), []);
    }
  }
}
