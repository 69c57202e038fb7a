/** What a heartbeat, a sweep and an answer do to the sessions of a chat, and what the rider is
    told, in reachable states. Times are in microseconds. */
module EngineSessionResults {
  import opened Common
  import opened WibTime
  import opened EngineSessions
  import opened EngineSessionRuns

  // ---- Ending the one active session ----

  lemma {:induction false} NobodyActive(sessions: seq<Session>)
    requires NoneActive(sessions)
    ensures ActiveIndices(sessions) == []
  {
    if sessions != [] {
      NobodyActive(sessions[..|sessions| - 1]);
    }
  }

  lemma {:induction false} SoleActive(sessions: seq<Session>, i: nat)
    requires i < |sessions| && sessions[i].Active()
    requires forall j :: 0 <= j < |sessions| && j != i ==> !sessions[j].Active()
    ensures ActiveIndices(sessions) == [i]
  {
    var n := |sessions| - 1;
    if i == n {
      NobodyActive(sessions[..n]);
    } else {
      SoleActive(sessions[..n], i);
    }
  }

  /** What the rider is told when a ride ends: the buttons go, the end is announced, the engine
      going off after a reported theft is raised, and the ride is summed up if there is one. */
  function EndingMessages(session: Session, engineOff: bool, summary: bool): seq<Request> {
    (if session.status.PendingConfirmation? then [RemoveKeyboard(session.promptMessageId)] else [])
    + [SendRideFinished]
    + (if engineOff && session.status.ReportedTheft? then [SendTheftEngineOff] else [])
    + (if summary then [SendRideSummary] else [])
  }

  predicate EndedNow(before: Session, after: Session, now: Instant) {
    && after.status == Finished && after.resolvedAt == Some(now)
    && after.trigger == before.trigger && after.promptMessageId == before.promptMessageId
    && after.createdAt == before.createdAt
  }

  /** With the calls answered, the active session ends now and the rider is told. */
  ghost predicate RideEnded(before: Chat, after: Chat, i: nat, engineOff: bool, now: Instant)
    requires i < |before.sessions|
  {
    && |after.sessions| == |before.sessions|
    && EndedNow(before.sessions[i], after.sessions[i], now)
    && (forall j :: 0 <= j < |before.sessions| && j != i ==> after.sessions[j] == before.sessions[j])
    && (after.sent == before.sent + EndingMessages(before.sessions[i], engineOff, true)
        || after.sent == before.sent + EndingMessages(before.sessions[i], engineOff, false))
    && (after.sessions[i].rideStatusMessageId.Some? <==>
          after.sent == before.sent + EndingMessages(before.sessions[i], engineOff, true))
  }

  /** The message left at the end of a ride: its summary, or else the announcement of its end. */
  function RideMessage(world: World, before: Chat, after: Chat, i: nat): Option<int>
    requires i < |before.sessions| == |after.sessions|
  {
    if after.sessions[i].rideStatusMessageId.Some? then after.sessions[i].rideStatusMessageId
    else world.reply(|before.sent| + if before.sessions[i].status.PendingConfirmation? then 1 else 0)
  }

  lemma RideEnds(world: World, chat: Chat, i: nat, now: Instant, endedAt: Instant, engineOff: bool)
    requires i < |chat.sessions| && chat.sessions[i].rideStatusMessageId.None?
    requires var result := FinishRide(world, ClearKeyboard(world, chat, i), i, now, endedAt, engineOff);
             AllSent(world, |result.0.sent|)
    ensures var result := FinishRide(world, ClearKeyboard(world, chat, i), i, now, endedAt, engineOff);
            && result.1.Ok?
            && RideEnded(chat, result.0, i, engineOff, now)
            && Some(result.1.value) == RideMessage(world, chat, result.0, i)
  {
    var result := FinishRide(world, ClearKeyboard(world, chat, i), i, now, endedAt, engineOff);
    var k := |chat.sent|;
    var replies := (world.reply(k), world.reply(k + 1), world.reply(k + 2), world.reply(k + 3));
    FinishRideSucceeds(world, ClearKeyboard(world, chat, i), i, now, endedAt, engineOff);
    var session := chat.sessions[i];
    var clear := if session.status.PendingConfirmation? then [RemoveKeyboard(session.promptMessageId)] else [];
    var alert := if engineOff && session.status.ReportedTheft? then [SendTheftEngineOff] else [];
    assert ClearKeyboard(world, chat, i).sent == chat.sent + clear;
    if result.0.sessions[i].rideStatusMessageId.Some? {
      assert result.0.sent == chat.sent + EndingMessages(session, engineOff, true);
    } else {
      assert result.0.sent == chat.sent + EndingMessages(session, engineOff, false);
    }
  }

  /** Ending what is active in a reachable state: nothing if nothing is, else the one ride. */
  lemma ActiveRideEnds(world: World, chat: Chat, now: Instant, endedAt: Instant, engineOff: bool)
    requires Sound(chat)
    requires AllSent(world, |FinishAll(world, chat, ActiveIndices(chat.sessions), now, endedAt, engineOff).0.sent|)
    ensures var result := FinishAll(world, chat, ActiveIndices(chat.sessions), now, endedAt, engineOff);
            && result.1.Ok? && NoneActive(result.0.sessions)
            && (NoneActive(chat.sessions) ==> result == (chat, Ok(None)))
            && (result.1.value.None? <==> NoneActive(chat.sessions))
            && (forall i :: 0 <= i < |chat.sessions| && chat.sessions[i].Active() ==>
                  && RideEnded(chat, result.0, i, engineOff, now)
                  && result.1.value == RideMessage(world, chat, result.0, i))
  {
    var result := FinishAll(world, chat, ActiveIndices(chat.sessions), now, endedAt, engineOff);
    hide FinishRide, ClearKeyboard, RideEnded;
    FinishAllSucceeds(world, chat, ActiveIndices(chat.sessions), now, endedAt, engineOff);
    FinishActiveEnds(world, chat, now, endedAt, engineOff);
    if i :| 0 <= i < |chat.sessions| && chat.sessions[i].Active() {
      SoleActive(chat.sessions, i);
      assert [i][..0] == [];
      RideEnds(world, chat, i, now, endedAt, engineOff);
    } else {
      NobodyActive(chat.sessions);
    }
  }

  // ---- Sweeps ----

  lemma StepBeforeHeartbeats(world: World, chat: Chat, event: Event)
    requires chat.stored == [] ==> chat.sessions == []
    requires Ordered(chat.stored)
    ensures Step(world, chat, event).stored == [] ==> Step(world, chat, event).sessions == []
  {
    match event
    case Arrived(_, _, _) =>
    case Notified(subscribed, now, advance) =>
      if Passed(chat.stored, chat.cursor) < |chat.stored| {
        ProcessKeepsStored(world, chat, chat.stored[Passed(chat.stored, chat.cursor)], subscribed, now);
        hide Process;
      }
    case Swept(now) =>
      if chat.stored != [] {
        FinishingKeepsStored(world, chat, now, chat.stored[|chat.stored| - 1].receivedAt, false);
        hide FinishAll;
      }
    case Pressed(_, _, _) =>
  }

  lemma {:induction false} NoSessionsBeforeHeartbeats(world: World, events: seq<Event>)
    ensures Run(world, events).stored == [] ==> Run(world, events).sessions == []
    ensures Ordered(Run(world, events).stored)
  {
    if events != [] {
      hide Step;
      var chat, event := Run(world, events[..|events| - 1]), events[|events| - 1];
      NoSessionsBeforeHeartbeats(world, events[..|events| - 1]);
      StepBeforeHeartbeats(world, chat, event);
      StepKeepsOrdered(world, chat, event);
    }
  }

  lemma StepKeepsOrdered(world: World, chat: Chat, event: Event)
    requires Ordered(chat.stored)
    ensures Ordered(Step(world, chat, event).stored)
    ensures chat.stored <= Step(world, chat, event).stored
  {
    match event
    case Arrived(skippedIds, receivedAt, status) =>
      OrderedAppend(chat.stored, Heartbeat(LastId(chat.stored) + 1 + skippedIds, receivedAt, status));
    case Notified(subscribed, now, advance) =>
      if Passed(chat.stored, chat.cursor) < |chat.stored| {
        ProcessKeepsStored(world, chat, chat.stored[Passed(chat.stored, chat.cursor)], subscribed, now);
        hide Process;
      }
    case Swept(now) =>
      if chat.stored != [] {
        FinishingKeepsStored(world, chat, now, chat.stored[|chat.stored| - 1].receivedAt, false);
        hide FinishAll;
      }
    case Pressed(_, _, _) =>
  }

  /** The active sessions ended now, each with its messages, and only sessions changed. */
  ghost predicate RidesEnded(before: Chat, after: Chat, engineOff: bool, now: Instant) {
    && |after.sessions| == |before.sessions|
    && (forall i :: 0 <= i < |after.sessions| ==> after.sessions[i].status == Finished)
    && (forall i :: 0 <= i < |before.sessions| && before.sessions[i].status != Finished ==>
          RideEnded(before, after, i, engineOff, now))
    && (NoneActive(before.sessions) ==> after == before)
    && after.stored == before.stored && after.notification == before.notification && after.cursor == before.cursor
  }

  lemma FinishAllEndsRides(world: World, chat: Chat, now: Instant, endedAt: Instant, engineOff: bool)
    requires Sound(chat)
    requires AllSent(world, |FinishAll(world, chat, ActiveIndices(chat.sessions), now, endedAt, engineOff).0.sent|)
    ensures var result := FinishAll(world, chat, ActiveIndices(chat.sessions), now, endedAt, engineOff);
            && result.1.Ok? && RidesEnded(chat, result.0, engineOff, now)
            && (result.1.value.None? <==> NoneActive(chat.sessions))
            && (forall i :: 0 <= i < |chat.sessions| && chat.sessions[i].Active() ==>
                  result.1.value == RideMessage(world, chat, result.0, i))
  {
    hide FinishAll, ActiveIndices, RideEnded, Sound, AllSent, RideMessage;
    ActiveRideEnds(world, chat, now, endedAt, engineOff);
    FinishActiveEnds(world, chat, now, endedAt, engineOff);
  }

  lemma SweepInState(world: World, chat: Chat, now: Instant)
    requires Sound(chat) && AllSent(world, |Sweep(world, chat, now).0.sent|)
    ensures var after := Sweep(world, chat, now).0;
            if chat.stored != [] && now - chat.stored[|chat.stored| - 1].receivedAt >= 600_000_000 then
              RidesEnded(chat, after, false, now)
            else after == chat
  {
    hide FinishAll, Sound, AllSent, RideEnded, ActiveIndices;
    ActiveIndicesAreActive(chat.sessions);
    if chat.stored != [] && now - chat.stored[|chat.stored| - 1].receivedAt >= 600_000_000 {
      if ActiveIndices(chat.sessions) != [] {
        FinishAllEndsRides(world, chat, now, chat.stored[|chat.stored| - 1].receivedAt, false);
      } else {
        assert forall i :: i !in ActiveIndices(chat.sessions);
      }
    }
  }

  lemma RunSwept(world: World, events: seq<Event>, now: Instant)
    ensures Run(world, events + [Swept(now)]) == Sweep(world, Run(world, events), now).0
  {
    hide Sweep;
    assert (events + [Swept(now)])[..|events|] == events;
  }

  /** After any run, with the calls of the sweep answered: if the device has been silent for ten
      minutes, every session is finished, the one that was not having ended now; and if it has
      not, or was never heard, the chat is as it was, without a session in the latter case. */
  lemma SweepEndsSilentRides(world: World, events: seq<Event>, now: Instant)
    requires AllSent(world, |Run(world, events + [Swept(now)]).sent|)
    ensures var chat, after := Run(world, events), Run(world, events + [Swept(now)]);
            if chat.stored == [] then after == chat && chat.sessions == []
            else if now - chat.stored[|chat.stored| - 1].receivedAt < 600_000_000 then after == chat
            else RidesEnded(chat, after, false, now)
  {
    hide FinishAll, RidesEnded, Sound, AllSent, Sweep, Ordered, Run;
    RunSwept(world, events, now);
    SessionsStaySound(world, events);
    NoSessionsBeforeHeartbeats(world, events);
    SweepInState(world, Run(world, events), now);
  }

  // ---- Heartbeats ----

  /** An engine that goes off under an active subscription, with the calls answered: if the last
      recorded status was not off already, every session is finished, the one that was not having
      ended now with a theft alert if it was reported, and without one the rider just learns that
      the engine is off; the row records the heartbeat in every case. */
  lemma OffEndsRides(world: World, chat: Chat, heartbeat: Heartbeat, now: Instant)
    requires Sound(chat) && heartbeat.status == Some(Off)
    requires AllSent(world, |Process(world, chat, heartbeat, Some(true), now).sent|)
    ensures var after := Process(world, chat, heartbeat, Some(true), now);
            && after.notification.Some? && after.notification.value.lastStatus == Off
            && after.notification.value.heartbeatId == heartbeat.id
            && (chat.notification.Some? && chat.notification.value.lastStatus == Off ==>
                  after.sessions == chat.sessions && after.sent == chat.sent
                  && after.notification.value.messageId == chat.notification.value.messageId)
            && (!(chat.notification.Some? && chat.notification.value.lastStatus == Off) ==>
                  if NoneActive(chat.sessions) then
                    after.sessions == chat.sessions && after.sent == chat.sent + [SendEngineOff]
                    && world.reply(|chat.sent|) == Some(after.notification.value.messageId)
                  else
                    && RidesEnded(chat, after.(notification := chat.notification), true, now)
                    && forall i :: 0 <= i < |chat.sessions| && chat.sessions[i].Active() ==>
                         RideMessage(world, chat, after, i) == Some(after.notification.value.messageId))
  {
    hide FinishAll, Sound, RideEnded, NoneActive, AllSent;
    var ended := FinishAll(world, chat, ActiveIndices(chat.sessions), now, heartbeat.receivedAt, true);
    var after := Process(world, chat, heartbeat, Some(true), now);
    FinishAllSucceeds(world, chat, ActiveIndices(chat.sessions), now, heartbeat.receivedAt, true);
    if !(chat.notification.Some? && chat.notification.value.lastStatus == Off) {
      assert |ended.0.sent| <= |after.sent|;
      FewerSent(world, |ended.0.sent|, |after.sent|);
      FinishAllEndsRides(world, chat, now, heartbeat.receivedAt, true);
      if NoneActive(chat.sessions) {
        AnsweredAt(world, |after.sent|, |chat.sent|);
      } else {
        RidesEndedIgnoresRow(chat, ended.0, after, true, now);
      }
    }
  }

  lemma AnsweredAt(world: World, calls: nat, k: nat)
    requires AllSent(world, calls) && k < calls
    ensures world.reply(k).Some?
  {}

  lemma RidesEndedIgnoresRow(chat: Chat, ended: Chat, after: Chat, engineOff: bool, now: Instant)
    requires RidesEnded(chat, ended, engineOff, now) && after.(notification := ended.notification) == ended
    ensures RidesEnded(chat, after.(notification := chat.notification), engineOff, now)
  {}

  lemma RememberedIsRecorded(chat: Chat)
    ensures LastOnAt(chat).Some? ==> chat.notification.Some?
  {}

  lemma ContinuedIsPending(chat: Chat)
    requires Sound(chat)
    ensures forall i :: 0 <= i < |chat.sessions| && chat.sessions[i].status == PendingConfirmation ==>
              ContinuedMessageId(chat) == chat.sessions[i].promptMessageId
    ensures (forall i :: 0 <= i < |chat.sessions| ==> chat.sessions[i].status != PendingConfirmation) ==>
              ContinuedMessageId(chat) == if chat.notification.Some? then chat.notification.value.messageId else 0
  {
    FindsPending(chat.sessions);
    hide LatestPending;
  }

  lemma {:induction false} FindsPending(sessions: seq<Session>)
    ensures LatestPending(sessions).None? ==>
              forall i :: 0 <= i < |sessions| ==> sessions[i].status != PendingConfirmation
  {
    if sessions != [] {
      FindsPending(sessions[..|sessions| - 1]);
    }
  }

  /** An engine that is on, where a session opens: what was active has ended without an alarm,
      the rider is asked, and the session waits for the answer under that message; where none
      opens, nothing is sent and no session is touched. */
  lemma OnAsksRider(world: World, chat: Chat, heartbeat: Heartbeat, now: Instant)
    requires Sound(chat) && heartbeat.status == Some(On)
    requires AllSent(world, |Process(world, chat, heartbeat, Some(true), now).sent|)
    ensures var after := Process(world, chat, heartbeat, Some(true), now);
            var last := LastOnAt(chat);
            && after.notification.Some? && after.notification.value.lastStatus == On
            && after.notification.value.heartbeatId == heartbeat.id
            && (last.Some? && heartbeat.receivedAt - last.value < 600_000_000 ==>
                  && after.sessions == chat.sessions && after.sent == chat.sent
                  && (forall i :: 0 <= i < |chat.sessions| && chat.sessions[i].status == PendingConfirmation ==>
                        after.notification.value.messageId == chat.sessions[i].promptMessageId)
                  && ((forall i :: 0 <= i < |chat.sessions| ==> chat.sessions[i].status != PendingConfirmation) ==>
                        after.notification.value.messageId == chat.notification.value.messageId))
            && (last.None? || heartbeat.receivedAt - last.value >= 600_000_000 ==>
                  exists ended: Chat, prompt ::
                    && RidesEnded(chat, ended, false, now)
                    && after.sent == ended.sent + [SendPrompt(heartbeat.id)]
                    && world.reply(|ended.sent|) == Some(prompt)
                    && after.notification.value.messageId == prompt
                    && after.sessions == ended.sessions +
                       [Session(heartbeat.id, prompt, None, PendingConfirmation, heartbeat.receivedAt, None)])
  {
    ContinuedIsPending(chat);
    RememberedIsRecorded(chat);
    hide FinishAll, Sound, RidesEnded, ContinuedMessageId, LastOnAt, AllSent;
    var after := Process(world, chat, heartbeat, Some(true), now);
    var last := LastOnAt(chat);
    if last.None? || heartbeat.receivedAt - last.value >= 600_000_000 {
      var ended := FinishAll(world, chat, ActiveIndices(chat.sessions), now, heartbeat.receivedAt, false);
      FinishAllSucceeds(world, chat, ActiveIndices(chat.sessions), now, heartbeat.receivedAt, false);
      assert |ended.0.sent| <= |after.sent|;
      FewerSent(world, |ended.0.sent|, |after.sent|);
      FinishAllEndsRides(world, chat, now, heartbeat.receivedAt, false);
      AnsweredAt(world, |after.sent|, |ended.0.sent|);
    }
  }

  /** Without a subscription, whatever calls fail: a new status is announced and recorded if the
      message went out; off ends every session at the time of the heartbeat, on touches none. */
  lemma UnsubscribedHeartbeat(world: World, chat: Chat, heartbeat: Heartbeat, status: Engine, now: Instant)
    requires Sound(chat) && heartbeat.status == Some(status)
    ensures var after := Process(world, chat, heartbeat, Some(false), now);
            var known := chat.notification.Some? && chat.notification.value.lastStatus == status;
            && |after.sessions| == |chat.sessions|
            && ((after.notification == chat.notification && !known && world.reply(|chat.sent|).None?)
                || (after.notification.Some? && after.notification.value.lastStatus == status
                    && after.notification.value.heartbeatId == heartbeat.id
                    && Some(after.notification.value.messageId) ==
                       if known then Some(chat.notification.value.messageId) else world.reply(|chat.sent|)))
            && (chat.sent + if known then [] else [SendUnsubscribedStatus(status)]) <= after.sent
            && (status == On ==> after.sessions == chat.sessions)
            && (status == Off ==> forall i :: 0 <= i < |chat.sessions| ==>
                  after.sessions[i] ==
                  if chat.sessions[i].status == Finished then chat.sessions[i]
                  else chat.sessions[i].(status := Finished, resolvedAt := Some(heartbeat.receivedAt)))
  {
    hide FinishSilently, ActiveIndices;
    var told := NotifyInactive(world, chat, heartbeat, status).0;
    assert chat.sent + [] == chat.sent;
    if status == Off {
      SilentEnd(world, told, heartbeat.receivedAt);
    }
  }

  lemma SilentEnd(world: World, chat: Chat, endedAt: Instant)
    requires forall i, j :: 0 <= i < j < |chat.sessions| ==> !chat.sessions[i].Active() || !chat.sessions[j].Active()
    ensures var after := FinishSilently(world, chat, ActiveIndices(chat.sessions), endedAt);
            && |after.sessions| == |chat.sessions| && after.notification == chat.notification
            && chat.sent <= after.sent
            && forall i :: 0 <= i < |chat.sessions| ==>
                 after.sessions[i] ==
                 if chat.sessions[i].status == Finished then chat.sessions[i]
                 else chat.sessions[i].(status := Finished, resolvedAt := Some(endedAt))
  {
    if i :| 0 <= i < |chat.sessions| && chat.sessions[i].Active() {
      SoleActive(chat.sessions, i);
      assert [i][..0] == [];
      assert FinishSilently(world, chat, [], endedAt) == chat;
    } else {
      NobodyActive(chat.sessions);
    }
  }

  /** A heartbeat of a device nobody in the chat is bound to, or that says neither on nor off,
      changes nothing but the cursor. */
  lemma SilentHeartbeat(world: World, chat: Chat, subscribed: Option<bool>, now: Instant, advance: bool)
    requires var next := Passed(chat.stored, chat.cursor);
             next < |chat.stored| && (subscribed.None? || chat.stored[next].status.None?)
    ensures var next := Passed(chat.stored, chat.cursor);
            NotifyNext(world, chat, subscribed, now, advance) ==
            chat.(cursor := if advance then chat.stored[next].id else chat.cursor)
  {
    hide Passed;
    assert chat.(cursor := chat.cursor) == chat;
  }

  /** A button pressed without a subscription changes no session: the press is answered, the
      buttons go, and the rider is offered a subscription, as far as the calls are answered. */
  lemma UnsubscribedPress(world: World, chat: Chat, message: Option<int>, answer: Answer)
    ensures var (after, outcome) := Press(world, chat, message, answer, false);
            && after == chat.(sent := after.sent)
            && (if world.reply(|chat.sent|).None? then outcome.Err? && after.sent == chat.sent + [AnswerButton]
                else after.sent == chat.sent + [AnswerButton]
                     + (if message.Some? then [RemoveKeyboard(message.value)] else []) + [SendSubscriptionMenu])
  {
    assert chat.sent + [AnswerButton] + [] == chat.sent + [AnswerButton];
  }

  /** A button pressed with one: under a session that no longer waits, or none, the press is just
      answered; else the buttons go and the rider is reassured or warned, in this order. */
  lemma AnswerTellsRider(world: World, chat: Chat, message: Option<int>, answer: Answer)
    ensures var (after, outcome) := Press(world, chat, message, answer, true);
            var found := FindByPrompt(chat.sessions, message.UnwrapOr(0));
            var waiting := found.Some? && chat.sessions[found.value].status == PendingConfirmation;
            && (!waiting ==> after.sent == chat.sent + [AnswerButton])
            && (waiting && outcome.Ok? ==>
                  after.sent == chat.sent + [AnswerButton, RemoveKeyboard(message.UnwrapOr(0)),
                                             if answer == Yes then SendRideSafe else SendTheftWarning, SendSticker])
            && after == chat.(sent := after.sent, sessions := after.sessions)
  {
    hide FindByPrompt;
  }

  // ---- One question for each session ----

  /** The heartbeats the rider was asked about. */
  function Asked(sent: seq<Request>): seq<int> {
    if sent == [] then []
    else Asked(sent[..|sent| - 1]) + if sent[|sent| - 1].SendPrompt? then [sent[|sent| - 1].heartbeatId] else []
  }

  predicate NoPrompt(requests: seq<Request>) {
    forall i :: 0 <= i < |requests| ==> !requests[i].SendPrompt?
  }

  lemma {:induction false} AskedAppend(sent: seq<Request>, more: seq<Request>)
    requires NoPrompt(more)
    ensures Asked(sent + more) == Asked(sent)
    decreases |more|
  {
    if more == [] {
      assert sent + more == sent;
    } else {
      var n := |more| - 1;
      assert (sent + more)[..|sent + more| - 1] == sent + more[..n];
      AskedAppend(sent, more[..n]);
      assert Asked(sent + more[..n]) + [] == Asked(sent + more[..n]);
    }
  }

  lemma AskedOneMore(sent: seq<Request>, heartbeatId: int)
    ensures Asked(sent + [SendPrompt(heartbeatId)]) == Asked(sent) + [heartbeatId]
  {
    assert (sent + [SendPrompt(heartbeatId)])[..|sent|] == sent;
  }

  predicate AskedForEach(chat: Chat) {
    Asked(chat.sent) == Triggers(chat.sessions)
  }

  lemma EndingAsksNothing(before: Chat, after: Chat, engineOff: bool, now: Instant)
    requires Sound(before) && RidesEnded(before, after, engineOff, now)
    ensures Asked(after.sent) == Asked(before.sent) && Triggers(after.sessions) == Triggers(before.sessions)
  {
    hide Asked, Sound;
    if i :| 0 <= i < |before.sessions| && before.sessions[i].Active() {
      assert RideEnded(before, after, i, engineOff, now);
      AskedAppend(before.sent, EndingMessages(before.sessions[i], engineOff, true));
      AskedAppend(before.sent, EndingMessages(before.sessions[i], engineOff, false));
      assert forall j :: 0 <= j < |before.sessions| ==> after.sessions[j].trigger == before.sessions[j].trigger;
    } else {
      assert NoneActive(before.sessions);
    }
  }

  lemma ProcessAsksForEach(world: World, chat: Chat, heartbeat: Heartbeat, now: Instant)
    requires Sound(chat) && AskedForEach(chat)
    requires AllSent(world, |Process(world, chat, heartbeat, Some(true), now).sent|)
    ensures AskedForEach(Process(world, chat, heartbeat, Some(true), now))
  {
    var after := Process(world, chat, heartbeat, Some(true), now);
    if heartbeat.status == Some(On) {
      hide Process, Asked, Triggers, RidesEnded, LastOnAt, AllSent, Sound;
      OnAsksRider(world, chat, heartbeat, now);
      var last := LastOnAt(chat);
      if last.None? || heartbeat.receivedAt - last.value >= 600_000_000 {
        var ended: Chat, prompt :|
          && RidesEnded(chat, ended, false, now)
          && after.sent == ended.sent + [SendPrompt(heartbeat.id)]
          && world.reply(|ended.sent|) == Some(prompt)
          && after.notification.value.messageId == prompt
          && after.sessions == ended.sessions +
             [Session(heartbeat.id, prompt, None, PendingConfirmation, heartbeat.receivedAt, None)];
        EndingAsksNothing(chat, ended, false, now);
        AskedOneMore(ended.sent, heartbeat.id);
        TriggersGrow(ended.sessions, heartbeat, prompt);
      }
    } else if heartbeat.status == Some(Off) {
      hide Process, Asked, Triggers, RidesEnded, AllSent, Sound;
      OffEndsRides(world, chat, heartbeat, now);
      if !(chat.notification.Some? && chat.notification.value.lastStatus == Off) {
        if NoneActive(chat.sessions) {
          AskedAppend(chat.sent, [SendEngineOff]);
        } else {
          EndingAsksNothing(chat, after.(notification := chat.notification), true, now);
        }
      }
    }
  }

  lemma PressRequests(world: World, chat: Chat, message: Option<int>, answer: Answer, subscribed: bool)
    ensures var after := Press(world, chat, message, answer, subscribed).0;
            && chat.sent <= after.sent && after.sent == chat.sent + after.sent[|chat.sent|..]
            && NoPrompt(after.sent[|chat.sent|..])
            && |after.sessions| == |chat.sessions|
            && forall i :: 0 <= i < |chat.sessions| ==> after.sessions[i].trigger == chat.sessions[i].trigger
  {
    hide FindByPrompt;
  }

  lemma PressAsksNothing(world: World, chat: Chat, message: Option<int>, answer: Answer, subscribed: bool)
    requires AskedForEach(chat)
    ensures AskedForEach(Press(world, chat, message, answer, subscribed).0)
  {
    hide Asked;
    var after := Press(world, chat, message, answer, subscribed).0;
    PressRequests(world, chat, message, answer, subscribed);
    hide Press;
    AskedAppend(chat.sent, after.sent[|chat.sent|..]);
    assert Triggers(after.sessions) == Triggers(chat.sessions);
  }

  lemma StepAsksForEach(world: World, chat: Chat, event: Event)
    requires Sound(chat) && AskedForEach(chat) && AllSent(world, |Step(world, chat, event).sent|)
    requires event.Notified? ==> event.subscribed == Some(true)
    ensures AskedForEach(Step(world, chat, event))
  {
    hide Asked, Triggers, Process, Sound, Press, Sweep, AllSent, RidesEnded, Passed;
    match event
    case Arrived(_, _, _) =>
    case Notified(_, now, _) =>
      var next := Passed(chat.stored, chat.cursor);
      if next < |chat.stored| {
        ProcessAsksForEach(world, chat, chat.stored[next], now);
      }
    case Swept(now) =>
      SweepInState(world, chat, now);
      if Sweep(world, chat, now).0 != chat {
        EndingAsksNothing(chat, Sweep(world, chat, now).0, false, now);
      }
    case Pressed(message, answer, allowed) =>
      PressAsksNothing(world, chat, message, answer, allowed);
  }

  lemma {:induction false} RunAsksForEach(world: World, events: seq<Event>)
    requires AlwaysSubscribed(events) && AllSent(world, |Run(world, events).sent|)
    ensures AskedForEach(Run(world, events))
  {
    if events != [] {
      hide AskedForEach, AllSent, Step, Sound;
      var n := |events| - 1;
      var chat := Run(world, events[..n]);
      CallsGrow(world, chat, events[n]);
      FewerSent(world, |chat.sent|, |Step(world, chat, events[n]).sent|);
      RunAsksForEach(world, events[..n]);
      SessionsStaySound(world, events[..n]);
      StepAsksForEach(world, chat, events[n]);
    }
  }

  /** With the subscription active and the calls answered, the rider has been asked about exactly
      the heartbeats that call for it, once each and in order, whatever was replayed. */
  lemma AskedOncePerOpening(world: World, events: seq<Event>)
    requires AlwaysSubscribed(events) && AllSent(world, |Run(world, events).sent|)
    ensures Reached(world, events) <= |Run(world, events).stored|
    ensures Asked(Run(world, events).sent) == Openings(Run(world, events).stored[..Reached(world, events)])
  {
    hide Run, Asked, Openings, Triggers, Reached, AllSent, LastNotifiable, Records, Passed;
    RunAsksForEach(world, events);
    RunTracks(world, events);
  }
}
