/** What every run of arrivals, notifications, sweeps and answers keeps. */
module EngineSessionRuns {
  import opened Common
  import opened WibTime
  import opened EngineSessions

  datatype Event =
    | Arrived(skippedIds: nat, receivedAt: Instant, status: Option<Engine>)
    | Notified(subscribed: Option<bool>, now: Instant, advance: bool)
    | Swept(now: Instant)
    | Pressed(message: Option<int>, answer: Answer, allowed: bool)

  const INITIAL := Chat([], 0, None, [], [])

  function Step(world: World, chat: Chat, event: Event): Chat {
    match event
    case Arrived(skippedIds, receivedAt, status) =>
      chat.(stored := chat.stored + [Heartbeat(LastId(chat.stored) + 1 + skippedIds, receivedAt, status)])
    case Notified(subscribed, now, advance) => NotifyNext(world, chat, subscribed, now, advance)
    case Swept(now) => Sweep(world, chat, now).0
    case Pressed(message, answer, allowed) => Press(world, chat, message, answer, allowed).0
  }

  function Run(world: World, events: seq<Event>): Chat {
    if events == [] then INITIAL
    else Step(world, Run(world, events[..|events| - 1]), events[|events| - 1])
  }

  // ---- What ending sessions changes ----

  /** The same session, or the same session ended. */
  predicate Ended(before: Session, after: Session) {
    after == before
    || (after.status.Finished? && after.resolvedAt.Some? && after.trigger == before.trigger
        && after.promptMessageId == before.promptMessageId && after.createdAt == before.createdAt)
  }

  /** Only sessions at the given positions ended; nothing else but the list of calls moved. */
  ghost predicate EndsOnly(before: Chat, after: Chat, indices: seq<nat>) {
    && after.stored == before.stored && after.cursor == before.cursor && after.notification == before.notification
    && |after.sessions| == |before.sessions|
    && forall i :: 0 <= i < |before.sessions| ==>
         && Ended(before.sessions[i], after.sessions[i])
         && (i !in indices ==> after.sessions[i] == before.sessions[i])
  }

  ghost predicate AllEnded(chat: Chat, indices: seq<nat>) {
    forall i :: i in indices && i < |chat.sessions| ==> !chat.sessions[i].Active()
  }

  lemma FinishRideEnds(world: World, chat: Chat, i: nat, now: Instant, endedAt: Instant, theftAlert: bool)
    requires i < |chat.sessions|
    ensures var result := FinishRide(world, chat, i, now, endedAt, theftAlert);
            && EndsOnly(chat, result.0, [i])
            && (result.1.Ok? ==> !result.0.sessions[i].Active())
  {}

  lemma {:induction false} FinishAllEnds(
      world: World, chat: Chat, indices: seq<nat>, now: Instant, endedAt: Instant, theftAlert: bool)
    requires Within(indices, chat.sessions)
    ensures var result := FinishAll(world, chat, indices, now, endedAt, theftAlert);
            EndsOnly(chat, result.0, indices) && (result.1.Ok? ==> AllEnded(result.0, indices))
    decreases |indices|
  {
    if indices != [] {
      hide FinishRide;
      var n := |indices| - 1;
      var before := FinishAll(world, chat, indices[..n], now, endedAt, theftAlert);
      FinishAllEnds(world, chat, indices[..n], now, endedAt, theftAlert);
      InPrefixOrLast(indices);
      if before.1.Ok? {
        FinishRideEnds(world, ClearKeyboard(world, before.0, indices[n]), indices[n], now, endedAt, theftAlert);
      }
    }
  }

  lemma InPrefixOrLast(indices: seq<nat>)
    requires indices != []
    ensures forall i :: i in indices <==> i in indices[..|indices| - 1] || i == indices[|indices| - 1]
  {
    assert indices == indices[..|indices| - 1] + [indices[|indices| - 1]];
  }

  lemma {:induction false} FinishSilentlyEnds(world: World, chat: Chat, indices: seq<nat>, endedAt: Instant)
    requires Within(indices, chat.sessions)
    ensures EndsOnly(chat, FinishSilently(world, chat, indices, endedAt), indices)
    ensures AllEnded(FinishSilently(world, chat, indices, endedAt), indices)
    decreases |indices|
  {
    if indices != [] {
      FinishSilentlyEnds(world, chat, indices[..|indices| - 1], endedAt);
      InPrefixOrLast(indices);
    }
  }

  lemma {:induction false} ActiveIndicesAreActive(sessions: seq<Session>)
    ensures forall i :: i in ActiveIndices(sessions) <==> 0 <= i < |sessions| && sessions[i].Active()
  {
    if sessions != [] {
      ActiveIndicesAreActive(sessions[..|sessions| - 1]);
    }
  }

  predicate NoneActive(sessions: seq<Session>) {
    forall i :: 0 <= i < |sessions| ==> !sessions[i].Active()
  }

  /** Ending all active sessions: nothing finished is touched, and success leaves none active. */
  lemma FinishActiveEnds(world: World, chat: Chat, now: Instant, endedAt: Instant, theftAlert: bool)
    ensures var indices := ActiveIndices(chat.sessions);
            var result := FinishAll(world, chat, indices, now, endedAt, theftAlert);
            EndsOnly(chat, result.0, indices) && (result.1.Ok? ==> NoneActive(result.0.sessions))
  {
    hide FinishAll, ActiveIndices;
    FinishAllEnds(world, chat, ActiveIndices(chat.sessions), now, endedAt, theftAlert);
    ActiveIndicesAreActive(chat.sessions);
  }

  lemma FinishActiveSilentlyEnds(world: World, chat: Chat, endedAt: Instant)
    ensures var indices := ActiveIndices(chat.sessions);
            var after := FinishSilently(world, chat, indices, endedAt);
            EndsOnly(chat, after, indices) && NoneActive(after.sessions)
  {
    hide FinishSilently, ActiveIndices;
    FinishSilentlyEnds(world, chat, ActiveIndices(chat.sessions), endedAt);
    ActiveIndicesAreActive(chat.sessions);
  }

  // ---- Invariants under failing sends ----

  predicate LastIsOn(chat: Chat) {
    chat.notification.Some? && chat.notification.value.lastStatus.On?
  }

  predicate FinishedIffResolved(chat: Chat) {
    forall i :: 0 <= i < |chat.sessions| ==>
      (chat.sessions[i].status.Finished? <==> chat.sessions[i].resolvedAt.Some?)
  }

  /** At most one active session, none unless the last recorded status is on, and none with a
      ride message yet; finished is resolved. */
  predicate Sound(chat: Chat) {
    && (forall i, j :: 0 <= i < j < |chat.sessions| ==> !chat.sessions[i].Active() || !chat.sessions[j].Active())
    && (forall i :: 0 <= i < |chat.sessions| && chat.sessions[i].Active() ==> LastIsOn(chat))
    && (forall i :: 0 <= i < |chat.sessions| && chat.sessions[i].Active() ==>
          chat.sessions[i].rideStatusMessageId.None?)
    && FinishedIffResolved(chat)
  }

  /** Finished sessions are never changed, and no session is dropped or re-triggered. */
  predicate Keeps(before: seq<Session>, after: seq<Session>) {
    && |before| <= |after|
    && forall i :: 0 <= i < |before| ==>
         && (before[i].status.Finished? ==> after[i] == before[i])
         && after[i].trigger == before[i].trigger && after[i].createdAt == before[i].createdAt
  }

  lemma EndingKeeps(before: Chat, after: Chat)
    requires Sound(before) && EndsOnly(before, after, ActiveIndices(before.sessions))
    ensures Sound(after) && Keeps(before.sessions, after.sessions)
  {
    ActiveIndicesAreActive(before.sessions);
    hide ActiveIndices;
  }

  /** Recording a status is sound when it is on or nothing is active. */
  lemma NotingKeeps(chat: Chat, status: Engine, messageId: int, heartbeat: Heartbeat)
    requires Sound(chat) && (status.On? || NoneActive(chat.sessions))
    ensures Sound(Noted(chat, status, messageId, heartbeat))
  {}

  lemma OpeningKeeps(chat: Chat, session: Session, messageId: int, heartbeat: Heartbeat)
    requires Sound(chat) && NoneActive(chat.sessions) && session.Active()
    requires session.resolvedAt.None? && session.rideStatusMessageId.None?
    ensures Sound(Noted(chat.(sessions := chat.sessions + [session]), On, messageId, heartbeat))
  {}

  lemma NotifyOnKeeps(world: World, chat: Chat, heartbeat: Heartbeat, now: Instant)
    requires Sound(chat)
    ensures Sound(NotifyOn(world, chat, heartbeat, now).0)
    ensures Keeps(chat.sessions, NotifyOn(world, chat, heartbeat, now).0.sessions)
  {
    hide FinishAll, ActiveIndices, LastOnAt, ContinuedMessageId, Noted, Sound, EndsOnly;
    if !ShouldStart(heartbeat.receivedAt, LastOnAt(chat)) {
      NotingKeeps(chat, On, ContinuedMessageId(chat), heartbeat);
      NotingSessions(chat, On, ContinuedMessageId(chat), heartbeat);
    } else {
      var ended := FinishAll(world, chat, ActiveIndices(chat.sessions), now, heartbeat.receivedAt, false);
      FinishActiveEnds(world, chat, now, heartbeat.receivedAt, false);
      EndingKeeps(chat, ended.0);
      CallKeeps(world, ended.0, SendPrompt(heartbeat.id));
      if ended.1.Ok? {
        var request := SendPrompt(heartbeat.id);
        var asked, prompt := Call(world, ended.0, request).0, Call(world, ended.0, request).1;
        if prompt.Some? {
          var session := Session(heartbeat.id, prompt.value, None, PendingConfirmation, heartbeat.receivedAt, None);
          OpeningKeeps(asked, session, prompt.value, heartbeat);
          NotingSessions(asked.(sessions := asked.sessions + [session]), On, prompt.value, heartbeat);
        }
      }
    }
  }

  lemma NotingSessions(chat: Chat, status: Engine, messageId: int, heartbeat: Heartbeat)
    ensures Noted(chat, status, messageId, heartbeat).sessions == chat.sessions
  {}

  lemma CallKeeps(world: World, chat: Chat, request: Request)
    requires Sound(chat)
    ensures Sound(Call(world, chat, request).0) && Call(world, chat, request).0.sessions == chat.sessions
  {}

  lemma NotifyOffKeeps(world: World, chat: Chat, heartbeat: Heartbeat, now: Instant)
    requires Sound(chat)
    ensures Sound(NotifyOff(world, chat, heartbeat, now).0)
    ensures Keeps(chat.sessions, NotifyOff(world, chat, heartbeat, now).0.sessions)
  {
    hide FinishAll, ActiveIndices, EndsOnly;
    if !(chat.notification.Some? && chat.notification.value.lastStatus.Off?) {
      var ended := FinishAll(world, chat, ActiveIndices(chat.sessions), now, heartbeat.receivedAt, true);
      FinishActiveEnds(world, chat, now, heartbeat.receivedAt, true);
      EndingKeeps(chat, ended.0);
    }
  }

  lemma NotifyInactiveKeeps(world: World, chat: Chat, heartbeat: Heartbeat, now: Instant)
    requires Sound(chat) && heartbeat.status.Some?
    ensures Sound(Process(world, chat, heartbeat, Some(false), now))
    ensures Keeps(chat.sessions, Process(world, chat, heartbeat, Some(false), now).sessions)
  {
    hide FinishSilently, ActiveIndices, EndsOnly;
    var told := NotifyInactive(world, chat, heartbeat, heartbeat.status.value).0;
    assert told.sessions == chat.sessions;
    if heartbeat.status.value.Off? {
      var after := FinishSilently(world, told, ActiveIndices(told.sessions), heartbeat.receivedAt);
      FinishActiveSilentlyEnds(world, told, heartbeat.receivedAt);
      SilentlyKeeps(told, after);
    }
  }

  lemma SilentlyKeeps(before: Chat, after: Chat)
    requires FinishedIffResolved(before)
    requires EndsOnly(before, after, ActiveIndices(before.sessions)) && NoneActive(after.sessions)
    ensures Sound(after) && Keeps(before.sessions, after.sessions)
  {
    ActiveIndicesAreActive(before.sessions);
    hide ActiveIndices;
  }

  /** Classifying a pending session neither ends nor opens one. */
  lemma ClassifyingKeeps(chat: Chat, after: Chat, i: nat, status: SessionStatus)
    requires Sound(chat) && i < |chat.sessions| && chat.sessions[i].Active() && !status.Finished?
    requires after.sessions == chat.sessions[i := chat.sessions[i].(status := status)]
    requires after.notification == chat.notification
    ensures Sound(after) && Keeps(chat.sessions, after.sessions)
  {}

  lemma PressKeeps(world: World, chat: Chat, message: Option<int>, answer: Answer, subscribed: bool)
    requires Sound(chat)
    ensures Sound(Press(world, chat, message, answer, subscribed).0)
    ensures Keeps(chat.sessions, Press(world, chat, message, answer, subscribed).0.sessions)
  {
    hide FindByPrompt;
    var after := Press(world, chat, message, answer, subscribed).0;
    assert after.notification == chat.notification;
    if after.sessions != chat.sessions {
      hide Sound, Keeps;
      ClassifyingKeeps(chat, after, FindByPrompt(chat.sessions, message.UnwrapOr(0)).value,
                       if answer.Yes? then ConfirmedSafe else ReportedTheft);
    }
  }

  /** An answer classifies the latest session with that prompt, if it still waits for one and
      the calls succeed; otherwise, and for every other session, nothing changes. */
  lemma AnswerClassifies(world: World, chat: Chat, message: Option<int>, answer: Answer, i: nat)
    requires i < |chat.sessions|
    ensures var (after, outcome) := Press(world, chat, message, answer, true);
            var found := FindByPrompt(chat.sessions, message.UnwrapOr(0));
            && |after.sessions| == |chat.sessions|
            && (after.sessions[i] != chat.sessions[i] ==>
                  outcome.Ok? && found == Some(i) && chat.sessions[i].status.PendingConfirmation?)
            && (outcome.Ok? && found == Some(i) && chat.sessions[i].status.PendingConfirmation? ==>
                  after.sessions[i].status == if answer.Yes? then ConfirmedSafe else ReportedTheft)
            && (forall j :: i < j < |chat.sessions| && found == Some(i) ==>
                  chat.sessions[j].promptMessageId != message.UnwrapOr(0))
  {
    FindsLatest(chat.sessions, message.UnwrapOr(0));
    hide FindByPrompt;
  }

  lemma {:induction false} FindsLatest(sessions: seq<Session>, promptMessageId: int)
    ensures var found := FindByPrompt(sessions, promptMessageId);
            forall j :: (if found.Some? then found.value else -1) < j < |sessions| ==>
              sessions[j].promptMessageId != promptMessageId
  {
    if sessions != [] {
      FindsLatest(sessions[..|sessions| - 1], promptMessageId);
    }
  }

  lemma SweepKeeps(world: World, chat: Chat, now: Instant)
    requires Sound(chat)
    ensures Sound(Sweep(world, chat, now).0)
    ensures Keeps(chat.sessions, Sweep(world, chat, now).0.sessions)
  {
    hide FinishAll, ActiveIndices, EndsOnly, Sound;
    if ActiveIndices(chat.sessions) != [] && chat.stored != [] {
      var latest := chat.stored[|chat.stored| - 1].receivedAt;
      FinishActiveEnds(world, chat, now, latest, false);
      EndingKeeps(chat, FinishAll(world, chat, ActiveIndices(chat.sessions), now, latest, false).0);
    }
  }

  lemma ProcessKeeps(world: World, chat: Chat, heartbeat: Heartbeat, subscribed: Option<bool>, now: Instant)
    requires Sound(chat)
    ensures Sound(Process(world, chat, heartbeat, subscribed, now))
    ensures Keeps(chat.sessions, Process(world, chat, heartbeat, subscribed, now).sessions)
  {
    hide NotifyOn, NotifyOff, NotifyInactive, FinishSilently, Sound;
    if subscribed.Some? && heartbeat.status.Some? {
      if !subscribed.value {
        NotifyInactiveKeeps(world, chat, heartbeat, now);
      } else if heartbeat.status.value.On? {
        NotifyOnKeeps(world, chat, heartbeat, now);
      } else {
        NotifyOffKeeps(world, chat, heartbeat, now);
      }
    }
  }

  lemma SameSessionsSound(a: Chat, b: Chat)
    requires Sound(a) && a.sessions == b.sessions && a.notification == b.notification
    ensures Sound(b)
  {}

  lemma StepKeeps(world: World, chat: Chat, event: Event)
    requires Sound(chat)
    ensures Sound(Step(world, chat, event))
    ensures Keeps(chat.sessions, Step(world, chat, event).sessions)
  {
    hide Sound;
    match event
    case Arrived(_, _, _) => SameSessionsSound(chat, Step(world, chat, event));
    case Notified(subscribed, now, advance) =>
      hide Process;
      var next := Passed(chat.stored, chat.cursor);
      if next < |chat.stored| {
        ProcessKeeps(world, chat, chat.stored[next], subscribed, now);
        SameSessionsSound(Process(world, chat, chat.stored[next], subscribed, now), Step(world, chat, event));
      }
    case Swept(now) =>
      hide Sweep;
      SweepKeeps(world, chat, now);
    case Pressed(message, answer, allowed) =>
      hide Press;
      PressKeeps(world, chat, message, answer, allowed);
  }

  /** In every reachable state, whatever Telegram calls fail: at most one session is active,
      none unless the last recorded status is on, and a session is finished exactly when it
      has a resolution time. */
  lemma {:induction false} SessionsStaySound(world: World, events: seq<Event>)
    ensures Sound(Run(world, events))
  {
    hide Step;
    if events != [] {
      hide Sound;
      SessionsStaySound(world, events[..|events| - 1]);
      StepKeeps(world, Run(world, events[..|events| - 1]), events[|events| - 1]);
    }
  }

  /** A session finished at any point of a run is the same at every later point. */
  lemma {:induction false} FinishedNeverChanges(world: World, events: seq<Event>, more: seq<Event>)
    ensures Keeps(Run(world, events).sessions, Run(world, events + more).sessions)
    decreases |more|
  {
    hide Step, Sound;
    if more == [] {
      assert events + more == events;
    } else {
      var n := |more| - 1;
      var middle := events + more[..n];
      FinishedNeverChanges(world, events, more[..n]);
      assert (events + more)[..|events + more| - 1] == middle;
      SessionsStaySound(world, middle);
      StepKeeps(world, Run(world, middle), more[n]);
    }
  }

  // ---- Where sessions open ----

  /** The last heartbeat that said on or off. */
  function LastNotifiable(heartbeats: seq<Heartbeat>): (last: Option<Heartbeat>)
    ensures last.Some? ==> last.value in heartbeats && last.value.status.Some?
  {
    if heartbeats == [] then None
    else if heartbeats[|heartbeats| - 1].status.Some? then Some(heartbeats[|heartbeats| - 1])
    else LastNotifiable(heartbeats[..|heartbeats| - 1])
  }

  /** On, and first, or after an off, or ten minutes, in microseconds, after the previous on. */
  predicate Opens(before: seq<Heartbeat>, heartbeat: Heartbeat) {
    && heartbeat.status == Some(On)
    && var last := LastNotifiable(before);
       last.None? || last.value.status == Some(Off)
       || heartbeat.receivedAt - last.value.receivedAt >= 600_000_000
  }

  /** The ids of the heartbeats that open a session, from the heartbeats alone. */
  function Openings(heartbeats: seq<Heartbeat>): seq<int> {
    if heartbeats == [] then []
    else
      var n := |heartbeats| - 1;
      Openings(heartbeats[..n]) + if Opens(heartbeats[..n], heartbeats[n]) then [heartbeats[n].id] else []
  }

  function Triggers(sessions: seq<Session>): seq<int> {
    seq(|sessions|, i requires 0 <= i < |sessions| => sessions[i].trigger)
  }

  predicate Ordered(stored: seq<Heartbeat>) {
    forall i, j :: 0 <= i < j < |stored| ==> stored[i].id < stored[j].id
  }

  /** The notification row repeats the last notifiable heartbeat. */
  predicate Records(notification: Option<Notification>, last: Option<Heartbeat>) {
    if last.None? then notification.None?
    else
      && notification.Some?
      && Some(notification.value.lastStatus) == last.value.status
      && notification.value.heartbeatId == last.value.id
  }

  /** `reached` stored heartbeats have been processed; the cursor may lag by one. */
  predicate Positioned(chat: Chat, reached: nat) {
    && Ordered(chat.stored)
    && chat.cursor <= LastId(chat.stored)
    && Passed(chat.stored, chat.cursor) <= reached <= Passed(chat.stored, chat.cursor) + 1
    && reached <= |chat.stored|
  }

  predicate Tracks(chat: Chat, reached: nat) {
    && reached <= |chat.stored|
    && Records(chat.notification, LastNotifiable(chat.stored[..reached]))
    && Triggers(chat.sessions) == Openings(chat.stored[..reached])
  }

  predicate AllSent(world: World, calls: nat) {
    forall k: nat {:trigger world.reply(k)} :: k < calls ==> world.reply(k).Some?
  }

  predicate AlwaysSubscribed(events: seq<Event>) {
    forall i :: 0 <= i < |events| && events[i].Notified? ==> events[i].subscribed == Some(true)
  }

  /** How many heartbeats are processed after an event. */
  function NextReached(chat: Chat, event: Event, reached: nat): nat {
    if event.Notified? && Passed(chat.stored, chat.cursor) < |chat.stored| then Passed(chat.stored, chat.cursor) + 1
    else reached
  }

  /** How many heartbeats a run has processed. */
  function Reached(world: World, events: seq<Event>): nat {
    if events == [] then 0
    else
      var n := |events| - 1;
      NextReached(Run(world, events[..n]), events[n], Reached(world, events[..n]))
  }

  lemma {:induction false} PassedIs(stored: seq<Heartbeat>, cursor: int, n: nat)
    requires Ordered(stored) && n <= |stored|
    requires n > 0 ==> stored[n - 1].id <= cursor
    requires n < |stored| ==> cursor < stored[n].id
    ensures Passed(stored, cursor) == n
    decreases |stored|
  {
    if n < |stored| {
      PassedIs(stored[..|stored| - 1], cursor, n);
    }
  }

  lemma {:induction false} PassedBound(stored: seq<Heartbeat>, cursor: int)
    requires Ordered(stored)
    ensures var n := Passed(stored, cursor);
            (n > 0 ==> stored[n - 1].id <= cursor) && (n < |stored| ==> cursor < stored[n].id)
  {
    if stored != [] {
      PassedBound(stored[..|stored| - 1], cursor);
    }
  }

  lemma {:induction false} ReceivedAtFinds(stored: seq<Heartbeat>, heartbeat: Heartbeat)
    requires Ordered(stored) && heartbeat in stored
    ensures ReceivedAt(stored, heartbeat.id) == Some(heartbeat.receivedAt)
    decreases |stored|
  {
    var n := |stored| - 1;
    var i :| 0 <= i < |stored| && stored[i] == heartbeat;
    if i < n {
      assert stored[..n][i] == heartbeat;
      ReceivedAtFinds(stored[..n], heartbeat);
    }
  }

  lemma OrderedAppend(stored: seq<Heartbeat>, heartbeat: Heartbeat)
    requires Ordered(stored) && LastId(stored) < heartbeat.id
    ensures Ordered(stored + [heartbeat])
  {}

  lemma PassedAppend(stored: seq<Heartbeat>, heartbeat: Heartbeat, cursor: int)
    requires cursor < heartbeat.id
    ensures Passed(stored + [heartbeat], cursor) == Passed(stored, cursor)
  {
    assert (stored + [heartbeat])[..|stored|] == stored;
  }

  lemma ArrivalKeepsPosition(world: World, chat: Chat, event: Event, reached: nat)
    requires event.Arrived? && Positioned(chat, reached) && Tracks(chat, reached)
    ensures Positioned(Step(world, chat, event), reached) && Tracks(Step(world, chat, event), reached)
  {
    hide LastNotifiable, Openings, Triggers, Records, Passed, Ordered;
    var heartbeat := Heartbeat(LastId(chat.stored) + 1 + event.skippedIds, event.receivedAt, event.status);
    var after := chat.stored + [heartbeat];
    OrderedAppend(chat.stored, heartbeat);
    PassedAppend(chat.stored, heartbeat, chat.cursor);
    assert LastId(after) == heartbeat.id;
    assert after[..reached] == chat.stored[..reached];
  }

  lemma SilentStepKeepsTrack(before: Chat, after: Chat, reached: nat)
    requires Positioned(before, reached) && Tracks(before, reached)
    requires after.stored == before.stored && after.cursor == before.cursor && after.notification == before.notification
    requires |after.sessions| == |before.sessions|
    requires forall i :: 0 <= i < |before.sessions| ==> after.sessions[i].trigger == before.sessions[i].trigger
    ensures Positioned(after, reached) && Tracks(after, reached)
  {
    assert Triggers(after.sessions) == Triggers(before.sessions);
  }

  /** Every call of a step was answered, if the calls counted by its end were. */
  lemma {:induction false} FinishAllSucceeds(
      world: World, chat: Chat, indices: seq<nat>, now: Instant, endedAt: Instant, theftAlert: bool)
    requires Within(indices, chat.sessions)
    ensures var result := FinishAll(world, chat, indices, now, endedAt, theftAlert);
            chat.sent <= result.0.sent && (AllSent(world, |result.0.sent|) ==> result.1.Ok?)
    decreases |indices|
  {
    if indices != [] {
      FinishAllSucceeds(world, chat, indices[..|indices| - 1], now, endedAt, theftAlert);
      hide Resolve;
      var n := |indices| - 1;
      var before := FinishAll(world, chat, indices[..n], now, endedAt, theftAlert);
      if before.1.Ok? {
        FinishRideSucceeds(world, ClearKeyboard(world, before.0, indices[n]), indices[n], now, endedAt, theftAlert);
      }
    }
  }

  lemma FinishRideSucceeds(world: World, chat: Chat, i: nat, now: Instant, endedAt: Instant, theftAlert: bool)
    requires i < |chat.sessions|
    ensures var result := FinishRide(world, chat, i, now, endedAt, theftAlert);
            && chat.sent <= result.0.sent
            && (AllSent(world, |result.0.sent|) ==> result.1.Ok?)
  {
    var k := |chat.sent|;
    var replies := (world.reply(k), world.reply(k + 1), world.reply(k + 2));
  }

  /** The time the bot remembers is the time of the last notifiable heartbeat, if that was on. */
  lemma RemembersLastOn(chat: Chat, reached: nat, last: Option<Heartbeat>)
    requires Ordered(chat.stored) && reached <= |chat.stored|
    requires last == LastNotifiable(chat.stored[..reached]) && Records(chat.notification, last)
    ensures LastOnAt(chat) == if last.Some? && last.value.status == Some(On) then Some(last.value.receivedAt) else None
  {
    if last.Some? {
      assert last.value in chat.stored[..reached];
      assert last.value in chat.stored;
      ReceivedAtFinds(chat.stored, last.value);
    }
  }

  /** Processing a new heartbeat extends both histories alike. */
  lemma NewHeartbeat(world: World, chat: Chat, reached: nat, now: Instant)
    requires Ordered(chat.stored) && Tracks(chat, reached) && reached < |chat.stored|
    ensures var after := Process(world, chat, chat.stored[reached], Some(true), now);
            && after.stored == chat.stored && after.cursor == chat.cursor
            && (AllSent(world, |after.sent|) ==> Tracks(after, reached + 1))
  {
    hide FinishAll, ActiveIndices, Openings, Triggers;
    var heartbeat := chat.stored[reached];
    var last := LastNotifiable(chat.stored[..reached]);
    assert chat.stored[..reached + 1][..reached] == chat.stored[..reached];
    assert LastNotifiable(chat.stored[..reached + 1]) == if heartbeat.status.Some? then Some(heartbeat) else last;
    OpeningsGrow(chat.stored, reached);
    if heartbeat.status.Some? {
      RemembersLastOn(chat, reached, last);
      var alert := heartbeat.status.value.Off?;
      var ended := FinishAll(world, chat, ActiveIndices(chat.sessions), now, heartbeat.receivedAt, alert);
      FinishAllSucceeds(world, chat, ActiveIndices(chat.sessions), now, heartbeat.receivedAt, alert);
      FinishActiveEnds(world, chat, now, heartbeat.receivedAt, alert);
      SameTriggers(chat, ended.0, ActiveIndices(chat.sessions));
      TriggersGrow(ended.0.sessions, heartbeat, world.reply(|ended.0.sent|).UnwrapOr(0));
      hide LastNotifiable, LastOnAt, EndsOnly, NoneActive;
    }
  }

  lemma OpeningsGrow(stored: seq<Heartbeat>, n: nat)
    requires n < |stored|
    ensures Openings(stored[..n + 1]) ==
            if Opens(stored[..n], stored[n]) then Openings(stored[..n]) + [stored[n].id] else Openings(stored[..n])
  {
    assert stored[..n + 1][..n] == stored[..n];
    hide Opens;
    assert Openings(stored[..n]) + [] == Openings(stored[..n]);
  }

  lemma SameTriggers(before: Chat, after: Chat, indices: seq<nat>)
    requires EndsOnly(before, after, indices)
    ensures Triggers(after.sessions) == Triggers(before.sessions)
  {}

  lemma TriggersGrow(sessions: seq<Session>, heartbeat: Heartbeat, prompt: int)
    ensures Triggers(sessions + [Session(heartbeat.id, prompt, None, PendingConfirmation, heartbeat.receivedAt, None)])
            == Triggers(sessions) + [heartbeat.id]
  {}

  /** Processing a heartbeat again that the row already records: no call, no session touched. */
  lemma Replay(world: World, chat: Chat, heartbeat: Heartbeat, now: Instant)
    requires Ordered(chat.stored) && heartbeat in chat.stored
    requires heartbeat.status.Some? ==> Records(chat.notification, Some(heartbeat))
    ensures var after := Process(world, chat, heartbeat, Some(true), now);
            && after.sent == chat.sent && after.sessions == chat.sessions
            && after.stored == chat.stored && after.cursor == chat.cursor
            && (forall last :: Records(chat.notification, last) ==> Records(after.notification, last))
  {
    ReceivedAtFinds(chat.stored, heartbeat);
    hide FinishAll, ActiveIndices, ContinuedMessageId, ReceivedAt;
  }

  /** The cursor after the next heartbeat, or before it if the job stopped first. */
  lemma CursorMoves(chat: Chat, after: Chat, reached: nat)
    requires Positioned(chat, reached) && Passed(chat.stored, chat.cursor) < |chat.stored|
    requires after.stored == chat.stored
    requires after.cursor == chat.cursor || after.cursor == chat.stored[Passed(chat.stored, chat.cursor)].id
    ensures Positioned(after, Passed(chat.stored, chat.cursor) + 1)
  {
    var next := Passed(chat.stored, chat.cursor);
    PassedIs(chat.stored, chat.stored[next].id, next + 1);
    hide Passed;
    assert next == |chat.stored| - 1 || chat.stored[next].id <= LastId(chat.stored);
  }

  lemma CursorIsNotTracked(chat: Chat, cursor: int, reached: nat)
    requires Tracks(chat, reached)
    ensures Tracks(chat.(cursor := cursor), reached)
  {}

  lemma ReplayKeepsTrack(world: World, chat: Chat, now: Instant, reached: nat)
    requires Ordered(chat.stored) && Tracks(chat, reached) && reached > 0
    ensures var after := Process(world, chat, chat.stored[reached - 1], Some(true), now);
            && after.sent == chat.sent && after.sessions == chat.sessions
            && after.stored == chat.stored && after.cursor == chat.cursor
            && Tracks(after, reached)
  {
    var heartbeat := chat.stored[reached - 1];
    assert heartbeat.status.Some? ==> LastNotifiable(chat.stored[..reached]) == Some(heartbeat);
    hide Process, Openings, Triggers, LastNotifiable, Records;
    Replay(world, chat, heartbeat, now);
  }

  lemma PositionedBounds(chat: Chat, reached: nat)
    requires Positioned(chat, reached)
    ensures Ordered(chat.stored) && reached <= |chat.stored|
    ensures Passed(chat.stored, chat.cursor) <= reached <= Passed(chat.stored, chat.cursor) + 1
  {}

  lemma NotifyKeepsTrack(world: World, chat: Chat, now: Instant, advance: bool, reached: nat)
    requires Positioned(chat, reached) && Tracks(chat, reached)
    ensures var after := NotifyNext(world, chat, Some(true), now, advance);
            var reached' := NextReached(chat, Notified(Some(true), now, advance), reached);
            && (AllSent(world, |after.sent|) ==> Positioned(after, reached') && Tracks(after, reached'))
            && (Passed(chat.stored, chat.cursor) < reached ==>
                  after.sent == chat.sent && after.sessions == chat.sessions)
  {
    hide Process, Passed, Tracks, AllSent, Positioned, Ordered;
    PositionedBounds(chat, reached);
    var next := Passed(chat.stored, chat.cursor);
    if next < |chat.stored| {
      var processed := Process(world, chat, chat.stored[next], Some(true), now);
      if next < reached {
        ReplayKeepsTrack(world, chat, now, reached);
      } else {
        NewHeartbeat(world, chat, reached, now);
      }
      var after := NotifyNext(world, chat, Some(true), now, advance);
      CursorMoves(chat, after, reached);
      if AllSent(world, |after.sent|) {
        CursorIsNotTracked(processed, after.cursor, next + 1);
      }
    }
  }

  /** Calls are only ever added. */
  lemma SweepAndPressKeepTrack(world: World, chat: Chat, event: Event, reached: nat)
    requires (event.Swept? || event.Pressed?) && Positioned(chat, reached) && Tracks(chat, reached)
    ensures Positioned(Step(world, chat, event), reached) && Tracks(Step(world, chat, event), reached)
    ensures chat.sent <= Step(world, chat, event).sent
  {
    hide Positioned, Tracks, FinishAll, ActiveIndices, FindByPrompt;
    if event.Swept? {
      if ActiveIndices(chat.sessions) != [] && chat.stored != [] {
        var latest := chat.stored[|chat.stored| - 1].receivedAt;
        FinishActiveEnds(world, chat, event.now, latest, false);
        FinishAllSucceeds(world, chat, ActiveIndices(chat.sessions), event.now, latest, false);
      }
      SilentStepKeepsTrack(chat, Step(world, chat, event), reached);
    } else {
      SilentStepKeepsTrack(chat, Step(world, chat, event), reached);
    }
  }

  lemma ProcessAddsCalls(world: World, chat: Chat, heartbeat: Heartbeat, now: Instant)
    ensures chat.sent <= Process(world, chat, heartbeat, Some(true), now).sent
  {
    hide FinishAll, ActiveIndices, LastOnAt;
    FinishAllSucceeds(world, chat, ActiveIndices(chat.sessions), now, heartbeat.receivedAt, false);
    FinishAllSucceeds(world, chat, ActiveIndices(chat.sessions), now, heartbeat.receivedAt, true);
  }

  lemma StepTracks(world: World, chat: Chat, event: Event, reached: nat)
    requires Positioned(chat, reached) && Tracks(chat, reached) && AllSent(world, |Step(world, chat, event).sent|)
    requires event.Notified? ==> event.subscribed == Some(true)
    ensures Positioned(Step(world, chat, event), NextReached(chat, event, reached))
    ensures Tracks(Step(world, chat, event), NextReached(chat, event, reached))
  {
    hide Positioned, Tracks, AllSent;
    match event
    case Arrived(_, _, _) =>
      hide Step;
      ArrivalKeepsPosition(world, chat, event, reached);
    case Notified(_, now, advance) =>
      hide NotifyNext, NextReached;
      NotifyKeepsTrack(world, chat, now, advance, reached);
    case Swept(_) =>
      hide Step;
      SweepAndPressKeepTrack(world, chat, event, reached);
    case Pressed(_, _, _) =>
      hide Step;
      SweepAndPressKeepTrack(world, chat, event, reached);
  }

  lemma {:induction false} RunTracks(world: World, events: seq<Event>)
    requires AlwaysSubscribed(events) && AllSent(world, |Run(world, events).sent|)
    ensures Positioned(Run(world, events), Reached(world, events)) && Tracks(Run(world, events), Reached(world, events))
  {
    if events == [] {
      assert Triggers([]) == [];
    } else {
      hide Positioned, Tracks, AllSent, Step, NextReached;
      var n := |events| - 1;
      var chat := Run(world, events[..n]);
      CallsGrow(world, chat, events[n]);
      FewerSent(world, |chat.sent|, |Step(world, chat, events[n]).sent|);
      RunTracks(world, events[..n]);
      StepTracks(world, chat, events[n], Reached(world, events[..n]));
    }
  }

  lemma FewerSent(world: World, fewer: nat, calls: nat)
    requires fewer <= calls && AllSent(world, calls)
    ensures AllSent(world, fewer)
  {}

  lemma CallsGrow(world: World, chat: Chat, event: Event)
    requires event.Notified? ==> event.subscribed == Some(true)
    ensures chat.sent <= Step(world, chat, event).sent
  {
    hide FinishAll, ActiveIndices, FindByPrompt, Process;
    if event.Swept? && chat.stored != [] {
      var latest := chat.stored[|chat.stored| - 1].receivedAt;
      FinishAllSucceeds(world, chat, ActiveIndices(chat.sessions), event.now, latest, false);
    } else if event.Notified? && Passed(chat.stored, chat.cursor) < |chat.stored| {
      ProcessAddsCalls(world, chat, chat.stored[Passed(chat.stored, chat.cursor)], event.now);
    }
  }

  /** Session segmentation: with the subscription active and the Telegram calls answered, the
      sessions are exactly those opened by the heartbeats that are on and first, or follow an
      off, or come ten minutes after the previous on, among the heartbeats processed, however
      arrivals, sweeps, answers and repeated notifications interleave. Notifying a heartbeat
      again sends nothing and leaves every session as it was. */
  lemma SessionSegmentation(world: World, events: seq<Event>, now: Instant, advance: bool)
    requires AlwaysSubscribed(events) && AllSent(world, |Run(world, events).sent|)
    ensures var chat, reached := Run(world, events), Reached(world, events);
            && reached <= |chat.stored|
            && Passed(chat.stored, chat.cursor) <= reached <= Passed(chat.stored, chat.cursor) + 1
            && Triggers(chat.sessions) == Openings(chat.stored[..reached])
            && var after := NotifyNext(world, chat, Some(true), now, advance);
               Passed(chat.stored, chat.cursor) < reached ==>
                 after.sent == chat.sent && after.sessions == chat.sessions
  {
    hide NotifyNext, Run, Reached, Openings, Triggers, LastNotifiable, Records, Passed;
    RunTracks(world, events);
    NotifyKeepsTrack(world, Run(world, events), now, advance, Reached(world, events));
  }

  // ---- The polling job is a run of notifications ----

  lemma AdvancingStep(world: World, chat: Chat, subscribed: Option<bool>, now: Instant)
    requires Ordered(chat.stored) && Passed(chat.stored, chat.cursor) < |chat.stored|
    ensures var next := Passed(chat.stored, chat.cursor);
            var after := Process(world, chat, chat.stored[next], subscribed, now).(cursor := chat.stored[next].id);
            && after == Step(world, chat, Notified(subscribed, now, true))
            && after.stored == chat.stored && Passed(after.stored, after.cursor) == next + 1
  {
    var next := Passed(chat.stored, chat.cursor);
    ProcessKeepsStored(world, chat, chat.stored[next], subscribed, now);
    PassedIs(chat.stored, chat.stored[next].id, next + 1);
    hide Process, Passed;
  }

  /** The chat after polling the next `count` unread heartbeats. */
  function Polled(world: World, chat: Chat, count: nat, subscribed: int -> Option<bool>, now: Instant): Chat
    requires Passed(chat.stored, chat.cursor) + count <= |chat.stored|
  {
    var start := Passed(chat.stored, chat.cursor);
    NotifyBatch(world, chat, chat.stored[start..start + count], subscribed, now)
  }

  lemma PolledNone(world: World, chat: Chat, subscribed: int -> Option<bool>, now: Instant)
    ensures Polled(world, chat, 0, subscribed, now) == chat
  {}

  lemma PolledOneMore(world: World, chat: Chat, count: nat, subscribed: int -> Option<bool>, now: Instant)
    requires 0 < count <= |chat.stored| - Passed(chat.stored, chat.cursor)
    ensures var last := chat.stored[Passed(chat.stored, chat.cursor) + count - 1];
            Polled(world, chat, count, subscribed, now) ==
            Process(world, Polled(world, chat, count - 1, subscribed, now), last, subscribed(last.id), now)
              .(cursor := last.id)
  {
    hide Process, Passed;
    var start := Passed(chat.stored, chat.cursor);
    var batch := chat.stored[start..start + count];
    assert batch[..|batch| - 1] == chat.stored[start..start + (count - 1)];
  }

  /** A polled batch is the notifications of its heartbeats, one after the other. */
  lemma {:induction false} BatchIsSteps(
      world: World, chat: Chat, count: nat, subscribed: int -> Option<bool>, now: Instant)
    requires Ordered(chat.stored) && Passed(chat.stored, chat.cursor) + count <= |chat.stored|
    ensures var start, after := Passed(chat.stored, chat.cursor), Polled(world, chat, count, subscribed, now);
            && after.stored == chat.stored && Passed(after.stored, after.cursor) == start + count
            && (count > 0 ==>
                  after == Step(world, Polled(world, chat, count - 1, subscribed, now),
                                Notified(subscribed(chat.stored[start + count - 1].id), now, true)))
  {
    hide Process, Passed, Ordered, Step, Polled;
    if count == 0 {
      PolledNone(world, chat, subscribed, now);
    } else {
      var last := chat.stored[Passed(chat.stored, chat.cursor) + count - 1];
      BatchIsSteps(world, chat, count - 1, subscribed, now);
      PolledOneMore(world, chat, count, subscribed, now);
      AdvancingStep(world, Polled(world, chat, count - 1, subscribed, now), subscribed(last.id), now);
    }
  }

  lemma ProcessKeepsStored(world: World, chat: Chat, heartbeat: Heartbeat, subscribed: Option<bool>, now: Instant)
    ensures Process(world, chat, heartbeat, subscribed, now).stored == chat.stored
  {
    hide FinishAll, FinishSilently, ActiveIndices, LastOnAt;
    if heartbeat.status.Some? && subscribed.Some? {
      FinishingKeepsStored(world, chat, now, heartbeat.receivedAt, false);
      FinishingKeepsStored(world, chat, now, heartbeat.receivedAt, true);
      var told := NotifyInactive(world, chat, heartbeat, heartbeat.status.value).0;
      FinishingKeepsStored(world, told, now, heartbeat.receivedAt, false);
    }
  }

  lemma FinishingKeepsStored(world: World, chat: Chat, now: Instant, endedAt: Instant, theftAlert: bool)
    ensures var indices := ActiveIndices(chat.sessions);
            && FinishAll(world, chat, indices, now, endedAt, theftAlert).0.stored == chat.stored
            && FinishSilently(world, chat, indices, endedAt).stored == chat.stored
  {
    hide FinishAll, FinishSilently, ActiveIndices;
    FinishActiveEnds(world, chat, now, endedAt, theftAlert);
    FinishActiveSilentlyEnds(world, chat, endedAt);
  }
}
