/** Engine sessions of one device in one chat: heartbeats open and end them, silence ends them,
    and answers to the prompt classify them, while any Telegram call may fail. */
module EngineSessions {
  import opened Common
  import opened WibTime

  const ENGINE_ON_COOLDOWN_SECONDS := 600
  const STALE_TIMEOUT_SECONDS := ENGINE_ON_COOLDOWN_SECONDS

  datatype Engine = On | Off

  /** A stored heartbeat; a status that is neither on nor off is not notifiable. */
  datatype Heartbeat = Heartbeat(id: int, receivedAt: Instant, status: Option<Engine>)

  datatype SessionStatus = PendingConfirmation | ConfirmedSafe | ReportedTheft | Finished

  datatype Session = Session(
    trigger: int, promptMessageId: int, rideStatusMessageId: Option<int>, status: SessionStatus,
    createdAt: Instant, resolvedAt: Option<Instant>)
  {
    predicate Active() {
      !status.Finished?
    }
  }

  datatype Notification = Notification(lastStatus: Engine, messageId: int, heartbeatId: int)

  datatype Answer = Yes | No

  datatype TelegramError = RequestFailed

  type Outcome = Result<(), TelegramError>

  /** What the outside answers to the n-th Telegram call (a message id, or a failure), and
      whether a ride summary is worth sending at that point. */
  datatype World = World(reply: nat -> Option<int>, hasRide: nat -> bool)

  /** What is asked of Telegram. */
  datatype Request =
    | RemoveKeyboard(messageId: int)
    | SendPrompt(heartbeatId: int)
    | SendRideFinished
    | SendTheftEngineOff
    | SendRideSummary
    | SendEngineOff
    | SendUnsubscribedStatus(status: Engine)
    | AnswerButton
    | SendRideSafe
    | SendTheftWarning
    | SendSticker
    | SendSubscriptionMenu

  /** The rows of one device and chat, the heartbeat cursor, and the Telegram calls made. */
  datatype Chat = Chat(
    stored: seq<Heartbeat>, cursor: int, notification: Option<Notification>, sessions: seq<Session>,
    sent: seq<Request>)

  function Call(world: World, chat: Chat, request: Request): (Chat, Option<int>) {
    (chat.(sent := chat.sent + [request]), world.reply(|chat.sent|))
  }

  function LastId(stored: seq<Heartbeat>): int {
    if stored == [] then 0 else stored[|stored| - 1].id
  }

  /** How many stored heartbeats the cursor has passed. */
  function Passed(stored: seq<Heartbeat>, cursor: int): (n: nat)
    ensures n <= |stored|
  {
    if stored == [] || stored[|stored| - 1].id <= cursor then |stored|
    else Passed(stored[..|stored| - 1], cursor)
  }

  function ReceivedAt(stored: seq<Heartbeat>, id: int): Option<Instant> {
    if stored == [] then None
    else if stored[|stored| - 1].id == id then Some(stored[|stored| - 1].receivedAt)
    else ReceivedAt(stored[..|stored| - 1], id)
  }

  predicate ShouldStart(at: Instant, previousOn: Option<Instant>) {
    previousOn.None? || NumSeconds(at - previousOn.value) >= ENGINE_ON_COOLDOWN_SECONDS
  }

  predicate ShouldFinishStale(now: Instant, latest: Instant) {
    NumSeconds(now - latest) >= STALE_TIMEOUT_SECONDS
  }

  predicate Within(indices: seq<nat>, sessions: seq<Session>) {
    forall k :: 0 <= k < |indices| ==> indices[k] < |sessions|
  }

  /** The positions of the active sessions, in order. */
  function ActiveIndices(sessions: seq<Session>): (indices: seq<nat>)
    ensures Within(indices, sessions)
  {
    if sessions == [] then []
    else
      var n := |sessions| - 1;
      ActiveIndices(sessions[..n]) + if sessions[n].Active() then [n] else []
  }

  function LatestPending(sessions: seq<Session>): (found: Option<nat>)
    ensures found.Some? ==> found.value < |sessions| && sessions[found.value].status.PendingConfirmation?
  {
    if sessions == [] then None
    else if sessions[|sessions| - 1].status.PendingConfirmation? then Some(|sessions| - 1)
    else LatestPending(sessions[..|sessions| - 1])
  }

  function FindByPrompt(sessions: seq<Session>, promptMessageId: int): (found: Option<nat>)
    ensures found.Some? ==> found.value < |sessions| && sessions[found.value].promptMessageId == promptMessageId
  {
    if sessions == [] then None
    else if sessions[|sessions| - 1].promptMessageId == promptMessageId then Some(|sessions| - 1)
    else FindByPrompt(sessions[..|sessions| - 1], promptMessageId)
  }

  function Resolve(chat: Chat, i: nat, at: Instant): Chat
    requires i < |chat.sessions|
  {
    chat.(sessions := chat.sessions[i := chat.sessions[i].(status := Finished, resolvedAt := Some(at))])
  }

  function ClearKeyboard(world: World, chat: Chat, i: nat): Chat
    requires i < |chat.sessions|
  {
    if chat.sessions[i].status.PendingConfirmation? then
      Call(world, chat, RemoveKeyboard(chat.sessions[i].promptMessageId)).0
    else chat
  }

  /** End one session and tell the rider; a failed message leaves the session as it was. */
  function FinishRide(world: World, chat: Chat, i: nat, now: Instant, endedAt: Instant, theftAlert: bool)
      : (result: (Chat, Result<int, TelegramError>))
    requires i < |chat.sessions|
    ensures |result.0.sessions| == |chat.sessions|
  {
    var session := chat.sessions[i];
    if session.rideStatusMessageId.Some? then (Resolve(chat, i, endedAt), Ok(session.rideStatusMessageId.value))
    else
      var (told, finished) := Call(world, chat, SendRideFinished);
      if finished.None? then (told, Err(RequestFailed))
      else
        var needsAlert := theftAlert && session.status.ReportedTheft?;
        var (alerted, alert) := if needsAlert then Call(world, told, SendTheftEngineOff) else (told, finished);
        if alert.None? then (alerted, Err(RequestFailed))
        else if world.hasRide(|alerted.sent|) then
          var (summed, summary) := Call(world, alerted, SendRideSummary);
          if summary.None? then (summed, Err(RequestFailed))
          else
            (Resolve(summed.(sessions := summed.sessions[i := session.(rideStatusMessageId := summary)]), i, now),
             Ok(summary.value))
        else (Resolve(alerted, i, now), Ok(finished.value))
  }

  /** End the sessions at some positions in turn, up to the first failure; the last message sent. */
  function FinishAll(world: World, chat: Chat, indices: seq<nat>, now: Instant, endedAt: Instant, theftAlert: bool)
      : (result: (Chat, Result<Option<int>, TelegramError>))
    requires Within(indices, chat.sessions)
    ensures |result.0.sessions| == |chat.sessions|
  {
    if indices == [] then (chat, Ok(None))
    else
      var n := |indices| - 1;
      var before := FinishAll(world, chat, indices[..n], now, endedAt, theftAlert);
      if before.1.Err? then before
      else
        var ride := FinishRide(world, ClearKeyboard(world, before.0, indices[n]), indices[n], now, endedAt, theftAlert);
        (ride.0, if ride.1.Err? then Err(ride.1.error) else Ok(Some(ride.1.value)))
  }

  /** End sessions without a word. */
  function FinishSilently(world: World, chat: Chat, indices: seq<nat>, endedAt: Instant): (result: Chat)
    requires Within(indices, chat.sessions)
    ensures |result.sessions| == |chat.sessions|
  {
    if indices == [] then chat
    else
      var n := |indices| - 1;
      var before := FinishSilently(world, chat, indices[..n], endedAt);
      Resolve(ClearKeyboard(world, before, indices[n]), indices[n], endedAt)
  }

  function Noted(chat: Chat, status: Engine, messageId: int, heartbeat: Heartbeat): Chat {
    chat.(notification := Some(Notification(status, messageId, heartbeat.id)))
  }

  function LastOnAt(chat: Chat): Option<Instant> {
    if chat.notification.Some? && chat.notification.value.lastStatus.On?
    then ReceivedAt(chat.stored, chat.notification.value.heartbeatId) else None
  }

  function ContinuedMessageId(chat: Chat): int {
    var pending := LatestPending(chat.sessions);
    if pending.Some? then chat.sessions[pending.value].promptMessageId
    else if chat.notification.Some? then chat.notification.value.messageId
    else 0
  }

  function NotifyOn(world: World, chat: Chat, heartbeat: Heartbeat, now: Instant): (Chat, Outcome) {
    if !ShouldStart(heartbeat.receivedAt, LastOnAt(chat)) then
      (Noted(chat, On, ContinuedMessageId(chat), heartbeat), Ok(()))
    else
      var ended := FinishAll(world, chat, ActiveIndices(chat.sessions), now, heartbeat.receivedAt, false);
      if ended.1.Err? then (ended.0, Err(ended.1.error))
      else
        var (asked, prompt) := Call(world, ended.0, SendPrompt(heartbeat.id));
        if prompt.None? then (asked, Err(RequestFailed))
        else
          var session := Session(heartbeat.id, prompt.value, None, PendingConfirmation, heartbeat.receivedAt, None);
          (Noted(asked.(sessions := asked.sessions + [session]), On, prompt.value, heartbeat), Ok(()))
  }

  function NotifyOff(world: World, chat: Chat, heartbeat: Heartbeat, now: Instant): (Chat, Outcome) {
    if chat.notification.Some? && chat.notification.value.lastStatus.Off? then
      (Noted(chat, Off, chat.notification.value.messageId, heartbeat), Ok(()))
    else
      var ended := FinishAll(world, chat, ActiveIndices(chat.sessions), now, heartbeat.receivedAt, true);
      if ended.1.Err? then (ended.0, Err(ended.1.error))
      else if ended.1.value.Some? then (Noted(ended.0, Off, ended.1.value.value, heartbeat), Ok(()))
      else
        var (told, message) := Call(world, ended.0, SendEngineOff);
        if message.None? then (told, Err(RequestFailed)) else (Noted(told, Off, message.value, heartbeat), Ok(()))
  }

  function NotifyInactive(world: World, chat: Chat, heartbeat: Heartbeat, status: Engine): (Chat, Outcome) {
    if chat.notification.Some? && chat.notification.value.lastStatus == status then
      (Noted(chat, status, chat.notification.value.messageId, heartbeat), Ok(()))
    else
      var (told, message) := Call(world, chat, SendUnsubscribedStatus(status));
      if message.None? then (told, Err(RequestFailed)) else (Noted(told, status, message.value, heartbeat), Ok(()))
  }

  /** What a heartbeat does to the chat: `subscribed` is none if the chat is not bound to the
      device, and otherwise says whether its subscription is active. */
  function Process(world: World, chat: Chat, heartbeat: Heartbeat, subscribed: Option<bool>, now: Instant): Chat {
    if subscribed.None? || heartbeat.status.None? then chat
    else if subscribed.value then
      if heartbeat.status.value.On? then NotifyOn(world, chat, heartbeat, now).0
      else NotifyOff(world, chat, heartbeat, now).0
    else
      var told := NotifyInactive(world, chat, heartbeat, heartbeat.status.value).0;
      if heartbeat.status.value.Off? then
        FinishSilently(world, told, ActiveIndices(told.sessions), heartbeat.receivedAt)
      else told
  }

  /** Process the next unread heartbeat, if any, and move the cursor unless the job stops first. */
  function NotifyNext(world: World, chat: Chat, subscribed: Option<bool>, now: Instant, advance: bool): Chat {
    var next := Passed(chat.stored, chat.cursor);
    if next == |chat.stored| then chat
    else
      var processed := Process(world, chat, chat.stored[next], subscribed, now);
      if advance then processed.(cursor := chat.stored[next].id) else processed
  }

  /** A batch of heartbeats, oldest first. */
  function NotifyBatch(
      world: World, chat: Chat, batch: seq<Heartbeat>, subscribed: int -> Option<bool>, now: Instant): Chat
  {
    if batch == [] then chat
    else
      var n := |batch| - 1;
      Process(world, NotifyBatch(world, chat, batch[..n], subscribed, now), batch[n], subscribed(batch[n].id), now)
        .(cursor := batch[n].id)
  }

  function Sweep(world: World, chat: Chat, now: Instant): (Chat, Outcome) {
    if ActiveIndices(chat.sessions) == [] || chat.stored == [] then (chat, Ok(()))
    else
      var latest := chat.stored[|chat.stored| - 1].receivedAt;
      if !ShouldFinishStale(now, latest) then (chat, Ok(()))
      else
        var ended := FinishAll(world, chat, ActiveIndices(chat.sessions), now, latest, false);
        (ended.0, if ended.1.Err? then Err(ended.1.error) else Ok(()))
  }

  /** The rider pressed a button under a message. */
  function Press(world: World, chat: Chat, message: Option<int>, answer: Answer, subscribed: bool): (Chat, Outcome) {
    var (answered, ok) := Call(world, chat, AnswerButton);
    if !subscribed then
      if ok.None? then (answered, Err(RequestFailed))
      else
        var cleared := if message.Some? then Call(world, answered, RemoveKeyboard(message.value)).0 else answered;
        var (offered, menu) := Call(world, cleared, SendSubscriptionMenu);
        (offered, if menu.None? then Err(RequestFailed) else Ok(()))
    else
      var found := FindByPrompt(chat.sessions, message.UnwrapOr(0));
      if found.None? || !chat.sessions[found.value].status.PendingConfirmation? || ok.None? then
        (answered, if ok.None? then Err(RequestFailed) else Ok(()))
      else
        var (cleared, clear) := Call(world, answered, RemoveKeyboard(message.UnwrapOr(0)));
        if clear.None? then (cleared, Err(RequestFailed))
        else
          var (told, reply) := Call(world, cleared, if answer.Yes? then SendRideSafe else SendTheftWarning);
          if reply.None? then (told, Err(RequestFailed))
          else
            var status := if answer.Yes? then ConfirmedSafe else ReportedTheft;
            var classified := chat.sessions[found.value].(status := status);
            (Call(world, told, SendSticker).0.(sessions := chat.sessions[found.value := classified]),
             Ok(()))
  }

  class EngineSessionStore {
    const world: World
    var stored: seq<Heartbeat>
    var cursor: int
    var notification: Option<Notification>
    var sessions: seq<Session>
    var sent: seq<Request>

    constructor (world: World)
      ensures this.world == world && View() == Chat([], 0, None, [], [])
    {
      this.world := world;
      stored, cursor, notification, sessions, sent := [], 0, None, [], [];
    }

    function View(): Chat
      reads this
    {
      Chat(stored, cursor, notification, sessions, sent)
    }

    method CallTelegram(request: Request) returns (reply: Option<int>)
      modifies this`sent
      ensures (View(), reply) == Call(world, old(View()), request)
    {
      reply := world.reply(|sent|);
      sent := sent + [request];
    }

    method ResolveEngineSessionAt(i: nat, at: Instant)
      requires i < |sessions|
      modifies this`sessions
      ensures View() == Resolve(old(View()), i, at)
    {
      sessions := sessions[i := sessions[i].(status := Finished, resolvedAt := Some(at))];
    }

    method ClearPendingKeyboard(i: nat)
      requires i < |sessions|
      modifies this`sent
      ensures View() == ClearKeyboard(world, old(View()), i)
    {
      if sessions[i].status.PendingConfirmation? {
        var _ := CallTelegram(RemoveKeyboard(sessions[i].promptMessageId));
      }
    }

    method FinishRideSessionAndSendSummary(i: nat, now: Instant, endedAt: Instant, theftAlert: bool)
      returns (message: Result<int, TelegramError>)
      requires i < |sessions|
      modifies this
      ensures (View(), message) == FinishRide(world, old(View()), i, now, endedAt, theftAlert)
    {
      var session := sessions[i];
      if session.rideStatusMessageId.Some? {
        ResolveEngineSessionAt(i, endedAt);
        return Ok(session.rideStatusMessageId.value);
      }
      var finished := CallTelegram(SendRideFinished);
      if finished.None? {
        return Err(RequestFailed);
      }
      if theftAlert && session.status.ReportedTheft? {
        var alert := CallTelegram(SendTheftEngineOff);
        if alert.None? {
          return Err(RequestFailed);
        }
      }
      message := Ok(finished.value);
      if world.hasRide(|sent|) {
        var summary := CallTelegram(SendRideSummary);
        if summary.None? {
          return Err(RequestFailed);
        }
        sessions := sessions[i := session.(rideStatusMessageId := summary)];
        message := Ok(summary.value);
      }
      ResolveEngineSessionAt(i, now);
    }

    method FinishActiveEngineSessions(indices: seq<nat>, now: Instant, endedAt: Instant, theftAlert: bool)
      returns (message: Result<Option<int>, TelegramError>)
      requires Within(indices, sessions)
      modifies this
      ensures (View(), message) == FinishAll(world, old(View()), indices, now, endedAt, theftAlert)
    {
      hide FinishRide, ClearKeyboard;
      message := Ok(None);
      for n := 0 to |indices|
        invariant |sessions| == old(|sessions|)
        invariant (View(), message) == FinishAll(world, old(View()), indices[..n], now, endedAt, theftAlert)
        invariant message.Ok?
      {
        assert indices[..n + 1][..n] == indices[..n];
        StoppedEarly(world, old(View()), indices, n + 1, now, endedAt, theftAlert);
        ClearPendingKeyboard(indices[n]);
        var sent := FinishRideSessionAndSendSummary(indices[n], now, endedAt, theftAlert);
        if sent.Err? {
          return Err(sent.error);
        }
        message := Ok(Some(sent.value));
      }
      assert indices[..|indices|] == indices;
    }

    method FinishInactiveSubscriptionSessions(endedAt: Instant)
      modifies this
      ensures View() == FinishSilently(world, old(View()), ActiveIndices(old(sessions)), endedAt)
    {
      hide ClearKeyboard;
      var indices := ActiveIndices(sessions);
      for n := 0 to |indices|
        invariant |sessions| == old(|sessions|)
        invariant View() == FinishSilently(world, old(View()), indices[..n], endedAt)
      {
        assert indices[..n + 1][..n] == indices[..n];
        ClearPendingKeyboard(indices[n]);
        ResolveEngineSessionAt(indices[n], endedAt);
      }
      assert indices[..|indices|] == indices;
    }

    method UpsertNotificationState(status: Engine, messageId: int, heartbeat: Heartbeat)
      modifies this`notification
      ensures View() == Noted(old(View()), status, messageId, heartbeat)
    {
      notification := Some(Notification(status, messageId, heartbeat.id));
    }

    method ProcessEngineOnNotificationForChat(heartbeat: Heartbeat, now: Instant) returns (outcome: Outcome)
      modifies this
      ensures (View(), outcome) == NotifyOn(world, old(View()), heartbeat, now)
    {
      hide FinishAll;
      if !ShouldStart(heartbeat.receivedAt, LastOnAt(View())) {
        UpsertNotificationState(On, ContinuedMessageId(View()), heartbeat);
        return Ok(());
      }
      var ended := FinishActiveEngineSessions(ActiveIndices(sessions), now, heartbeat.receivedAt, false);
      if ended.Err? {
        return Err(ended.error);
      }
      var prompt := CallTelegram(SendPrompt(heartbeat.id));
      if prompt.None? {
        return Err(RequestFailed);
      }
      var session := Session(heartbeat.id, prompt.value, None, PendingConfirmation, heartbeat.receivedAt, None);
      sessions := sessions + [session];
      UpsertNotificationState(On, prompt.value, heartbeat);
      outcome := Ok(());
    }

    method ProcessHeartbeatNotificationForChat(heartbeat: Heartbeat, status: Engine, now: Instant)
      returns (outcome: Outcome)
      modifies this
      ensures (View(), outcome) ==
              if status.On? then NotifyOn(world, old(View()), heartbeat, now)
              else NotifyOff(world, old(View()), heartbeat, now)
    {
      hide FinishAll, NotifyOn;
      if status.On? {
        outcome := ProcessEngineOnNotificationForChat(heartbeat, now);
        return;
      }
      if notification.Some? && notification.value.lastStatus == status {
        UpsertNotificationState(status, notification.value.messageId, heartbeat);
        return Ok(());
      }
      var ended := FinishActiveEngineSessions(ActiveIndices(sessions), now, heartbeat.receivedAt, true);
      if ended.Err? {
        return Err(ended.error);
      }
      var message := ended.value;
      if message.None? {
        message := CallTelegram(SendEngineOff);
        if message.None? {
          return Err(RequestFailed);
        }
      }
      UpsertNotificationState(status, message.value, heartbeat);
      outcome := Ok(());
    }

    method ProcessInactiveSubscriptionNotificationForChat(heartbeat: Heartbeat, status: Engine)
      returns (outcome: Outcome)
      modifies this
      ensures (View(), outcome) == NotifyInactive(world, old(View()), heartbeat, status)
    {
      if notification.Some? && notification.value.lastStatus == status {
        UpsertNotificationState(status, notification.value.messageId, heartbeat);
        return Ok(());
      }
      var message := CallTelegram(SendUnsubscribedStatus(status));
      if message.None? {
        return Err(RequestFailed);
      }
      UpsertNotificationState(status, message.value, heartbeat);
      outcome := Ok(());
    }

    /** One heartbeat's turn for the chat; its failure is logged and goes no further. */
    method ProcessHeartbeat(heartbeat: Heartbeat, subscribed: Option<bool>, now: Instant)
      modifies this
      ensures View() == Process(world, old(View()), heartbeat, subscribed, now)
    {
      hide NotifyOn, NotifyOff, NotifyInactive, FinishSilently;
      if subscribed.Some? && heartbeat.status.Some? {
        if subscribed.value {
          var _ := ProcessHeartbeatNotificationForChat(heartbeat, heartbeat.status.value, now);
        } else {
          var _ := ProcessInactiveSubscriptionNotificationForChat(heartbeat, heartbeat.status.value);
          if heartbeat.status.value.Off? {
            FinishInactiveSubscriptionSessions(heartbeat.receivedAt);
          }
        }
      }
    }

    /** The polling job: the unread heartbeats, oldest first, the cursor behind each. */
    method ProcessHeartbeatNotifications(limit: nat, subscribed: int -> Option<bool>, now: Instant)
      modifies this
      ensures var start := Passed(old(stored), old(cursor));
              var count := if |old(stored)| - start < limit then |old(stored)| - start else limit;
              View() == NotifyBatch(world, old(View()), old(stored)[start..start + count], subscribed, now)
    {
      hide Process;
      var start := Passed(stored, cursor);
      var count := if |stored| - start < limit then |stored| - start else limit;
      var batch := stored[start..start + count];
      for n := 0 to |batch|
        invariant View() == NotifyBatch(world, old(View()), batch[..n], subscribed, now)
      {
        assert batch[..n + 1][..n] == batch[..n];
        ProcessHeartbeat(batch[n], subscribed(batch[n].id), now);
        cursor := batch[n].id;
      }
      assert batch[..|batch|] == batch;
    }

    method ProcessStaleEngineSessions(now: Instant) returns (outcome: Outcome)
      modifies this
      ensures (View(), outcome) == Sweep(world, old(View()), now)
    {
      hide FinishAll;
      var indices := ActiveIndices(sessions);
      if |indices| == 0 || |stored| == 0 {
        return Ok(());
      }
      var latest := stored[|stored| - 1].receivedAt;
      if !ShouldFinishStale(now, latest) {
        return Ok(());
      }
      var ended := FinishActiveEngineSessions(indices, now, latest, false);
      outcome := if ended.Err? then Err(ended.error) else Ok(());
    }

    method HandleSessionAnswer(message: Option<int>, answer: Answer, subscribed: bool) returns (outcome: Outcome)
      modifies this
      ensures (View(), outcome) == Press(world, old(View()), message, answer, subscribed)
    {
      if !subscribed {
        var answered := CallTelegram(AnswerButton);
        if answered.None? {
          return Err(RequestFailed);
        }
        if message.Some? {
          var _ := CallTelegram(RemoveKeyboard(message.value));
        }
        var menu := CallTelegram(SendSubscriptionMenu);
        return if menu.None? then Err(RequestFailed) else Ok(());
      }
      var found := FindByPrompt(sessions, message.UnwrapOr(0));
      var answered := CallTelegram(AnswerButton);
      if answered.None? {
        return Err(RequestFailed);
      }
      if found.None? || !sessions[found.value].status.PendingConfirmation? {
        return Ok(());
      }
      var cleared := CallTelegram(RemoveKeyboard(message.UnwrapOr(0)));
      if cleared.None? {
        return Err(RequestFailed);
      }
      var told := CallTelegram(if answer.Yes? then SendRideSafe else SendTheftWarning);
      if told.None? {
        return Err(RequestFailed);
      }
      var _ := CallTelegram(SendSticker);
      match answer {
        case Yes => sessions := sessions[found.value := sessions[found.value].(status := ConfirmedSafe)];
        case No => sessions := sessions[found.value := sessions[found.value].(status := ReportedTheft)];
      }
      outcome := Ok(());
    }
  }

  lemma {:induction false} StoppedEarly(
      world: World, chat: Chat, indices: seq<nat>, k: nat, now: Instant, endedAt: Instant, theftAlert: bool)
    requires Within(indices, chat.sessions)
    requires k <= |indices|
    ensures var before := FinishAll(world, chat, indices[..k], now, endedAt, theftAlert);
            before.1.Err? ==> FinishAll(world, chat, indices, now, endedAt, theftAlert) == before
    decreases |indices|
  {
    hide FinishRide, ClearKeyboard;
    var n := |indices|;
    if k == n {
      assert indices[..k] == indices;
    } else {
      StoppedEarly(world, chat, indices[..n - 1], k, now, endedAt, theftAlert);
      assert indices[..n - 1][..k] == indices[..k];
    }
  }
}
