/** The document socket with bounded reconnection
    (web/src/hooks/useEditorWebSocket.ts). `connectWebSocket` opens a socket
    for the document unless the document is new or the retry budget is
    spent; `onopen` resets the retry counter; `onclose` counts a retry and
    schedules one reconnect; `onerror` reports; `sendMessage` transmits only
    through the open socket in `wsRef` and always fills in `is_save`.

    The channel is a state machine driven by events: the browser's events
    on each socket the hook ever created, the reconnect timers firing, the
    page's sends, the effect's clean-up, and the effect running again
    (a new `documentId`, or React's development double-invocation). The
    retry counter and `wsRef` are refs, so they outlive a re-run, and every
    socket keeps its handlers until it has closed. */
module EditorSocket {
  import opened Common
  import opened Json

  const MaxRetries: nat := 5
  const ReconnectDelayMs: nat := 2000
  const ConnectionFailedMessage: string := "Failed to establish WebSocket connection"

  /** The browser's `readyState` of a socket. */
  datatype ReadyState = Connecting | Open | Closing | Closed

  /** A socket the hook created: the document id of the `connectWebSocket`
      closure that created it (its `onclose` reconnects with that closure)
      and its state. */
  datatype Socket = Socket(documentId: string, state: ReadyState)

  /** `retries` is the hook's retry ref; `sockets` every socket created, in
      creation order; `current` the index of the socket in `wsRef` (None
      while `wsRef` is null); `pending` the `setTimeout(connectWebSocket,
      2000)` calls not yet run, each with its closure's document id, in the
      order they fire (equal delays fire in the order they were set). */
  datatype Channel = Channel(retries: nat, sockets: seq<Socket>, current: Option<nat>,
                             pending: seq<string>)

  /** A message from the page; `isSave` is the optional `is_save`. */
  datatype Message = Message(content: string, title: string, isSave: Option<bool>)

  /** Browser events name the socket they happen on by its index. */
  datatype Event =
    | ReconnectTimerFired
    | SocketOpened(index: nat)
    | SocketClosed(index: nat)
    | SocketErrored(index: nat)
    | SocketMessage(index: nat, text: string)
    | Send(message: Message)
    | Teardown                      // the effect's clean-up (unmount)
    | Remount(documentId: string)   // clean-up, then the effect again

  /** What the hook does outside its own state. */
  datatype Effect =
    | CreateSocket(url: string)
    | ReportError(message: string)
    | ReportClose
    | ScheduleReconnect(delayMs: nat)
    | Transmit(frame: string)
    | Deliver(data: Json)

  /** A socket the browser may still open, close or report an error on. */
  predicate Live(s: Socket) {
    s.state != Closed
  }

  /** Socket `i` exists and is live. */
  predicate LiveAt(c: Channel, i: nat) {
    i < |c.sockets| && Live(c.sockets[i])
  }

  /** The socket in `wsRef` exists and is open. */
  predicate CurrentOpen(c: Channel) {
    c.current.Some? && c.current.value < |c.sockets| && c.sockets[c.current.value].state == Open
  }

  function SocketUrl(documentId: string): string {
    "ws://localhost:8000/ws/documents/" + documentId + "/"
  }

  /** The refs before the hook's effect first runs. */
  function Initial(): Channel {
    Channel(0, [], None, [])
  }

  /** `connectWebSocket` of the closure for `documentId`. */
  function Connect(c: Channel, documentId: string): (r: (Channel, seq<Effect>))
    ensures documentId == "" ==> r == (c, [])
    ensures documentId != "" && c.retries >= MaxRetries ==>
      r == (c, [ReportError(ConnectionFailedMessage)])
    ensures documentId != "" && c.retries < MaxRetries ==>
      r.0 == c.(sockets := c.sockets + [Socket(documentId, Connecting)], current := Some(|c.sockets|))
      && r.1 == [CreateSocket(SocketUrl(documentId))]
  {
    if documentId == "" then (c, [])
    else if c.retries >= MaxRetries then (c, [ReportError(ConnectionFailedMessage)])
    else (c.(sockets := c.sockets + [Socket(documentId, Connecting)], current := Some(|c.sockets|)),
          [CreateSocket(SocketUrl(documentId))])
  }

  /** The effect's first run. */
  function Mount(documentId: string): (Channel, seq<Effect>) {
    Connect(Initial(), documentId)
  }

  /** The clean-up: `wsRef.current.close()`, which moves a connecting or
      open socket to closing and leaves a closing or closed one as it is. */
  function Close(c: Channel): Channel {
    match c.current
    case Some(k) =>
      if k < |c.sockets| && (c.sockets[k].state == Connecting || c.sockets[k].state == Open)
      then c.(sockets := c.sockets[k := c.sockets[k].(state := Closing)])
      else c
    case None => c
  }

  /** `sendMessage`'s payload `{ is_save, ...other }` with `is_save`
      defaulting to false. */
  function Payload(m: Message): Json {
    JObject([
      Member("is_save", JBool(m.isSave.GetOr(false))),
      Member("content", JString(m.content)),
      Member("title", JString(m.title))
    ])
  }

  /** The reconnect timer that was set first runs its `connectWebSocket`. */
  function TimerFired(c: Channel): (Channel, seq<Effect>) {
    if |c.pending| == 0 then (c, [])
    else Connect(c.(pending := c.pending[1..]), c.pending[0])
  }

  /** `onopen`: the browser opens only a connecting socket. */
  function OnOpen(c: Channel, i: nat): (Channel, seq<Effect>) {
    if i < |c.sockets| && c.sockets[i].state == Connecting
    then (c.(sockets := c.sockets[i := c.sockets[i].(state := Open)], retries := 0), [])
    else (c, [])
  }

  /** `onclose`: the browser closes a live socket once. */
  function OnClose(c: Channel, i: nat): (Channel, seq<Effect>) {
    if LiveAt(c, i) then
      (c.(sockets := c.sockets[i := c.sockets[i].(state := Closed)], retries := c.retries + 1,
          pending := c.pending + [c.sockets[i].documentId]),
       [ReportClose, ScheduleReconnect(ReconnectDelayMs)])
    else (c, [])
  }

  /** `onmessage` of an open socket; a frame that does not parse throws
      inside the handler, so nothing is delivered. */
  function OnMessage(c: Channel, i: nat, text: string): seq<Effect> {
    if i < |c.sockets| && c.sockets[i].state == Open then
      match Parse(text)
      case Some(j) => [Deliver(j)]
      case None => []
    else []
  }

  /** One event; an event naming a socket that cannot take it leaves the
      channel unchanged. */
  function Step(c: Channel, e: Event): (Channel, seq<Effect>) {
    match e
    case ReconnectTimerFired => TimerFired(c)
    case SocketOpened(i) => OnOpen(c, i)
    case SocketClosed(i) => OnClose(c, i)
    case SocketErrored(i) => (c, if LiveAt(c, i) then [ReportError(ConnectionFailedMessage)] else [])
    case SocketMessage(i, text) => (c, OnMessage(c, i, text))
    case Send(m) => (c, if CurrentOpen(c) then [Transmit(Stringify(Payload(m)))] else [])
    case Teardown => (Close(c), [])
    case Remount(id) => Connect(Close(c), id)
  }

  /** A run of events through a step function, with the effects in
      order. */
  function RunWith(step: (Channel, Event) -> (Channel, seq<Effect>), c: Channel, events: seq<Event>)
    : (Channel, seq<Effect>)
    decreases |events|
  {
    if |events| == 0 then (c, [])
    else
      var (c1, out1) := step(c, events[0]);
      var (c2, out2) := RunWith(step, c1, events[1..]);
      (c2, out1 + out2)
  }

  /** A run of the hook's events. */
  function Run(c: Channel, events: seq<Event>): (Channel, seq<Effect>) {
    RunWith(Step, c, events)
  }

  function CountCreates(effects: seq<Effect>): nat {
    if |effects| == 0 then 0
    else (if effects[0].CreateSocket? then 1 else 0) + CountCreates(effects[1..])
  }

  lemma {:induction false} CountCreatesAppend(a: seq<Effect>, b: seq<Effect>)
    ensures CountCreates(a + b) == CountCreates(a) + CountCreates(b)
    decreases |a|
  {
    if |a| == 0 {
      assert a + b == b;
    } else {
      assert (a + b)[1..] == a[1..] + b;
      CountCreatesAppend(a[1..], b);
    }
  }

  lemma ThreeEffects(effects: seq<Effect>)
    requires |effects| == 3
    ensures CountCreates(effects) ==
      (if effects[0].CreateSocket? then 1 else 0) + (if effects[1].CreateSocket? then 1 else 0)
      + (if effects[2].CreateSocket? then 1 else 0)
  {
    var rest := effects[1..];
    assert rest[1..][1..] == [];
    assert CountCreates(rest[1..]) == (if effects[2].CreateSocket? then 1 else 0);
    assert CountCreates(rest) == (if effects[1].CreateSocket? then 1 else 0) + CountCreates(rest[1..]);
  }

  /** One unfolding of `Run`. */
  lemma RunCons(c: Channel, events: seq<Event>)
    requires |events| > 0
    ensures Run(c, events) ==
      (Run(Step(c, events[0]).0, events[1..]).0,
       Step(c, events[0]).1 + Run(Step(c, events[0]).0, events[1..]).1)
  {
  }

  /** Running two event sequences one after the other is running their
      concatenation, whatever the step function. */
  lemma {:induction false} RunWithAppend(step: (Channel, Event) -> (Channel, seq<Effect>), c: Channel,
                                         a: seq<Event>, b: seq<Event>)
    ensures RunWith(step, c, a + b) ==
      (RunWith(step, RunWith(step, c, a).0, b).0, RunWith(step, c, a).1 + RunWith(step, RunWith(step, c, a).0, b).1)
    decreases |a|
  {
    if |a| == 0 {
      assert a + b == b;
      assert RunWith(step, c, a) == (c, []);
      assert [] + RunWith(step, c, b).1 == RunWith(step, c, b).1;
    } else {
      var s := step(c, a[0]);
      var ab := a + b;
      assert ab[0] == a[0] && ab[1..] == a[1..] + b;
      RunWithAppend(step, s.0, a[1..], b);
      var mid := RunWith(step, s.0, a[1..]);
      var tail := RunWith(step, mid.0, b);
      assert RunWith(step, c, a) == (mid.0, s.1 + mid.1);
      assert RunWith(step, c, ab) == (tail.0, s.1 + (mid.1 + tail.1));
      assert s.1 + (mid.1 + tail.1) == (s.1 + mid.1) + tail.1;
    }
  }

  lemma RunAppend(c: Channel, a: seq<Event>, b: seq<Event>)
    ensures Run(c, a + b) == (Run(Run(c, a).0, b).0, Run(c, a).1 + Run(Run(c, a).0, b).1)
  {
    RunWithAppend(Step, c, a, b);
  }

  /** Two events. */
  lemma RunTwo(c: Channel, e1: Event, e2: Event)
    ensures Run(c, [e1, e2]) ==
      (Step(Step(c, e1).0, e2).0, Step(c, e1).1 + Step(Step(c, e1).0, e2).1)
  {
    var events := [e1, e2];
    RunCons(c, events);
    assert events[1..] == [e2];
    RunCons(Step(c, e1).0, events[1..]);
    assert events[1..][1..] == [];
    assert Step(Step(c, e1).0, e2).1 + [] == Step(Step(c, e1).0, e2).1;
  }

  /* ---------------------------------------------------------------------
     Sockets and creations
     --------------------------------------------------------------------- */

  /** Every `CreateSocket` effect is a new socket on the list: the list
      only grows, and exactly by the sockets created. */
  lemma StepCreates(c: Channel, e: Event)
    ensures var (c1, out) := Step(c, e);
      && |c.sockets| <= |c1.sockets|
      && CountCreates(out) == |c1.sockets| - |c.sockets|
  {
    match e
    case ReconnectTimerFired =>
      if |c.pending| > 0 {
        ConnectCreates(c.(pending := c.pending[1..]), c.pending[0]);
      }
    case SocketClosed(i) =>
      var (c1, out) := Step(c, e);
      if LiveAt(c, i) {
        assert out == [ReportClose, ScheduleReconnect(ReconnectDelayMs)];
        assert out[1..][1..] == [];
        assert CountCreates(out[1..]) == 0;
        assert |c1.sockets| == |c.sockets|;
      }
    case Remount(id) =>
      ConnectCreates(Close(c), id);
    case SocketErrored(_) =>
      OneEffectAtMost(Step(c, e).1);
    case SocketMessage(_, _) =>
      OneEffectAtMost(Step(c, e).1);
    case Send(_) =>
      OneEffectAtMost(Step(c, e).1);
    case SocketOpened(_) =>
    case Teardown =>
  }

  lemma OneEffectAtMost(out: seq<Effect>)
    requires |out| <= 1 && forall k | 0 <= k < |out| :: !out[k].CreateSocket?
    ensures CountCreates(out) == 0
  {
    if |out| == 1 {
      assert out[1..] == [];
    }
  }

  lemma ConnectCreates(c: Channel, documentId: string)
    ensures var (c1, out) := Connect(c, documentId);
      && |c.sockets| <= |c1.sockets|
      && CountCreates(out) == |c1.sockets| - |c.sockets|
  {
    var out := Connect(c, documentId).1;
    assert |out| <= 1;
    if |out| == 1 {
      assert out[1..] == [];
    }
  }

  lemma {:induction false} RunCreates(c: Channel, events: seq<Event>)
    ensures var (c1, out) := Run(c, events);
      && |c.sockets| <= |c1.sockets|
      && CountCreates(out) == |c1.sockets| - |c.sockets|
    decreases |events|
  {
    if |events| > 0 {
      var (c1, out1) := Step(c, events[0]);
      StepCreates(c, events[0]);
      RunCreates(c1, events[1..]);
      CountCreatesAppend(out1, Run(c1, events[1..]).1);
    }
  }

  /* ---------------------------------------------------------------------
     Single-event properties
     --------------------------------------------------------------------- */

  /** A new document (empty id) never gets a socket: unless the effect is
      run again for another document, nothing the browser, the timers or
      the page do creates one or produces any effect. */
  lemma {:induction false} NewDocumentNeverConnects(events: seq<Event>)
    requires forall i | 0 <= i < |events| :: !events[i].Remount?
    ensures Mount("") == (Initial(), [])
    ensures Run(Mount("").0, events) == (Initial(), [])
    decreases |events|
  {
    assert Mount("").0 == Initial();
    if |events| == 0 {
      assert Run(Initial(), events) == RunWith(Step, Initial(), []);
    } else {
      assert Step(Initial(), events[0]) == (Initial(), []);
      NewDocumentNeverConnects(events[1..]);
      RunCons(Initial(), events);
      var empty: seq<Effect> := [];
      assert Run(Initial(), events[1..]) == (Initial(), empty);
      assert empty + empty == empty;
      assert Run(Initial(), events) == (Initial(), empty);
    }
  }

  /** `onopen` resets the retry counter. */
  lemma OpenResetsRetries(c: Channel, i: nat)
    requires i < |c.sockets| && c.sockets[i].state == Connecting
    ensures Step(c, SocketOpened(i)).0.retries == 0
    ensures Step(c, SocketOpened(i)).0.sockets[i].state == Open
  {
  }

  /** `onclose` counts exactly one retry, reports the close once and
      schedules exactly one reconnect after 2000 ms, for the document the
      socket was created for. */
  lemma CloseSchedulesOneReconnect(c: Channel, i: nat)
    requires LiveAt(c, i)
    ensures Step(c, SocketClosed(i)).0.retries == c.retries + 1
    ensures Step(c, SocketClosed(i)).0.pending == c.pending + [c.sockets[i].documentId]
    ensures Step(c, SocketClosed(i)).1 == [ReportClose, ScheduleReconnect(2000)]
  {
  }

  /** `onerror` of a live socket reports, whatever the retry counter, and
      changes nothing; a socket that is gone reports nothing. */
  lemma ErrorOnlyReports(c: Channel, i: nat)
    ensures Step(c, SocketErrored(i)).0 == c
    ensures Step(c, SocketErrored(i)).1 == if LiveAt(c, i) then [ReportError(ConnectionFailedMessage)] else []
  {
  }

  /** Once the budget is spent, the reconnect gives up with an error and
      creates nothing. */
  lemma GivesUpAtMaxRetries(c: Channel)
    requires |c.pending| > 0 && c.pending[0] != "" && c.retries >= MaxRetries
    ensures Step(c, ReconnectTimerFired).1 == [ReportError(ConnectionFailedMessage)]
    ensures Step(c, ReconnectTimerFired).0.sockets == c.sockets
  {
  }

  /** Sends go out exactly when the socket in `wsRef` is open; the frame
      read back holds `is_save` (the caller's value, false when absent) and
      the other fields unchanged. */
  lemma SendGate(c: Channel, m: Message)
    ensures Step(c, Send(m)).0 == c
    ensures |Step(c, Send(m)).1| == (if CurrentOpen(c) then 1 else 0)
    ensures CurrentOpen(c) ==>
      var frame := Step(c, Send(m)).1[0].frame;
      && Parse(frame) == Some(Payload(m))
      && Get(Payload(m).members, "is_save") == Some(JBool(if m.isSave.Some? then m.isSave.value else false))
      && Get(Payload(m).members, "content") == Some(JString(m.content))
      && Get(Payload(m).members, "title") == Some(JString(m.title))
  {
    ParseStringify(Payload(m));
    var ms := Payload(m).members;
    assert Get(ms[2..], "title") == Some(JString(m.title)) by {
      assert ms[2..][1..] == [];
    }
    assert ms[1..][1..] == ms[2..];
    assert Get(ms[1..], "title") == Some(JString(m.title));
  }

  /** A frame one session transmits, if relayed verbatim, is delivered by
      an open socket's `onmessage` as the payload that was sent. */
  lemma SentMessageDelivered(sender: Channel, receiver: Channel, i: nat, m: Message)
    requires CurrentOpen(sender)
    requires i < |receiver.sockets| && receiver.sockets[i].state == Open
    ensures Step(receiver, SocketMessage(i, Step(sender, Send(m)).1[0].frame)) == (receiver, [Deliver(Payload(m))])
  {
    var frame := Stringify(Payload(m));
    assert Step(sender, Send(m)).1 == [Transmit(frame)];
    ParseStringify(Payload(m));
  }

  /* ---------------------------------------------------------------------
     Failed attempts
     --------------------------------------------------------------------- */

  /** The last socket created. */
  function Last(c: Channel): Socket
    requires |c.sockets| > 0
  {
    c.sockets[|c.sockets| - 1]
  }

  /** A close of live socket `i` followed by the reconnect timer, with no
      other reconnect waiting. */
  lemma FailedAttemptFrom(c: Channel, i: nat)
    requires LiveAt(c, i) && c.sockets[i].documentId != "" && c.pending == []
    ensures var (c1, out) := Run(c, [SocketClosed(i), ReconnectTimerFired]);
      var closed := c.sockets[i := c.sockets[i].(state := Closed)];
      && c1.retries == c.retries + 1 && c1.pending == []
      && if c.retries + 1 < MaxRetries then
           c1.sockets == closed + [Socket(c.sockets[i].documentId, Connecting)]
           && c1.current == Some(|c.sockets|)
           && out == [ReportClose, ScheduleReconnect(ReconnectDelayMs), CreateSocket(SocketUrl(c.sockets[i].documentId))]
         else
           c1.sockets == closed && c1.current == c.current
           && out == [ReportClose, ScheduleReconnect(ReconnectDelayMs), ReportError(ConnectionFailedMessage)]
  {
    var id := c.sockets[i].documentId;
    RunTwo(c, SocketClosed(i), ReconnectTimerFired);
    var (c0, out0) := Step(c, SocketClosed(i));
    assert out0 == [ReportClose, ScheduleReconnect(ReconnectDelayMs)];
    assert c0 == c.(sockets := c.sockets[i := c.sockets[i].(state := Closed)], retries := c.retries + 1,
                    pending := [id]);
    assert [id][1..] == [];
    assert Step(c0, ReconnectTimerFired) == Connect(c0.(pending := []), id);
  }

  /** Unmounting closes the socket in `wsRef`, but its close handler still
      runs: it counts a retry and schedules a reconnect, which then opens a
      new socket while the budget lasts. */
  lemma TeardownStillReconnects(c: Channel)
    requires c.current.Some? && LiveAt(c, c.current.value)
    requires c.sockets[c.current.value].state == Open
    requires c.sockets[c.current.value].documentId != "" && c.pending == []
    requires c.retries + 1 < MaxRetries
    ensures var k := c.current.value;
      var (c1, out) := Run(c, [Teardown, SocketClosed(k), ReconnectTimerFired]);
      && out == [ReportClose, ScheduleReconnect(ReconnectDelayMs), CreateSocket(SocketUrl(c.sockets[k].documentId))]
      && c1.retries == c.retries + 1
      && |c1.sockets| == |c.sockets| + 1 && Last(c1) == Socket(c.sockets[k].documentId, Connecting)
  {
    var k := c.current.value;
    var events := [Teardown, SocketClosed(k), ReconnectTimerFired];
    var closing := Close(c);
    assert closing.sockets[k].state == Closing;
    assert Step(c, Teardown) == (closing, []);
    assert events[1..] == [SocketClosed(k), ReconnectTimerFired];
    FailedAttemptFrom(closing, k);
  }

  /** The events of `n` failed attempts on sockets `first`, `first + 1`, …:
      each socket closes and the reconnect timer runs. */
  function Attempts(first: nat, n: nat): seq<Event>
    decreases n
  {
    if n == 0 then [] else [SocketClosed(first), ReconnectTimerFired] + Attempts(first + 1, n - 1)
  }

  /** While the budget lasts, each failed attempt counts a retry and
      creates exactly one new socket, for the same document, which is the
      next one to fail. */
  lemma {:induction false} FailingAttempts(c: Channel, n: nat)
    requires |c.sockets| > 0 && Last(c).state == Connecting && Last(c).documentId != ""
    requires c.pending == [] && c.retries + n < MaxRetries
    ensures var (c1, out) := Run(c, Attempts(|c.sockets| - 1, n));
      && c1.retries == c.retries + n && c1.pending == []
      && |c1.sockets| == |c.sockets| + n && Last(c1) == Last(c)
      && CountCreates(out) == n
    decreases n
  {
    if n > 0 {
      var i := |c.sockets| - 1;
      var attempt := [SocketClosed(i), ReconnectTimerFired];
      FailedAttemptFrom(c, i);
      var (c1, out1) := Run(c, attempt);
      assert |c1.sockets| == i + 2 && Last(c1) == Last(c);
      FailingAttempts(c1, n - 1);
      RunAppend(c, attempt, Attempts(i + 1, n - 1));
      ThreeEffects(out1);
      CountCreatesAppend(out1, Run(c1, Attempts(i + 1, n - 1)).1);
    }
  }

  /** The bound is reached: the socket made on mount and four made on
      reconnect fail, and the fifth reconnect reports the terminal error
      instead of creating a sixth socket; every socket ends closed and no
      reconnect is left waiting, so nothing retries again. */
  lemma FiveAttemptsThenGiveUp(documentId: string)
    requires documentId != ""
    ensures var (c0, out0) := Mount(documentId);
      var (c, out) := Run(c0, Attempts(0, 5));
      && CountCreates(out0 + out) == MaxRetries
      && |out| > 0 && out[|out| - 1] == ReportError(ConnectionFailedMessage)
      && c.retries == MaxRetries && |c.sockets| == MaxRetries && c.pending == []
      && forall j | 0 <= j < |c.sockets| :: c.sockets[j].state == Closed
  {
    var (c0, out0) := Mount(documentId);
    FiveAttemptsRun(documentId);
    var out := Run(c0, Attempts(0, 5)).1;
    assert CountCreates(out0) == 1;
    CountCreatesAppend(out0, out);
    MountInvariant(documentId);
    AttemptsKeepInvariant(c0, documentId, 0, 5);
    AllClosedAtBudget(Run(c0, Attempts(0, 5)).0, documentId);
  }

  lemma MountInvariant(documentId: string)
    requires documentId != ""
    ensures NoOpenInvariant(Mount(documentId).0, documentId)
  {
  }

  lemma AttemptsKeepInvariant(c: Channel, documentId: string, first: nat, n: nat)
    requires NoOpenInvariant(c, documentId)
    ensures NoOpenInvariant(Run(c, Attempts(first, n)).0, documentId)
  {
    AttemptsUnopened(first, n);
    RunKeepsInvariant(c, documentId, 0, Attempts(first, n));
  }

  /** With the budget spent and no open since mount, every socket is
      closed. */
  lemma AllClosedAtBudget(c: Channel, documentId: string)
    requires NoOpenInvariant(c, documentId) && c.retries == MaxRetries
    ensures forall j | 0 <= j < |c.sockets| :: c.sockets[j].state == Closed
  {
  }

  /** The run of `FiveAttemptsThenGiveUp`: four attempts that reconnect,
      then one that gives up. */
  lemma FiveAttemptsRun(documentId: string)
    requires documentId != ""
    ensures var (c, out) := Run(Mount(documentId).0, Attempts(0, 5));
      && CountCreates(out) == 4
      && |out| > 0 && out[|out| - 1] == ReportError(ConnectionFailedMessage)
      && c.retries == MaxRetries && |c.sockets| == MaxRetries && c.pending == []
  {
    var c0 := Mount(documentId).0;
    assert c0.sockets == [Socket(documentId, Connecting)];
    AttemptsThenGiveUp(c0, 4);
  }

  /** `n` attempts that reconnect, then one that gives up. */
  lemma AttemptsThenGiveUp(c: Channel, n: nat)
    requires |c.sockets| > 0 && Last(c).state == Connecting && Last(c).documentId != ""
    requires c.pending == [] && c.retries + n + 1 == MaxRetries
    ensures var (c1, out) := Run(c, Attempts(|c.sockets| - 1, n + 1));
      && CountCreates(out) == n
      && |out| > 0 && out[|out| - 1] == ReportError(ConnectionFailedMessage)
      && c1.retries == MaxRetries && |c1.sockets| == |c.sockets| + n
      && c1.pending == []
  {
    var first := |c.sockets| - 1;
    FailingAttempts(c, n);
    var (cn, outn) := Run(c, Attempts(first, n));
    FailedAttemptFrom(cn, first + n);
    var last := [SocketClosed(first + n), ReconnectTimerFired];
    AttemptsSplit(first, n);
    RunAppend(c, Attempts(first, n), last);
    var out1 := Run(cn, last).1;
    ThreeEffects(out1);
    CountCreatesAppend(outn, out1);
  }

  lemma {:induction false} AttemptsUnopened(first: nat, n: nat)
    ensures forall i | 0 <= i < |Attempts(first, n)| :: Unopened(Attempts(first, n)[i])
    decreases n
  {
    if n > 0 {
      AttemptsUnopened(first + 1, n - 1);
      var a := Attempts(first, n);
      assert a == [SocketClosed(first), ReconnectTimerFired] + Attempts(first + 1, n - 1);
      forall i | 0 <= i < |a| ensures Unopened(a[i]) {
        if i >= 2 {
          assert a[i] == Attempts(first + 1, n - 1)[i - 2];
        }
      }
    }
  }

  /** The last attempt split off. */
  lemma {:induction false} AttemptsSplit(first: nat, n: nat)
    ensures Attempts(first, n + 1) == Attempts(first, n) + [SocketClosed(first + n), ReconnectTimerFired]
    decreases n
  {
    if n > 0 {
      AttemptsSplit(first + 1, n - 1);
    }
  }

  /* ---------------------------------------------------------------------
     The retry bound, for one run of the effect
     --------------------------------------------------------------------- */

  /** What holds along a run of one effect with no successful open since
      the socket at index `base` was created (`base` is 0 from mount, and
      the index of the opened socket after an `onopen`): every socket but
      the last is closed; a reconnect is waiting only when the last socket
      has closed, and is for this document; the retry counter counts the
      closed sockets from `base` on, and a live socket exists only within
      the budget. */
  ghost predicate NoOpenSince(c: Channel, documentId: string, base: nat) {
    var live := |c.sockets| > 0 && Live(Last(c));
    && documentId != "" && base < |c.sockets|
    && (forall j | 0 <= j < |c.sockets| - 1 :: c.sockets[j].state == Closed)
    && (forall j | 0 <= j < |c.sockets| :: c.sockets[j].documentId == documentId)
    && |c.pending| <= 1
    && (|c.pending| == 1 ==> !live && c.pending[0] == documentId)
    && |c.sockets| == base + c.retries + (if live then 1 else 0)
    && (live ==> c.retries < MaxRetries)
    && c.retries <= MaxRetries
  }

  /** The invariant of a run with no successful open since mount. */
  ghost predicate NoOpenInvariant(c: Channel, documentId: string) {
    NoOpenSince(c, documentId, 0)
  }

  /** An event of one run with no successful open. */
  predicate Unopened(e: Event) {
    !e.SocketOpened? && !e.Remount?
  }

  lemma StepKeepsInvariant(c: Channel, documentId: string, base: nat, e: Event)
    requires NoOpenSince(c, documentId, base)
    requires Unopened(e)
    ensures NoOpenSince(Step(c, e).0, documentId, base)
  {
    var c1 := Step(c, e).0;
    match e
    case ReconnectTimerFired =>
      if |c.pending| > 0 {
        assert c.pending[0] == documentId;
        if c.retries < MaxRetries {
          assert c1.sockets == c.sockets + [Socket(documentId, Connecting)];
          assert forall j | 0 <= j < |c1.sockets| - 1 :: c1.sockets[j] == c.sockets[j];
        }
      }
    case SocketClosed(i) =>
      if LiveAt(c, i) {
        assert i == |c.sockets| - 1;
      }
    case SocketErrored(_) =>
    case SocketMessage(_, _) =>
    case Send(_) =>
    case Teardown =>
  }

  lemma {:induction false} RunKeepsInvariant(c: Channel, documentId: string, base: nat, events: seq<Event>)
    requires NoOpenSince(c, documentId, base)
    requires forall i | 0 <= i < |events| :: Unopened(events[i])
    ensures NoOpenSince(Run(c, events).0, documentId, base)
    decreases |events|
  {
    if |events| > 0 {
      StepKeepsInvariant(c, documentId, base, events[0]);
      RunKeepsInvariant(Step(c, events[0]).0, documentId, base, events[1..]);
    }
  }

  /** From mount, however the browser and the timer interleave, at most
      `MaxRetries` sockets are created before a successful open, as long as
      the effect does not run again; the retry counter never passes
      `MaxRetries`. */
  lemma RetryBound(documentId: string, events: seq<Event>)
    requires documentId != ""
    requires forall i | 0 <= i < |events| :: Unopened(events[i])
    ensures var (c0, out0) := Mount(documentId);
      CountCreates(out0 + Run(c0, events).1) <= MaxRetries
    ensures |Run(Mount(documentId).0, events).0.sockets| <= MaxRetries
    ensures Run(Mount(documentId).0, events).0.retries <= MaxRetries
  {
    var (c0, out0) := Mount(documentId);
    assert CountCreates(out0) == 1;
    RunKeepsInvariant(c0, documentId, 0, events);
    RunCreates(c0, events);
    CountCreatesAppend(out0, Run(c0, events).1);
  }

  /** `onopen` of the newest socket starts the count again: the invariant
      holds from that socket on. A socket that is not connecting cannot
      open, and the channel stays as it was. */
  lemma OpenRestartsInvariant(c: Channel, documentId: string, base: nat)
    requires NoOpenSince(c, documentId, base) && |c.sockets| > 0
    ensures var c1 := Step(c, SocketOpened(|c.sockets| - 1)).0;
      if Last(c).state == Connecting then NoOpenSince(c1, documentId, |c.sockets| - 1)
      else c1 == c
  {
    var i := |c.sockets| - 1;
    var c1 := Step(c, SocketOpened(i)).0;
    if Last(c).state == Connecting {
      assert c1 == c.(sockets := c.sockets[i := Socket(documentId, Open)], retries := 0);
      assert Last(c1).state == Open;
      assert forall j | 0 <= j < i :: c1.sockets[j] == c.sockets[j];
    }
  }

  /** The bound applies afresh after every successful open: once the
      newest socket opens, however its close, the reconnect timers and
      the other browser events interleave, fewer than `MaxRetries` new
      sockets are created before the next open, and the retry counter
      never passes `MaxRetries`. Together with the opened socket, that is
      at most `MaxRetries` sockets for the connection. */
  lemma RetryBoundAfterOpen(c: Channel, documentId: string, base: nat, events: seq<Event>)
    requires NoOpenSince(c, documentId, base) && |c.sockets| > 0
    requires forall i | 0 <= i < |events| :: Unopened(events[i])
    ensures var c1 := Step(c, SocketOpened(|c.sockets| - 1)).0;
      && CountCreates(Run(c1, events).1) < MaxRetries
      && Run(c1, events).0.retries <= MaxRetries
  {
    var c1 := Step(c, SocketOpened(|c.sockets| - 1)).0;
    OpenRestartsInvariant(c, documentId, base);
    var b := if Last(c).state == Connecting then |c.sockets| - 1 else base;
    assert NoOpenSince(c1, documentId, b);
    assert |c1.sockets| == |c.sockets|;
    RunKeepsInvariant(c1, documentId, b, events);
    RunCreates(c1, events);
    var c2 := Run(c1, events).0;
    assert |c2.sockets| <= b + MaxRetries;
  }

  /* ---------------------------------------------------------------------
     A second run of the effect
     --------------------------------------------------------------------- */

  /** Both live sockets close, then both reconnect timers run. */
  function Round(first: nat): seq<Event> {
    [SocketClosed(first), SocketClosed(first + 1), ReconnectTimerFired, ReconnectTimerFired]
  }

  /** The effect mounted twice for the same document, as React's
      development mode does, then no socket ever opens: two reconnect
      chains share the retry counter. */
  function DoubleMountFailures(documentId: string): seq<Event> {
    [Remount(documentId)] + Round(0) + Round(2) + [SocketClosed(4), SocketClosed(5)]
  }

  /** The last two sockets are live and for `documentId`, and no reconnect
      is waiting. */
  predicate TwoLive(c: Channel, documentId: string) {
    && |c.sockets| >= 2 && c.pending == []
    && Live(c.sockets[|c.sockets| - 2]) && c.sockets[|c.sockets| - 2].documentId == documentId
    && Live(c.sockets[|c.sockets| - 1]) && c.sockets[|c.sockets| - 1].documentId == documentId
  }

  /** Both live sockets close: two retries, two reconnects waiting. */
  lemma BothClose(c: Channel, documentId: string)
    requires TwoLive(c, documentId)
    ensures var n := |c.sockets|;
      var c1 := Run(c, [SocketClosed(n - 2), SocketClosed(n - 1)]).0;
      && c1.retries == c.retries + 2 && |c1.sockets| == n && c1.pending == [documentId, documentId]
  {
    var n := |c.sockets|;
    RunTwo(c, SocketClosed(n - 2), SocketClosed(n - 1));
    var c1 := Step(c, SocketClosed(n - 2)).0;
    assert c1.sockets[n - 1] == c.sockets[n - 1];
    assert c1.pending == [documentId];
  }

  /** Both waiting reconnects run within the budget: two new sockets. */
  lemma BothReconnect(c: Channel, documentId: string)
    requires c.pending == [documentId, documentId] && documentId != "" && c.retries < MaxRetries
    ensures var c1 := Run(c, [ReconnectTimerFired, ReconnectTimerFired]).0;
      && c1.retries == c.retries && |c1.sockets| == |c.sockets| + 2 && TwoLive(c1, documentId)
  {
    RunTwo(c, ReconnectTimerFired, ReconnectTimerFired);
    var c1 := Step(c, ReconnectTimerFired).0;
    assert c.pending[1..] == [documentId];
    assert c1.pending == [documentId] && |c1.sockets| == |c.sockets| + 1;
    assert c1.pending[1..] == [];
  }

  /** One round of the two chains: two retries counted, two sockets made. */
  lemma RoundFrom(c: Channel, documentId: string)
    requires TwoLive(c, documentId) && documentId != "" && c.retries + 2 < MaxRetries
    ensures var c1 := Run(c, Round(|c.sockets| - 2)).0;
      && c1.retries == c.retries + 2 && |c1.sockets| == |c.sockets| + 2 && TwoLive(c1, documentId)
  {
    var n := |c.sockets|;
    var closes := [SocketClosed(n - 2), SocketClosed(n - 1)];
    var timers := [ReconnectTimerFired, ReconnectTimerFired];
    assert Round(n - 2) == closes + timers;
    RunAppend(c, closes, timers);
    BothClose(c, documentId);
    BothReconnect(Run(c, closes).0, documentId);
  }

  /** The effect's clean-up closes the first socket, but that socket's
      close handler still schedules a reconnect, so a second run of the
      effect for the same document doubles the reconnect chains: six
      sockets are created and the retry counter reaches 6, past
      `MaxRetries`. The bound of `RetryBound` holds for one run only. */
  lemma RemountExceedsBound(documentId: string)
    requires documentId != ""
    ensures var (c0, out0) := Mount(documentId);
      var (c, out) := Run(c0, DoubleMountFailures(documentId));
      && CountCreates(out0 + out) == 6 > MaxRetries
      && |c.sockets| == 6 && c.retries == 6
  {
    var (c0, out0) := Mount(documentId);
    var events := DoubleMountFailures(documentId);
    var c1 := Step(c0, Remount(documentId)).0;
    assert c1.sockets == [Socket(documentId, Closing), Socket(documentId, Connecting)];
    TwoChains(c1, documentId);
    RunCons(c0, events);
    assert events[1..] == Round(0) + Round(2) + [SocketClosed(4), SocketClosed(5)];
    RunCreates(c0, events);
    assert CountCreates(out0) == 1;
    CountCreatesAppend(out0, Run(c0, events).1);
  }

  /** Two live sockets and no retry yet: two rounds, then both new sockets
      close. */
  lemma TwoChains(c: Channel, documentId: string)
    requires TwoLive(c, documentId) && documentId != "" && |c.sockets| == 2 && c.retries == 0
    ensures var c1 := Run(c, Round(0) + Round(2) + [SocketClosed(4), SocketClosed(5)]).0;
      |c1.sockets| == 6 && c1.retries == 6
  {
    RoundFrom(c, documentId);
    var c3 := Run(c, Round(0)).0;
    RoundFrom(c3, documentId);
    var c5 := Run(c3, Round(2)).0;
    BothClose(c5, documentId);
    var closes := [SocketClosed(4), SocketClosed(5)];
    assert Round(0) + Round(2) + closes == Round(0) + (Round(2) + closes);
    RunAppend(c, Round(0), Round(2) + closes);
    RunAppend(c3, Round(2), closes);
  }
}
