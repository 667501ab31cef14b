/** The collaboration session's control channel (web/src/hooks/useWebsocketProvider.ts):
    the `onmessage` override that sorts every inbound socket frame into a
    control event for the page, an echo of this session's own event, noise,
    or a Yjs update for the provider's original handler; the outbound
    `sendMessage` guard and the two publishers built on it; and the
    `status` listener that reports the first load. */
module Multiplexer {
  import opened Common
  import opened Json

  /** An inbound frame as the browser passes it to `onmessage`: text, or
      binary data, which the Yjs provider receives as an `ArrayBuffer`. */
  datatype Frame = Text(text: string) | Binary(bytes: seq<bv8>)

  /** The string `JSON.parse` reads: the text of a text frame, and for an
      `ArrayBuffer` its string conversion. */
  function ParseInput(f: Frame): string {
    match f
    case Text(t) => t
    case Binary(_) => "[object ArrayBuffer]"
  }

  const SaveEvent: string := "SAVE"
  const TitleUpdateEvent: string := "TITLE_UPDATE"
  const ConnectedStatus: string := "connected"

  /** What the override does with one frame. `Ignore` covers the echo, a
      control frame of unknown type, and a binary frame when the provider
      had no handler of its own. */
  datatype Action =
    | Ignore
    | InvokeSave
    | InvokeTitleUpdate(title: Option<Json>)
    | ForwardToYjs(frame: Frame)

  /** `v.key` on a parsed value other than `null`: an object's own
      property, `undefined` (None) on every other kind of value. */
  function Property(v: Json, key: string): Option<Json> {
    if v.JObject? then Get(v.members, key) else None
  }

  /** The frame carries this session's own sender id. */
  predicate FromSelf(data: Json, localId: string) {
    Property(data, "senderId") == Some(JString(localId))
  }

  /** The frame's `eventType` is the string `kind`. */
  predicate HasEventType(data: Json, kind: string) {
    Property(data, "eventType") == Some(JString(kind))
  }

  /** The `catch` branch: hand the frame to the provider's own handler if
      it had one. */
  function Fallback(frame: Frame, hasYjsHandler: bool): Action {
    if hasYjsHandler then ForwardToYjs(frame) else Ignore
  }

  /** The `onmessage` override. A frame that `JSON.parse` rejects goes to
      the catch branch, and so does the literal `null`: it parses, then
      reading `data.eventType` throws. */
  function Classify(frame: Frame, localId: string, hasYjsHandler: bool): (a: Action)
    ensures a.ForwardToYjs? ==> a.frame == frame
    ensures a.ForwardToYjs? <==>
      hasYjsHandler && (Parse(ParseInput(frame)).None? || Parse(ParseInput(frame)) == Some(JNull))
    ensures a.InvokeSave? <==>
      exists data :: Parse(ParseInput(frame)) == Some(data)
        && !FromSelf(data, localId) && HasEventType(data, SaveEvent)
    ensures a.InvokeTitleUpdate? <==>
      exists data :: Parse(ParseInput(frame)) == Some(data)
        && !FromSelf(data, localId) && HasEventType(data, TitleUpdateEvent)
    ensures a.InvokeTitleUpdate? ==> a.title == Property(Parse(ParseInput(frame)).value, "title")
    ensures (exists data :: Parse(ParseInput(frame)) == Some(data) && FromSelf(data, localId)) ==> a == Ignore
  {
    match Parse(ParseInput(frame))
    case None => Fallback(frame, hasYjsHandler)
    case Some(data) =>
      if FromSelf(data, localId) then Ignore
      else if data.JNull? then Fallback(frame, hasYjsHandler)
      else
        match Property(data, "eventType")
        case Some(JString(kind)) =>
          if kind == SaveEvent then InvokeSave
          else if kind == TitleUpdateEvent then InvokeTitleUpdate(Property(data, "title"))
          else Ignore
        case _ => Ignore
  }

  /* ---------------------------------------------------------------------
     Outbound
     --------------------------------------------------------------------- */

  /** The parts of the provider that `sendMessage` checks: whether the
      provider exists, whether it has a socket, and `wsconnected`. */
  datatype Provider = Provider(present: bool, hasSocket: bool, connected: bool)

  predicate CanSend(p: Provider) {
    p.present && p.hasSocket && p.connected
  }

  /** The object literal `{ eventType, senderId, ...data }`. */
  function Envelope(eventType: string, senderId: string, data: seq<Member>): Json {
    JObject(Spread([Member("eventType", JString(eventType)), Member("senderId", JString(senderId))], data))
  }

  /** `sendMessage`: the serialized envelope, sent only through an existing,
      connected socket and silently dropped otherwise. */
  function SendMessage(p: Provider, senderId: string, eventType: string, data: seq<Member>): (sent: Option<string>)
    ensures sent.Some? <==> CanSend(p)
    ensures sent.Some? && MembersWellFormed(data) ==>
      Parse(sent.value) == Some(Envelope(eventType, senderId, data))
  {
    if CanSend(p) then
      var env := Envelope(eventType, senderId, data);
      assert MembersWellFormed(data) ==> Parse(Stringify(env)) == Some(env) by {
        if MembersWellFormed(data) {
          var base := [Member("eventType", JString(eventType)), Member("senderId", JString(senderId))];
          SpreadWellFormed(base, data);
          assert WellFormed(env);
          ParseStringify(env);
        }
      }
      Some(Stringify(env))
    else None
  }

  function PublishSaveDocument(p: Provider, senderId: string): Option<string> {
    SendMessage(p, senderId, SaveEvent, [])
  }

  function PublishUpdateTitle(p: Provider, senderId: string, title: string): Option<string> {
    SendMessage(p, senderId, TitleUpdateEvent, [Member("title", JString(title))])
  }

  /** What a receiver reads back from a sent envelope: the sender id and the
      event type, unless `data` overrode them. */
  lemma EnvelopeFields(eventType: string, senderId: string, data: seq<Member>)
    requires forall i | 0 <= i < |data| :: data[i].key != "senderId"
    ensures FromSelf(Envelope(eventType, senderId, data), senderId)
    ensures (forall i | 0 <= i < |data| :: data[i].key != "eventType") ==>
      HasEventType(Envelope(eventType, senderId, data), eventType)
  {
    var base := [Member("eventType", JString(eventType)), Member("senderId", JString(senderId))];
    SpreadOtherKey(base, data, "senderId");
    assert Get(base, "senderId") == Some(JString(senderId)) by {
      assert base[1..][1..] == [];
    }
    if forall i | 0 <= i < |data| :: data[i].key != "eventType" {
      SpreadOtherKey(base, data, "eventType");
      assert Get(base, "eventType") == Some(JString(eventType)) by {
        assert base[1..][1..] == [];
      }
    }
  }

  /** Echo suppression: whatever a session sends, with any payload that
      does not itself carry a `senderId`, comes back to that same session
      as `Ignore` -- no callback and no forwarding to Yjs. */
  lemma {:induction false} EchoSuppressed(p: Provider, senderId: string, eventType: string,
                                          data: seq<Member>, hasYjsHandler: bool)
    requires MembersWellFormed(data)
    requires forall i | 0 <= i < |data| :: data[i].key != "senderId"
    requires CanSend(p)
    ensures Classify(Text(SendMessage(p, senderId, eventType, data).value), senderId, hasYjsHandler) == Ignore
  {
    EnvelopeFields(eventType, senderId, data);
  }

  /** Both publishers' frames are ignored by the session that sent them. */
  lemma PublishedFramesAreEchoes(p: Provider, senderId: string, title: string, hasYjsHandler: bool)
    requires CanSend(p)
    ensures Classify(Text(PublishSaveDocument(p, senderId).value), senderId, hasYjsHandler) == Ignore
    ensures Classify(Text(PublishUpdateTitle(p, senderId, title).value), senderId, hasYjsHandler) == Ignore
  {
    EchoSuppressed(p, senderId, SaveEvent, [], hasYjsHandler);
    EchoSuppressed(p, senderId, TitleUpdateEvent, [Member("title", JString(title))], hasYjsHandler);
  }

  /** Another session receives a published save as exactly one `onSave`. */
  lemma PeerReceivesSave(p: Provider, senderId: string, peerId: string, hasYjsHandler: bool)
    requires CanSend(p)
    requires peerId != senderId
    ensures Classify(Text(PublishSaveDocument(p, senderId).value), peerId, hasYjsHandler) == InvokeSave
  {
    EnvelopeFields(SaveEvent, senderId, []);
  }

  /** Another session receives a published title as `onTitleUpdate` with
      that very title. */
  lemma PeerReceivesTitle(p: Provider, senderId: string, peerId: string, title: string, hasYjsHandler: bool)
    requires CanSend(p)
    requires peerId != senderId
    ensures Classify(Text(PublishUpdateTitle(p, senderId, title).value), peerId, hasYjsHandler)
         == InvokeTitleUpdate(Some(JString(title)))
  {
    var data := [Member("title", JString(title))];
    var env := Envelope(TitleUpdateEvent, senderId, data);
    TitleEnvelope(senderId, title);
    assert MembersWellFormed(data);
    assert Parse(PublishUpdateTitle(p, senderId, title).value) == Some(env);
    assert !FromSelf(env, peerId);
  }

  /** The title envelope names its sender and event type and carries the
      title. */
  lemma TitleEnvelope(senderId: string, title: string)
    ensures Envelope(TitleUpdateEvent, senderId, [Member("title", JString(title))]).JObject?
    ensures FromSelf(Envelope(TitleUpdateEvent, senderId, [Member("title", JString(title))]), senderId)
    ensures HasEventType(Envelope(TitleUpdateEvent, senderId, [Member("title", JString(title))]), TitleUpdateEvent)
    ensures Property(Envelope(TitleUpdateEvent, senderId, [Member("title", JString(title))]), "title")
         == Some(JString(title))
  {
    var data := [Member("title", JString(title))];
    var base := [Member("eventType", JString(TitleUpdateEvent)), Member("senderId", JString(senderId))];
    EnvelopeFields(TitleUpdateEvent, senderId, data);
    assert Spread(base, data) == Assign(base, data[0]) by {
      assert data[1..] == [];
    }
    AssignNewKey(base, data[0]);
  }

  /** The literal `null` parses, then throws on `data.eventType`, and so
      reaches the provider's handler like a binary frame. */
  lemma NullFrameForwarded(localId: string)
    ensures Classify(Text("null"), localId, true) == ForwardToYjs(Text("null"))
    ensures Classify(Text("null"), localId, false) == Ignore
  {
    ParseStringify(JNull);
  }

  /** Binary frames never parse, so they always take the catch branch. */
  lemma BinaryFrameForwarded(bytes: seq<bv8>, localId: string, hasYjsHandler: bool)
    ensures Classify(Binary(bytes), localId, hasYjsHandler) == Fallback(Binary(bytes), hasYjsHandler)
  {
    var s := "[object ArrayBuffer]";
    var body := s[1..];
    assert body[0] == 'o';
    SkipWsNone(body);
    assert NumberRunLength(body) == 0;
    assert ParseNumber(body) == None;
    assert ParseToken(body) == None;
    assert ParseElements(body) == None;
    assert ParseArray(body) == None;
    SkipWsNone(s);
    assert ParseToken(s) == None;
  }

  /* ---------------------------------------------------------------------
     Connection status
     --------------------------------------------------------------------- */

  /** The `status` listener: whether one status event calls `onLoad`. */
  function OnStatus(status: string): bool {
    status == ConnectedStatus
  }

  /** How many times `onLoad` runs over a sequence of status events. */
  function LoadCalls(statuses: seq<string>): nat {
    if |statuses| == 0 then 0
    else LoadCalls(statuses[..|statuses| - 1]) + (if OnStatus(statuses[|statuses| - 1]) then 1 else 0)
  }

  /** `onLoad` runs once for every `connected` status and for no other. */
  lemma {:induction false} LoadCallsCountConnected(statuses: seq<string>)
    ensures LoadCalls(statuses) == multiset(statuses)[ConnectedStatus]
  {
    if |statuses| > 0 {
      var init := statuses[..|statuses| - 1];
      LoadCallsCountConnected(init);
      assert statuses == init + [statuses[|statuses| - 1]];
      assert multiset(statuses) == multiset(init) + multiset{statuses[|statuses| - 1]};
    }
  }
}
