/** The collaborative editor page (web/src/pages/DocumentEditorPage/index.tsx):
    its title, title-editing flag, "last updated" stamp and loading flag,
    driven by the control channel's callbacks, the metadata fetch, the
    title field and the window's save shortcut. Publishing goes through the
    control channel (module Multiplexer); the editor itself and the Yjs
    document are not part of this model. */
module CollabPage {
  import opened Common
  import opened Json
  import opened Keyboard
  import opened Title
  import TitleField
  import Multiplexer

  datatype Page = Page(title: string, editingTitle: bool, lastUpdatedAt: string, loading: bool)

  /** The state hooks' initial values. */
  function Initial(): (p: Page)
    ensures p.title == UntitledDocument && p.loading && !p.editingTitle && p.lastUpdatedAt == ""
  {
    Page(UntitledDocument, false, "", true)
  }

  datatype Event =
    | PeerTitle(title: string)         // `onTitleUpdate` from the control channel
    | PeerSave(now: string)            // `onSave`, with the clock's ISO time
    | Loaded                           // `onLoad`
    | MetadataFetched(title: string, updatedAt: string)
    | StartEditingTitle
    | ChangeTitle(value: string)
    | FinishEditingTitle               // the title field's `onBlur`
    | WindowKeyDown(key: KeyEvent)
    | TitleFieldKeyDown(key: KeyEvent)  // a key pressed in the title field

  /** What the page asks the control channel to publish. */
  datatype Publication = PublishTitle(title: string) | PublishSave

  datatype Effect = Publish(p: Publication) | PreventDefault

  /** The title field's `onBlur`: the title is normalised, stored and
      published. */
  function FinishEditing(p: Page): (Page, seq<Effect>) {
    var t := NormalizeTitle(p.title);
    (p.(editingTitle := false, title := t), [Publish(PublishTitle(t))])
  }

  function Step(p: Page, e: Event): (Page, seq<Effect>) {
    match e
    case PeerTitle(t) => (p.(title := t), [])
    case PeerSave(now) => (p.(lastUpdatedAt := now), [])
    case Loaded => (p.(loading := false), [])
    case MetadataFetched(t, at) => (p.(title := t, lastUpdatedAt := at), [])
    case StartEditingTitle => (p.(editingTitle := true), [])
    case ChangeTitle(v) => (p.(title := v), [])
    case FinishEditingTitle => FinishEditing(p)
    case WindowKeyDown(k) => ShortcutKeyDown(p, k)
    case TitleFieldKeyDown(k) =>
      // the field exists only while the title is being edited; its handler
      // runs first and the event then bubbles to the window's handler
      if !p.editingTitle then (p, [])
      else if TitleField.KeyDown(TitleField.Field(true, p.title), k).1 then
        var (q, out) := FinishEditing(p);
        var (r, out2) := ShortcutKeyDown(q, k);
        (r, [PreventDefault] + out + out2)
      else ShortcutKeyDown(p, k)
  }

  /** The window's `keydown` listener. */
  function ShortcutKeyDown(p: Page, k: KeyEvent): (Page, seq<Effect>) {
    if IsSaveShortcut(k) then (p, [PreventDefault, Publish(PublishSave)]) else (p, [])
  }

  function Run(p: Page, events: seq<Event>): (Page, seq<Effect>)
    decreases |events|
  {
    if |events| == 0 then (p, [])
    else
      var (p1, out1) := Step(p, events[0]);
      var (p2, out2) := Run(p1, events[1..]);
      (p2, out1 + out2)
  }

  /** Finishing the edit leaves a non-empty title: 'Untitled document' for
      a blank one, the trimmed text otherwise; the title published is the
      title set. */
  lemma FinishEditingNormalizes(p: Page)
    ensures var (q, out) := Step(p, FinishEditingTitle);
      && q.title != ""
      && (AllWhitespace(p.title) ==> q.title == UntitledDocument)
      && (!AllWhitespace(p.title) ==> q.title == Trim(p.title))
      && !q.editingTitle
      && out == [Publish(PublishTitle(q.title))]
  {
  }

  /** Finishing twice in a row publishes the same title twice. */
  lemma FinishEditingIdempotent(p: Page)
    ensures var q := Step(p, FinishEditingTitle).0;
      Step(q, FinishEditingTitle) == (q, [Publish(PublishTitle(q.title))])
  {
    var q := FinishEditing(p).0;
    assert Step(p, FinishEditingTitle).0 == q;
    NormalizeIdempotent(p.title);
    assert FinishEditing(q) == (q, [Publish(PublishTitle(q.title))]);
    assert Step(q, FinishEditingTitle) == FinishEditing(q);
  }

  /** A key press publishes SAVE (and prevents the browser's own save)
      exactly when it is the shortcut; no key changes the page, and Shift+S
      or an 's' without Cmd or Ctrl does nothing. */
  lemma ShortcutPublishesSave(p: Page, k: KeyEvent)
    ensures Step(p, WindowKeyDown(k)).0 == p
    ensures Step(p, WindowKeyDown(k)).1 == (if IsSaveShortcut(k) then [PreventDefault, Publish(PublishSave)] else [])
    ensures Step(p, WindowKeyDown(KeyEvent("S", k.metaKey, k.ctrlKey))).1 == []
    ensures Step(p, WindowKeyDown(KeyEvent(k.key, false, false))).1 == []
  {
    SaveShortcutCases(k.key, k.metaKey, k.ctrlKey);
  }

  /** Enter in the title field prevents the default and blurs the field,
      whose `onBlur` finishes the edit: editing ends and the normalised
      title is stored and published. Any other key in the field only
      reaches the window's shortcut and leaves the edit going. */
  lemma EnterFinishesEdit(p: Page, k: KeyEvent)
    requires p.editingTitle
    ensures k.key == "Enter" ==>
      var (q, out) := Step(p, TitleFieldKeyDown(k));
      && q == Step(p, FinishEditingTitle).0
      && !q.editingTitle && q.title == NormalizeTitle(p.title)
      && out == [PreventDefault, Publish(PublishTitle(NormalizeTitle(p.title)))]
    ensures k.key != "Enter" ==>
      Step(p, TitleFieldKeyDown(k)) == Step(p, WindowKeyDown(k)) && Step(p, TitleFieldKeyDown(k)).0.editingTitle
  {
    TitleField.EnterBlurs(TitleField.Field(true, p.title), k);
    if k.key == "Enter" {
      assert !IsSaveShortcut(k);
      var (q, out) := FinishEditing(p);
      assert ShortcutKeyDown(q, k) == (q, []);
      assert [PreventDefault] + out + [] == [PreventDefault, Publish(PublishTitle(NormalizeTitle(p.title)))];
    }
  }

  /** Does this run contain an `onLoad`? */
  predicate HasLoad(events: seq<Event>) {
    exists i | 0 <= i < |events| :: events[i].Loaded?
  }

  /** Only `onLoad` clears the loading flag. */
  lemma StepLoading(p: Page, e: Event)
    ensures Step(p, e).0.loading <==> p.loading && !e.Loaded?
  {
  }

  /** The page is still loading after a run exactly when it was loading
      before and no `onLoad` came: nothing sets the flag back. */
  lemma {:induction false} LoadingUntilLoad(p: Page, events: seq<Event>)
    ensures Run(p, events).0.loading <==> p.loading && !HasLoad(events)
    decreases |events|
  {
    if |events| > 0 {
      var p1 := Step(p, events[0]).0;
      StepLoading(p, events[0]);
      assert Run(p, events).0 == Run(p1, events[1..]).0;
      LoadingUntilLoad(p1, events[1..]);
      if HasLoad(events[1..]) {
        var i :| 0 <= i < |events[1..]| && events[1..][i].Loaded?;
        assert events[i + 1].Loaded?;
      }
      if HasLoad(events) && !events[0].Loaded? {
        var i :| 0 <= i < |events| && events[i].Loaded?;
        assert events[1..][i - 1].Loaded?;
      }
    }
  }

  /** What the page body shows. */
  datatype Body = Spinner | Editor

  function BodyOf(p: Page): (b: Body)
    ensures b == Editor <==> !p.loading
  {
    if p.loading then Spinner else Editor
  }

  /** From the page's first render, the spinner is shown until the
      provider's first `onLoad`, and the editor from then on, whatever else
      happens. */
  lemma SpinnerUntilLoad(events: seq<Event>)
    ensures BodyOf(Run(Initial(), events).0) == Editor <==> HasLoad(events)
  {
    LoadingUntilLoad(Initial(), events);
  }

  /** The title as displayed when not editing. */
  function ShownTitle(p: Page): string {
    DisplayTitle(p.title)
  }

  /** A title emptied by a peer or by the metadata still shows as
      'Untitled document'. */
  lemma EmptyTitleShown(p: Page)
    ensures p.title == "" ==> ShownTitle(p) == UntitledDocument
    ensures p.title != "" ==> ShownTitle(p) == p.title
  {
  }

  /** The page's side of a control-channel action: `onSave` stamps the
      time, `onTitleUpdate` with a string sets the title. */
  function Dispatch(a: Multiplexer.Action, now: string): Option<Event> {
    match a
    case InvokeSave => Some(PeerSave(now))
    case InvokeTitleUpdate(Some(JString(t))) => Some(PeerTitle(t))
    case _ => None
  }

  /** Two sessions on one document: when one finishes editing its title,
      the frame it publishes makes the other session's page show the same
      title, and the publishing session itself ignores its echo. */
  lemma TitleReachesPeer(prov: Multiplexer.Provider, senderId: string, peerId: string,
                         mine: Page, theirs: Page, hasYjsHandler: bool)
    requires Multiplexer.CanSend(prov)
    requires peerId != senderId
    ensures var (q, out) := Step(mine, FinishEditingTitle);
      var frame := Multiplexer.PublishUpdateTitle(prov, senderId, q.title).value;
      && Dispatch(Multiplexer.Classify(Multiplexer.Text(frame), peerId, hasYjsHandler), "").Some?
      && Step(theirs, Dispatch(Multiplexer.Classify(Multiplexer.Text(frame), peerId, hasYjsHandler), "").value).0.title
         == q.title
      && Multiplexer.Classify(Multiplexer.Text(frame), senderId, hasYjsHandler) == Multiplexer.Ignore
  {
    var q := Step(mine, FinishEditingTitle).0;
    Multiplexer.PeerReceivesTitle(prov, senderId, peerId, q.title, hasYjsHandler);
    Multiplexer.PublishedFramesAreEchoes(prov, senderId, q.title, hasYjsHandler);
  }
}
