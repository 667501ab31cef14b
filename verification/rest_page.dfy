/** The REST-backed editor page (web/src/pages/DocumentEditorPage.tsx): the
    document's content and title, the typing flag that arms the debounced
    autosave, the save request `saveDocument` sends and the snackbar queue
    that reports its outcome.

    Requests are effects; their outcomes come back as events. The debounce
    is modelled as "an autosave is scheduled" plus a separate event for the
    timer firing. */
module RestPage {
  import opened Common
  import opened Json
  import opened Keyboard
  import opened Title

  const SavedMessage: string := "Changes saved"
  const SaveErrorMessage: string := "Error saving changes"
  const SnackbarHideMs: nat := 2000

  /** The snackbar properties the page queues. */
  datatype Snackbar = Snackbar(message: string, open: bool, autoHideMs: nat)

  /* ---------------------------------------------------------------------
     The snackbar queue
     --------------------------------------------------------------------- */

  /** `queueSnackbar`: `[...prev, snackbar]`. */
  function Enqueue(q: seq<Snackbar>, s: Snackbar): seq<Snackbar> {
    q + [s]
  }

  /** The close handler of the snackbar at `index`:
      `prev.filter((_, i) => i !== index)`. */
  function RemoveIndex(q: seq<Snackbar>, index: int): seq<Snackbar>
    decreases |q|
  {
    if |q| == 0 then []
    else RemoveIndex(q[..|q| - 1], index) + (if |q| - 1 == index then [] else [q[|q| - 1]])
  }

  /** Queuing adds one snackbar at the end and leaves the others where
      they were. */
  lemma EnqueueAppends(q: seq<Snackbar>, s: Snackbar)
    ensures |Enqueue(q, s)| == |q| + 1
    ensures Enqueue(q, s)[|q|] == s
    ensures forall i | 0 <= i < |q| :: Enqueue(q, s)[i] == q[i]
  {
  }

  /** Closing snackbar `index` removes exactly that one and keeps the rest
      in order; an index outside the queue removes nothing. */
  lemma {:induction false} RemoveIndexSplices(q: seq<Snackbar>, index: int)
    ensures 0 <= index < |q| ==> RemoveIndex(q, index) == q[..index] + q[index + 1..]
    ensures !(0 <= index < |q|) ==> RemoveIndex(q, index) == q
    decreases |q|
  {
    if |q| > 0 {
      var init := q[..|q| - 1];
      RemoveIndexSplices(init, index);
      if 0 <= index < |q| - 1 {
        assert init[..index] == q[..index];
        assert init[index + 1..] + [q[|q| - 1]] == q[index + 1..];
      } else if index == |q| - 1 {
        assert q[..index] + q[index + 1..] == init;
      } else {
        assert init + [q[|q| - 1]] == q;
      }
    }
  }

  /** Closing a snackbar that was just queued gives back the queue before. */
  lemma CloseNewest(q: seq<Snackbar>, s: Snackbar)
    ensures RemoveIndex(Enqueue(q, s), |q|) == q
  {
    RemoveIndexSplices(Enqueue(q, s), |q|);
    assert Enqueue(q, s)[..|q|] == q;
  }

  /* ---------------------------------------------------------------------
     Saving
     --------------------------------------------------------------------- */

  /** The request `saveDocument` sends: a POST with title and content for a
      new document, and for an existing one a PUT to `idRef.current` whose
      body is the empty object. */
  datatype Request =
    | Post(title: string, content: string)
    | Put(documentId: Option<string>, body: seq<Member>)

  /** How the request ended: a POST's created document id, a PUT's success,
      an axios error, or any other thrown error. */
  datatype Outcome = Created(id: string) | Updated | AxiosError | OtherError

  /** `isNewDocument` is fixed from the route when the page mounts;
      `documentId` is `idRef.current`; `loaded` is whether `documentRef`
      holds a document. The editor, and with it the `Change` event, exists
      only once `loaded` is set, but `Step` accepts `Change` in any state:
      the runs of the model include every run of the page, so the lemmas
      about all runs cover the page's runs. */
  datatype Page = Page(
    isNewDocument: bool,
    documentId: Option<string>,
    loaded: bool,
    content: string,
    title: string,
    editingTitle: bool,
    typingBegun: bool,
    snackbars: seq<Snackbar>)

  function Initial(routeId: Option<string>): (p: Page)
    ensures p.isNewDocument <==> routeId.None? || routeId == Some("")
    ensures !p.typingBegun && p.snackbars == [] && p.title == UntitledDocument
  {
    Page(routeId.None? || routeId == Some(""), routeId, false, "", UntitledDocument, false, false, [])
  }

  /** `titleOverride || documentTitle`: a missing or empty override falls
      back to the page's title. */
  function SaveTitle(titleOverride: Option<string>, current: string): (t: string)
    ensures titleOverride.Some? && titleOverride.value != "" ==> t == titleOverride.value
    ensures titleOverride.None? || titleOverride == Some("") ==> t == current
  {
    match titleOverride
    case Some(o) => if o != "" then o else current
    case None => current
  }

  function SaveRequest(p: Page, titleOverride: Option<string>): Request {
    if p.isNewDocument then Post(SaveTitle(titleOverride, p.title), p.content)
    else Put(p.documentId, [])
  }

  /** The snackbar a finished save queues, if any. */
  function OutcomeSnackbar(o: Outcome): Option<Snackbar> {
    match o
    case Created(_) => Some(Snackbar(SavedMessage, true, SnackbarHideMs))
    case Updated => Some(Snackbar(SavedMessage, true, SnackbarHideMs))
    case AxiosError => Some(Snackbar(SaveErrorMessage, true, SnackbarHideMs))
    case OtherError => None
  }

  /** The state after a save ends: a created document's id goes to `idRef`
      and the document to `documentRef`, then the outcome's snackbar, if
      any, is queued. */
  function FinishSave(p: Page, o: Outcome): Page {
    var q := if o.Created? then p.(documentId := Some(o.id), loaded := true) else p;
    match OutcomeSnackbar(o)
    case Some(s) => q.(snackbars := Enqueue(q.snackbars, s))
    case None => q
  }

  datatype Event =
    | DocumentFetched(content: string, title: string)
    | Change(content: string)          // the editor's `onChange`
    | StartEditingTitle
    | EditTitle(value: string)
    | FinishEditingTitle
    | WindowKeyDown(key: KeyEvent)
    | AutosaveFired                    // the 5 s debounce elapsed
    | SaveFinished(outcome: Outcome)
    | CloseSnackbar(index: int)

  datatype Effect = Send(request: Request) | ScheduleAutosave | PreventDefault

  /** The content effect: when the content changes and typing has begun,
      the debounced save is (re)scheduled. */
  function ContentEffects(before: Page, after: Page): seq<Effect> {
    if after.content != before.content && after.typingBegun then [ScheduleAutosave] else []
  }

  /** `handleFinishEditingTitle`: only a blank title is written back to the
      page; the save gets the trimmed title as its override. */
  function FinishEditing(p: Page): (Page, seq<Effect>) {
    var trimmed := Trim(p.title);
    if trimmed == "" then
      var q := p.(editingTitle := false, title := UntitledDocument);
      (q, [Send(SaveRequest(q, Some(UntitledDocument)))])
    else
      var q := p.(editingTitle := false);
      (q, [Send(SaveRequest(q, Some(trimmed)))])
  }

  function Step(p: Page, e: Event): (Page, seq<Effect>) {
    match e
    case DocumentFetched(c, t) =>
      var q := p.(loaded := true, content := c, title := t);
      (q, ContentEffects(p, q))
    case Change(c) =>
      var q := p.(typingBegun := true, content := c);
      (q, ContentEffects(p, q))
    case StartEditingTitle => (p.(editingTitle := true), [])
    case EditTitle(v) => (p.(title := v), [])
    case FinishEditingTitle => FinishEditing(p)
    case WindowKeyDown(k) =>
      if IsSaveShortcut(k) then (p, [PreventDefault, Send(SaveRequest(p, None))]) else (p, [])
    case AutosaveFired => (p, [Send(SaveRequest(p, None))])
    case SaveFinished(o) => (FinishSave(p, o), [])
    case CloseSnackbar(i) => (p.(snackbars := RemoveIndex(p.snackbars, i)), [])
  }

  function Run(p: Page, events: seq<Event>): (Page, seq<Effect>)
    decreases |events|
  {
    if |events| == 0 then (p, [])
    else
      var (p1, out1) := Step(p, events[0]);
      var (p2, out2) := Run(p1, events[1..]);
      (p2, out1 + out2)
  }

  /* ---------------------------------------------------------------------
     Properties
     --------------------------------------------------------------------- */

  /** Finishing a blank title edit sets and saves 'Untitled document'; a
      non-blank one saves the trimmed title and leaves the shown title as
      typed. For an existing document the PUT carries no title at all. */
  lemma FinishEditingSaves(p: Page)
    ensures var (q, out) := Step(p, FinishEditingTitle);
      && !q.editingTitle
      && |out| == 1 && out[0].Send?
      && (AllWhitespace(p.title) ==> q.title == UntitledDocument)
      && (!AllWhitespace(p.title) ==> q.title == p.title)
      && (p.isNewDocument ==> out[0].request == Post(NormalizeTitle(p.title), p.content))
      && (!p.isNewDocument ==> out[0].request == Put(p.documentId, []))
  {
    TrimEmptyIff(p.title);
    var r := FinishEditing(p);
    assert Step(p, FinishEditingTitle) == r;
    var t := Trim(p.title);
    if t == "" {
      var q := p.(editingTitle := false, title := UntitledDocument);
      assert r == (q, [Send(SaveRequest(q, Some(UntitledDocument)))]);
      assert NormalizeTitle(p.title) == UntitledDocument;
    } else {
      var q := p.(editingTitle := false);
      assert r == (q, [Send(SaveRequest(q, Some(t)))]);
      assert NormalizeTitle(p.title) == t;
    }
  }

  /** What one event does to the two flags, and what it emits: a page's
      kind never changes, only a content edit sets the typing flag, a save
      is a POST exactly on a new document's page, and no autosave is
      scheduled while the typing flag is clear. */
  lemma StepFacts(p: Page, e: Event)
    ensures var (q, out) := Step(p, e);
      && q.isNewDocument == p.isNewDocument
      && q.typingBegun == (p.typingBegun || e.Change?)
      && (forall i | 0 <= i < |out| :: out[i].Send? ==> (out[i].request.Post? <==> p.isNewDocument))
      && (!q.typingBegun ==> forall i | 0 <= i < |out| :: out[i] != ScheduleAutosave)
  {
    match e
    case FinishEditingTitle =>
      var (q, out) := FinishEditing(p);
      assert Step(p, e) == (q, out);
      assert |out| == 1 && out[0].Send? && out[0].request.Post? == p.isNewDocument;
    case _ =>
  }

  /** Over any run the page's kind stays as it was, and every save it
      sends is a POST when the page is a new document's and a PUT when it
      is not. */
  lemma {:induction false} SaveKindFixed(p: Page, events: seq<Event>)
    ensures Run(p, events).0.isNewDocument == p.isNewDocument
    ensures forall i | 0 <= i < |Run(p, events).1| ::
      Run(p, events).1[i].Send? ==> (Run(p, events).1[i].request.Post? <==> p.isNewDocument)
    decreases |events|
  {
    if |events| > 0 {
      var (p1, out1) := Step(p, events[0]);
      StepFacts(p, events[0]);
      SaveKindFixed(p1, events[1..]);
      var (p2, out2) := Run(p1, events[1..]);
      assert Run(p, events) == (p2, out1 + out2);
      forall i | 0 <= i < |out1 + out2| && (out1 + out2)[i].Send?
        ensures (out1 + out2)[i].request.Post? <==> p.isNewDocument
      {
        if i >= |out1| {
          assert (out1 + out2)[i] == out2[i - |out1|];
        }
      }
    }
  }

  /** A page opened without an id never stops posting: every save in any
      run is a POST, even after the first POST created the document. */
  lemma NewDocumentAlwaysPosts(p: Page, events: seq<Event>)
    requires p.isNewDocument
    ensures Run(p, events).0.isNewDocument
    ensures forall i | 0 <= i < |Run(p, events).1| :: Run(p, events).1[i].Send? ==> Run(p, events).1[i].request.Post?
  {
    SaveKindFixed(p, events);
  }

  /** The route alone decides the kind of every save: from a page opened
      on `routeId`, whatever happens, a save is a POST exactly when the
      route had no id or an empty one, and a PUT otherwise. */
  lemma RouteDecidesRequest(routeId: Option<string>, events: seq<Event>)
    ensures var out := Run(Initial(routeId), events).1;
      forall i | 0 <= i < |out| :: out[i].Send? ==>
        (out[i].request.Post? <==> routeId.None? || routeId == Some(""))
  {
    SaveKindFixed(Initial(routeId), events);
  }

  /** The typing flag after a run: set exactly when it was set before or the
      run contains an edit of the content. */
  predicate HasChange(events: seq<Event>) {
    exists i | 0 <= i < |events| :: events[i].Change?
  }

  /** An event sequence has an edit exactly when its head is one or its
      tail has one. */
  lemma HasChangeCons(events: seq<Event>)
    requires |events| > 0
    ensures HasChange(events) <==> events[0].Change? || HasChange(events[1..])
  {
    if HasChange(events[1..]) {
      var i :| 0 <= i < |events[1..]| && events[1..][i].Change?;
      assert events[i + 1].Change?;
    }
    if HasChange(events) && !events[0].Change? {
      var i :| 0 <= i < |events| && events[i].Change?;
      assert events[1..][i - 1].Change?;
    }
  }

  lemma {:induction false} TypingFlag(p: Page, events: seq<Event>)
    ensures Run(p, events).0.typingBegun <==> p.typingBegun || HasChange(events)
    decreases |events|
  {
    if |events| > 0 {
      var p1 := Step(p, events[0]).0;
      StepFacts(p, events[0]);
      TypingFlag(p1, events[1..]);
      HasChangeCons(events);
      assert Run(p, events).0 == Run(p1, events[1..]).0;
    }
  }

  /** Until the first edit no autosave is scheduled, whatever else happens
      (the fetched document's content included). */
  lemma {:induction false} NoAutosaveBeforeTyping(p: Page, events: seq<Event>)
    requires !p.typingBegun && !HasChange(events)
    ensures forall i | 0 <= i < |Run(p, events).1| :: Run(p, events).1[i] != ScheduleAutosave
    decreases |events|
  {
    if |events| > 0 {
      var (p1, out1) := Step(p, events[0]);
      HasChangeCons(events);
      StepFacts(p, events[0]);
      NoAutosaveBeforeTyping(p1, events[1..]);
      var (p2, out2) := Run(p1, events[1..]);
      assert Run(p, events) == (p2, out1 + out2);
    }
  }

  /** An edit that changes the content schedules an autosave, and only a
      content change under a set typing flag does. */
  lemma AutosaveGate(p: Page, e: Event)
    ensures var (q, out) := Step(p, e);
      (ScheduleAutosave in out <==> q.typingBegun && q.content != p.content)
    ensures e.Change? && e.content != p.content ==> ScheduleAutosave in Step(p, e).1
  {
  }

  /** A finished save queues 'Changes saved' on success, 'Error saving
      changes' on an axios error and nothing on any other error; earlier
      snackbars stay in place. */
  lemma SaveOutcomeReported(p: Page, o: Outcome)
    ensures var q := Step(p, SaveFinished(o)).0;
      && q.snackbars[..|p.snackbars|] == p.snackbars
      && (o.OtherError? ==> q.snackbars == p.snackbars)
      && (!o.OtherError? ==> |q.snackbars| == |p.snackbars| + 1)
      && ((o.Created? || o.Updated?) ==> q.snackbars[|p.snackbars|].message == SavedMessage)
      && (o.AxiosError? ==> q.snackbars[|p.snackbars|].message == SaveErrorMessage)
      && (o.Created? ==> q.documentId == Some(o.id) && q.loaded)
  {
    var q := if o.Created? then p.(documentId := Some(o.id), loaded := true) else p;
    match OutcomeSnackbar(o)
    case Some(s) => EnqueueAppends(q.snackbars, s);
    case None =>
  }

  /** The shortcut sends `saveDocument()` with no override, so the title
      sent is the page's title; other keys do nothing, Shift+S and an 's'
      without Cmd or Ctrl among them. */
  lemma ShortcutSaves(p: Page, k: KeyEvent)
    ensures Step(p, WindowKeyDown(k)).0 == p
    ensures IsSaveShortcut(k) ==> Step(p, WindowKeyDown(k)).1 == [PreventDefault, Send(SaveRequest(p, None))]
    ensures !IsSaveShortcut(k) ==> Step(p, WindowKeyDown(k)).1 == []
    ensures p.isNewDocument ==> SaveRequest(p, None) == Post(p.title, p.content)
    ensures Step(p, WindowKeyDown(KeyEvent("S", k.metaKey, k.ctrlKey))).1 == []
    ensures Step(p, WindowKeyDown(KeyEvent(k.key, false, false))).1 == []
  {
    SaveShortcutCases(k.key, k.metaKey, k.ctrlKey);
  }
}
