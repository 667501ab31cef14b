/** Key presses as the pages' `keydown` handlers see them, and the save
    shortcut both editor pages install on the window
    (web/src/pages/DocumentEditorPage/index.tsx and
    web/src/pages/DocumentEditorPage.tsx). */
module Keyboard {

  /** The fields of a `KeyboardEvent` the handlers read. */
  datatype KeyEvent = KeyEvent(key: string, metaKey: bool, ctrlKey: bool)

  /** Cmd+S or Ctrl+S: either modifier with the lower-case key 's'. */
  predicate IsSaveShortcut(e: KeyEvent) {
    (e.metaKey || e.ctrlKey) && e.key == "s"
  }

  /** Exactly the four modifier combinations with at least one of Cmd and
      Ctrl, on the key 's', are the shortcut; Shift+S ("S") is not. */
  lemma SaveShortcutCases(key: string, meta: bool, ctrl: bool)
    ensures IsSaveShortcut(KeyEvent(key, meta, ctrl)) <==> key == "s" && (meta || ctrl)
    ensures !IsSaveShortcut(KeyEvent("S", meta, ctrl))
    ensures !IsSaveShortcut(KeyEvent(key, false, false))
  {
  }
}
