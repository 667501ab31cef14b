/** The title input of the collaborative editor page
    (web/src/pages/DocumentEditorPage/TitleInputField.tsx): a text field
    whose width follows the title's length within [10, 40] characters and
    which gives up focus when Enter is pressed. */
module TitleField {
  import opened Keyboard

  const MinWidthCh: int := 10
  const MaxWidthCh: int := 40

  /** `value.length`: JavaScript counts UTF-16 code units, two for a
      character outside the Basic Multilingual Plane. */
  function Utf16Length(s: string): (n: nat)
    ensures |s| <= n <= 2 * |s|
  {
    if |s| == 0 then 0
    else Utf16Length(s[..|s| - 1]) + (if s[|s| - 1] as int > 0xFFFF then 2 else 1)
  }

  /** The width in `ch`: `min(40, max(value.length, 10))`. */
  function WidthCh(value: string): int {
    var len := Utf16Length(value);
    if len < MinWidthCh then MinWidthCh else if len > MaxWidthCh then MaxWidthCh else len
  }

  /** The width always lies in [10, 40], follows the length inside that
      range and sticks to the nearer bound outside it. */
  lemma WidthClamped(value: string)
    ensures MinWidthCh <= WidthCh(value) <= MaxWidthCh
    ensures MinWidthCh <= Utf16Length(value) <= MaxWidthCh ==> WidthCh(value) == Utf16Length(value)
    ensures Utf16Length(value) <= MinWidthCh ==> WidthCh(value) == MinWidthCh
    ensures Utf16Length(value) >= MaxWidthCh ==> WidthCh(value) == MaxWidthCh
  {
  }

  /** A longer title never gets a narrower field. */
  lemma WidthMonotone(a: string, b: string)
    requires Utf16Length(a) <= Utf16Length(b)
    ensures WidthCh(a) <= WidthCh(b)
  {
  }

  /** A title in the Basic Multilingual Plane has one code unit per
      character. */
  lemma {:induction false} Utf16LengthBmp(s: string)
    requires forall i | 0 <= i < |s| :: s[i] as int <= 0xFFFF
    ensures Utf16Length(s) == |s|
  {
    if |s| > 0 {
      Utf16LengthBmp(s[..|s| - 1]);
    }
  }

  /** What `handleKeyDown` does to the browser's handling of a key. */
  datatype KeyResponse = KeyResponse(preventDefault: bool, blur: bool)

  /** The field as the browser holds it: its focus and its text. */
  datatype Field = Field(focused: bool, value: string)

  function HandleKeyDown(e: KeyEvent): KeyResponse {
    if e.key == "Enter" then KeyResponse(true, true) else KeyResponse(false, false)
  }

  /** A keydown on the field: a blurred field loses focus, and a key whose
      default is prevented does not reach the text. Other keys are left to
      the browser and are not modelled beyond keeping the focus. */
  function KeyDown(f: Field, e: KeyEvent): (r: (Field, bool))
    ensures r.0.value == f.value || !HandleKeyDown(e).preventDefault
  {
    var response := HandleKeyDown(e);
    if response.blur then (f.(focused := false), true) else (f, false)
  }

  /** Enter prevents the default and blurs, which calls `onBlur` and so
      finishes editing, without changing the text; any other key does
      neither. */
  lemma EnterBlurs(f: Field, e: KeyEvent)
    ensures HandleKeyDown(e).preventDefault <==> e.key == "Enter"
    ensures HandleKeyDown(e).blur <==> e.key == "Enter"
    ensures KeyDown(f, e).1 <==> e.key == "Enter"
    ensures e.key == "Enter" ==> KeyDown(f, e).0 == Field(false, f.value)
    ensures e.key != "Enter" ==> KeyDown(f, e).0 == f
  {
  }

  /** The text field the component renders, with the page's handlers of
      type `H` passed through. */
  datatype Props<H> = Props(value: string, onChange: H, onBlur: H)
  datatype TextField<H> = TextField(value: string, onChange: H, onBlur: H, placeholder: string,
                                    autoFocus: bool, widthCh: int)

  function Render<H>(p: Props<H>): TextField<H> {
    TextField(p.value, p.onChange, p.onBlur, "Enter document title", true, WidthCh(p.value))
  }

  /** The value and both handlers reach the text field unchanged. */
  lemma RenderPassesThrough<H>(p: Props<H>)
    ensures var t := Render(p);
      t.value == p.value && t.onChange == p.onChange && t.onBlur == p.onBlur
      && MinWidthCh <= t.widthCh <= MaxWidthCh
  {
    WidthClamped(p.value);
  }
}
