/** Document titles as both editor pages treat them: `String.prototype.trim`
    with ECMAScript's whitespace and line terminators, the fallback to
    'Untitled document' when the trimmed title is blank
    (web/src/pages/DocumentEditorPage/index.tsx and
    web/src/pages/DocumentEditorPage.tsx), and the display fallback for an
    empty title. */
module Title {

  const UntitledDocument: string := "Untitled document"

  /** The characters `trim` removes: ECMAScript's WhiteSpace (tab, vertical
      tab, form feed, space, no-break space, byte-order mark and the Zs
      category) and LineTerminator (LF, CR, line and paragraph separators). */
  predicate IsWhitespace(c: char) {
    || c == '\U{9}' || c == '\U{B}' || c == '\U{C}' || c == ' '
    || c == '\U{A0}' || c == '\U{FEFF}'
    || c == '\U{1680}' || ('\U{2000}' <= c <= '\U{200A}') || c == '\U{202F}' || c == '\U{205F}'
    || c == '\U{3000}'
    || c == '\U{A}' || c == '\U{D}' || c == '\U{2028}' || c == '\U{2029}'
  }

  predicate AllWhitespace(s: string) {
    forall i | 0 <= i < |s| :: IsWhitespace(s[i])
  }

  /** The number of leading whitespace characters. */
  function LeadingWhitespace(s: string): (n: nat)
    ensures n <= |s|
    ensures forall i | 0 <= i < n :: IsWhitespace(s[i])
    ensures n < |s| ==> !IsWhitespace(s[n])
  {
    if |s| > 0 && IsWhitespace(s[0]) then 1 + LeadingWhitespace(s[1..]) else 0
  }

  /** The number of trailing whitespace characters. */
  function TrailingWhitespace(s: string): (n: nat)
    ensures n <= |s|
    ensures forall i | |s| - n <= i < |s| :: IsWhitespace(s[i])
    ensures n < |s| ==> !IsWhitespace(s[|s| - n - 1])
  {
    if |s| > 0 && IsWhitespace(s[|s| - 1]) then 1 + TrailingWhitespace(s[..|s| - 1]) else 0
  }

  /** `s.trim()`: the part between the leading and the trailing whitespace.
      What is cut off is whitespace, and what is kept neither starts nor
      ends with it. */
  function Trim(s: string): (r: string)
    ensures exists i, j | 0 <= i <= j <= |s| ::
      r == s[i..j] && AllWhitespace(s[..i]) && AllWhitespace(s[j..])
    ensures |r| > 0 ==> !IsWhitespace(r[0]) && !IsWhitespace(r[|r| - 1])
  {
    var i := LeadingWhitespace(s);
    var n := TrailingWhitespace(s[i..]);
    var j := |s| - n;
    assert s[i..][..|s[i..]| - n] == s[i..j];
    assert AllWhitespace(s[..i]);
    assert AllWhitespace(s[j..]) by {
      forall k | 0 <= k < |s[j..]| ensures IsWhitespace(s[j..][k]) {
        assert s[j..][k] == s[i..][|s[i..]| - n + k];
      }
    }
    s[i..][..|s[i..]| - n]
  }

  /** The trim is empty exactly when the string is all whitespace. */
  lemma TrimEmptyIff(s: string)
    ensures Trim(s) == "" <==> AllWhitespace(s)
  {
    var i, j :| 0 <= i <= j <= |s| && Trim(s) == s[i..j] && AllWhitespace(s[..i]) && AllWhitespace(s[j..]);
    if Trim(s) == "" {
      forall k | 0 <= k < |s| ensures IsWhitespace(s[k]) {
        if k < i {
          assert s[..i][k] == s[k];
        } else {
          assert s[j..][k - j] == s[k];
        }
      }
    } else {
      assert s[i..j][0] == s[i];
    }
  }

  /** Trimming twice is trimming once. */
  lemma TrimIdempotent(s: string)
    ensures Trim(Trim(s)) == Trim(s)
  {
    var r := Trim(s);
    if |r| > 0 {
      TrimOfTrimmed(r);
    }
  }

  /** A string that neither starts nor ends with whitespace is its own trim. */
  lemma TrimOfTrimmed(r: string)
    requires |r| > 0 && !IsWhitespace(r[0]) && !IsWhitespace(r[|r| - 1])
    ensures Trim(r) == r
  {
    var i, j :| 0 <= i <= j <= |r| && Trim(r) == r[i..j] && AllWhitespace(r[..i]) && AllWhitespace(r[j..]);
    if i > 0 {
      assert r[..i][0] == r[0];
    }
    if j < |r| {
      assert r[j..][|r| - 1 - j] == r[|r| - 1];
    }
    assert r[0..|r|] == r;
  }

  /** The title after editing finishes: trimmed, or 'Untitled document'
      when nothing but whitespace was typed. */
  function NormalizeTitle(t: string): (r: string)
    ensures r != ""
    ensures AllWhitespace(t) ==> r == UntitledDocument
    ensures !AllWhitespace(t) ==> r == Trim(t)
    ensures !IsWhitespace(r[0]) && !IsWhitespace(r[|r| - 1])
  {
    TrimEmptyIff(t);
    var trimmed := Trim(t);
    if trimmed == "" then UntitledDocument else trimmed
  }

  /** Normalising a normalised title changes nothing. */
  lemma NormalizeIdempotent(t: string)
    ensures NormalizeTitle(NormalizeTitle(t)) == NormalizeTitle(t)
  {
    var r := NormalizeTitle(t);
    TrimOfTrimmed(r);
  }

  /** What the page shows for a title: the title, or 'Untitled document'
      in place of the empty string. */
  function DisplayTitle(t: string): (r: string)
    ensures r != ""
    ensures t != "" ==> r == t
  {
    if t == "" then UntitledDocument else t
  }

  /** A normalised title is displayed as it is. */
  lemma DisplayNormalized(t: string)
    ensures DisplayTitle(NormalizeTitle(t)) == NormalizeTitle(t)
  {
  }
}
