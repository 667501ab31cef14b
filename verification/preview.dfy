/** The document list's content preview (web/src/components/DocumentPreview.tsx):
    markup removed with the global pattern `/<\/?[^>]+(>|$)/g`, then the
    text cut to `maxChars` characters with "..." appended when it is longer.

    A match of the pattern starts at a '<' followed by at least one
    character other than '>' (the optional '/' is itself such a character);
    the greedy run of non-'>' characters then ends either at a '>', which
    the match takes, or at the end of the text, where `$` matches. */
module Preview {
  import opened Common

  const DefaultMaxChars: int := 50
  const Ellipsis: string := "..."

  /** A tag starts at position 0. */
  predicate TagAt(s: string) {
    |s| >= 2 && s[0] == '<' && s[1] != '>'
  }

  /** The length of the run of characters other than '>' at the start of `s`. */
  function NonCloseRun(s: string): (n: nat)
    ensures n <= |s|
    ensures forall i | 0 <= i < n :: s[i] != '>'
    ensures n < |s| ==> s[n] == '>'
  {
    if |s| > 0 && s[0] != '>' then 1 + NonCloseRun(s[1..]) else 0
  }

  /** The length of the match at position 0: the '<', the run, and the
      closing '>' when there is one. */
  function TagLength(s: string): (n: nat)
    requires TagAt(s)
    ensures 2 <= n <= |s|
  {
    var run := NonCloseRun(s[1..]);
    if 1 + run < |s| then run + 2 else run + 1
  }

  /** `content.replace(/<\/?[^>]+(>|$)/g, '')`: matches are found left to
      right, and a position where none starts is kept. */
  function StripTags(s: string): (r: string)
    ensures |r| <= |s|
    decreases |s|
  {
    if |s| == 0 then ""
    else if TagAt(s) then StripTags(s[TagLength(s)..])
    else [s[0]] + StripTags(s[1..])
  }

  /** No tag can start anywhere: every '<' is followed by '>' or ends the
      text. */
  predicate NoTagStart(s: string) {
    forall i | 0 <= i < |s| - 1 :: s[i] == '<' ==> s[i + 1] == '>'
  }

  lemma {:induction false} StripLeavesNoTag(s: string)
    ensures NoTagStart(StripTags(s))
    decreases |s|
  {
    if |s| > 0 {
      if TagAt(s) {
        StripLeavesNoTag(s[TagLength(s)..]);
      } else {
        var rest := StripTags(s[1..]);
        StripLeavesNoTag(s[1..]);
        var r := [s[0]] + rest;
        if |r| > 1 && s[0] == '<' {
          StripKeepsCloseHead(s[1..]);
        }
        assert forall i | 1 <= i < |r| - 1 :: r[i] == rest[i - 1] && r[i + 1] == rest[i];
      }
    }
  }

  /** A text that starts with '>' keeps it in first place. */
  lemma StripKeepsCloseHead(s: string)
    requires |s| > 0 && s[0] == '>'
    ensures |StripTags(s)| > 0 && StripTags(s)[0] == '>'
  {
  }

  /** A text where no tag starts is left as it is. */
  lemma {:induction false} StripNoTag(s: string)
    requires NoTagStart(s)
    ensures StripTags(s) == s
    decreases |s|
  {
    if |s| > 0 {
      assert !TagAt(s);
      assert NoTagStart(s[1..]) by {
        forall i | 0 <= i < |s[1..]| - 1 ensures s[1..][i] == '<' ==> s[1..][i + 1] == '>' {
          assert s[1..][i] == s[i + 1] && s[1..][i + 1] == s[i + 2];
        }
      }
      StripNoTag(s[1..]);
      assert s == [s[0]] + s[1..];
    }
  }

  /** Stripping changes a text exactly when a tag starts in it. */
  lemma StripFixedIff(s: string)
    ensures StripTags(s) == s <==> NoTagStart(s)
  {
    if NoTagStart(s) {
      StripNoTag(s);
    } else {
      StripLeavesNoTag(s);
    }
  }

  /** Stripping twice is stripping once. */
  lemma StripIdempotent(s: string)
    ensures StripTags(StripTags(s)) == StripTags(s)
  {
    StripLeavesNoTag(s);
    StripNoTag(StripTags(s));
  }

  /** A text without '<' is unchanged. */
  lemma StripWithoutOpen(s: string)
    requires forall i | 0 <= i < |s| :: s[i] != '<'
    ensures StripTags(s) == s
  {
    StripNoTag(s);
  }

  /** The end index `slice(0, m)` uses on a text of length `len`: a negative
      `m` counts back from the end. */
  function SliceEnd(len: nat, m: int): (e: nat)
    ensures e <= len
    ensures m >= 0 ==> e == if m < len then m else len
    ensures m < 0 ==> e == if len + m > 0 then len + m else 0
  {
    if m < 0 then (if len + m > 0 then len + m else 0)
    else if m < len then m else len
  }

  /** The preview, with `maxChars` defaulting to 50 when not given. */
  function PreviewText(content: string, maxChars: Option<int>): string {
    var raw := StripTags(content);
    var m := maxChars.GetOr(DefaultMaxChars);
    if |raw| > m then raw[..SliceEnd(|raw|, m)] + Ellipsis else raw
  }

  /** For a non-negative limit the preview is the stripped text when it
      fits, and otherwise its first `maxChars` characters and "...", so it
      is never longer than `maxChars + 3`. */
  lemma PreviewBounds(content: string, maxChars: Option<int>)
    requires maxChars.GetOr(DefaultMaxChars) >= 0
    ensures var p := PreviewText(content, maxChars);
      var m := maxChars.GetOr(DefaultMaxChars);
      var raw := StripTags(content);
      && |p| <= m + |Ellipsis|
      && (|raw| <= m ==> p == raw)
      && (|raw| > m ==> |p| == m + |Ellipsis| && p[..m] == raw[..m] && p[m..] == Ellipsis)
  {
  }

  /** A negative limit counts from the end, as `slice` does: the preview
      always ends in "..." after all but the last `-maxChars` characters. */
  lemma PreviewNegativeLimit(content: string, m: int)
    requires m < 0
    ensures var p := PreviewText(content, Some(m));
      var raw := StripTags(content);
      var keep := if |raw| + m > 0 then |raw| + m else 0;
      && |p| == keep + |Ellipsis|
      && p[..keep] == raw[..keep] && p[keep..] == Ellipsis
  {
  }

  /** Without a limit the preview is cut at 50 characters. */
  lemma PreviewDefault(content: string)
    ensures PreviewText(content, None) == PreviewText(content, Some(50))
    ensures |StripTags(content)| > 50 ==> |PreviewText(content, None)| == 53
  {
  }
}
