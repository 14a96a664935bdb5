/** `clean_text` of loaders/utils.py: drops null characters, then strips the
    surrounding whitespace; everything in between, newlines included, stays. */
module CleanText {
  import opened Wrappers
  import opened Text

  /** `clean_text(text)`; `None` and the empty string give the empty string. */
  function CleanText(text: Option<string>): (r: string)
    ensures text == None || text == Some("") ==> r == ""
    ensures '\0' !in r
    ensures IsStripped(r)
    ensures text.Some? ==> |r| <= |text.value|
  {
    if text.None? || text.value == "" then ""
    else
      var t := RemoveChar(text.value, '\0');
      StripShape(t);
      var r := Strip(t);
      assert forall k :: 0 <= k < |r| ==> r[k] == t[|t| - |TrimStart(t)| + k];
      r
  }

  /** The result is exactly the null-free text between its leading and its
      trailing whitespace: any split of the null-free text into whitespace,
      a stripped middle and whitespace has that middle as the result. */
  lemma CleanTextIsTrimmedMiddle(s: string, p: string, m: string, q: string)
    requires RemoveChar(s, '\0') == p + m + q
    requires AllSpace(p) && AllSpace(q) && IsStripped(m)
    ensures CleanText(Some(s)) == m
  {
    StripUnique(p, m, q);
    if s == "" {
      assert |p + m + q| == 0;
      assert m == "";
    }
  }

  /** Cleaning twice is cleaning once. */
  lemma CleanTextIdempotent(text: Option<string>)
    ensures CleanText(Some(CleanText(text))) == CleanText(text)
  {
    var r := CleanText(text);
    if r != "" {
      assert RemoveChar(r, '\0') == r;
      StripIdempotent(RemoveChar(text.value, '\0'));
    }
  }
}
