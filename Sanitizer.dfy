/** `sanitizeInput` (src/App.tsx:209-221): HTML stripping by DOMPurify, then
    removal of disallowed control characters, then `trim()`. */
module Sanitizer {
  import opened JsText

  /** The class of `/[\x00-\x08\x0B\x0C\x0E-\x1F\x7F]/g`: the C0 controls
      other than tab, line feed and carriage return, and DEL. */
  predicate IsStrippedControl(u: CodeUnit) {
    u <= 0x08 || u == 0x0B || u == 0x0C || (0x0E <= u <= 0x1F) || u == 0x7F
  }

  /** `sanitizeInput(text)`. `purify` stands for `DOMPurify.sanitize` called
      with no allowed tags or attributes and KEEP_CONTENT; it is a foreign
      library and is left arbitrary. The result holds no stripped control
      character, has no white space at either end, and is never longer than
      what the purifier returned. */
  function Sanitize(purify: JsString -> JsString, text: JsString): (r: JsString)
    ensures |r| <= |purify(text)|
    ensures forall k :: 0 <= k < |r| ==> !IsStrippedControl(r[k])
    ensures r == [] || (!IsJsSpace(r[0]) && !IsJsSpace(r[|r| - 1]))
  {
    Trim(RemoveAll(purify(text), IsStrippedControl))
  }

  /** Sanitizing sanitized text changes nothing, provided the purifier leaves
      that text alone (DOMPurify returns a string without `<` unchanged). */
  lemma SanitizeIdempotent(purify: JsString -> JsString, text: JsString)
    requires purify(Sanitize(purify, text)) == Sanitize(purify, text)
    ensures Sanitize(purify, Sanitize(purify, text)) == Sanitize(purify, text)
  {
    var s := Sanitize(purify, text);
    assert RemoveAll(s, IsStrippedControl) == s;
  }

  /** For input the purifier leaves alone, sanitizing keeps the length
      exactly when it keeps the text, and that happens exactly when the input
      holds no stripped control character and has no white space at either
      end. */
  lemma PlainTextKept(purify: JsString -> JsString, text: JsString)
    requires purify(text) == text
    ensures |Sanitize(purify, text)| == |text| <==> Sanitize(purify, text) == text
    ensures Sanitize(purify, text) == text <==>
              && (forall k :: 0 <= k < |text| ==> !IsStrippedControl(text[k]))
              && (text == [] || (!IsJsSpace(text[0]) && !IsJsSpace(text[|text| - 1])))
  {
    var c := RemoveAll(text, IsStrippedControl);
    var r := Trim(c);
    if |r| == |text| {
      assert |c| == |text|;
      assert c == text;
      assert LeadingSpaces(c) == 0;
      assert r == text;
    }
  }

  /** Plain input that starts or ends in white space always loses a code
      unit. */
  lemma PlainTextPaddingRemoved(purify: JsString -> JsString, text: JsString)
    requires purify(text) == text
    requires text != [] && (IsJsSpace(text[0]) || IsJsSpace(text[|text| - 1]))
    ensures |Sanitize(purify, text)| < |text|
  {
    PlainTextKept(purify, text);
  }
}
