/** `validateInput` (src/App.tsx:224-286): an ordered chain of checks on the
    raw and the sanitized text; the first check that fires decides the
    outcome, and `None` stands for the source's `null`. */
module Validation {
  import opened JsText
  import opened Sanitizer

  datatype Option<+T> = None | Some(value: T)

  /** The `type` field of a `ValidationError`. */
  datatype Severity = Error | Warning

  /** Every `ValidationError` value the component ever builds. */
  datatype ValidationError =
    | InvalidCharacters
    | TooLong
    | UnsafeContent
    | TooManyControlCharacters
    | LongText
    | RateLimitExceeded
    | GenerationFailed
  {
    function Kind(): Severity {
      match this
      case TooLong | UnsafeContent | GenerationFailed => Error
      case InvalidCharacters | TooManyControlCharacters | LongText | RateLimitExceeded => Warning
    }

    function Message(): string {
      match this
      case InvalidCharacters => "Input contained invalid characters that were removed. Please use plain text only."
      case TooLong => "Text is too long. Maximum 2953 characters allowed for QR codes."
      case UnsafeContent => "Input contains potentially unsafe content. Please use plain text only."
      case TooManyControlCharacters => "Input contains too many control characters."
      case LongText => "Long text may result in complex QR codes that are harder to scan."
      case RateLimitExceeded => "Rate limit exceeded. Please wait before generating more QR codes."
      case GenerationFailed => "Failed to generate QR code. Please try with different text."
    }
  }

  const MaxQrLength := 2953
  const MaxControlCharacters := 10
  const LongTextLength := 1000

  // ---------------------------------------------------------------------
  // The dangerous patterns

  /** One entry of `dangerousPatterns`: a literal matched case-insensitively,
      or `/on\w+\s*=/i`. */
  datatype Pattern = Literal(text: JsString) | EventHandler

  const DangerousPatterns: seq<Pattern> := [
    Literal(Ascii("javascript:")),
    Literal(Ascii("data:text/html")),
    Literal(Ascii("vbscript:")),
    Literal(Ascii("<script")),
    EventHandler,
    Literal(Ascii("<iframe")),
    Literal(Ascii("<object")),
    Literal(Ascii("<embed"))
  ]

  /** The literal p occurs in s at offset i, ignoring ASCII case. */
  predicate LiteralAt(s: JsString, p: JsString, i: nat) {
    && i + |p| <= |s|
    && forall k :: 0 <= k < |p| ==> LowerAscii(s[i + k]) == LowerAscii(p[k])
  }

  /** The scan behind `/p/i.test(s)` for a literal p, from offset i on. It
      holds exactly when p occurs somewhere at or after i. */
  function FindLiteralFrom(s: JsString, p: JsString, i: nat): (r: bool)
    ensures r <==> exists j: nat :: i <= j && LiteralAt(s, p, j)
    decreases |s| - i
  {
    if i + |p| > |s| then false
    else LiteralAt(s, p, i) || FindLiteralFrom(s, p, i + 1)
  }

  /** The end of the longest run of code units of class cls starting at i. */
  function SkipWhile(s: JsString, i: nat, cls: CodeUnit -> bool): (j: nat)
    requires i <= |s|
    ensures i <= j <= |s|
    ensures forall m :: i <= m < j ==> cls(s[m])
    ensures j < |s| ==> !cls(s[j])
    decreases |s| - i
  {
    if i < |s| && cls(s[i]) then SkipWhile(s, i + 1, cls) else i
  }

  /** Greedy matching of `on\w+\s*=` at offset i. */
  predicate EventHandlerAt(s: JsString, i: nat) {
    && i + 2 <= |s|
    && LowerAscii(s[i]) == 0x6F    // o
    && LowerAscii(s[i + 1]) == 0x6E  // n
    && var j := SkipWhile(s, i + 2, IsWordUnit);
       && j > i + 2
       && var k := SkipWhile(s, j, IsJsSpace);
          k < |s| && s[k] == 0x3D  // =
  }

  ghost predicate Run(s: JsString, a: int, b: int, cls: CodeUnit -> bool) {
    0 <= a <= b <= |s| && forall m :: a <= m < b ==> cls(s[m])
  }

  /** The regular expression's own meaning at offset i: `on`, then one or
      more word characters, then any white space, then `=`. */
  ghost predicate EventHandlerMatchAt(s: JsString, i: nat) {
    && i + 2 <= |s|
    && LowerAscii(s[i]) == 0x6F
    && LowerAscii(s[i + 1]) == 0x6E
    && exists j: nat, k: nat ::
         && Run(s, i + 2, j, IsWordUnit) && j > i + 2
         && Run(s, j, k, IsJsSpace) && k < |s| && s[k] == 0x3D
  }

  /** A run that ends on a code unit outside its class is exactly what
      SkipWhile finds. */
  lemma SkipWhileFindsRunEnd(s: JsString, a: nat, b: nat, cls: CodeUnit -> bool)
    requires Run(s, a, b, cls) && b < |s| && !cls(s[b])
    ensures SkipWhile(s, a, cls) == b
  {
  }

  /** The greedy scan agrees with the regular expression: backtracking
      cannot find a match that the greedy scan misses, because word
      characters, white space and `=` are three disjoint classes. */
  lemma EventHandlerScanIsRegex(s: JsString, i: nat)
    ensures EventHandlerAt(s, i) <==> EventHandlerMatchAt(s, i)
  {
    if EventHandlerAt(s, i) {
      var j := SkipWhile(s, i + 2, IsWordUnit);
      var k := SkipWhile(s, j, IsJsSpace);
      assert Run(s, i + 2, j, IsWordUnit) && Run(s, j, k, IsJsSpace);
    }
    if EventHandlerMatchAt(s, i) {
      var j: nat, k: nat :|
        && Run(s, i + 2, j, IsWordUnit) && j > i + 2
        && Run(s, j, k, IsJsSpace) && k < |s| && s[k] == 0x3D;
      assert !IsWordUnit(s[j]);
      SkipWhileFindsRunEnd(s, i + 2, j, IsWordUnit);
      SkipWhileFindsRunEnd(s, j, k, IsJsSpace);
    }
  }

  /** `/on\w+\s*=/i.test(s)` from offset i on. */
  function FindEventHandlerFrom(s: JsString, i: nat): (r: bool)
    ensures r <==> exists j: nat :: i <= j && EventHandlerAt(s, j)
    decreases |s| - i
  {
    if i + 2 > |s| then false
    else EventHandlerAt(s, i) || FindEventHandlerFrom(s, i + 1)
  }

  /** `pattern.test(s)`. */
  predicate Matches(p: Pattern, s: JsString) {
    match p
    case Literal(t) => FindLiteralFrom(s, t, 0)
    case EventHandler => FindEventHandlerFrom(s, 0)
  }

  /** The `for` loop over the patterns, which stops at the first hit: it
      finds one exactly when some pattern of the list matches. */
  function AnyMatches(patterns: seq<Pattern>, s: JsString): (r: bool)
    ensures r <==> exists i :: 0 <= i < |patterns| && Matches(patterns[i], s)
  {
    if patterns == [] then false
    else if Matches(patterns[0], s) then true
    else
      var rest := AnyMatches(patterns[1..], s);
      assert forall i :: 1 <= i < |patterns| ==> patterns[i] == patterns[1..][i - 1];
      rest
  }

  predicate HasDangerousContent(s: JsString) {
    AnyMatches(DangerousPatterns, s)
  }

  // ---------------------------------------------------------------------
  // Control characters

  /** The class of `/[\x00-\x1F\x7F-\x9F]/g`: C0 controls, DEL and C1 controls. */
  predicate IsControlOrC1(u: CodeUnit) {
    u <= 0x1F || (0x7F <= u <= 0x9F)
  }

  /** `(s.match(/[\x00-\x1F\x7F-\x9F]/g) || []).length`: the number of
      control code units, which is how much removing them would shorten s. */
  function ControlCount(s: JsString): (n: nat)
    ensures n <= |s|
    ensures n == |s| - |RemoveAll(s, IsControlOrC1)|
  {
    if s == [] then 0
    else (if IsControlOrC1(s[0]) then 1 else 0) + ControlCount(s[1..])
  }

  // ---------------------------------------------------------------------
  // validateInput

  /** `validateInput(text)`. */
  function Validate(purify: JsString -> JsString, text: JsString): (r: Option<ValidationError>)
    ensures r.Some? ==> r.value in {InvalidCharacters, TooLong, UnsafeContent, TooManyControlCharacters, LongText}
  {
    var s := Sanitize(purify, text);
    if Trim(s) == [] then None
    else if |text| != |s| then Some(InvalidCharacters)
    else if |s| > MaxQrLength then Some(TooLong)
    else if HasDangerousContent(s) then Some(UnsafeContent)
    else if ControlCount(s) > MaxControlCharacters then Some(TooManyControlCharacters)
    else if |s| > LongTextLength then Some(LongText)
    else None
  }

  /** Empty sanitized text is accepted without any warning. Because the
      sanitized text is already trimmed, "empty" and "all white space" are
      the same thing here. */
  lemma EmptyInputAccepted(purify: JsString -> JsString, text: JsString)
    requires Sanitize(purify, text) == [] || AllSpace(Sanitize(purify, text))
    ensures Validate(purify, text) == None
  {
  }

  /** For text whose sanitized form is not empty, any change of length
      yields the invalid-characters warning, before the length, pattern and
      final checks run. */
  lemma RemovedContentWarnsFirst(purify: JsString -> JsString, text: JsString)
    requires Sanitize(purify, text) != []
    ensures Validate(purify, text) == Some(InvalidCharacters) <==> |Sanitize(purify, text)| != |text|
  {
  }

  /** The length error is returned exactly when sanitizing removed nothing
      and the text is longer than 2953 code units. */
  lemma TooLongOnlyWhenNothingRemoved(purify: JsString -> JsString, text: JsString)
    ensures Validate(purify, text) == Some(TooLong) <==>
              var s := Sanitize(purify, text); |s| == |text| && |s| > MaxQrLength
  {
  }

  /** 2953 code units are not an error on length; 2954 are, once nothing
      was removed. */
  lemma LengthBoundary(purify: JsString -> JsString, text: JsString)
    ensures |Sanitize(purify, text)| == 2953 ==> Validate(purify, text) != Some(TooLong)
    ensures |Sanitize(purify, text)| == 2954 == |text| ==> Validate(purify, text) == Some(TooLong)
  {
  }

  /** Once the earlier checks pass, a dangerous pattern is an error. */
  lemma DangerousContentRejected(purify: JsString -> JsString, text: JsString, i: nat)
    requires var s := Sanitize(purify, text); s != [] && |s| == |text| && |s| <= MaxQrLength
    requires i < |DangerousPatterns| && Matches(DangerousPatterns[i], Sanitize(purify, text))
    ensures Validate(purify, text) == Some(UnsafeContent)
  {
  }

  /** The unsafe-content error is returned exactly when the earlier checks
      pass and one of the patterns matches. */
  lemma UnsafeContentExactly(purify: JsString -> JsString, text: JsString)
    ensures Validate(purify, text) == Some(UnsafeContent) <==>
              var s := Sanitize(purify, text);
              s != [] && |s| == |text| && |s| <= MaxQrLength &&
              exists i :: 0 <= i < |DangerousPatterns| && Matches(DangerousPatterns[i], s)
  {
  }

  /** The last three outcomes, in their order. */
  lemma FinalChecks(purify: JsString -> JsString, text: JsString)
    requires var s := Sanitize(purify, text);
             s != [] && |s| == |text| && |s| <= MaxQrLength && !HasDangerousContent(s)
    ensures var s := Sanitize(purify, text);
            Validate(purify, text) ==
              if ControlCount(s) > MaxControlCharacters then Some(TooManyControlCharacters)
              else if |s| > LongTextLength then Some(LongText)
              else None
  {
  }

  /** A long-text warning is only given between 1001 and 2953 code units. */
  lemma LongTextRange(purify: JsString -> JsString, text: JsString)
    requires Validate(purify, text) == Some(LongText)
    ensures LongTextLength < |Sanitize(purify, text)| <= MaxQrLength
  {
  }

  /** For input the purifier leaves alone, the length error is returned
      exactly when the input is longer than 2953 code units, holds no
      stripped control character and has no white space at either end. */
  lemma PlainTextTooLong(purify: JsString -> JsString, text: JsString)
    requires purify(text) == text
    ensures Validate(purify, text) == Some(TooLong) <==>
              && |text| > MaxQrLength
              && (forall k :: 0 <= k < |text| ==> !IsStrippedControl(text[k]))
              && !IsJsSpace(text[0]) && !IsJsSpace(text[|text| - 1])
  {
    PlainTextKept(purify, text);
  }

  /** For input the purifier leaves alone, white space at either end turns
      every input whose sanitized form is not empty into the
      invalid-characters warning: in particular a dangerous pattern followed
      by a space is only warned about, never rejected. */
  lemma PlainTextPaddingOnlyWarns(purify: JsString -> JsString, text: JsString)
    requires purify(text) == text
    requires Sanitize(purify, text) != [] && (IsJsSpace(text[0]) || IsJsSpace(text[|text| - 1]))
    ensures Validate(purify, text) == Some(InvalidCharacters)
  {
    PlainTextPaddingRemoved(purify, text);
  }
}
