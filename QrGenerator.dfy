/** The `App` component's generation state (src/App.tsx:165-168, 194-195):
    the `useEffect` that validates and gates every change
    (src/App.tsx:289-322), `generateQRCode` (src/App.tsx:324-358) and the
    guards of `downloadQRCode` and `copyToClipboard` (src/App.tsx:360-398).
    `purify` stands for DOMPurify, `encode` for `QRCode.toDataURL` and `now`
    for `Date.now()`. */
module QrGenerator {
  import opened JsText
  import opened Sanitizer
  import opened Validation
  import opened RateGate

  datatype ErrorCorrectionLevel = L | M | Q | H

  /** `QROptions`, with the two colors of `color` as fields of their own. */
  datatype QrOptions = QrOptions(
    errorCorrectionLevel: ErrorCorrectionLevel,
    width: int,
    margin: int,
    dark: JsString,
    light: JsString)

  const DefaultOptions := QrOptions(H, 256, 4, Ascii("#3A5233"), Ascii("#FFFFFF"))

  /** What `await QRCode.toDataURL(text, options)` gave: a string, or an
      exception. */
  datatype EncoderResult = Encoded(dataUrl: JsString) | EncoderFailed

  /** `Math.min(Math.max(x, lo), hi)`. */
  function Clamp(x: int, lo: int, hi: int): (r: int)
    requires lo <= hi
    ensures lo <= r <= hi
    ensures lo <= x <= hi ==> r == x
    ensures x < lo ==> r == lo
    ensures x > hi ==> r == hi
  {
    var atLeast := if x > lo then x else lo;
    if atLeast < hi then atLeast else hi
  }

  /** The options handed to the encoder: width forced into [128, 1024] and
      margin into [0, 10], each left alone when already in range; the level
      and colors are passed through. */
  function EncoderOptions(o: QrOptions): (e: QrOptions)
    ensures 128 <= e.width <= 1024 && 0 <= e.margin <= 10
    ensures 128 <= o.width <= 1024 ==> e.width == o.width
    ensures 0 <= o.margin <= 10 ==> e.margin == o.margin
    ensures e.errorCorrectionLevel == o.errorCorrectionLevel
    ensures e.dark == o.dark && e.light == o.light
  {
    o.(width := Clamp(o.width, 128, 1024), margin := Clamp(o.margin, 0, 10))
  }

  const PngDataUrlPrefix: JsString := Ascii("data:image/png;base64,")

  /** `s.startsWith('data:image/png;base64,')`. */
  predicate HasPngPrefix(s: JsString) {
    |PngDataUrlPrefix| <= |s| && s[..|PngDataUrlPrefix|] == PngDataUrlPrefix
  }

  /** Whether the effect goes on to the gate: the raw input is not blank and
      validation found nothing or only a warning (src/App.tsx:293). */
  predicate MayGenerate(inputText: JsString, error: Option<ValidationError>) {
    Trim(inputText) != [] && (error.None? || error.value.Kind() == Warning)
  }

  /** The outcome of one run of the effect, given the outcome of validation. */
  function EffectOutcome(inputText: JsString, error: Option<ValidationError>, q: Quota, now: int): (o: GateOutcome)
    ensures o == Cleared <==> !MayGenerate(inputText, error)
    ensures o != Cleared ==> o == TimeGate(q, now)
  {
    if MayGenerate(inputText, error) then TimeGate(q, now) else Cleared
  }

  /** An error from validation always clears the image: only warnings let
      generation go ahead. */
  lemma ErrorsNeverGenerate(purify: JsString -> JsString, inputText: JsString, q: Quota, now: int)
    requires var e := Validate(purify, inputText); e.Some? && e.value.Kind() == Error
    ensures EffectOutcome(inputText, Validate(purify, inputText), q, now) == Cleared
  {
  }

  /** A raw input that is not blank but sanitizes to nothing passes
      validation and still reaches the gate, so the encoder may be asked for
      the empty text. DOMPurify does this to a lone `<script>` element. */
  lemma EmptySanitizedTextReachesEncoder(purify: JsString -> JsString, text: JsString, q: Quota, now: int)
    requires Trim(text) != [] && Sanitize(purify, text) == []
    ensures Validate(purify, text) == None
    ensures EffectOutcome(text, Validate(purify, text), q, now) == TimeGate(q, now)
  {
  }

  /** One such input is a single U+0001, which the control filter removes
      even when the purifier leaves it alone. */
  lemma ControlOnlyTextReachesEncoder(purify: JsString -> JsString, q: Quota, now: int)
    requires purify([0x01]) == [0x01]
    ensures Sanitize(purify, [0x01]) == []
    ensures Validate(purify, [0x01]) == None
    ensures EffectOutcome([0x01], Validate(purify, [0x01]), q, now) == TimeGate(q, now)
  {
    assert RemoveAll([0x01], IsStrippedControl) == [];
    assert Trim([0x01]) != [] by {
      assert !IsJsSpace(0x01);
    }
    EmptySanitizedTextReachesEncoder(purify, [0x01], q, now);
  }

  /** Text with no stripped control and no white space at its ends, followed
      by one space, trims and sanitizes back to the text itself. */
  lemma PaddedTextSanitizes(purify: JsString -> JsString, s: JsString)
    requires purify(s + [0x20]) == s + [0x20]
    requires s != [] && !IsJsSpace(s[0]) && !IsJsSpace(s[|s| - 1])
    requires forall k :: 0 <= k < |s| ==> !IsStrippedControl(s[k])
    ensures Trim(s + [0x20]) == s
    ensures Sanitize(purify, s + [0x20]) == s
  {
    var t := s + [0x20];
    RemoveAllConcat(s, [0x20], IsStrippedControl);
    assert RemoveAll([0x20], IsStrippedControl) == [0x20];
    assert RemoveAll(t, IsStrippedControl) == t;
    assert LeadingSpaces(t) == 0;
    assert IsJsSpace(t[|s|]) && t[|s| - 1] == s[|s| - 1];
    assert |Trim(t)| == |s|;
  }

  /** Unsafe text that sanitizing leaves alone is rejected, but the same
      text followed by one space is only warned about: it passes the test
      of the effect (src/App.tsx:293) and goes on to the rate-limit and
      interval checks; when it is generated, the encoder gets the unsafe
      text itself. */
  lemma PaddedUnsafeTextReachesEncoder(purify: JsString -> JsString, s: JsString, q: Quota, now: int)
    requires purify(s) == s && purify(s + [0x20]) == s + [0x20]
    requires s != [] && !IsJsSpace(s[0]) && !IsJsSpace(s[|s| - 1])
    requires forall k :: 0 <= k < |s| ==> !IsStrippedControl(s[k])
    requires |s| <= MaxQrLength && HasDangerousContent(s)
    ensures Validate(purify, s) == Some(UnsafeContent)
    ensures Sanitize(purify, s + [0x20]) == s
    ensures Validate(purify, s + [0x20]) == Some(InvalidCharacters)
    ensures EffectOutcome(s + [0x20], Validate(purify, s + [0x20]), q, now) == TimeGate(q, now)
  {
    var t := s + [0x20];
    assert Validate(purify, s) == Some(UnsafeContent) by {
      PlainTextKept(purify, s);
    }
    PaddedTextSanitizes(purify, s);
    assert Validate(purify, t) == Some(InvalidCharacters) by {
      PlainTextPaddingOnlyWarns(purify, t);
    }
  }

  // ---------------------------------------------------------------------
  // The download file name

  /** The class that `/[^a-zA-Z0-9.-]/g` removes. */
  predicate IsUnsafeFilenameUnit(u: CodeUnit) {
    !((0x30 <= u <= 0x39) || (0x41 <= u <= 0x5A) || (0x61 <= u <= 0x7A) || u == 0x2E || u == 0x2D)
  }

  /** `${n}` for a non-negative integer below 10^21 (every `Date.now()`
      value is): its decimal digits, no leading zero. */
  function Decimal(n: nat): (r: JsString)
    ensures |r| >= 1
    ensures forall k :: 0 <= k < |r| ==> IsDigitUnit(r[k])
    ensures |r| > 1 ==> r[0] != 0x30
  {
    if n < 10 then [0x30 + n] else Decimal(n / 10) + [0x30 + n % 10]
  }

  /** The number a string of decimal digits denotes. */
  function DecimalValue(s: JsString): nat
    requires forall k :: 0 <= k < |s| ==> IsDigitUnit(s[k])
  {
    if s == [] then 0
    else
      assert IsDigitUnit(s[|s| - 1]);
      10 * DecimalValue(s[..|s| - 1]) + (s[|s| - 1] as int - 0x30)
  }

  /** The digits in the file name denote the timestamp itself. */
  lemma {:induction false} DecimalRoundTrip(n: nat)
    ensures DecimalValue(Decimal(n)) == n
  {
    if n >= 10 {
      var s := Decimal(n);
      assert s[..|s| - 1] == Decimal(n / 10);
      DecimalRoundTrip(n / 10);
    }
  }

  /** The name `downloadQRCode` gives the file: it holds only
      `[A-Za-z0-9.-]`, and since the filter removes nothing from it, it is
      `qr-code-<digits>.png`. */
  function DownloadFilename(timestamp: nat): (r: JsString)
    ensures forall k :: 0 <= k < |r| ==> !IsUnsafeFilenameUnit(r[k])
    ensures r == Ascii("qr-code-") + Decimal(timestamp) + Ascii(".png")
  {
    var name := Ascii("qr-code-") + Decimal(timestamp) + Ascii(".png");
    assert forall k :: 0 <= k < |name| ==> !IsUnsafeFilenameUnit(name[k]);
    RemoveAll(name, IsUnsafeFilenameUnit)
  }

  /** What `downloadQRCode` does: refuse, or click a link with this file name
      and address. */
  datatype DownloadAction = DownloadRefused | Download(filename: JsString, href: JsString)

  /** How far `copyToClipboard` gets before the clipboard API is called. */
  datatype CopyAction = CopyRefused | NeedsSecureContext | WriteImage(dataUrl: JsString)

  // ---------------------------------------------------------------------
  // The component state

  class QrApp {
    var inputText: JsString
    var options: QrOptions
    var qrDataUrl: JsString
    var validationError: Option<ValidationError>
    var lastGenerationTime: int
    var generationCount: nat

    /** The image held is either none or a PNG data URL. */
    ghost predicate Valid()
      reads this
    {
      qrDataUrl == [] || HasPngPrefix(qrDataUrl)
    }

    function Counters(): Quota
      reads this
    {
      Quota(lastGenerationTime, generationCount)
    }

    /** The initial `useState` values. */
    constructor ()
      ensures Valid()
      ensures inputText == [] && options == DefaultOptions
      ensures qrDataUrl == [] && validationError == None
      ensures lastGenerationTime == 0 && generationCount == 0
    {
      inputText := [];
      options := DefaultOptions;
      qrDataUrl := [];
      validationError := None;
      lastGenerationTime := 0;
      generationCount := 0;
    }

    /** The text area's `onChange` (src/App.tsx:464). */
    method SetInputText(text: JsString)
      requires Valid()
      modifies this
      ensures Valid()
      ensures inputText == text
      ensures options == old(options) && qrDataUrl == old(qrDataUrl)
      ensures validationError == old(validationError) && Counters() == old(Counters())
    {
      inputText := text;
    }

    /** The size slider's `onChange` (src/App.tsx:492-494). */
    method SetWidth(width: int)
      requires Valid()
      modifies this
      ensures Valid()
      ensures options == old(options).(width := width)
      ensures inputText == old(inputText) && qrDataUrl == old(qrDataUrl)
      ensures validationError == old(validationError) && Counters() == old(Counters())
    {
      options := options.(width := width);
    }

    /** `generateQRCode`: it counts the generation, encodes the sanitized
        text with clamped options, and keeps the result only when it is a PNG
        data URL; otherwise, or when the encoder throws, it shows the generic
        error and drops the image. */
    method GenerateQrCode(purify: JsString -> JsString, encode: (JsString, QrOptions) -> EncoderResult, now: int)
      requires Valid()
      modifies this
      ensures Valid()
      ensures lastGenerationTime == now && generationCount == old(generationCount) + 1
      ensures inputText == old(inputText) && options == old(options)
      ensures var result := encode(Sanitize(purify, inputText), EncoderOptions(options));
              if result.Encoded? && HasPngPrefix(result.dataUrl)
              then qrDataUrl == result.dataUrl && validationError == old(validationError)
              else qrDataUrl == [] && validationError == Some(GenerationFailed)
    {
      lastGenerationTime := now;
      generationCount := generationCount + 1;
      var sanitizedText := Sanitize(purify, inputText);
      var qrCodeOptions := QrOptions(
        options.errorCorrectionLevel,
        Clamp(options.width, 128, 1024),
        Clamp(options.margin, 0, 10),
        options.dark,
        options.light);
      var result := encode(sanitizedText, qrCodeOptions);
      if result.Encoded? && HasPngPrefix(result.dataUrl) {
        qrDataUrl := result.dataUrl;
      } else {
        validationError := Some(GenerationFailed);
        qrDataUrl := [];
      }
    }

    /** One run of the `useEffect`. It always shows the validation outcome
        first; input that is blank or has an error clears the image; the rate
        limit replaces the outcome by its warning; an early change is
        deferred; otherwise the count is reset after a quiet minute and the
        image is generated. */
    method RunEffect(purify: JsString -> JsString, encode: (JsString, QrOptions) -> EncoderResult, now: int)
      returns (outcome: GateOutcome)
      requires Valid()
      modifies this
      ensures Valid()
      ensures inputText == old(inputText) && options == old(options)
      ensures outcome == EffectOutcome(old(inputText), Validate(purify, old(inputText)), old(Counters()), now)
      ensures outcome == Cleared ==>
                && qrDataUrl == [] && validationError == Validate(purify, old(inputText))
                && Counters() == old(Counters())
      ensures outcome == RateLimited ==>
                && qrDataUrl == old(qrDataUrl) && validationError == Some(RateLimitExceeded)
                && Counters() == old(Counters())
      ensures outcome.Deferred? ==>
                && qrDataUrl == old(qrDataUrl) && validationError == Validate(purify, old(inputText))
                && Counters() == old(Counters())
      ensures outcome == Generated ==>
                && Counters() == AfterGeneration(old(Counters()), now)
                && var result := encode(Sanitize(purify, old(inputText)), EncoderOptions(old(options)));
                   if result.Encoded? && HasPngPrefix(result.dataUrl)
                   then qrDataUrl == result.dataUrl && validationError == Validate(purify, old(inputText))
                   else qrDataUrl == [] && validationError == Some(GenerationFailed)
    {
      var text := inputText;
      var error := Validate(purify, text);
      var counters := Counters();
      validationError := error;
      if MayGenerate(text, error) {
        var timeSinceLastGeneration := now - counters.lastGenerationTime;
        if timeSinceLastGeneration > WindowMs {
          generationCount := 0;
        }
        if counters.generationCount >= MaxPerWindow && timeSinceLastGeneration < WindowMs {
          validationError := Some(RateLimitExceeded);
          return RateLimited;
        }
        if timeSinceLastGeneration < MinIntervalMs {
          return Deferred(MinIntervalMs - timeSinceLastGeneration);
        }
        assert generationCount == AfterGeneration(counters, now).generationCount - 1;
        GenerateQrCode(purify, encode, now);
        outcome := Generated;
      } else {
        qrDataUrl := [];
        outcome := Cleared;
      }
    }

    /** `downloadQRCode` up to the link click: it refuses anything but a PNG
        data URL and otherwise names the file after the timestamp. */
    method DownloadQrCode(timestamp: nat) returns (action: DownloadAction)
      requires Valid()
      ensures action == DownloadRefused <==> !HasPngPrefix(qrDataUrl)
      ensures action == DownloadRefused <==> qrDataUrl == []
      ensures action.Download? ==> action.href == qrDataUrl
      ensures action.Download? ==> action.filename == Ascii("qr-code-") + Decimal(timestamp) + Ascii(".png")
      ensures action.Download? ==> forall k :: 0 <= k < |action.filename| ==> !IsUnsafeFilenameUnit(action.filename[k])
    {
      if qrDataUrl == [] || !HasPngPrefix(qrDataUrl) {
        return DownloadRefused;
      }
      action := Download(DownloadFilename(timestamp), qrDataUrl);
    }

    /** `copyToClipboard` up to the clipboard call: it refuses anything but
        a PNG data URL, then needs the clipboard API in a secure context. */
    method CopyToClipboard(secureClipboard: bool) returns (action: CopyAction)
      requires Valid()
      ensures action == CopyRefused <==> !HasPngPrefix(qrDataUrl)
      ensures action == CopyRefused <==> qrDataUrl == []
      ensures action == NeedsSecureContext <==> HasPngPrefix(qrDataUrl) && !secureClipboard
      ensures action.WriteImage? ==> action.dataUrl == qrDataUrl && secureClipboard
    {
      if qrDataUrl == [] || !HasPngPrefix(qrDataUrl) {
        return CopyRefused;
      }
      if !secureClipboard {
        return NeedsSecureContext;
      }
      action := WriteImage(qrDataUrl);
    }
  }
}
