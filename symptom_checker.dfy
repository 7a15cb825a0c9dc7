/** `POST /api/symptom-checker`: translate the symptoms to English, ask the
    language model for a JSON analysis (retrying once when rate limited),
    read its answer leniently, and translate the analysis back
    (app/api/symptom-checker/route.ts). The translator, the language model
    and `JSON.parse` are parameters. */
module SymptomChecker {
  import opened Common
  import opened Strings
  import opened Http

  // ---------------------------------------------------------------------
  // Translation

  /** The translator: the translated text, or `None` when it throws. */
  type Translator = (string, string) -> Option<string>

  /** `translateText(text, target)`: the translation, or the text itself
      when the translator throws. */
  function TranslateText(text: string, target: string, translate: Translator): (r: string)
    ensures translate(text, target).Some? ==> r == translate(text, target).value
    ensures translate(text, target).None? ==> r == text
  {
    match translate(text, target)
    case Some(t) => t
    case None => text
  }

  // ---------------------------------------------------------------------
  // Generation with one retry

  /** One entry of the provider error's `errorDetails`. */
  datatype ErrorDetail = ErrorDetail(typeName: Option<string>, retryDelay: Option<string>)

  /** The provider error: its HTTP status, details and message. */
  datatype ApiError = ApiError(status: Option<int>, details: Option<seq<ErrorDetail>>, message: Option<string>)

  /** What one `generateContent` call yields: a response whose `text` may be
      missing, or a thrown error. */
  datatype Outcome = Generated(text: Option<string>) | Failed(error: ApiError)

  /** The language model: what the call numbered `attempt` (0 for the first)
      with a given prompt yields. */
  type Model = (string, nat) -> Outcome

  /** `details.find(d => d["@type"]?.includes("RetryInfo"))` */
  function FindRetryInfo(details: seq<ErrorDetail>): (r: Option<ErrorDetail>)
    ensures r.Some? <==> exists i :: 0 <= i < |details| && IsRetryInfo(details[i])
    ensures r.Some? ==> exists i :: 0 <= i < |details| && details[i] == r.value && IsRetryInfo(details[i])
                           && forall j :: 0 <= j < i ==> !IsRetryInfo(details[j])
  {
    if details == [] then None
    else if IsRetryInfo(details[0]) then Some(details[0])
    else
      var r := FindRetryInfo(details[1..]);
      assert forall i :: 1 <= i < |details| ==> details[i] == details[1..][i - 1];
      r
  }

  predicate IsRetryInfo(d: ErrorDetail) {
    d.typeName.Some? && Contains(d.typeName.value, "RetryInfo")
  }

  /** The `retryDelay` of the first retry-info detail when it is non-empty,
      else `"10s"`. A later detail is never consulted. */
  function RetryDelay(error: ApiError): (r: string)
    ensures r != ""
    ensures var d := FindRetryInfo(error.details.GetOr([]));
            d.Some? && Truthy(d.value.retryDelay) ==> r == d.value.retryDelay.value
    ensures var d := FindRetryInfo(error.details.GetOr([]));
            d.None? || !Truthy(d.value.retryDelay) ==> r == "10s"
    ensures (forall d :: d in error.details.GetOr([]) ==> !IsRetryInfo(d)) ==> r == "10s"
  {
    match FindRetryInfo(error.details.GetOr([]))
    case Some(d) => if Truthy(d.retryDelay) then d.retryDelay.value else "10s"
    case None => "10s"
  }

  /** `parseInt(delay) * 1000 || 10000`: a delay that is not a number, or is
      zero, falls back to ten seconds. */
  function DelayMs(delay: string): (ms: int)
    ensures ms != 0
    ensures ParseInt(delay).None? ==> ms == 10000
    ensures ParseInt(delay).Some? ==> ms == if ParseInt(delay).value == 0 then 10000 else ParseInt(delay).value * 1000
  {
    match ParseInt(delay)
    case None => 10000
    case Some(n) => if n == 0 then 10000 else n * 1000
  }

  /** A delay of `n` seconds, written the provider's way, waits `n` seconds. */
  lemma DelayOfSeconds(n: nat)
    requires n > 0
    ensures DelayMs(NatToString(n) + "s") == n * 1000
  {
    ParseIntNumeral(n, "s");
  }

  /** The default delay is ten seconds. */
  lemma DefaultDelay()
    ensures DelayMs("10s") == 10000
  {
    var ten := NatToString(10);
    assert ten == NatToString(1) + [DigitChar(0)];
    assert ten == "10";
    DelayOfSeconds(10);
    assert ten + "s" == "10s";
  }

  /** A zero delay (`"0s"`, `"0.5s"`, bare `"0"`) falls back to ten seconds too. */
  lemma ZeroDelay(suffix: string)
    requires suffix == [] || (!IsHexDigit(suffix[0]) && suffix[0] != 'x' && suffix[0] != 'X')
    ensures DelayMs("0" + suffix) == 10000
  {
    assert NatToString(0) == "0";
    ParseIntNumeral(0, suffix);
  }

  /** The end of `safeGenerate`: what it yields, how many calls it made and,
      after a rate limit, the delay it waited. */
  datatype Generation = Generation(outcome: Outcome, calls: nat, delayMs: Option<int>)

  predicate RateLimited(o: Outcome) {
    o.Failed? && o.error.status == Some(429)
  }

  /** `safeGenerate`: one call; when that one is rate limited (status 429),
      exactly one more after the parsed delay, whose result (success or
      error) is final; any other error is passed on untouched. */
  function SafeGenerate(prompt: string, generate: Model): (g: Generation)
    ensures g.calls == 1 || g.calls == 2
    ensures g.calls == 2 <==> RateLimited(generate(prompt, 0))
    ensures g.calls == 1 ==> g.outcome == generate(prompt, 0) && g.delayMs.None?
    ensures g.calls == 2 ==>
              g.outcome == generate(prompt, 1) && g.delayMs == Some(DelayMs(RetryDelay(generate(prompt, 0).error)))
  {
    var first := generate(prompt, 0);
    if RateLimited(first) then
      Generation(generate(prompt, 1), 2, Some(DelayMs(RetryDelay(first.error))))
    else Generation(first, 1, None)
  }

  /** A rate-limited first call whose first retry-info detail asks for
      `n` seconds (`"<n>s"`) is retried once, after `n * 1000` ms. */
  lemma RateLimitWaitsRequestedDelay(prompt: string, generate: Model, detail: ErrorDetail, n: nat)
    requires RateLimited(generate(prompt, 0))
    requires FindRetryInfo(generate(prompt, 0).error.details.GetOr([])) == Some(detail)
    requires detail.retryDelay == Some(NatToString(n) + "s") && n > 0
    ensures SafeGenerate(prompt, generate).calls == 2
    ensures SafeGenerate(prompt, generate).delayMs == Some(n * 1000)
  {
    assert RetryDelay(generate(prompt, 0).error) == NatToString(n) + "s";
    DelayOfSeconds(n);
  }

  // ---------------------------------------------------------------------
  // Reading the model's answer

  /** The analysis object; `rawResponse` is set only by the last fallback.
      `others` holds the object's remaining keys, such as `confidence`,
      which are returned as they were read. */
  datatype Analysis = Analysis(
    condition: Option<string>,
    firstAid: Option<seq<string>>,
    whenToSeeDoctor: Option<seq<string>>,
    rawResponse: Option<string>,
    others: map<string, string>)

  /** `JSON.parse`: the object read, or `None` when it throws. */
  type Parser = string -> Option<Analysis>

  /** The match of `/\{[\s\S]*\}/`: from the first `{` to the last `}`,
      when that `}` comes after the `{`. */
  function BraceSpan(text: string): (r: Option<string>)
    ensures r.Some? <==> exists i, j :: 0 <= i < j < |text| && text[i] == '{' && text[j] == '}'
    ensures r.Some? ==> exists i, j :: 0 <= i < j < |text| && text[i] == '{' && text[j] == '}' && r.value == text[i..j + 1]
                          && (forall k :: 0 <= k < i ==> text[k] != '{')
                          && (forall k :: j < k < |text| ==> text[k] != '}')
    ensures r.Some? ==> |r.value| >= 2 && r.value[0] == '{' && r.value[|r.value| - 1] == '}'
  {
    match (IndexOf(text, '{'), LastIndexOf(text, '}'))
    case (Some(i), Some(j)) =>
      if i < j then Some(text[i..j + 1]) else None
    case _ => None
  }

  /** The three readings, in order: the whole text, then its brace span,
      then `{ rawResponse: text }`. Reading never fails. */
  function Interpret(text: string, parse: Parser): (a: Analysis)
    ensures parse(text).Some? ==> a == parse(text).value
    ensures parse(text).None? && BraceSpan(text).Some? && parse(BraceSpan(text).value).Some? ==>
              a == parse(BraceSpan(text).value).value
    ensures a.rawResponse == Some(text) && a.condition.None? && a.firstAid.None? && a.whenToSeeDoctor.None?
              && a.others == map[]
              <== parse(text).None? && (BraceSpan(text).None? || parse(BraceSpan(text).value).None?)
  {
    match parse(text)
    case Some(a) => a
    case None =>
      match BraceSpan(text)
      case Some(span) =>
        (match parse(span)
         case Some(a) => a
         case None => Analysis(None, None, None, Some(text), map[]))
      case None => Analysis(None, None, None, Some(text), map[])
  }

  /** The prompt around the (translated) symptoms. */
  const PromptHead: string :=
    "\nYou are a professional medical assistant AI.\nAnalyze the following symptoms and respond strictly in JSON format.\nText: "
  const PromptTail: string :=
    "\n\nJSON format:\n{\n  \"condition\": \"<probable condition>\",\n  \"confidence\": \"<confidence level like 'High (85%)'>\",\n  \"firstAid\": [\"<tip1>\", \"<tip2>\", \"<tip3>\"],\n  \"whenToSeeDoctor\": [\"<situation1>\", \"<situation2>\"]\n}"

  function Prompt(symptoms: string): (p: string)
    ensures |p| == |PromptHead| + |symptoms| + |PromptTail|
    ensures p[..|PromptHead|] == PromptHead
    ensures p[|PromptHead|..|PromptHead| + |symptoms|] == symptoms
    ensures p[|PromptHead| + |symptoms|..] == PromptTail
  {
    PromptHead + symptoms + PromptTail
  }

  // ---------------------------------------------------------------------
  // The handler

  /** The request body: unreadable (with the thrown error's message), or its
      two fields. */
  datatype Request = Unreadable(message: Option<string>) | Body(symptoms: Option<string>, language: Option<string>)

  /** One translator call, in the order the handler issues them. */
  datatype Call = Call(text: string, target: string)

  /** The reply, the translator calls issued and the model calls made. */
  datatype Handled = Handled(reply: Reply<Analysis>, translations: seq<Call>, generations: nat)

  /** `error.message || "Server error"` */
  function ErrorMessage(message: Option<string>): (r: string)
    ensures r != ""
    ensures Truthy(message) ==> r == message.value
  {
    if Truthy(message) then message.value else "Server error"
  }

  /** The list translated element by element, a missing list as empty. */
  function TranslateAll(xs: Option<seq<string>>, language: string, translate: Translator): (r: seq<string>)
    ensures |r| == |xs.GetOr([])|
    ensures forall i :: 0 <= i < |r| ==> r[i] == TranslateText(xs.GetOr([])[i], language, translate)
  {
    var s := xs.GetOr([]);
    seq(|s|, i requires 0 <= i < |s| => TranslateText(s[i], language, translate))
  }

  function CallsFor(xs: Option<seq<string>>, language: string): (r: seq<Call>)
    ensures |r| == |xs.GetOr([])|
  {
    var s := xs.GetOr([]);
    seq(|s|, i requires 0 <= i < |s| => Call(s[i], language))
  }

  /** The back-translated analysis: condition, first-aid tips and doctor
      advice in the target language; everything else as it was. */
  function BackTranslate(a: Analysis, language: string, translate: Translator): (b: Analysis)
    ensures b.rawResponse == a.rawResponse && b.others == a.others
    ensures b.condition.Some? <==> a.condition.Some?
    ensures a.condition.Some? ==> b.condition == Some(TranslateText(a.condition.value, language, translate))
    ensures b.firstAid.Some? && |b.firstAid.value| == |a.firstAid.GetOr([])|
    ensures forall i :: 0 <= i < |b.firstAid.value| ==>
              b.firstAid.value[i] == TranslateText(a.firstAid.GetOr([])[i], language, translate)
    ensures b.whenToSeeDoctor.Some? && |b.whenToSeeDoctor.value| == |a.whenToSeeDoctor.GetOr([])|
    ensures forall i :: 0 <= i < |b.whenToSeeDoctor.value| ==>
              b.whenToSeeDoctor.value[i] == TranslateText(a.whenToSeeDoctor.GetOr([])[i], language, translate)
  {
    a.(condition := if a.condition.Some? then Some(TranslateText(a.condition.value, language, translate)) else None,
       firstAid := Some(TranslateAll(a.firstAid, language, translate)),
       whenToSeeDoctor := Some(TranslateAll(a.whenToSeeDoctor, language, translate)))
  }

  function BackCalls(a: Analysis, language: string): seq<Call> {
    (if a.condition.Some? then [Call(a.condition.value, language)] else [])
      + CallsFor(a.firstAid, language) + CallsFor(a.whenToSeeDoctor, language)
  }

  /** The target language of the answer; English (in any letter case) means
      no back-translation. */
  predicate IsEnglish(language: string) {
    Lower(language) == "english"
  }

  /** `POST`. */
  function Post(req: Request, translate: Translator, generate: Model, parse: Parser): (h: Handled)
    ensures req.Unreadable? ==> h == Handled(Fail(500, ErrorMessage(req.message)), [], 0)
    ensures req.Body? && !Truthy(req.symptoms) ==>
              h == Handled(Fail(400, "Missing 'symptoms' field in request."), [], 0)
    ensures req.Body? && Truthy(req.symptoms) ==>
              && |h.translations| >= 1 && h.translations[0] == Call(req.symptoms.value, "en")
              && var g := SafeGenerate(Prompt(TranslateText(req.symptoms.value, "en", translate)), generate);
              && h.generations == g.calls
              && (g.outcome.Failed? ==> h.reply == Fail(500, ErrorMessage(g.outcome.error.message))
                                        && |h.translations| == 1)
              && (g.outcome.Generated? ==>
                    var a := Interpret(g.outcome.text.GetOr(""), parse);
                    var language := req.language.GetOr("English");
                    h.reply == Ok(if IsEnglish(language) then a else BackTranslate(a, language, translate)))
  {
    match req
    case Unreadable(message) => Handled(Fail(500, ErrorMessage(message)), [], 0)
    case Body(symptoms, lang) =>
      if !Truthy(symptoms) then Handled(Fail(400, "Missing 'symptoms' field in request."), [], 0)
      else
        var first := Call(symptoms.value, "en");
        var translated := TranslateText(symptoms.value, "en", translate);
        var g := SafeGenerate(Prompt(translated), generate);
        match g.outcome
        case Failed(error) => Handled(Fail(500, ErrorMessage(error.message)), [first], g.calls)
        case Generated(text) =>
          var a := Interpret(text.GetOr(""), parse);
          var language := lang.GetOr("English");
          if IsEnglish(language) then Handled(Ok(a), [first], g.calls)
          else Handled(Ok(BackTranslate(a, language, translate)), [first] + BackCalls(a, language), g.calls)
  }

  /** Any letter case of "English", and a missing language, skip the
      back-translation: the answer is the analysis as read. */
  lemma EnglishAnyCase(symptoms: string, language: Option<string>, translate: Translator, generate: Model, parse: Parser)
    requires symptoms != ""
    requires language.None? || Lower(language.value) == Lower("English")
    ensures var h := Post(Body(Some(symptoms), language), translate, generate, parse);
            h.translations == [Call(symptoms, "en")]
  {
    assert Lower("English") == "english";
  }

  /** Back-translation keeps every list's length and translates each
      element on its own. */
  lemma BackTranslateElementwise(a: Analysis, language: string, translate: Translator, i: nat)
    requires i < |a.firstAid.GetOr([])|
    ensures BackTranslate(a, language, translate).firstAid.value[i]
              == TranslateText(a.firstAid.value[i], language, translate)
  {
  }

  /** When the translator always fails, back-translation changes the
      analysis only by turning missing lists into empty ones. */
  lemma FailingTranslatorKeepsText(a: Analysis, language: string, translate: Translator)
    requires forall t, l :: translate(t, l).None?
    ensures var b := BackTranslate(a, language, translate);
            b == a.(firstAid := Some(a.firstAid.GetOr([])), whenToSeeDoctor := Some(a.whenToSeeDoctor.GetOr([])))
  {
    var b := BackTranslate(a, language, translate);
    assert b.firstAid.value == a.firstAid.GetOr([]);
    assert b.whenToSeeDoctor.value == a.whenToSeeDoctor.GetOr([]);
  }
}
