/** The server actions that call the Gemini text-generation API: model selection, the
    bounded retry with exponential backoff, the mapping of the final error to a user-facing
    message, and the rule that an empty answer is a failure. The API itself is a parameter:
    `attempt(i)` is what the `i`-th call (counting from 0) returns or throws, and the waits
    between calls are recorded as a list of delays in milliseconds instead of being slept. */
module AiActions {
  import opened Wrappers
  import opened Text
  import GeminiModels

  /** A thrown error as the classifier sees it: `error.message`, `error.cause.code` and
      `error.toString()`, with `""` standing for an absent property. */
  datatype CallError = CallError(message: string, causeCode: string, asString: string)

  /** What one call of the wrapped function did. */
  datatype Attempt<T> = Returned(value: T) | Threw(error: CallError)

  /** The request body sent to `generateContent`. */
  datatype Request = Request(model: string, contents: string)

  /** `modelId || DEFAULT_MODEL`: the supplied model id unless it is absent or empty. */
  function GetModelName(modelId: Option<string>): (name: string)
    ensures modelId.Some? && modelId.value != "" ==> name == modelId.value
    ensures modelId.None? || modelId.value == "" ==> name == GeminiModels.DEFAULT_MODEL
    ensures name != ""
  {
    if modelId.Some? && modelId.value != "" then modelId.value else GeminiModels.DEFAULT_MODEL
  }

  /** The transient-network test used both to decide on a retry and to classify the final
      error. */
  predicate IsNetworkError(e: CallError) {
    || Contains(e.message, "fetch failed")
    || Contains(e.message, "network")
    || e.causeCode == "ECONNREFUSED"
    || e.causeCode == "ETIMEDOUT"
  }

  /** The error thrown when the loop ends without a call having returned or rethrown. */
  const MAX_RETRIES_EXCEEDED: CallError :=
    CallError("Max retries exceeded", "", "Error: Max retries exceeded")

  /** The observable run of `retryWithBackoff`: its outcome, the delays it waited, and how
      many times it called the wrapped function. */
  datatype RetryRun<T> = RetryRun(result: Result<T, CallError>, waits: seq<int>, calls: nat)

  function Pow2(k: nat): (p: nat)
    ensures p >= 1
  {
    if k == 0 then 1 else 2 * Pow2(k - 1)
  }

  /** The `k`-th wait (from 0) of a loop that starts at `delay` and doubles it each round. */
  function Backoff(delay: int, k: nat): int {
    if k == 0 then delay else 2 * Backoff(delay, k - 1)
  }

  /** The `k`-th wait is `delay * 2^k`. */
  lemma {:induction false} BackoffIsPower(delay: int, k: nat)
    ensures Backoff(delay, k) == delay * Pow2(k)
  {
    if k > 0 {
      BackoffIsPower(delay, k - 1);
      assert delay * Pow2(k) == delay * (2 * Pow2(k - 1)) == 2 * (delay * Pow2(k - 1));
    }
  }

  /** Starting from a doubled delay shifts the series by one step. */
  lemma {:induction false} BackoffShift(delay: int, k: nat)
    ensures Backoff(delay * 2, k) == Backoff(delay, k + 1)
  {
    if k > 0 {
      BackoffShift(delay, k - 1);
    }
  }

  /** What the caller of the wrapped function sees from one call. */
  function Outcome<T>(a: Attempt<T>): Result<T, CallError> {
    match a
    case Returned(v) => Ok(v)
    case Threw(e) => Err(e)
  }

  /** The loop of `retryWithBackoff` from iteration `i` on, with `delay` the current wait.
      `calls` and `waits` count only this part of the run. */
  function RetryFrom<T>(attempt: nat -> Attempt<T>, maxRetries: int, i: nat, delay: int): (run: RetryRun<T>)
    ensures i >= maxRetries ==> run == RetryRun(Err(MAX_RETRIES_EXCEEDED), [], 0)
    ensures i < maxRetries ==> 1 <= run.calls <= maxRetries - i
    ensures run.calls >= 1 ==> |run.waits| == run.calls - 1
    ensures forall k :: 0 <= k < |run.waits| ==> run.waits[k] == Backoff(delay, k)
    // every call before the last threw a network error and was retried
    ensures forall m :: i <= m < i + run.calls - 1 ==>
              attempt(m).Threw? && IsNetworkError(attempt(m).error)
    // the last call decides the outcome: its value, or its error rethrown unchanged
    ensures run.calls >= 1 ==> var last := attempt(i + run.calls - 1);
              && run.result == Outcome(last)
              && (last.Returned? || !IsNetworkError(last.error) || i + run.calls == maxRetries)
    decreases maxRetries - i
  {
    if i >= maxRetries then
      RetryRun(Err(MAX_RETRIES_EXCEEDED), [], 0)
    else
      match attempt(i)
      case Returned(v) => RetryRun(Ok(v), [], 1)
      case Threw(e) =>
        if i == maxRetries - 1 || !IsNetworkError(e) then
          RetryRun(Err(e), [], 1)
        else
          var rest := RetryFrom(attempt, maxRetries, i + 1, delay * 2);
          assert forall k :: 0 <= k < |rest.waits| ==> rest.waits[k] == Backoff(delay, k + 1) by {
            forall k | 0 <= k < |rest.waits| { BackoffShift(delay, k); }
          }
          RetryRun(rest.result, [delay] + rest.waits, rest.calls + 1)
  }

  /** `retryWithBackoff(fn, maxRetries, delay)` as a specification. */
  function Retry<T>(attempt: nat -> Attempt<T>, maxRetries: int, delay: int): RetryRun<T> {
    RetryFrom(attempt, maxRetries, 0, delay)
  }

  /** A run preceded by the waits of the iterations already done. */
  function Prepend<T>(done: seq<int>, run: RetryRun<T>): RetryRun<T> {
    RetryRun(run.result, done + run.waits, |done| + run.calls)
  }

  /** One retried iteration: wait the current delay, then go on with it doubled. */
  lemma RetryStep<T>(attempt: nat -> Attempt<T>, maxRetries: int, i: nat, wait: int, done: seq<int>)
    requires i < maxRetries - 1 && attempt(i).Threw? && IsNetworkError(attempt(i).error)
    ensures Prepend(done, RetryFrom(attempt, maxRetries, i, wait))
         == Prepend(done + [wait], RetryFrom(attempt, maxRetries, i + 1, wait * 2))
  {
    var rest := RetryFrom(attempt, maxRetries, i + 1, wait * 2);
    assert RetryFrom(attempt, maxRetries, i, wait) == RetryRun(rest.result, [wait] + rest.waits, rest.calls + 1);
    assert done + ([wait] + rest.waits) == (done + [wait]) + rest.waits;
  }

  /** `retryWithBackoff`: call `attempt` until it returns, throws a non-network error, or
      the last of `maxRetries` attempts has thrown; wait `delay`, doubling it each time,
      between attempts. */
  method RetryWithBackoff<T>(attempt: nat -> Attempt<T>, maxRetries: int, delay: int)
    returns (result: Result<T, CallError>, waits: seq<int>, calls: nat)
    ensures RetryRun(result, waits, calls) == Retry(attempt, maxRetries, delay)
  {
    var wait := delay;
    waits := [];
    var i: nat := 0;
    while i < maxRetries
      invariant |waits| == i
      invariant Retry(attempt, maxRetries, delay) == Prepend(waits, RetryFrom(attempt, maxRetries, i, wait))
      decreases maxRetries - i
    {
      var outcome := attempt(i);
      calls := i + 1;
      match outcome {
        case Returned(v) =>
          result := Ok(v);
          return;
        case Threw(e) =>
          var isLastAttempt := i == maxRetries - 1;
          if isLastAttempt || !IsNetworkError(e) {
            result := Err(e);
            return;
          }
      }
      RetryStep(attempt, maxRetries, i, wait, waits);
      waits := waits + [wait];
      wait := wait * 2;
      i := i + 1;
    }
    result, calls := Err(MAX_RETRIES_EXCEEDED), 0;
  }

  function SumOf(s: seq<int>): int {
    if s == [] then 0 else s[0] + SumOf(s[1..])
  }

  /** The waits form a geometric series: for `n` waits their total is
      `delay * 2^n - delay`. */
  lemma {:induction false} TotalWait<T>(attempt: nat -> Attempt<T>, maxRetries: int, i: nat, delay: int)
    ensures var run := RetryFrom(attempt, maxRetries, i, delay);
      SumOf(run.waits) == delay * Pow2(|run.waits|) - delay
    decreases maxRetries - i
  {
    var run := RetryFrom(attempt, maxRetries, i, delay);
    if i < maxRetries && attempt(i).Threw? && i != maxRetries - 1 && IsNetworkError(attempt(i).error) {
      var rest := RetryFrom(attempt, maxRetries, i + 1, delay * 2);
      TotalWait(attempt, maxRetries, i + 1, delay * 2);
      assert run.waits == [delay] + rest.waits;
      var n := |rest.waits|;
      BackoffIsPower(delay * 2, n);
      BackoffIsPower(delay, n + 1);
      BackoffShift(delay, n);
    }
  }

  /** With no attempts allowed the wrapped function is never called. */
  lemma NoAttemptsAllowed<T>(attempt: nat -> Attempt<T>, maxRetries: int, delay: int)
    requires maxRetries <= 0
    ensures Retry(attempt, maxRetries, delay) == RetryRun(Err(MAX_RETRIES_EXCEEDED), [], 0)
  {
  }

  /** A first call that returns is the whole run: no wait, no further call. */
  lemma FirstSuccessReturned<T>(attempt: nat -> Attempt<T>, maxRetries: int, delay: int)
    requires maxRetries >= 1 && attempt(0).Returned?
    ensures Retry(attempt, maxRetries, delay) == RetryRun(Ok(attempt(0).value), [], 1)
  {
  }

  /** A non-network error is rethrown unchanged by the call that raised it, without a
      wait or a retry. */
  lemma NonNetworkErrorNotRetried<T>(attempt: nat -> Attempt<T>, maxRetries: int, delay: int, j: nat)
    requires j < maxRetries
    requires forall m :: 0 <= m < j ==> attempt(m).Threw? && IsNetworkError(attempt(m).error)
    requires attempt(j).Threw? && !IsNetworkError(attempt(j).error)
    ensures Retry(attempt, maxRetries, delay).result == Err(attempt(j).error)
    ensures Retry(attempt, maxRetries, delay).calls == j + 1
  {
    var run := Retry(attempt, maxRetries, delay);
    assert run.calls - 1 <= j;
  }

  /** When every call fails with a network error, the last one's error is rethrown after
      exactly `maxRetries` calls and `maxRetries - 1` waits. */
  lemma NetworkErrorOnLastAttempt<T>(attempt: nat -> Attempt<T>, maxRetries: int, delay: int)
    requires maxRetries >= 1
    requires forall m :: 0 <= m < maxRetries ==> attempt(m).Threw? && IsNetworkError(attempt(m).error)
    ensures Retry(attempt, maxRetries, delay).result == Err(attempt(maxRetries - 1).error)
    ensures Retry(attempt, maxRetries, delay).calls == maxRetries
    ensures |Retry(attempt, maxRetries, delay).waits| == maxRetries - 1
  {
  }

  /** With the defaults, two network failures then a success give the answer after waits of
      1000 and 2000 ms. */
  lemma TwoNetworkFailuresThenSuccess<T>(attempt: nat -> Attempt<T>)
    requires attempt(0).Threw? && IsNetworkError(attempt(0).error)
    requires attempt(1).Threw? && IsNetworkError(attempt(1).error)
    requires attempt(2).Returned?
    ensures Retry(attempt, 3, 1000) == RetryRun(Ok(attempt(2).value), [1000, 2000], 3)
  {
    var run := Retry(attempt, 3, 1000);
    assert run.calls == 3;
  }

  /** Which of the two server actions is running: they differ only in the prompt, the
      empty-answer message and the generic-error prefix. */
  datatype Operation = GenerateTextOp | GenerateTranslationOp

  /** The classes of final error, in the order they are tested. */
  datatype ErrorClass = NetworkFailure | ModelNotFound | AuthFailure | GenericFailure

  const NETWORK_MESSAGE: string :=
    "Network error: " + "Unable to connect to Gemini API. Please check your internet connection and try again."
  const AUTH_MESSAGE: string :=
    "Invalid or missing API key. " + "Please check your GEMINI_API_KEY environment variable."

  /** The fixed instruction that precedes the text to translate. */
  const TRANSLATION_INSTRUCTION: string :=
    "Translate this Chinese social media script to English. Use casual, trendy US English suitable for Instagram/TikTok."

  /** The prompt `generateTranslation` sends: the instruction, a blank line, the text. */
  function TranslationPrompt(text: string): string {
    TRANSLATION_INSTRUCTION + "\n\n" + text
  }

  /** The text to translate can be read back from the prompt: distinct texts give distinct
      prompts. */
  lemma TranslationPromptRoundTrip(text: string)
    ensures StartsWith(TranslationPrompt(text), TRANSLATION_INSTRUCTION + "\n\n")
    ensures TranslationPrompt(text)[|TRANSLATION_INSTRUCTION| + 2..] == text
  {
  }

  /** The error thrown inside the action when the API answers without text. */
  function EmptyAnswerError(op: Operation): (e: CallError) {
    var what := match op
      case GenerateTextOp => "No text generated"
      case GenerateTranslationOp => "No translation generated";
    var message := what + " from Gemini API response";
    CallError(message, "", "Error: " + message)
  }

  /** The prefix of the generic message. */
  function FailurePrefix(op: Operation): string {
    match op
    case GenerateTextOp => "Failed to generate text: "
    case GenerateTranslationOp => "Failed to generate translation: "
  }

  /** `error?.message || error?.toString() || 'Unknown error occurred'`. */
  function Detail(e: CallError): string {
    if e.message != "" then e.message
    else if e.asString != "" then e.asString
    else "Unknown error occurred"
  }

  /** The class of a final error: the tests of the `catch` block in their order. */
  function Classify(e: CallError): ErrorClass {
    if IsNetworkError(e) then NetworkFailure
    else if Contains(e.message, "MODEL_NOT_FOUND") || Contains(e.message, "404") then ModelNotFound
    else if Contains(e.message, "API_KEY") || Contains(e.message, "401") || Contains(e.message, "403") then AuthFailure
    else GenericFailure
  }

  /** The message of the error the action throws for the final error `e`; `modelName` is
      `modelId || DEFAULT_MODEL`. */
  function UserMessage(e: CallError, modelName: string, op: Operation): string {
    match Classify(e)
    case NetworkFailure => NETWORK_MESSAGE
    case ModelNotFound => "Model \"" + modelName + "\" not found. Please check the model name in settings."
    case AuthFailure => AUTH_MESSAGE
    case GenericFailure => FailurePrefix(op) + Detail(e)
  }

  /** Reads the class back from a user-facing message by its first word: "Network",
      "Model", "Invalid" or "Failed". */
  function MessageClass(message: string): ErrorClass {
    if message == [] then GenericFailure
    else if message[0] == 'N' then NetworkFailure
    else if message[0] == 'M' then ModelNotFound
    else if message[0] == 'I' then AuthFailure
    else GenericFailure
  }

  /** The four classes give four recognisably different messages: the class can be read
      back from the message alone, whatever the model name and detail. */
  lemma MessageNamesClass(e: CallError, modelName: string, op: Operation)
    ensures MessageClass(UserMessage(e, modelName, op)) == Classify(e)
  {
    match Classify(e)
    case NetworkFailure =>
      assert NETWORK_MESSAGE[0] == 'N';
    case ModelNotFound =>
      assert UserMessage(e, modelName, op)[0] == 'M';
    case AuthFailure =>
      assert AUTH_MESSAGE[0] == 'I';
    case GenericFailure =>
      assert FailurePrefix(op)[0] == 'F';
      assert UserMessage(e, modelName, op)[0] == 'F';
  }

  /** The tests run in priority order: a message naming both 404 and 403 is a missing
      model, and a network error outranks every other marker. */
  lemma ClassifyPriority(e: CallError)
    ensures IsNetworkError(e) ==> Classify(e) == NetworkFailure
    ensures !IsNetworkError(e) && Contains(e.message, "404") ==> Classify(e) == ModelNotFound
    ensures Classify(e) == AuthFailure ==> !Contains(e.message, "404") && !Contains(e.message, "MODEL_NOT_FOUND")
    ensures Classify(e) == GenericFailure ==> UserMessage(e, "", GenerateTextOp) == "Failed to generate text: " + Detail(e)
  {
  }

  /** An error raised by the first call that is not a network error but names 403 is
      reported at once as an authentication failure, unless it also names 404 or
      MODEL_NOT_FOUND. */
  lemma ForbiddenIsAuthFailureWithoutRetry(attempt: nat -> Attempt<string>, modelName: string)
    requires attempt(0).Threw? && !IsNetworkError(attempt(0).error)
    requires Contains(attempt(0).error.message, "403")
    requires !Contains(attempt(0).error.message, "404")
    requires !Contains(attempt(0).error.message, "MODEL_NOT_FOUND")
    ensures Retry(attempt, 3, 1000) == RetryRun(Err(attempt(0).error), [], 1)
    ensures UserMessage(attempt(0).error, modelName, GenerateTextOp) == AUTH_MESSAGE
  {
  }

  /** The outcome of an action once the retry loop has finished: a non-empty answer, or
      the message of the error it throws. */
  function Settle(outcome: Result<string, CallError>, modelName: string, op: Operation): (r: Result<string, string>)
    ensures r.Ok? ==> r.value != "" && outcome == Ok(r.value)
    ensures outcome.Ok? && outcome.value != "" ==> r == Ok(outcome.value)
    ensures outcome == Ok("") ==> r.Err?
    ensures outcome.Err? ==> r == Err(UserMessage(outcome.error, modelName, op))
  {
    match outcome
    case Ok(text) =>
      if text == "" then Err(UserMessage(EmptyAnswerError(op), modelName, op)) else Ok(text)
    case Err(e) => Err(UserMessage(e, modelName, op))
  }

  /** An error whose message carries none of the markers is a generic failure that
      carries the message itself. */
  lemma GenericWithoutMarkers(e: CallError, modelName: string, op: Operation)
    requires e.message != "" && e.causeCode == ""
    requires !Contains(e.message, "fetch failed") && !Contains(e.message, "network")
    requires !Contains(e.message, "MODEL_NOT_FOUND") && !Contains(e.message, "404")
    requires !Contains(e.message, "API_KEY") && !Contains(e.message, "401") && !Contains(e.message, "403")
    ensures Classify(e) == GenericFailure
    ensures UserMessage(e, modelName, op) == FailurePrefix(op) + e.message
  {
  }

  /** One character of each marker: 'c' of "fetch failed", 'w' of "network", '_' of
      "MODEL_NOT_FOUND" and "API_KEY", '4' of the status codes. */
  predicate MarkerChar(c: char) {
    c == 'c' || c == 'w' || c == '_' || c == '4'
  }

  /** A message without any of the characters `MarkerChar` names carries none of the
      markers. */
  lemma NoMarkersWithoutMarkerChars(m: string)
    requires forall k :: 0 <= k < |m| ==> !MarkerChar(m[k])
    ensures && !Contains(m, "fetch failed") && !Contains(m, "network")
            && !Contains(m, "MODEL_NOT_FOUND") && !Contains(m, "404")
            && !Contains(m, "API_KEY") && !Contains(m, "401") && !Contains(m, "403")
  {
    NotContainsChar(m, "fetch failed", 3);
    NotContainsChar(m, "network", 3);
    NotContainsChar(m, "MODEL_NOT_FOUND", 5);
    NotContainsChar(m, "404", 0);
    NotContainsChar(m, "API_KEY", 3);
    NotContainsChar(m, "401", 0);
    NotContainsChar(m, "403", 0);
  }

  /** The message of the empty-answer error is a generic failure for both actions. */
  lemma EmptyAnswerClass(op: Operation)
    ensures Classify(EmptyAnswerError(op)) == GenericFailure
  {
    var what := if op == GenerateTextOp then "No text generated" else "No translation generated";
    var rest := " from Gemini API response";
    assert forall k :: 0 <= k < |what| ==> !MarkerChar(what[k]);
    assert forall k :: 0 <= k < |rest| ==> !MarkerChar(rest[k]);
    var m := EmptyAnswerError(op).message;
    assert m == what + rest;
    NoMarkersWithoutMarkerChars(m);
  }

  /** An empty answer is never returned: it becomes the generic failure carrying the
      empty-answer message. */
  lemma EmptyAnswerIsGenericFailure(modelName: string, op: Operation)
    ensures Settle(Ok(""), modelName, op) == Err(FailurePrefix(op) + EmptyAnswerError(op).message)
  {
    EmptyAnswerClass(op);
  }

  /** The body shared by `generateText` and `generateTranslation`: resolve the model, run
      the call under `retryWithBackoff` with its defaults (3 attempts, 1000 ms), reject an
      empty answer and map every failure to its user-facing message. `gemini(request)(i)`
      is the outcome of the `i`-th call with that request. */
  method Generate(prompt: string, modelId: Option<string>, op: Operation,
                  gemini: Request -> nat -> Attempt<string>)
    returns (r: Result<string, string>, request: Request, waits: seq<int>)
    ensures request == Request(GetModelName(modelId), prompt)
    ensures var run := Retry(gemini(request), 3, 1000);
      && r == Settle(run.result, request.model, op)
      && waits == run.waits
    ensures r.Ok? ==> r.value != ""
    ensures |waits| <= 2
  {
    var modelName := GetModelName(modelId);
    request := Request(modelName, prompt);
    var result, calls;
    result, waits, calls := RetryWithBackoff(gemini(request), 3, 1000);
    r := Settle(result, modelName, op);
  }

  /** `generateText(prompt, modelId)`. */
  method GenerateText(prompt: string, modelId: Option<string>, gemini: Request -> nat -> Attempt<string>)
    returns (r: Result<string, string>, request: Request, waits: seq<int>)
    ensures request == Request(GetModelName(modelId), prompt)
    ensures r == Settle(Retry(gemini(request), 3, 1000).result, request.model, GenerateTextOp)
    ensures waits == Retry(gemini(request), 3, 1000).waits
    ensures r.Ok? ==> r.value != ""
  {
    r, request, waits := Generate(prompt, modelId, GenerateTextOp, gemini);
  }

  /** `generateTranslation(text, modelId)`: the same pipeline on the translation prompt. */
  method GenerateTranslation(text: string, modelId: Option<string>, gemini: Request -> nat -> Attempt<string>)
    returns (r: Result<string, string>, request: Request, waits: seq<int>)
    ensures request == Request(GetModelName(modelId), TranslationPrompt(text))
    ensures r == Settle(Retry(gemini(request), 3, 1000).result, request.model, GenerateTranslationOp)
    ensures waits == Retry(gemini(request), 3, 1000).waits
    ensures r.Ok? ==> r.value != ""
  {
    r, request, waits := Generate(TranslationPrompt(text), modelId, GenerateTranslationOp, gemini);
  }
}
