/** The mock chat-completion route `POST /v1/chat/completions` and the echo
    route `POST /` of mocked_api/mock_api.py.

    The completion route reads the content of the last message, looks for a
    delay directive `d<digits>` and a line-count directive `l<digits>` in it,
    sleeps for the delay, and answers either with a fixed default text or with
    that many generated sentences joined by newlines. The sleep and the
    sentence draws are returned as a trace of effects; the sentence generator
    is a parameter, `gen(k)` being the sentence of the k-th draw.

    Turning a directive into a number and sleeping can raise after the
    request has been read: `int()` refuses digit strings longer than the
    interpreter's limit, and `time.sleep` refuses a duration whose count of
    nanoseconds does not fit in a signed 64-bit integer. Neither call is
    inside the `try` blocks, so the exception ends the request; the effects
    already performed stay in the trace. */
module MockApi {
  import opened Wrappers
  import opened Decimal
  import opened Directives
  import opened Lines
  import opened JsonValues

  const DefaultAnswer: string := "Default mock answer from mocked API"
  const EchoMessage: string := "Data received"

  /** The Python exceptions the completion route lets escape. */
  datatype PyError =
    | KeyError      // a missing dictionary key
    | IndexError    // `[-1]` of an empty list or string
    | TypeError     // subscripting a value that does not support it
    | ValueError    // `int()` of more digits than the interpreter allows
    | OverflowError // `time.sleep` of more nanoseconds than an int64 holds

  /** `sys.get_int_max_str_digits()`: the most digits `int()` converts, or 0
      for no limit (the behaviour before the limit was introduced). The
      interpreter refuses to set any other value below 640, so only limits
      meeting `ValidLimits` occur; the route itself is defined for all. */
  datatype Limits = Limits(maxStrDigits: nat)

  predicate ValidLimits(limits: Limits) {
    limits.maxStrDigits == 0 || limits.maxStrDigits >= 640
  }

  /** The limit an interpreter starts with when nothing overrides it. */
  const DefaultLimits: Limits := Limits(4300)

  /** The largest whole number of seconds whose nanoseconds fit in an int64. */
  const MaxSleepSeconds: nat := 9_223_372_036

  datatype Message = Message(content: string, role: string)
  datatype Choice = Choice(index: nat, finishReason: string, message: Message)
  datatype ChatResponse = ChatResponse(id: nat, choices: seq<Choice>)

  /** What the route does besides building its response, in order. */
  datatype Effect = Sleep(seconds: nat) | DrawSentence
  /** The effects the route performed, then its response or the exception
      that ended it. */
  datatype Completion = Completion(effects: seq<Effect>, outcome: Result<ChatResponse, PyError>)

  // ---------------------------------------------------------------------
  // Reading the request

  /** `v[key]` for a string key. */
  function Subscript(v: Json, key: string): (r: Result<Json, PyError>)
    ensures r.Success? <==> v.Obj? && key in v.fields
    ensures r.Success? ==> r.value == v.fields[key]
    ensures r.Failure? ==> r.error == (if v.Obj? then KeyError else TypeError)
  {
    match v
    case Obj(fields) => if key in fields then Success(fields[key]) else Failure(KeyError)
    case _ => Failure(TypeError)
  }

  /** `v[-1]`. On a dict it looks up the integer key -1, which a JSON object
      never has; on a string it gives the last character as a string. */
  function LastItem(v: Json): (r: Result<Json, PyError>)
    ensures r.Success? <==> (v.Arr? && |v.items| > 0) || (v.Str? && |v.s| > 0)
    ensures r.Success? && v.Arr? ==> r.value == Last(v.items)
    ensures r.Success? && v.Str? ==> r.value == Str([Last(v.s)])
    ensures r.Failure? ==>
              r.error == (if v.Arr? || v.Str? then IndexError else if v.Obj? then KeyError else TypeError)
  {
    match v
    case Arr(items) => if |items| == 0 then Failure(IndexError) else Success(items[|items| - 1])
    case Str(s) => if |s| == 0 then Failure(IndexError) else Success(Str([s[|s| - 1]]))
    case Obj(_) => Failure(KeyError)
    case _ => Failure(TypeError)
  }

  /** The request has a non-empty `messages` list whose last element is an
      object with a `content` field. */
  ghost predicate WellFormedRequest(data: map<string, Json>) {
    && "messages" in data
    && data["messages"].Arr?
    && |data["messages"].items| > 0
    && Last(data["messages"].items).Obj?
    && "content" in Last(data["messages"].items).fields
  }

  function Last<T>(xs: seq<T>): T
    requires |xs| > 0
  {
    xs[|xs| - 1]
  }

  /** `data['messages'][-1]['content']`, or the exception it raises. */
  function Instructions(data: map<string, Json>): (r: Result<Json, PyError>)
    ensures r.Success? <==> WellFormedRequest(data)
    ensures r.Success? ==> r.value == Last(data["messages"].items).fields["content"]
    ensures "messages" !in data ==> r == Failure(KeyError)
    ensures "messages" in data && data["messages"] == Arr([]) ==> r == Failure(IndexError)
    ensures "messages" in data && data["messages"].Arr? && |data["messages"].items| > 0 ==>
              var last := Last(data["messages"].items);
              && (last.Obj? && "content" !in last.fields ==> r == Failure(KeyError))
              && (!last.Obj? ==> r == Failure(TypeError))
    ensures "messages" in data && data["messages"].Str? ==>
              r == Failure(if |data["messages"].s| == 0 then IndexError else TypeError)
    ensures "messages" in data && data["messages"].Obj? ==> r == Failure(KeyError)
    ensures "messages" in data && (data["messages"].Null? || data["messages"].Bool? || data["messages"].Num?) ==>
              r == Failure(TypeError)
  {
    if "messages" !in data then Failure(KeyError)
    else
      match LastItem(data["messages"])
      case Failure(e) => Failure(e)
      case Success(last) => Subscript(last, "content")
  }

  /** The text the directive lookups scan. `re.findall` on anything but a
      string raises a TypeError, which the bare `except` swallows, so such
      content carries no directive. */
  function DirectiveText(content: Json): (r: Option<string>)
    ensures r.Some? <==> content.Str?
    ensures r.Some? ==> r.value == content.s
  {
    if content.Str? then Some(content.s) else None
  }

  /** The leftmost match text for `marker`, or `None` when there is no
      match or no text to scan. */
  function Lookup(marker: char, text: Option<string>): (r: Option<string>)
    ensures text.None? ==> r.None?
    ensures text.Some? ==> (r.None? <==> forall i :: 0 <= i < |text.value| ==> !MatchStartsAt(marker, text.value, i))
    ensures r.Some? ==> |r.value| > 0 && AllDigits(r.value)
    ensures r.Some? ==> text.Some? && exists i :: IsFirstMatch(marker, text.value, i, r.value)
  {
    match text
    case None => None
    case Some(s) => FindFirstAfter(marker, s)
  }

  /** The numeric value of a directive, or `None` when it is absent. */
  function DirectiveValue(marker: char, text: Option<string>): (r: Option<nat>)
    ensures text.None? ==> r.None?
    ensures text.Some? ==> (r.None? <==> forall i :: 0 <= i < |text.value| ==> !MatchStartsAt(marker, text.value, i))
    ensures r.Some? ==>
              text.Some? && exists i, m :: IsFirstMatch(marker, text.value, i, m) && r.value == ParseDecimal(m)
  {
    match text
    case None => None
    case Some(s) => FirstRunAfter(marker, s)
  }

  /** Python truthiness of the variables `delay` and `lines`: they keep their
      initial falsy value (`0`, `None`) when nothing matched, and otherwise
      hold the matched string, which is truthy when non-empty (`"0"` is). */
  predicate Truthy(found: Option<string>) {
    found.Some? && |found.value| > 0
  }

  // ---------------------------------------------------------------------
  // Building the response

  /** The sentences of the first `n` draws, in order. */
  function Sentences(gen: nat -> string, n: nat): (r: seq<string>)
    ensures |r| == n
    ensures forall k :: 0 <= k < n ==> r[k] == gen(k)
  {
    if n == 0 then [] else Sentences(gen, n - 1) + [gen(n - 1)]
  }

  /** The effects of drawing `n` sentences. */
  function Draws(n: nat): (r: seq<Effect>)
    ensures |r| == n
    ensures forall k :: 0 <= k < n ==> r[k] == DrawSentence
  {
    if n == 0 then [] else [DrawSentence] + Draws(n - 1)
  }

  function TotalDelay(effects: seq<Effect>): nat {
    if |effects| == 0 then 0
    else (if effects[0].Sleep? then effects[0].seconds else 0) + TotalDelay(effects[1..])
  }

  function DrawCount(effects: seq<Effect>): nat {
    if |effects| == 0 then 0
    else (if effects[0].DrawSentence? then 1 else 0) + DrawCount(effects[1..])
  }

  /** No sleep happens after a sentence has been drawn. */
  predicate SleepsBeforeDraws(effects: seq<Effect>) {
    forall i, j :: 0 <= i < j < |effects| && effects[i].DrawSentence? ==> effects[j].DrawSentence?
  }

  predicate Sleeps(effects: seq<Effect>) {
    exists i :: 0 <= i < |effects| && effects[i].Sleep?
  }

  lemma {:induction false} DrawsCounted(n: nat)
    ensures TotalDelay(Draws(n)) == 0 && DrawCount(Draws(n)) == n
  {
    if n > 0 {
      DrawsCounted(n - 1);
      assert Draws(n)[1..] == Draws(n - 1);
    }
  }

  /** The fixed chat-completion envelope: id 0 and one choice with index 0,
      finish reason "stop" and an assistant message. */
  predicate IsChatEnvelope(r: ChatResponse) {
    && r.id == 0
    && |r.choices| == 1
    && r.choices[0].index == 0
    && r.choices[0].finishReason == "stop"
    && r.choices[0].message.role == "assistant"
  }

  function ContentOf(r: ChatResponse): string
    requires |r.choices| > 0
  {
    r.choices[0].message.content
  }

  /** The response dictionary built at the end of the route. */
  function Envelope(answer: string): (r: ChatResponse)
    ensures IsChatEnvelope(r) && ContentOf(r) == answer
  {
    ChatResponse(0, [Choice(0, "stop", Message(answer, "assistant"))])
  }

  /** A lookup never yields an empty (falsy) match, so its truthiness is its
      presence, and `int` of it is the directive's value. */
  lemma LookupValue(marker: char, text: Option<string>)
    ensures Truthy(Lookup(marker, text)) <==> Lookup(marker, text).Some?
    ensures Lookup(marker, text).Some? <==> DirectiveValue(marker, text).Some?
    ensures Lookup(marker, text).Some? ==>
              DirectiveValue(marker, text).value == ParseDecimal(Lookup(marker, text).value)
  {
  }

  /** The effects of the route: the sleep, if any, then the draws. */
  function Trace(sleep: Option<nat>, draws: nat): (e: seq<Effect>)
    ensures SleepsBeforeDraws(e)
    ensures Sleeps(e) <==> sleep.Some?
    ensures TotalDelay(e) == sleep.GetOr(0)
    ensures DrawCount(e) == draws
    ensures |e| == draws + (if sleep.Some? then 1 else 0)
  {
    DrawsCounted(draws);
    match sleep
    case None => Draws(draws)
    case Some(n) =>
      var e := [Sleep(n)] + Draws(draws);
      assert e[1..] == Draws(draws);
      assert e[0].Sleep?;
      e
  }

  predicate TooManyDigits(digits: string, limits: Limits) {
    limits.maxStrDigits > 0 && |digits| > limits.maxStrDigits
  }

  /** `int(digits)` for a string of ASCII digits. */
  function PyInt(digits: string, limits: Limits): (r: Result<nat, PyError>)
    requires AllDigits(digits)
    ensures r.Success? <==> limits.maxStrDigits == 0 || |digits| <= limits.maxStrDigits
    ensures r.Success? ==> r.value == ParseDecimal(digits)
    ensures r.Failure? ==> r.error == ValueError
  {
    if TooManyDigits(digits, limits) then Failure(ValueError) else Success(ParseDecimal(digits))
  }

  /** `time.sleep(seconds)`: the duration is converted to a signed 64-bit
      count of nanoseconds, and one that does not fit raises. */
  function SleepFor(seconds: nat): (r: Result<nat, PyError>)
    ensures r.Success? <==> seconds * 1_000_000_000 <= 0x7fff_ffff_ffff_ffff
    ensures r.Success? ==> r.value == seconds
    ensures r.Failure? ==> r.error == OverflowError
  {
    if seconds > MaxSleepSeconds then Failure(OverflowError) else Success(seconds)
  }

  /** `if delay: time.sleep(int(delay))`: how long the route sleeps (`None`
      when it does not), or the exception that stops it. */
  function DelayStep(delay: Option<string>, limits: Limits): (r: Result<Option<nat>, PyError>)
    requires delay.Some? ==> AllDigits(delay.value)
    ensures r.Success? <==> !Truthy(delay) || SleepFits(delay, limits)
    ensures r.Success? ==> (r.value.Some? <==> Truthy(delay))
    ensures r.Success? && r.value.Some? ==> r.value.value == ParseDecimal(delay.value)
    ensures r.Failure? ==> (r.error == ValueError <==> TooManyDigits(delay.value, limits))
    ensures r.Failure? ==> r.error == ValueError || r.error == OverflowError
  {
    if !Truthy(delay) then Success(None)
    else
      match PyInt(delay.value, limits)
      case Failure(e) => Failure(e)
      case Success(n) =>
        match SleepFor(n)
        case Failure(e) => Failure(e)
        case Success(s) => Success(Some(s))
  }

  /** A delay match that `int()` converts and `time.sleep` accepts. */
  predicate SleepFits(delay: Option<string>, limits: Limits) {
    delay.Some? ==>
      && AllDigits(delay.value)
      && !TooManyDigits(delay.value, limits)
      && ParseDecimal(delay.value) <= MaxSleepSeconds
  }

  /** A line-count match that `int()` converts. */
  predicate CountFits(lines: Option<string>, limits: Limits) {
    lines.Some? ==> !TooManyDigits(lines.value, limits)
  }

  /** `if lines: answer = "\n".join(...)`: the number of sentences drawn and
      the answer, or the exception that stops the route. */
  function AnswerStep(lines: Option<string>, limits: Limits, gen: nat -> string): (r: Result<(nat, string), PyError>)
    requires lines.Some? ==> AllDigits(lines.value)
    ensures r.Success? <==> !Truthy(lines) || CountFits(lines, limits)
    ensures r.Failure? ==> r.error == ValueError
    ensures r.Success? && !Truthy(lines) ==> r.value == (0, DefaultAnswer)
    ensures r.Success? && Truthy(lines) ==> r.value.0 == ParseDecimal(lines.value)
    ensures r.Success? && Truthy(lines) ==> r.value.1 == Join(Sentences(gen, r.value.0))
  {
    if !Truthy(lines) then Success((0, DefaultAnswer))
    else
      match PyInt(lines.value, limits)
      case Failure(e) => Failure(e)
      case Success(n) => Success((n, Join(Sentences(gen, n))))
  }

  /** The route after the content has been read: the directive lookups, the
      sleep, the answer and the envelope. */
  function Respond(text: Option<string>, limits: Limits, gen: nat -> string): (c: Completion)
    ensures c.outcome.Success? <==> SleepFits(Lookup('d', text), limits) && CountFits(Lookup('l', text), limits)
    ensures c.outcome == Failure(OverflowError) <==>
              && Lookup('d', text).Some?
              && !TooManyDigits(Lookup('d', text).value, limits)
              && DirectiveValue('d', text).value > MaxSleepSeconds
    ensures c.outcome.Failure? ==> c.outcome.error == ValueError || c.outcome.error == OverflowError
    ensures !SleepFits(Lookup('d', text), limits) ==> c.effects == []
    ensures SleepsBeforeDraws(c.effects)
    ensures Sleeps(c.effects) <==> Lookup('d', text).Some? && SleepFits(Lookup('d', text), limits)
    ensures SleepFits(Lookup('d', text), limits) ==> TotalDelay(c.effects) == DirectiveValue('d', text).GetOr(0)
    ensures DrawCount(c.effects) == (if c.outcome.Success? then DirectiveValue('l', text).GetOr(0) else 0)
    ensures |c.effects| == DrawCount(c.effects) + (if Sleeps(c.effects) then 1 else 0)
    ensures c.outcome.Success? ==> IsChatEnvelope(c.outcome.value)
    ensures c.outcome.Success? && DirectiveValue('l', text).None? ==>
              ContentOf(c.outcome.value) == DefaultAnswer
    ensures c.outcome.Success? && DirectiveValue('l', text).Some? ==>
              ContentOf(c.outcome.value) == Join(Sentences(gen, DirectiveValue('l', text).value))
  {
    var delay := Lookup('d', text);
    var lines := Lookup('l', text);
    LookupValue('d', text);
    LookupValue('l', text);
    match DelayStep(delay, limits)
    case Failure(e) => Completion([], Failure(e))
    case Success(sleep) =>
      match AnswerStep(lines, limits, gen)
      case Failure(e) => Completion(Trace(sleep, 0), Failure(e))
      case Success((n, answer)) => Completion(Trace(sleep, n), Success(Envelope(answer)))
  }

  /** `POST /v1/chat/completions`. */
  function CompleteChat(data: map<string, Json>, limits: Limits, gen: nat -> string): (c: Completion)
    ensures !WellFormedRequest(data) ==> c.effects == [] && c.outcome.Failure?
    ensures !WellFormedRequest(data) ==> c.outcome == Failure(Instructions(data).error)
    ensures "messages" !in data ==> c == Completion([], Failure(KeyError))
    ensures "messages" in data && data["messages"] == Arr([]) ==> c == Completion([], Failure(IndexError))
    ensures WellFormedRequest(data) ==>
              c == Respond(DirectiveText(Last(data["messages"].items).fields["content"]), limits, gen)
  {
    match Instructions(data)
    case Failure(e) => Completion([], Failure(e))
    case Success(content) => Respond(DirectiveText(content), limits, gen)
  }

  // ---------------------------------------------------------------------
  // The echo route

  /** `POST /`: the payload, unchanged, under "data", next to a fixed
      message. */
  function Echo(data: map<string, Json>): (r: Json)
    ensures r.Obj? && r.fields.Keys == {"message", "data"}
    ensures r.fields["message"] == Str(EchoMessage)
    ensures r.fields["data"] == Obj(data)
  {
    Obj(map["message" := Str(EchoMessage), "data" := Obj(data)])
  }

  /** Reads the payload back out of an echo reply: the inverse of `Echo`. */
  function EchoedData(reply: Json): Option<map<string, Json>> {
    if reply.Obj? && "data" in reply.fields && reply.fields["data"].Obj?
    then Some(reply.fields["data"].fields)
    else None
  }
}
