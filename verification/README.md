# Mock chat-completion API: directive handling

A Dafny model of the mock HTTP server in `mocked_api/mock_api.py`, which
stands in for a chat-completion backend when the chat client is tested.

The model covers two routes:

- The completion route (`POST /v1/chat/completions`). It takes the
  `content` of the last message in the request's `messages` list. It finds
  the first delay directive `d<digits>` and the first line-count directive
  `l<digits>` in that text. It sleeps for the delay. It answers with the
  fixed text `"Default mock answer from mocked API"`, or with N generated
  sentences joined by newlines.
- The echo route (`POST /`). It wraps the payload as
  `{"message": "Data received", "data": payload}`.

Modules:

- `Wrappers` (wrappers.dfy): `Option` and `Result`.
- `Decimal` (decimal.dfy): ASCII digits and `int()` of a digit string.
  Its partner is the canonical rendering `ShowDecimal`.
- `Directives` (directives.dfy): `re.findall(r'(?<=m)\d+', s)[0]` for a
  marker `m`. It is stated against an independent definition of "the
  leftmost match" (`IsFirstMatch`).
- `Lines` (lines.dfy): `"\n".join` and its inverse `str.split("\n")`.
- `JsonValues` (json.dfy): the JSON request and response values.
- `MockApi` (mock_api.dfy): the request reading,
  the response envelope and the two routes.
- `MockApiFacts` (mock_api_facts.dfy): the properties that relate several
  calls.

Effects become values:

- The sleep and each `lorem.sentence()` call appear as a trace
  `seq<Effect>` in the result: `Sleep(seconds)` first, then one
  `DrawSentence` per sentence.
- The sentence generator is a parameter `gen: nat -> string`. `gen(k)` is
  the sentence of the k-th draw.
- The Python exceptions that escape the route become a `Failure` outcome:
  `KeyError`, `IndexError`, `TypeError`, `ValueError` or `OverflowError`.
  The effects performed before the exception stay in the trace.
- The interpreter's limit on the digits `int()` converts is a parameter
  `Limits(maxStrDigits)`. The value 0 means no limit, as before the limit
  existed. `DefaultLimits` is the usual default, 4300 digits. The
  interpreter accepts no other value below 640 (`ValidLimits`).

Quirks of the code that the model keeps:

- Matching is unanchored. `"and12x"` asks for a 12-second delay.
- Only the first token per marker counts.
- The matched digits stay a string, and the code tests that string for
  truthiness. So `"l0"` gives an empty content, not the default text.
  And `"d0"` still calls the sleep, for zero seconds.
- Content that is not a string makes `re.findall` raise. The bare `except`
  swallows that error, so such a request gets the default answer.
- An empty `messages` list raises `IndexError`. A missing `messages` or
  `content` key raises `KeyError`. A last message that is not an object
  raises `TypeError`.
- `int()` of a directive with more digits than the limit raises
  `ValueError`. Neither conversion is inside a `try`, so the request fails.
- `time.sleep` converts its argument to a signed 64-bit count of
  nanoseconds. A delay above 9,223,372,036 seconds raises `OverflowError`
  before any sleep.
- A line count that is too long fails only after the delay has been slept.

## Model

| member | source | states |
|---|---|---|
| Decimal.ParseDecimal | mocked_api/mock_api.py:44 | `int()` of an ASCII digit string is a natural number below 10^length |
| Decimal.ShowDecimal | mocked_api/mock_api.py:44 | the canonical rendering of a number is a non-empty digit string with no leading zero (partner of `ParseDecimal`) |
| Decimal.ParseShow | mocked_api/mock_api.py:44 | `int()` of the canonical rendering of n is n again |
| Decimal.ParseDecimalLowerBound | mocked_api/mock_api.py:44 | n digits without a leading zero are worth at least 10^(n-1) |
| Decimal.LeadingZero | mocked_api/mock_api.py:44 | one leading zero does not change the parsed value |
| Decimal.LeadingZeros | mocked_api/mock_api.py:44-47 | any run of leading zeros does not change the parsed value of a directive |
| Directives.DigitRunLength | mocked_api/mock_api.py:33 | the greedy `\d+` takes every consecutive digit from its start and stops at the end of the text or at a non-digit |
| Directives.FirstMatchFrom | mocked_api/mock_api.py:33 | the first index at or after a position where a match can begin (marker just before, digit at it), and none begins in between |
| Directives.FirstMatchUnique | mocked_api/mock_api.py:33 | the leftmost maximal match after the marker is unique: at most one start index and one digit text qualify |
| Directives.FindFirstAfter | mocked_api/mock_api.py:32-40 | `findall(...)[0]` is absent exactly when no match begins anywhere, and otherwise is a non-empty digit string that is the leftmost maximal match |
| Directives.FindFirstAfterIff | mocked_api/mock_api.py:32-40 | the lookup returns m if and only if m is the text of the leftmost match |
| Directives.FirstRunAfter | mocked_api/mock_api.py:32-44 | the directive value is absent exactly when no match exists, and otherwise is `int` of the leftmost match |
| Directives.TokenAtStart | mocked_api/mock_api.py:33 | a text that starts with the marker and digits, followed by a non-digit or nothing, yields exactly those digits |
| Directives.SkipPrefix | mocked_api/mock_api.py:33 | a prefix with no match that does not end in the marker does not change the lookup (no anchoring) |
| Directives.KeepPrefixMatch | mocked_api/mock_api.py:33 | a match closed off inside a prefix stays the result whatever text follows |
| Directives.NoMarkerNoMatch | mocked_api/mock_api.py:32-35 | a text without the marker has no match, so `[0]` raises and the directive is absent |
| Lines.Split | mocked_api/mock_api.py:47 | splitting at newlines gives at least one piece, each free of newlines (the partner of the join) |
| Lines.CountNewlines | mocked_api/mock_api.py:47 | the newline count is zero exactly when the text is newline-free |
| Lines.JoinNewlineCount | mocked_api/mock_api.py:47 | joining n >= 1 newline-free sentences puts exactly n - 1 newlines in the content |
| Lines.SplitJoin | mocked_api/mock_api.py:47 | splitting the join of n >= 1 newline-free sentences gives the sentences back |
| Lines.JoinSplit | mocked_api/mock_api.py:47 | joining the pieces of any text gives the text back |
| MockApi.Subscript | mocked_api/mock_api.py:25-26 | `v[key]` succeeds exactly on a dict holding the key and yields its value; a dict without the key raises KeyError, anything else TypeError |
| MockApi.LastItem | mocked_api/mock_api.py:26 | `v[-1]` succeeds exactly on a non-empty list (its last element) or string (its last character); an empty one raises IndexError, a dict KeyError, anything else TypeError |
| MockApi.Instructions | mocked_api/mock_api.py:25-26 | reading `data['messages'][-1]['content']` succeeds exactly for a non-empty message list whose last message is an object with `content`, and yields that content; otherwise it names the exception for every shape: KeyError without `messages`, for `messages` as an object, or for a last message without `content`; IndexError for an empty list or string; TypeError for a last element that is not an object, a non-empty string, or a null, boolean or number |
| MockApi.DirectiveText | mocked_api/mock_api.py:32-40 | only string content is scanned; for any other content `re.findall` raises a TypeError that the bare `except` swallows |
| MockApi.Lookup | mocked_api/mock_api.py:32-40 | the lookup is absent for content that is not a string and for text with no match; otherwise it is the leftmost maximal match, a non-empty digit string |
| MockApi.DirectiveValue | mocked_api/mock_api.py:32-44 | the directive's number is absent exactly when there is no match in string content, and otherwise is `int` of the leftmost match |
| MockApi.LookupValue | mocked_api/mock_api.py:43-47 | `Truthy`, the model of `if delay:` and `if lines:`, holds of a lookup exactly when it found a match, and `int` of the match is the directive value |
| MockApi.PyInt | mocked_api/mock_api.py:44-47 | `int()` of a digit string succeeds exactly when the digit limit is off or not exceeded, gives the decimal value, and otherwise raises ValueError |
| MockApi.SleepFor | mocked_api/mock_api.py:44 | `time.sleep(n)` is accepted exactly when n * 10^9 fits in a signed 64-bit integer, and otherwise raises OverflowError |
| MockApi.DelayStep | mocked_api/mock_api.py:43-44 | the route sleeps exactly when the delay match is truthy, for `int` of it; it fails with ValueError exactly for too many digits, and otherwise only with OverflowError |
| MockApi.AnswerStep | mocked_api/mock_api.py:46-47 | without a truthy line match the answer is the default text and nothing is drawn; with one it draws `int(lines)` sentences and joins them; it fails only with ValueError, for too many digits |
| MockApi.Sentences | mocked_api/mock_api.py:47 | the list comprehension holds exactly N sentences, the k-th being the k-th draw |
| MockApi.Draws | mocked_api/mock_api.py:47 | generating N sentences is N draws and nothing else |
| MockApi.DrawsCounted | mocked_api/mock_api.py:47 | N draws add no delay and count N |
| MockApi.Envelope | mocked_api/mock_api.py:49-56 | the response is the fixed envelope (id 0, one choice with index 0, finish reason "stop", role "assistant") and its content is the answer |
| MockApi.Trace | mocked_api/mock_api.py:43-47 | the trace is at most one sleep, exactly when a delay is given and for that delay, followed by exactly the asked number of draws |
| MockApi.Respond | mocked_api/mock_api.py:28-57 | the route completes exactly when both directive numbers convert and the delay fits `time.sleep`; it fails with OverflowError exactly for a convertible delay above the int64-nanosecond range, and otherwise only with ValueError; it sleeps at most once, exactly when a delay token is present and fits, for its value, before any draw, and performs nothing if the delay fails; on completion it draws as many sentences as the line directive asks, and the content is the default text without a line directive and the joined sentences with one, in the fixed envelope |
| MockApi.CompleteChat | mocked_api/mock_api.py:21-57 | a request that is not well formed fails with no effect and with exactly the exception that reading the last message's `content` raises; a well-formed one is answered from that content |
| MockApi.Echo | mocked_api/mock_api.py:69-73 | the echo reply has exactly the keys "message" and "data", the message "Data received", and the payload unchanged under "data" |
| MockApiFacts.DefaultWithoutDirectives | mocked_api/mock_api.py:28-30 | with no `d<digits>` and no `l<digits>` the route neither sleeps nor draws, cannot fail, and answers with the default text |
| MockApiFacts.NonTextContentIsDefault | mocked_api/mock_api.py:32-40 | non-string content is answered, without delay, with the default text |
| MockApiFacts.GeneratedLines | mocked_api/mock_api.py:46-47 | with `l<N>` and N >= 1, a completed route's content splits into exactly the N generated sentences, each non-empty, with N - 1 newlines |
| MockApiFacts.ZeroLineCount | mocked_api/mock_api.py:46-47 | with `l0` a completed route's content is empty, not the default text |
| MockApiFacts.OnlyLastMessageMatters | mocked_api/mock_api.py:25-26 | requests whose message lists end with the same message get the same result |
| MockApiFacts.MissingContentIsKeyError | mocked_api/mock_api.py:26 | a last message without `content` fails the request with KeyError and no effect |
| MockApiFacts.Unanchored | mocked_api/mock_api.py:33 | a directive token is found after any prefix without a match that does not end in the marker |
| MockApiFacts.DelayInsideWord | mocked_api/mock_api.py:32-35 | `"and12x"` gives delay 12 |
| MockApiFacts.LaterTokensIgnored | mocked_api/mock_api.py:33 | after a first token closed by a non-digit, later tokens do not change the result |
| MockApiFacts.TokenFirst | mocked_api/mock_api.py:32-40 | in `<p><digits> <q><digits>` each of two distinct markers finds its own digits |
| MockApiFacts.OrderIndependent | mocked_api/mock_api.py:32-40 | `d<x> l<y>` and `l<y> d<x>` both give delay x and line count y |
| MockApiFacts.LeadingZerosIgnored | mocked_api/mock_api.py:38-47 | `"l007"` asks for 7 lines |
| MockApiFacts.ZeroLinesGiveEmptyContent | mocked_api/mock_api.py:46-47 | `"l0"` gives an empty content rather than the default |
| MockApiFacts.ZeroDelayStillSleeps | mocked_api/mock_api.py:43-44 | `"d0"` still sleeps, for zero seconds |
| MockApiFacts.HugeDelayOverflows | mocked_api/mock_api.py:43-44 | `"d10000000000"` fails with OverflowError before any sleep |
| MockApiFacts.LongLineCountRejected | mocked_api/mock_api.py:46-47 | a line count with more digits than the limit fails with ValueError and draws nothing |
| MockApiFacts.EchoRoundTrip | mocked_api/mock_api.py:69-73 | reading the payload back from an echo reply gives it unchanged, and different payloads give different replies |

## Left out

- Application setup, routing and the CORS middleware (mocked_api/mock_api.py:9-17). This is framework plumbing.
- The route `GET /v1/models` (mocked_api/mock_api.py:60-66). It reads a JSON file from a fixed path, which is file I/O with no logic of its own.
- `time.sleep`. It is recorded as a `Sleep(seconds)` effect, because wall-clock time is not something a proof can observe.
- Blocking of other requests. `time.sleep` runs inside an `async` route, so it blocks the server's event loop, and every other request in flight stalls for the whole delay. The model treats each request on its own, because it has no scheduler.
- Running out of time or memory. A huge `l<N>` builds a list of N sentences and in practice never finishes, or fails for lack of memory. The model answers with all N sentences, because it has no notion of resources.
- The sleep range on other platforms. `MaxSleepSeconds` is the int64-nanosecond bound of CPython's time conversion. Another interpreter may allow a different range.
- `lorem.sentence()`. It is a random generator from a foreign library, so it becomes the parameter `gen`.
- Unicode digits. Python's `\d` and `int()` also accept non-ASCII decimal digits. The model accepts only `'0'..'9'`.
- Numbers in JSON payloads. They are carried as opaque values (`Num(real)`), because no route inspects them.
- The order of keys in JSON objects. Objects are maps, because no route depends on key order.
- The HTTP layer. It rejects a body that is not a JSON object before the route runs. It turns the `Failure` results into server-error responses.
- The web client, its tests, the desktop shell and the build configuration. They are outside the mock server.
