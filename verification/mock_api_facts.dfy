/** Properties of the completion and echo routes that relate several calls
    or hold for whole families of inputs. */
module MockApiFacts {
  import opened Wrappers
  import opened Decimal
  import opened Directives
  import opened Lines
  import opened JsonValues
  import opened MockApi

  /** A request with one message whose content is `text`. */
  function OneMessage(text: string): map<string, Json> {
    map["messages" := Arr([Obj(map["role" := Str("user"), "content" := Str(text)])])]
  }

  /** With neither directive in the text the route neither sleeps nor draws,
      and answers with the default text; nothing can fail. */
  lemma DefaultWithoutDirectives(text: Option<string>, limits: Limits, gen: nat -> string)
    requires DirectiveValue('d', text).None? && DirectiveValue('l', text).None?
    ensures Respond(text, limits, gen) == Completion([], Success(Envelope(DefaultAnswer)))
  {
  }

  /** Content that is not a string carries no directive: `re.findall` raises
      and the error is swallowed, so the default answer comes back. */
  lemma NonTextContentIsDefault(data: map<string, Json>, limits: Limits, gen: nat -> string)
    requires WellFormedRequest(data)
    requires !Last(data["messages"].items).fields["content"].Str?
    ensures CompleteChat(data, limits, gen) == Completion([], Success(Envelope(DefaultAnswer)))
  {
  }

  /** With `l<N>` in the text and N >= 1, a route that completes answers with
      the N generated sentences joined by newlines: when the generator emits
      non-empty newline-free sentences, splitting the content at newlines
      gives back exactly those N sentences, and there are N - 1 newlines. */
  lemma GeneratedLines(text: Option<string>, limits: Limits, gen: nat -> string, n: nat)
    requires DirectiveValue('l', text) == Some(n) && n >= 1
    requires Respond(text, limits, gen).outcome.Success?
    requires forall k: nat :: |gen(k)| > 0 && NewlineFree(gen(k))
    ensures Split(ContentOf(Respond(text, limits, gen).outcome.value)) == Sentences(gen, n)
    ensures CountNewlines(ContentOf(Respond(text, limits, gen).outcome.value)) == n - 1
    ensures forall k :: 0 <= k < n ==> |Split(ContentOf(Respond(text, limits, gen).outcome.value))[k]| > 0
  {
    var xs := Sentences(gen, n);
    assert AllNewlineFree(xs);
    SplitJoin(xs);
    JoinNewlineCount(xs);
  }

  /** `l0` asks for no sentence at all: a route that completes answers with
      empty content, not the default text. */
  lemma ZeroLineCount(text: Option<string>, limits: Limits, gen: nat -> string)
    requires DirectiveValue('l', text) == Some(0)
    requires Respond(text, limits, gen).outcome.Success?
    ensures ContentOf(Respond(text, limits, gen).outcome.value) == []
    ensures ContentOf(Respond(text, limits, gen).outcome.value) != DefaultAnswer
  {
  }

  /** Only the last message is inspected: two requests whose message lists
      end with the same message get the same result, whatever came before
      and whatever other fields the requests carry. */
  lemma OnlyLastMessageMatters(data: map<string, Json>, data': map<string, Json>, limits: Limits, gen: nat -> string)
    requires "messages" in data && data["messages"].Arr? && |data["messages"].items| > 0
    requires "messages" in data' && data'["messages"].Arr? && |data'["messages"].items| > 0
    requires Last(data["messages"].items) == Last(data'["messages"].items)
    ensures CompleteChat(data, limits, gen) == CompleteChat(data', limits, gen)
  {
  }

  /** A last message without `content` makes the route fail with KeyError
      before anything else happens. */
  lemma MissingContentIsKeyError(gen: nat -> string)
    ensures CompleteChat(map["messages" := Arr([Obj(map["role" := Str("user")])])], DefaultLimits, gen)
            == Completion([], Failure(KeyError))
  {
  }

  /** The directive may sit anywhere in the text: a prefix without a match
      that does not end with the marker is skipped, so no word boundary is
      needed. */
  lemma {:induction false} Unanchored(marker: char, a: string, ds: string, rest: string)
    requires FindFirstAfter(marker, a).None? && (|a| == 0 || a[|a| - 1] != marker)
    requires |ds| > 0 && AllDigits(ds)
    requires |rest| == 0 || !IsDigit(rest[0])
    ensures FindFirstAfter(marker, a + [marker] + ds + rest) == Some(ds)
  {
    TokenAtStart(marker, ds, rest);
    assert a + [marker] + ds + rest == a + ([marker] + ds + rest);
    SkipPrefix(marker, a, [marker] + ds + rest);
  }

  /** `"and12x"` asks for a delay of 12 seconds. */
  lemma DelayInsideWord()
    ensures DirectiveValue('d', Some("and12x")) == Some(12)
  {
  }

  /** Only the first token counts: once a match is closed by a non-digit,
      later tokens for the same marker are ignored. */
  lemma {:induction false} LaterTokensIgnored(marker: char, ds: string, sep: char, more: string)
    requires |ds| > 0 && AllDigits(ds) && !IsDigit(sep)
    ensures FindFirstAfter(marker, [marker] + ds + [sep] + more) == Some(ds)
  {
    TokenAtStart(marker, ds, [sep]);
    KeepPrefixMatch(marker, [marker] + ds + [sep], more);
  }

  /** The two lookups are independent: a delay token and a line-count token
      give the same directives in either order. */
  lemma {:induction false} OrderIndependent(x: string, y: string)
    requires |x| > 0 && AllDigits(x) && |y| > 0 && AllDigits(y)
    ensures var dl := Some("d" + x + " l" + y);
            var ld := Some("l" + y + " d" + x);
            && DirectiveValue('d', dl) == DirectiveValue('d', ld) == Some(ParseDecimal(x))
            && DirectiveValue('l', dl) == DirectiveValue('l', ld) == Some(ParseDecimal(y))
  {
    assert "d" + x + " l" + y == ['d'] + x + " " + ['l'] + y;
    assert "l" + y + " d" + x == ['l'] + y + " " + ['d'] + x;
    TokenFirst('d', 'l', x, y);
    TokenFirst('l', 'd', y, x);
  }

  /** In `<p><xs> <q><ys>` with distinct non-digit markers, `p` finds `xs`
      and `q` finds `ys`. */
  lemma {:induction false} TokenFirst(p: char, q: char, xs: string, ys: string)
    requires p != q && !IsDigit(p) && !IsDigit(q) && p != ' ' && q != ' '
    requires |xs| > 0 && AllDigits(xs) && |ys| > 0 && AllDigits(ys)
    ensures FindFirstAfter(p, [p] + xs + " " + [q] + ys) == Some(xs)
    ensures FindFirstAfter(q, [p] + xs + " " + [q] + ys) == Some(ys)
  {
    var a := [p] + xs + " ";
    assert [p] + xs + " " + [q] + ys == a + ([q] + ys + []);
    TokenAtStart(p, xs, " ");
    KeepPrefixMatch(p, a, [q] + ys + []);
    forall k | 0 <= k < |a|
      ensures a[k] != q
    {
      if k == 0 {
        assert a[k] == p;
      } else if k < |a| - 1 {
        assert a[k] == xs[k - 1];
      } else {
        assert a[k] == ' ';
      }
    }
    NoMarkerNoMatch(q, a);
    TokenAtStart(q, ys, []);
    SkipPrefix(q, a, [q] + ys + []);
  }

  /** Leading zeros do not change a directive's value: `"l007"` asks for 7
      lines. */
  lemma LeadingZerosIgnored()
    ensures DirectiveValue('l', Some("l007")) == Some(7)
  {
    TokenAtStart('l', "007", []);
    assert ['l'] + "007" + [] == "l007";
    LeadingZeros("00", "7");
    assert "00" + "7" == "007";
  }

  /** `"l0"` yields an empty content rather than the default text, because
      the match `"0"` is a truthy string. */
  lemma ZeroLinesGiveEmptyContent(gen: nat -> string)
    ensures CompleteChat(OneMessage("l0"), DefaultLimits, gen) == Completion([], Success(Envelope([])))
  {
  }

  /** `"d0"` still reaches the sleep, for zero seconds. */
  lemma ZeroDelayStillSleeps(gen: nat -> string)
    ensures CompleteChat(OneMessage("d0"), DefaultLimits, gen) == Completion([Sleep(0)], Success(Envelope(DefaultAnswer)))
  {
  }

  /** A delay of 10^10 seconds is more nanoseconds than an int64 holds:
      `time.sleep` raises before any sleep, and the request fails. */
  lemma HugeDelayOverflows(gen: nat -> string)
    ensures CompleteChat(OneMessage("d10000000000"), DefaultLimits, gen) == Completion([], Failure(OverflowError))
  {
    TokenAtStart('d', "10000000000", []);
    assert ['d'] + "10000000000" + [] == "d10000000000";
    ParseDecimalLowerBound("10000000000");
    assert Pow10(10) == 10_000_000_000;
  }

  /** A line count with more digits than `int()` accepts fails the request
      with a ValueError, and nothing is drawn. */
  lemma {:induction false} LongLineCountRejected(ds: string, limits: Limits, gen: nat -> string)
    requires ValidLimits(limits)
    requires |ds| > 0 && AllDigits(ds) && TooManyDigits(ds, limits)
    ensures Respond(Some(['l'] + ds), limits, gen) == Completion([], Failure(ValueError))
  {
    TokenAtStart('l', ds, []);
    assert ['l'] + ds + [] == ['l'] + ds;
    forall k | 0 <= k < |['l'] + ds|
      ensures (['l'] + ds)[k] != 'd'
    {
      if k > 0 {
        assert (['l'] + ds)[k] == ds[k - 1];
      }
    }
    NoMarkerNoMatch('d', ['l'] + ds);
  }

  /** The echo reply gives the payload back unchanged, and different
      payloads give different replies. */
  lemma EchoRoundTrip(data: map<string, Json>, data': map<string, Json>)
    ensures EchoedData(Echo(data)) == Some(data)
    ensures Echo(data) == Echo(data') <==> data == data'
  {
  }
}
