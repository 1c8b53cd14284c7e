/**
  The pure state updaters of the headline view (src/App.tsx): the bounded
  append used by both the poll and the submit path, the scroll step, the
  separator rule of the rendered list, and the mapping from an API response
  to the message shown after a submission.
 */
module Ticker {
  import opened JsRuntime
  import opened ApiCall

  const MaxHeadlines: nat := 5
  const ScrollSpeed: int := 2

  const HeadlinePath := "/headline"
  const SubmitVerb := "put"
  const SubmittedText := "Headline submitted successfully!"
  const FailedText := "Failed to submit headline!"

  function Min(a: int, b: int): int { if a <= b then a else b }
  function Max(a: int, b: int): int { if a <= b then b else a }

  /** `Math.abs`. */
  function Abs(x: int): int { if x < 0 then -x else x }

  /** `Array.prototype.slice(start)`: a negative start counts from the end. */
  function Slice<T>(s: seq<T>, start: int): (r: seq<T>)
    ensures |r| <= |s| && r == s[|s| - |r|..]
    ensures start < 0 ==> |r| == Min(|s|, -start)
    ensures start >= 0 ==> |r| == Max(|s| - start, 0)
  {
    var from := if start < 0 then Max(|s| + start, 0) else Min(start, |s|);
    s[from..]
  }

  /** The last `n` elements of `s`, or all of `s` when it is shorter. */
  function Latest<T>(s: seq<T>, n: nat): seq<T> {
    s[|s| - Min(|s|, n)..]
  }

  /**
    Appending a headline and keeping the last MAX_HEADLINES entries: at most
    five headlines, the newest last, the survivors in their original order,
    and nothing dropped while there is room.
   */
  function Append(prev: seq<string>, headline: string): (r: seq<string>)
    ensures |r| == Min(|prev| + 1, MaxHeadlines)
    ensures r == Latest(prev + [headline], MaxHeadlines)
    ensures r[|r| - 1] == headline
    ensures |prev| < MaxHeadlines ==> r == prev + [headline]
  {
    Slice(prev + [headline], -(MaxHeadlines as int))
  }

  /** Every stored headline is trimmed: both paths that append trim first. */
  predicate AllTrimmed(headlines: seq<string>) {
    forall i :: 0 <= i < |headlines| ==> IsTrimmed(headlines[i])
  }

  /** Appending a trimmed headline keeps every headline trimmed. */
  lemma AppendKeepsTrimmed(prev: seq<string>, headline: string)
    requires AllTrimmed(prev) && IsTrimmed(headline)
    ensures AllTrimmed(Append(prev, headline))
  {
    var whole := prev + [headline];
    var r := Append(prev, headline);
    forall i | 0 <= i < |r|
      ensures IsTrimmed(r[i])
    {
      assert r[i] == whole[|whole| - |r| + i];
    }
  }

  /** The list after a run of appends, one per received headline, in order. */
  function AppendAll(prev: seq<string>, received: seq<string>): seq<string>
    decreases |received|
  {
    if received == [] then prev else AppendAll(Append(prev, received[0]), received[1..])
  }

  /** Keeping the latest `n` of a prefix first does not change the latest `n` of the whole. */
  lemma LatestOfLatest<T>(a: seq<T>, b: seq<T>, n: nat)
    ensures Latest(Latest(a, n) + b, n) == Latest(a + b, n)
  {
    var k := |a| - Min(|a|, n);
    assert Latest(a, n) + b == (a + b)[k..];
  }

  /**
    However many headlines arrive, the list holds the five most recent ones
    received, oldest first.
   */
  lemma {:induction false} AppendAllKeepsLatest(prev: seq<string>, received: seq<string>)
    requires |prev| <= MaxHeadlines
    ensures AppendAll(prev, received) == Latest(prev + received, MaxHeadlines)
    decreases |received|
  {
    if received == [] {
      assert prev + received == prev;
    } else {
      var h := received[0];
      AppendAllKeepsLatest(Append(prev, h), received[1..]);
      LatestOfLatest(prev + [h], received[1..], MaxHeadlines);
      assert prev + [h] + received[1..] == prev + received;
    }
  }

  /** One animation tick: the value stored in the ref and the new offset. */
  datatype ScrollStep = ScrollStep(reference: int, offset: int)

  /**
    The scroll updater: the ref always gets `prev - SCROLL_SPEED`; the offset
    follows it while its magnitude stays within the content width and jumps
    back to the container width otherwise.
   */
  function Scroll(prev: int, contentWidth: nat, containerWidth: nat): (step: ScrollStep)
    ensures step.reference == prev - ScrollSpeed
    ensures step.offset == containerWidth || (step.offset == step.reference && Abs(step.offset) <= contentWidth)
    ensures Abs(prev - ScrollSpeed) <= contentWidth ==> step.offset == prev - ScrollSpeed
    ensures Abs(prev - ScrollSpeed) > contentWidth ==> step.offset == containerWidth
  {
    var next := prev - ScrollSpeed;
    ScrollStep(next, if Abs(next) > contentWidth then containerWidth else next)
  }

  /** The offset after `n` ticks with unchanged widths. */
  function Ticks(start: int, n: nat, contentWidth: nat, containerWidth: nat): int {
    if n == 0 then start else Scroll(Ticks(start, n - 1, contentWidth, containerWidth), contentWidth, containerWidth).offset
  }

  /** While the content stays in view the offset falls by exactly two pixels per tick. */
  lemma {:induction false} SteadyDescent(start: int, n: nat, contentWidth: nat, containerWidth: nat)
    requires n > 0 ==> start - ScrollSpeed <= contentWidth && start - ScrollSpeed * n >= -(contentWidth as int)
    ensures Ticks(start, n, contentWidth, containerWidth) == start - ScrollSpeed * n
  {
    if n > 0 {
      SteadyDescent(start, n - 1, contentWidth, containerWidth);
    }
  }

  /**
    A marquee that enters at the container's right edge, with content at
    least as wide as the container, walks left two pixels a tick and is
    back at the right edge after exactly `(W + C) / 2 + 1` ticks.
   */
  lemma WrapPeriod(containerWidth: nat, contentWidth: nat)
    requires containerWidth <= contentWidth
    ensures var period := (containerWidth + contentWidth) / 2 + 1;
      && Ticks(containerWidth, period, contentWidth, containerWidth) == containerWidth
      && forall k :: 0 < k < period ==> Ticks(containerWidth, k, contentWidth, containerWidth) == containerWidth - ScrollSpeed * k
  {
    var period := (containerWidth + contentWidth) / 2 + 1;
    forall k | 0 < k < period
      ensures Ticks(containerWidth, k, contentWidth, containerWidth) == containerWidth - ScrollSpeed * k
    {
      SteadyDescent(containerWidth, k, contentWidth, containerWidth);
    }
    SteadyDescent(containerWidth, period - 1, contentWidth, containerWidth);
  }

  /**
    When the content measures 0 px wide the offset, once at the container
    width, stays there: each tick's step overshoots and wraps straight back,
    unless the container is exactly one step wide.
   */
  lemma {:induction false} EmptyTickerHolds(containerWidth: nat, n: nat)
    requires containerWidth != ScrollSpeed
    ensures Ticks(containerWidth, n, 0, containerWidth) == containerWidth
  {
    if n > 0 {
      EmptyTickerHolds(containerWidth, n - 1);
    }
  }

  /** One rendered headline and whether a separator glyph follows it. */
  datatype Item = Item(text: string, separated: bool)

  /** The rendered list: item `i` carries a separator exactly when it is not the last. */
  function Render(headlines: seq<string>): (items: seq<Item>)
    ensures |items| == |headlines|
    ensures forall i :: 0 <= i < |items| ==> items[i].text == headlines[i]
    ensures forall i :: 0 <= i < |items| ==> (items[i].separated <==> i < |headlines| - 1)
  {
    seq(|headlines|, i requires 0 <= i < |headlines| => Item(headlines[i], i < |headlines| - 1))
  }

  function SeparatorCount(items: seq<Item>): nat {
    if items == [] then 0 else (if items[0].separated then 1 else 0) + SeparatorCount(items[1..])
  }

  /** Separators sit only between neighbours: n - 1 of them for n headlines, none for none. */
  lemma {:induction false} SeparatorsBetween(headlines: seq<string>)
    ensures SeparatorCount(Render(headlines)) == Max(|headlines| - 1, 0)
  {
    if headlines != [] {
      SeparatorsBetween(headlines[1..]);
      assert Render(headlines)[1..] == Render(headlines[1..]);
    }
  }

  /** `SubmitResponseType`. */
  datatype SubmitResponse = SubmitResponse(isError: bool, message: string)

  /**
    The submission result: an error exactly when `status` is falsy; the
    response's own message when it is truthy, the fixed success or failure
    text otherwise.
   */
  function SubmitResult(response: Json): (sr: SubmitResponse)
    requires response.JObject?
    ensures sr.isError <==> !("status" in response.fields && Truthy(response.fields["status"]))
    ensures "message" in response.fields && Truthy(response.fields["message"]) ==>
              sr.message == ToJsString(response.fields["message"])
    ensures !("message" in response.fields && Truthy(response.fields["message"])) ==>
              sr.message == (if sr.isError then FailedText else SubmittedText)
  {
    var status := OptTruthy(Get(response, "status"));
    var message := Get(response, "message");
    SubmitResponse(!status, if OptTruthy(message) then ToJsString(message.value) else if status then SubmittedText else FailedText)
  }

  /** The submit guard: the trimmed input is empty. */
  predicate Blank(input: string) {
    Trim(input) == ""
  }

  /** The guard holds exactly for empty or white-space-only input. */
  lemma BlankIsWhitespace(input: string)
    ensures Blank(input) <==> AllWhitespace(input)
  {
  }

  /** The request a submission issues: verb "put" on the headline path, the trimmed input as the `headline` field. */
  function SubmitRequest(baseUrl: string, input: string): (req: Request)
    ensures req.url == baseUrl + "/headline"
    ensures req.httpMethod == "PUT"
    ensures req.body == JObject(map["headline" := JString(Trim(input))])
  {
    PutUpperCased();
    BuildRequest(baseUrl, HeadlinePath, SubmitVerb, Some(JObject(map["headline" := JString(Trim(input))])))
  }

  lemma PutUpperCased()
    ensures ToUpperAscii(SubmitVerb) == "PUT"
  {
    var r := ToUpperAscii(SubmitVerb);
    assert r[0] == 'P' && r[1] == 'U' && r[2] == 'T';
  }

  /** The result shown after a submission succeeds exactly when the server accepted it. */
  lemma SubmitResultOfCall(exchange: Exchange, timestamp: string)
    ensures var sr := SubmitResult(MakeApiCall(exchange, timestamp));
      && (sr.isError <==> !(exchange.Received? && exchange.ok && Accepted(exchange.data)))
      && (sr.isError ==> sr.message == (var text := FailureText(MakeApiCall(exchange, timestamp));
                                         if text != "" then text else FailedText))
  {
  }

  /** A plain `{status: true}` reply yields the fixed success text. */
  lemma AcceptedWithoutMessage(timestamp: string)
    ensures SubmitResult(MakeApiCall(Received(true, JObject(map["status" := JBool(true)])), timestamp))
            == SubmitResponse(false, SubmittedText)
  {
  }

  /** A `{status: false, message: m}` reply with a non-empty `m` is shown as the error `m`. */
  lemma RejectedWithMessage(m: string, timestamp: string)
    requires m != ""
    ensures SubmitResult(MakeApiCall(Received(true, JObject(map["status" := JBool(false), "message" := JString(m)])), timestamp))
            == SubmitResponse(true, m)
  {
  }
}
