/**
  The headline view component (src/App.tsx) as an object: its state hooks
  and ref become fields, and each handler that changes them (the poll
  callback, the input's change handler, the animation tick and the form's
  submit handler) becomes a method. Timers, the network and DOM measurement
  are inputs to these methods.
 */
module View {
  import opened JsRuntime
  import opened ApiCall
  import opened Ticker

  /** The outcome of one poll: `fetch`/`resp.text()` threw, or a response with its `ok` flag and text arrived. */
  datatype PollResult = PollFailed | PollResponse(ok: bool, text: string)

  /** What one animation tick measures: no ticker element yet, or its content width and its container's width. */
  datatype Measurement = Detached | Measured(contentWidth: nat, containerWidth: nat)

  class HeadlinesApp {
    var headlines: seq<string>
    var input: string
    var tickerOffset: int
    var tickerOffsetRef: int
    var submitResp: Option<SubmitResponse>

    /** The ticker never holds more than five headlines, and each of them is trimmed. */
    ghost predicate Valid()
      reads this
    {
      |headlines| <= MaxHeadlines && AllTrimmed(headlines)
    }

    /** The state on mount: no headlines, empty input, offset 0, no submission result yet. */
    constructor ()
      ensures Valid()
      ensures headlines == [] && input == "" && submitResp == None
      ensures tickerOffset == 0 && tickerOffsetRef == 0
    {
      headlines := [];
      input := "";
      tickerOffset := 0;
      tickerOffsetRef := 0;
      submitResp := None;
    }

    /**
      `fetchLatestHeadline`: the trimmed response text is appended, whether
      the status was ok or not and even when it is empty; a thrown error
      leaves the list alone.
     */
    method Poll(result: PollResult)
      requires Valid()
      modifies this`headlines
      ensures Valid()
      ensures result.PollResponse? ==> headlines == Append(old(headlines), Trim(result.text))
      ensures result.PollFailed? ==> headlines == old(headlines)
    {
      if result.PollResponse? {
        var latest := Trim(result.text);
        AppendKeepsTrimmed(headlines, latest);
        headlines := Append(headlines, latest);
      }
    }

    /** The input's change handler. */
    method ChangeInput(value: string)
      requires Valid()
      modifies this`input
      ensures Valid()
      ensures input == value
    {
      input := value;
    }

    /** One scroll-interval callback: nothing happens until the ticker element exists. */
    method ScrollTick(m: Measurement)
      requires Valid()
      modifies this`tickerOffset, this`tickerOffsetRef
      ensures Valid()
      ensures m.Detached? ==> tickerOffset == old(tickerOffset) && tickerOffsetRef == old(tickerOffsetRef)
      ensures m.Measured? ==>
        var step := Scroll(old(tickerOffset), m.contentWidth, m.containerWidth);
        tickerOffset == step.offset && tickerOffsetRef == step.reference
    {
      if m.Measured? {
        var step := Scroll(tickerOffset, m.contentWidth, m.containerWidth);
        tickerOffsetRef := step.reference;
        tickerOffset := step.offset;
      }
    }

    /**
      The form's submit handler, given the server's answer to the request
      it issues. Blank input issues nothing and changes nothing. Otherwise
      the result message is set; on success the trimmed input is appended
      and the input cleared, on failure list and input stay as they were.
     */
    method Submit(baseUrl: string, exchange: Exchange, timestamp: string) returns (request: Option<Request>)
      requires Valid()
      modifies this`headlines, this`input, this`submitResp
      ensures Valid()
      ensures request.None? <==> AllWhitespace(old(input))
      ensures request.None? ==>
        headlines == old(headlines) && input == old(input) && submitResp == old(submitResp)
      ensures request.Some? ==> request.value == SubmitRequest(baseUrl, old(input))
      ensures request.Some? ==>
        var response := MakeApiCall(exchange, timestamp);
        && submitResp == Some(SubmitResult(response))
        && (Succeeded(response) ==> headlines == Append(old(headlines), Trim(old(input))) && input == "")
        && (!Succeeded(response) ==> headlines == old(headlines) && input == old(input))
    {
      if Blank(input) {
        return None;
      }
      request := Some(SubmitRequest(baseUrl, input));
      var response := MakeApiCall(exchange, timestamp);
      submitResp := Some(SubmitResult(response));
      assert OptTruthy(Get(response, "status")) == Succeeded(response);
      if OptTruthy(Get(response, "status")) {
        AppendKeepsTrimmed(headlines, Trim(input));
        headlines := Append(headlines, Trim(input));
        input := "";
      }
    }
  }
}
