/** One fetch of a cache, and what its handler makes of it (`traffic_monitor/fetcher/fetcher.go`,
    `traffic_monitor/cache/cache.go`). */
module Fetcher {
  import opened Core

  /** What comes of decoding a body. */
  datatype Body = Readable(ats: map<string, Value>) | Garbled

  datatype Response = Response(status: int, body: Body)

  datatype Poll = Poll(cache: CacheName, format: string, id: nat)

  datatype Result = Result(poll: Poll, time: int, requestTime: int, error: bool, available: bool, reporting: bool,
                           ats: map<string, Value>)

  /** The result channel; every send is kept. */
  class ResultChannel {
    var sent: seq<Result>

    constructor ()
      ensures sent == []
    {
      sent := [];
    }

    method Send(r: Result)
      modifies this
      ensures sent == old(sent) + [r]
    {
      sent := sent + [r];
    }
  }

  /** A fetch is good when there was a response of a status from 200 to 299, of a known format, which could
      be decoded. */
  ghost predicate IsGood(response: Option<Response>, failed: bool, format: string, formats: set<string>) {
    !failed && response.Some? && 200 <= response.value.status <= 299 && format in formats && response.value.body.Readable?
  }

  /** The result of a poll: available and without an error, or neither. */
  ghost predicate IsResult(r: Result, poll: Poll, response: Option<Response>, failed: bool, formats: set<string>, start: int, end: int) {
    && r.poll == poll && r.time == end && r.requestTime == end - start
    && r.available == IsGood(response, failed, poll.format, formats) && r.error == !r.available && r.reporting == r.available
    && r.ats == if r.available then response.value.body.ats else map[]
  }

  class HttpFetcher {
    const formats: set<string>
    const channel: ResultChannel

    constructor (decoders: set<string>, resultChan: ResultChannel)
      ensures formats == decoders && channel == resultChan
    {
      formats, channel := decoders, resultChan;
    }

    /** Every fetch, however it ends, sends exactly one result. `failed` says that the client gave an error,
        which it may do with or without a response. */
    method Fetch(poll: Poll, response: Option<Response>, failed: bool, start: int, end: int)
      modifies channel
      ensures exists r :: channel.sent == old(channel.sent) + [r] && IsResult(r, poll, response, failed, formats, start, end)
    {
      var err := failed;
      if !err && response.None? {
        err := true;
      }
      if !err && response.Some? && (response.value.status < 200 || response.value.status > 299) {
        err := true;
      }
      if !err && response.Some? {
        Handle(poll, Some(response.value.body), end - start, end, err);
      } else {
        Handle(poll, None, end - start, end, err);
      }
      ghost var r := channel.sent[|channel.sent| - 1];
      assert IsResult(r, poll, response, failed, formats, start, end);
    }

    method Handle(poll: Poll, body: Option<Body>, requestTime: int, end: int, failed: bool)
      modifies channel
      ensures var good := !failed && body.Some? && poll.format in formats && body.value.Readable?;
        channel.sent == old(channel.sent)
          + [Result(poll, end, requestTime, !good, good, good, if good then body.value.ats else map[])]
    {
      var result := Result(poll, end, requestTime, false, false, false, map[]);
      if failed {
        channel.Send(result.(error := true));
        return;
      }
      if body.None? {
        channel.Send(result.(error := true));
        return;
      }
      if poll.format !in formats {
        channel.Send(result.(error := true));
        return;
      }
      if body.value.Garbled? {
        channel.Send(result.(error := true));
        return;
      }
      result := result.(ats := body.value.ats, available := true, reporting := true);
      channel.Send(result);
    }
  }
}
