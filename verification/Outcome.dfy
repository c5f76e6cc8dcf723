/** How the client classifies what became of a request. */
module Outcome {

  /** The result of executing a request: a response with its status code, or one of the
      three execution errors. */
  datatype Exec = Response(status: nat) | TimedOut | ConnectFailed | OtherFailed

  datatype SendResult = Delivered | Transient | Fatal

  datatype ErrorType = Ok | RateLimitedUpstream | ServerError | ClientError | Timeout | ConnectError | Error

  /** `failure` is what the breaker is told, `errorType` the metric's error type. */
  datatype Verdict = Verdict(failure: bool, errorType: ErrorType, result: SendResult)

  function Classify(outcome: Exec): Verdict {
    match outcome
    case Response(status) =>
      if 200 <= status < 400 then Verdict(false, Ok, Delivered)
      else if status == 429 then Verdict(true, RateLimitedUpstream, Transient)
      else if 500 <= status < 600 then Verdict(true, ServerError, Transient)
      else Verdict(false, ClientError, Fatal)
    case TimedOut => Verdict(true, Timeout, Transient)
    case ConnectFailed => Verdict(true, ConnectError, Transient)
    case OtherFailed => Verdict(true, Error, Transient)
  }

  /** What each status and error means, for every status code: delivered exactly on success
      and redirection; transient exactly on 429, on a server error and when there was no
      response; fatal on every other response, informational and out-of-range codes
      included. The breaker is told of a failure exactly for the transient ones, and the
      metric names each kind of outcome by its own error type. */
  lemma ClassifySplit(outcome: Exec)
    ensures var v := Classify(outcome);
            && (v.failure <==> v.result == Transient)
            && (v.result == Delivered <==> outcome.Response? && outcome.status / 100 in {2, 3})
            && (v.result == Transient <==>
                  !outcome.Response? || outcome.status == 429 || outcome.status / 100 == 5)
            && (v.result == Fatal <==>
                  outcome.Response? && outcome.status != 429 && outcome.status / 100 !in {2, 3, 5})
            && (v.errorType == Ok <==> v.result == Delivered)
            && (v.errorType == ClientError <==> v.result == Fatal)
            && (v.errorType == RateLimitedUpstream <==> outcome == Response(429))
            && (v.errorType == ServerError <==> outcome.Response? && outcome.status / 100 == 5)
            && (v.errorType == Timeout <==> outcome == TimedOut)
            && (v.errorType == ConnectError <==> outcome == ConnectFailed)
            && (v.errorType == Error <==> outcome == OtherFailed)
  {
  }
}
