/** The outcome analysis of the order speed test
    (src/bin/test_hyperliquid_speed_1.rs): how the value returned by
    `ExchangeClient::order` is sorted into the categories it reports. */
module Dispatch {
  import opened Common
  import Req

  /** One per-order entry of `ExchangeDataStatus`. Variants other than
      `Filled` and `Resting` are kept only as their debug rendering. */
  datatype DataStatus = Filled(oid: U64) | Resting(oid: U64) | OtherStatus(raw: string)

  /** `ExchangeResponse`: the optional `data` with its `statuses` list. */
  datatype ExchangeResponse = ExchangeResponse(data: Option<seq<DataStatus>>)

  /** `ExchangeResponseStatus`: the exchange's own verdict on the request. */
  datatype ExchangeResponseStatus = StatusOk(response: ExchangeResponse) | StatusErr(message: string)

  /** The categories the speed test prints. */
  datatype Outcome =
    | FilledNow(oid: U64)
    | RestingOnBook(oid: U64)
    | OtherEntry(status: DataStatus)
    | OkWithoutStatus
    | ExchangeError(message: string)
    | RequestFailed(error: Req.Error)

  /** `data.data.as_ref().and_then(|d| d.statuses.first())`. */
  function FirstStatus(response: ExchangeResponse): (s: Option<DataStatus>)
    ensures s.Some? <==> response.data.Some? && |response.data.value| > 0
    ensures s.Some? ==> s.value == response.data.value[0]
  {
    match response.data
    case None => None
    case Some(statuses) => if |statuses| == 0 then None else Some(statuses[0])
  }

  /** The `match res` of the result analysis. */
  function Classify(res: Req.Result<ExchangeResponseStatus>): (o: Outcome)
    ensures o.RequestFailed? <==> res.Err?
    ensures o.ExchangeError? <==> res.Ok? && res.value.StatusErr?
    ensures o.OkWithoutStatus? <==> res.Ok? && res.value.StatusOk? && FirstStatus(res.value.response).None?
  {
    match res
    case Err(e) => RequestFailed(e)
    case Ok(StatusErr(message)) => ExchangeError(message)
    case Ok(StatusOk(response)) =>
      match FirstStatus(response)
      case None => OkWithoutStatus
      case Some(Filled(oid)) => FilledNow(oid)
      case Some(Resting(oid)) => RestingOnBook(oid)
      case Some(other) => OtherEntry(other)
  }

  /** Shorthand for an accepted response whose status list is `statuses`. */
  function Accepted(statuses: seq<DataStatus>): Req.Result<ExchangeResponseStatus>
  {
    Req.Ok(StatusOk(ExchangeResponse(Some(statuses))))
  }

  /** Only the first status entry is read: whatever follows it does not
      change the outcome. */
  lemma OnlyFirstStatusCounts(first: DataStatus, rest1: seq<DataStatus>, rest2: seq<DataStatus>)
    ensures Classify(Accepted([first] + rest1)) == Classify(Accepted([first] + rest2))
  {
  }

  /** The outcome is `FilledNow(oid)` exactly when the exchange accepted
      the request and its first entry is `Filled` with that oid. */
  lemma FilledIff(res: Req.Result<ExchangeResponseStatus>, oid: U64)
    ensures Classify(res) == FilledNow(oid) <==>
      res.Ok? && res.value.StatusOk? && FirstStatus(res.value.response) == Some(Filled(oid))
  {
  }

  /** The outcome is `RestingOnBook(oid)` exactly when the exchange accepted
      the request and its first entry is `Resting` with that oid. */
  lemma RestingIff(res: Req.Result<ExchangeResponseStatus>, oid: U64)
    ensures Classify(res) == RestingOnBook(oid) <==>
      res.Ok? && res.value.StatusOk? && FirstStatus(res.value.response) == Some(Resting(oid))
  {
  }

  /** Any other first entry is reported as itself. */
  lemma OtherEntryIff(res: Req.Result<ExchangeResponseStatus>, status: DataStatus)
    ensures Classify(res) == OtherEntry(status) <==>
      res.Ok? && res.value.StatusOk? && FirstStatus(res.value.response) == Some(status)
      && status.OtherStatus?
  {
  }

  /** An accepted response without data and one with an empty status list
      both land in the "no status info" case. */
  lemma NoStatusInfo()
    ensures Classify(Req.Ok(StatusOk(ExchangeResponse(None)))) == OkWithoutStatus
    ensures Classify(Accepted([])) == OkWithoutStatus
  {
  }

  /** Classification loses nothing that the speed test reports: the
      outcome's message or error is the one in the input, and an exchange
      error is never confused with a transport failure. */
  lemma ErrorsKeptApart(message: string, e: Req.Error)
    ensures Classify(Req.Ok(StatusErr(message))) == ExchangeError(message)
    ensures Classify(Req.Err(e)) == RequestFailed(e)
    ensures Classify(Req.Ok(StatusErr(message))) != Classify(Req.Err(e))
  {
  }
}
