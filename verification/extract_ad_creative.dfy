/** Ad-creative extraction for one ads account (`etl/extract_ad_creative.py`).

    For every ad id the extractor asks the ads API for the ad's creative id,
    then, when there is one, for that creative's thumbnail, and builds one
    row per ad. The first failure aborts the whole extraction with a
    classified error that says whether retrying may help.

    The vendor SDK is replaced by an `Api` value: two total lookup functions
    whose answers are either the field read from the response or the
    exception the call raised. Every lookup the extractor performs is
    recorded in a call trace, so that "no lookup happens" can be stated. */
module AdCreativeExtract {
  import opened Wrappers

  /** Vendor error code for an expired or invalid access token. */
  const ExpiredTokenCode: int := 190

  /** Vendor error codes treated as transient (unknown, service, too many
      calls, user request limit, ads-management rate limit). */
  const TransientCodes: set<int> := {1, 2, 4, 17, 80000}

  /** Lowest HTTP status of the server-error class (section 15.6 of RFC 9110);
      the extractor checks only the lower bound. */
  const ServerErrorFloor: int := 500

  /** What a lookup can raise. `ApiError` is the SDK's request error after
      its code and HTTP status were read; either is `None` when the error
      did not carry it or reading it raised. */
  datatype Exception =
    | ApiError(code: Option<int>, status: Option<int>)
    | OtherError

  /** The answer of one SDK lookup. */
  datatype Fetch<+T> = Fetched(value: T) | Threw(exc: Exception)

  /** The two SDK lookups: ad id to its creative id, creative id to its
      thumbnail URL. Either field may be missing (`None`). */
  datatype Api = Api(
    getAd: string -> Fetch<Option<string>>,
    getCreative: string -> Fetch<Option<string>>)

  /** One interaction with the ads platform, in the order it happens. */
  datatype Call = InitClient | GetAd(adId: string) | GetCreative(creativeId: string)

  /** One output record; the DataFrame the source builds is a sequence of these. */
  datatype Row = Row(
    accountId: string,
    adId: string,
    creativeId: Option<string>,
    thumbnailUrl: Option<string>)

  /** Which of the source's error messages was raised, with the id it names. */
  datatype FailureKind =
    | ClientInitFailed(accountId: string)
    | ExpiredToken(accountId: string)
    | RetryableApiError(adId: string)
    | PermanentApiError(adId: string)
    | UnknownError(adId: string)

  /** A raised error together with its `retryable` annotation. */
  datatype Failure = ClassifiedFailure(kind: FailureKind, retryable: bool)

  /** What the extractor returns or raises, and the calls it made on the way. */
  datatype Extraction = Extraction(result: Result<seq<Row>, Failure>, calls: seq<Call>)

  /** The outcome of processing one ad, and the calls made for it. */
  datatype AdStep = AdStep(outcome: Result<Row, Failure>, calls: seq<Call>)

  /** `http_status and http_status >= 500`: a present status of the
      server-error class. */
  predicate IsServerError(status: Option<int>) {
    status.Some? && status.value >= ServerErrorFloor
  }

  /** The error code is present and in the transient set. */
  predicate IsTransientCode(code: Option<int>) {
    code.Some? && code.value in TransientCodes
  }

  /** Python truthiness of the creative id: present and non-empty. */
  predicate HasCreative(creativeId: Option<string>) {
    creativeId.Some? && creativeId.value != ""
  }

  /** The error classifier, as a decision table with strict precedence: an
      expired token is never retryable, whatever the status; otherwise a
      server error or a transient code is retryable; any other API error and
      any non-API exception is not. */
  function Classify(accountId: string, adId: string, e: Exception): (f: Failure)
    ensures f.retryable <==>
              && e.ApiError?
              && e.code != Some(ExpiredTokenCode)
              && (IsServerError(e.status) || IsTransientCode(e.code))
    ensures f.retryable <==> f.kind.RetryableApiError?
    ensures e.ApiError? && e.code == Some(ExpiredTokenCode) ==> f.kind == ExpiredToken(accountId)
    ensures e.OtherError? ==> f.kind == UnknownError(adId)
    ensures f.kind.ExpiredToken? <==> e.ApiError? && e.code == Some(ExpiredTokenCode)
    ensures f.kind.UnknownError? <==> e.OtherError?
    ensures f.kind.PermanentApiError? <==> e.ApiError? && !f.retryable && e.code != Some(ExpiredTokenCode)
    ensures !f.kind.ClientInitFailed?
    ensures !f.kind.ExpiredToken? ==> f.kind.adId == adId
  {
    match e
    case OtherError => ClassifiedFailure(UnknownError(adId), false)
    case ApiError(code, status) =>
      if code == Some(ExpiredTokenCode) then
        ClassifiedFailure(ExpiredToken(accountId), false)
      else if IsServerError(status) || IsTransientCode(code) then
        ClassifiedFailure(RetryableApiError(adId), true)
      else
        ClassifiedFailure(PermanentApiError(adId), false)
  }

  /** The body of the loop for one ad: look up its creative id; with none,
      emit a row of placeholders and make no further call; with one, look up
      its thumbnail and emit a row carrying both. A raise in either lookup is
      classified under this ad's id. */
  function ProcessAd(accountId: string, adId: string, api: Api): (s: AdStep)
    ensures 1 <= |s.calls| <= 2 && s.calls[0] == GetAd(adId)
    ensures s.outcome.Success? ==> s.outcome.value.accountId == accountId && s.outcome.value.adId == adId
    ensures api.getAd(adId).Threw? ==>
              s == AdStep(Failure(Classify(accountId, adId, api.getAd(adId).exc)), [GetAd(adId)])
    ensures api.getAd(adId).Fetched? && !HasCreative(api.getAd(adId).value) ==>
              s == AdStep(Success(Row(accountId, adId, None, None)), [GetAd(adId)])
    ensures api.getAd(adId).Fetched? && HasCreative(api.getAd(adId).value) ==>
              var creativeId := api.getAd(adId).value.value;
              && s.calls == [GetAd(adId), GetCreative(creativeId)]
              && match api.getCreative(creativeId)
                 case Fetched(thumbnail) =>
                   s.outcome == Success(Row(accountId, adId, Some(creativeId), thumbnail))
                 case Threw(e) =>
                   s.outcome == Failure(Classify(accountId, adId, e))
  {
    match api.getAd(adId)
    case Threw(e) => AdStep(Failure(Classify(accountId, adId, e)), [GetAd(adId)])
    case Fetched(creativeId) =>
      if !HasCreative(creativeId) then
        AdStep(Success(Row(accountId, adId, None, None)), [GetAd(adId)])
      else
        var calls := [GetAd(adId), GetCreative(creativeId.value)];
        match api.getCreative(creativeId.value)
        case Threw(e) => AdStep(Failure(Classify(accountId, adId, e)), calls)
        case Fetched(thumbnail) =>
          AdStep(Success(Row(accountId, adId, creativeId, thumbnail)), calls)
  }

  /** Processing this ad raises nothing. */
  predicate AdSucceeds(accountId: string, adId: string, api: Api) {
    ProcessAd(accountId, adId, api).outcome.Success?
  }

  /** Every ad of `adIds` processes without raising. */
  predicate AllSucceed(accountId: string, adIds: seq<string>, api: Api) {
    forall i | 0 <= i < |adIds| :: AdSucceeds(accountId, adIds[i], api)
  }

  /** Index `k` holds the first ad whose processing raises. */
  predicate FailsFirstAt(accountId: string, adIds: seq<string>, api: Api, k: int) {
    && 0 <= k < |adIds|
    && AllSucceed(accountId, adIds[..k], api)
    && !AdSucceeds(accountId, adIds[k], api)
  }

  /** The calls processing `adIds` one after another makes, when none raises. */
  function PerAdCalls(accountId: string, adIds: seq<string>, api: Api): seq<Call>
    decreases |adIds|
  {
    if |adIds| == 0 then []
    else ProcessAd(accountId, adIds[0], api).calls + PerAdCalls(accountId, adIds[1..], api)
  }

  /** The ad ids looked up in a call trace, in order. */
  function AdsLookedUp(calls: seq<Call>): seq<string>
    decreases |calls|
  {
    if |calls| == 0 then []
    else (if calls[0].GetAd? then [calls[0].adId] else []) + AdsLookedUp(calls[1..])
  }

  // A first failure past the head is the tail's first failure, one index down.
  lemma {:induction false} FailsFirstAtTail(accountId: string, adIds: seq<string>, api: Api, k: int)
    requires 0 < k && FailsFirstAt(accountId, adIds, api, k)
    ensures FailsFirstAt(accountId, adIds[1..], api, k - 1)
  {
    var tail := adIds[1..][..k - 1];
    forall i | 0 <= i < |tail| ensures AdSucceeds(accountId, tail[i], api) {
      assert tail[i] == adIds[..k][i + 1];
    }
    assert adIds[1..][k - 1] == adIds[k];
  }

  /** The `for ad_id in ad_ids` loop: one row per ad in input order while no
      ad raises; the first raise ends the loop with that ad's classified
      error, and no later ad is looked up. */
  function ExtractLoop(accountId: string, adIds: seq<string>, api: Api): (r: Extraction)
    ensures r.result.Success? <==> AllSucceed(accountId, adIds, api)
    ensures r.result.Success? ==>
              && |r.result.value| == |adIds|
              && r.calls == PerAdCalls(accountId, adIds, api)
              && forall i | 0 <= i < |adIds| ::
                   r.result.value[i] == ProcessAd(accountId, adIds[i], api).outcome.value
    ensures forall k | FailsFirstAt(accountId, adIds, api, k) ::
              && r.result == Failure(ProcessAd(accountId, adIds[k], api).outcome.error)
              && r.calls == PerAdCalls(accountId, adIds[..k + 1], api)
    decreases |adIds|
  {
    if |adIds| == 0 then Extraction(Success([]), [])
    else
      var step := ProcessAd(accountId, adIds[0], api);
      match step.outcome
      case Failure(f) =>
        assert adIds[..1] == [adIds[0]];
        assert PerAdCalls(accountId, adIds[..1], api) == step.calls + PerAdCalls(accountId, [], api);
        assert forall k | FailsFirstAt(accountId, adIds, api, k) :: k == 0;
        Extraction(Failure(f), step.calls)
      case Success(row) =>
        var rest := ExtractLoop(accountId, adIds[1..], api);
        LoopStepFacts(accountId, adIds, api);
        match rest.result
        case Failure(f) => Extraction(Failure(f), step.calls + rest.calls)
        case Success(rows) => Extraction(Success([row] + rows), step.calls + rest.calls)
  }

  /** How the loop's facts about `adIds[1..]` carry over to `adIds` once the
      first ad succeeds. */
  lemma LoopStepFacts(accountId: string, adIds: seq<string>, api: Api)
    requires |adIds| > 0 && AdSucceeds(accountId, adIds[0], api)
    ensures AllSucceed(accountId, adIds, api) <==> AllSucceed(accountId, adIds[1..], api)
    ensures forall k | FailsFirstAt(accountId, adIds, api, k) ::
              && k > 0
              && FailsFirstAt(accountId, adIds[1..], api, k - 1)
              && adIds[1..][k - 1] == adIds[k]
              && PerAdCalls(accountId, adIds[..k + 1], api)
                 == ProcessAd(accountId, adIds[0], api).calls + PerAdCalls(accountId, adIds[1..][..k], api)
  {
    if AllSucceed(accountId, adIds[1..], api) {
      forall i | 0 <= i < |adIds| ensures AdSucceeds(accountId, adIds[i], api) {
        if i > 0 {
          assert adIds[i] == adIds[1..][i - 1];
        }
      }
    }
    forall k | FailsFirstAt(accountId, adIds, api, k)
      ensures && k > 0
              && FailsFirstAt(accountId, adIds[1..], api, k - 1)
              && adIds[1..][k - 1] == adIds[k]
              && PerAdCalls(accountId, adIds[..k + 1], api)
                 == ProcessAd(accountId, adIds[0], api).calls + PerAdCalls(accountId, adIds[1..][..k], api)
    {
      FailsFirstAtTail(accountId, adIds, api, k);
      assert adIds[..k + 1][1..] == adIds[1..][..k];
    }
  }

  /** When not every ad succeeds, there is a first one that raises. */
  lemma {:induction false} FirstFailureExists(accountId: string, adIds: seq<string>, api: Api)
    requires !AllSucceed(accountId, adIds, api)
    ensures exists k :: FailsFirstAt(accountId, adIds, api, k)
    decreases |adIds|
  {
    if AdSucceeds(accountId, adIds[0], api) {
      LoopStepFacts(accountId, adIds, api);
      FirstFailureExists(accountId, adIds[1..], api);
      var k :| FailsFirstAt(accountId, adIds[1..], api, k);
      var prefix := adIds[..k + 1];
      forall i | 0 <= i < |prefix| ensures AdSucceeds(accountId, prefix[i], api) {
        if i > 0 {
          assert prefix[i] == adIds[1..][..k][i - 1];
        }
      }
      assert adIds[k + 1] == adIds[1..][k];
      assert FailsFirstAt(accountId, adIds, api, k + 1);
    } else {
      assert FailsFirstAt(accountId, adIds, api, 0);
    }
  }

  // Reading the ad lookups distributes over concatenated traces.
  lemma {:induction false} AdsLookedUpConcat(a: seq<Call>, b: seq<Call>)
    ensures AdsLookedUp(a + b) == AdsLookedUp(a) + AdsLookedUp(b)
    decreases |a|
  {
    if |a| == 0 {
      assert a + b == b;
    } else {
      var head := if a[0].GetAd? then [a[0].adId] else [];
      assert (a + b)[0] == a[0];
      assert (a + b)[1..] == a[1..] + b;
      AdsLookedUpConcat(a[1..], b);
      assert AdsLookedUp(a + b) == head + (AdsLookedUp(a[1..]) + AdsLookedUp(b));
      assert head + (AdsLookedUp(a[1..]) + AdsLookedUp(b)) == (head + AdsLookedUp(a[1..])) + AdsLookedUp(b);
    }
  }

  /** Each processed ad contributes exactly its own id to the ad lookups. */
  lemma {:induction false} AdsLookedUpPerAd(accountId: string, adIds: seq<string>, api: Api)
    ensures AdsLookedUp(PerAdCalls(accountId, adIds, api)) == adIds
    decreases |adIds|
  {
    if |adIds| > 0 {
      var calls := ProcessAd(accountId, adIds[0], api).calls;
      AdsLookedUpConcat(calls, PerAdCalls(accountId, adIds[1..], api));
      AdsLookedUpPerAd(accountId, adIds[1..], api);
      if |calls| == 2 {
        assert calls[1..][1..] == [];
        assert AdsLookedUp(calls[1..]) == [];
      } else {
        assert calls[1..] == [];
      }
      assert AdsLookedUp(calls) == [adIds[0]];
      assert adIds == [adIds[0]] + adIds[1..];
    }
  }

  /** `extract_ad_creative(access_token, account_id, ad_ids)`. `clientFails`
      says whether creating the SDK session and client raises. */
  function ExtractAdCreative(accountId: string, adIds: seq<string>, clientFails: bool, api: Api): (r: Extraction)
    ensures |adIds| == 0 ==> r == Extraction(Success([]), [])
    ensures |adIds| > 0 ==> |r.calls| > 0 && r.calls[0] == InitClient
    ensures |adIds| > 0 && clientFails ==>
              r == Extraction(Failure(ClassifiedFailure(ClientInitFailed(accountId), false)), [InitClient])
    ensures r.result.Success? <==> (|adIds| == 0 || (!clientFails && AllSucceed(accountId, adIds, api)))
    ensures r.result.Success? ==>
              && |r.result.value| == |adIds|
              && r.calls == (if |adIds| == 0 then [] else [InitClient] + PerAdCalls(accountId, adIds, api))
              && AdsLookedUp(r.calls) == adIds
              && forall i | 0 <= i < |adIds| ::
                   && r.result.value[i].accountId == accountId
                   && r.result.value[i].adId == adIds[i]
                   && r.result.value[i] == ProcessAd(accountId, adIds[i], api).outcome.value
    ensures r.result.Failure? && !clientFails ==> exists k :: FailsFirstAt(accountId, adIds, api, k)
    ensures !clientFails ==>
              forall k | FailsFirstAt(accountId, adIds, api, k) ::
                && r.result == Failure(ProcessAd(accountId, adIds[k], api).outcome.error)
                && r.calls == [InitClient] + PerAdCalls(accountId, adIds[..k + 1], api)
                && AdsLookedUp(r.calls) == adIds[..k + 1]
  {
    if |adIds| == 0 then Extraction(Success([]), [])
    else if clientFails then
      Extraction(Failure(ClassifiedFailure(ClientInitFailed(accountId), false)), [InitClient])
    else
      var loop := ExtractLoop(accountId, adIds, api);
      var calls := [InitClient] + loop.calls;
      AdsLookedUpConcat([InitClient], loop.calls);
      assert AdsLookedUp([InitClient]) == [];
      if loop.result.Success? then
        AdsLookedUpPerAd(accountId, adIds, api);
        Extraction(loop.result, calls)
      else
        FirstFailureExists(accountId, adIds, api);
        AfterFailureFacts(accountId, adIds, api);
        Extraction(loop.result, calls)
  }

  // The ads looked up before and at the first failure are exactly the prefix up to it.
  lemma AfterFailureFacts(accountId: string, adIds: seq<string>, api: Api)
    ensures forall k | FailsFirstAt(accountId, adIds, api, k) ::
              AdsLookedUp(PerAdCalls(accountId, adIds[..k + 1], api)) == adIds[..k + 1]
  {
    forall k | FailsFirstAt(accountId, adIds, api, k)
      ensures AdsLookedUp(PerAdCalls(accountId, adIds[..k + 1], api)) == adIds[..k + 1]
    {
      AdsLookedUpPerAd(accountId, adIds[..k + 1], api);
    }
  }

  /** An expired token is never retryable, whatever HTTP status comes with
      it, even a server error. */
  lemma ExpiredTokenDominates(accountId: string, adId: string, status: Option<int>)
    ensures Classify(accountId, adId, ApiError(Some(ExpiredTokenCode), status))
            == ClassifiedFailure(ExpiredToken(accountId), false)
  {
  }
}
