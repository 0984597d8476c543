/** How a request is classed before it is sent, and how its reply is judged. */
module Endpoints {
  import opened Errors
  import opened RateLimiter
  import opened Retry
  import opened SessionModel
  import opened Wrappers

  datatype Method = GET | POST | PUT | DELETE {
    predicate IsMutation() {
      !GET?
    }
  }

  predicate Contains(s: string, part: string) {
    part <= s || (s != [] && Contains(s[1..], part))
  }

  /** A text contains another exactly when that one stands somewhere in it. */
  lemma {:induction false} ContainsIff(s: string, part: string)
    ensures Contains(s, part) <==> exists i :: 0 <= i <= |s| && part <= s[i..]
  {
    assert s[0..] == s;
    if s != [] {
      ContainsIff(s[1..], part);
      assert forall i :: 0 <= i <= |s[1..]| ==> s[1..][i..] == s[i + 1..];
      if i :| 0 <= i <= |s| && part <= s[i..] && i > 0 {
        assert s[1..][i - 1..] == s[i..];
      }
    } else {
      assert forall i :: 0 <= i <= |s| ==> s[i..] == s;
    }
  }

  /** `path` is the canonical path of the request: no host, query or fragment. */
  function ClassifyEndpoint(m: Method, path: string): RateLimitClass {
    if m.IsMutation() && (Contains(path, "positions/otc") || Contains(path, "workingorders/otc")) then Trading
    else if Contains(path, "prices/") then Historical
    else NonTrading
  }

  predicate EncodedMutation(m: Method, path: string) {
    m.IsMutation() && '%' in path
  }

  /** The policy in force: a mutation that could be an order is single-attempt whatever was asked. */
  function EffectivePolicy(m: Method, path: string, asked: RequestPolicy): RequestPolicy {
    if ClassifyEndpoint(m, path) == Trading || EncodedMutation(m, path) then SingleAttempt else asked
  }

  /** Orders are the mutations under the two order paths; of the rest, prices are historical data. */
  lemma ClassesIff(m: Method, path: string)
    ensures ClassifyEndpoint(m, path) == Trading <==>
              m in {POST, PUT, DELETE} && (Contains(path, "positions/otc") || Contains(path, "workingorders/otc"))
    ensures ClassifyEndpoint(m, path) == Historical <==>
              && Contains(path, "prices/")
              && (m == GET || !(Contains(path, "positions/otc") || Contains(path, "workingorders/otc")))
  {
  }

  /** A request is sent once exactly when that was asked, or it is an order, or a mutation with an escaped path. */
  lemma SingleAttemptIff(m: Method, path: string, asked: RequestPolicy)
    ensures EffectivePolicy(m, path, asked) == SingleAttempt <==>
              || asked == SingleAttempt
              || (m in {POST, PUT, DELETE}
                  && ('%' in path || Contains(path, "positions/otc") || Contains(path, "workingorders/otc")))
  {
  }

  // ---- replies -----------------------------------------------------------------------------

  /** One answer of the network: nothing at all, or a response with its headers and session body. */
  datatype Reply =
    | Lost
    | Reply(status: nat, body: string, cst: Option<string>, xSecurityToken: Option<string>,
            session: Option<SessionBody>, entropy: nat)

  const HISTORICAL_ALLOWANCE := "exceeded-account-historical-data-allowance"
  const API_KEY_ALLOWANCE := "exceeded-api-key-allowance"
  const TRADING_ALLOWANCE := "exceeded-account-trading-allowance"
  const ACCOUNT_ALLOWANCE := "exceeded-account-allowance"
  const OAUTH_TOKEN_INVALID := "oauth-token-invalid"

  datatype StatusClass = Retryable | Permanent

  function ClassifyStatus(status: nat): StatusClass {
    if status == 429 || 500 <= status < 600 then Retryable else Permanent
  }

  /** What one send of the retry loop does next. */
  datatype Verdict = Accept | Fail(error: AppError) | Transient(error: AppError)

  /** Which allowance a 403 says is spent; each one decides differently what the caller may do. */
  function Refusal(body: string, status: nat): AppError {
    if Contains(body, HISTORICAL_ALLOWANCE) then HistoricalDataAllowanceExceeded
    else if Contains(body, API_KEY_ALLOWANCE) then ApiKeyAllowanceExceeded
    else if Contains(body, TRADING_ALLOWANCE) then TradingAllowanceExceeded
    else if Contains(body, ACCOUNT_ALLOWANCE) then AccountAllowanceExceeded
    else Unexpected(status)
  }

  function Judge(reply: Reply): Verdict {
    match reply
    case Lost => Fail(Network)
    case Reply(status, body, _, _, _, _) =>
      if 200 <= status < 300 then Accept
      else if status == 403 then Fail(Refusal(body, status))
      else if status == 401 then
        Fail(if Contains(body, OAUTH_TOKEN_INVALID) then OAuthTokenExpired else Unauthorized)
      else if ClassifyStatus(status).Permanent? then Fail(Unexpected(status))
      else if status == 429 then Transient(RateLimitExceeded)
      else Transient(Unexpected(status))
  }

  // ---- what a reply means, in statuses and bodies --------------------------------------------

  predicate HasStatus(reply: Reply, low: nat, high: nat) {
    reply.Reply? && low <= reply.status <= high
  }

  /** A refusal whose body names a reason. */
  predicate Names(reply: Reply, status: nat, reason: string) {
    HasStatus(reply, status, status) && Contains(reply.body, reason)
  }

  /** Throttling and server errors, and nothing else, may be sent again. */
  predicate Resendable(reply: Reply) {
    HasStatus(reply, 429, 429) || HasStatus(reply, 500, 599)
  }

  /** The first of the four allowances, in this order, that a 403 names. */
  predicate NamesAllowance(reply: Reply) {
    || Names(reply, 403, "exceeded-account-historical-data-allowance")
    || Names(reply, 403, "exceeded-api-key-allowance")
    || Names(reply, 403, "exceeded-account-trading-allowance")
    || Names(reply, 403, "exceeded-account-allowance")
  }

  /** What a caller is told of the last reply. */
  predicate Reports(reply: Reply, r: Result<Reply, AppError>) {
    && (r.Ok? <==> HasStatus(reply, 200, 299)) && (r.Ok? ==> r.value == reply)
    && (r == Err(Network) <==> reply.Lost?)
    && (r == Err(RateLimitExceeded) <==> HasStatus(reply, 429, 429))
    && (r == Err(OAuthTokenExpired) <==> Names(reply, 401, "oauth-token-invalid"))
    && (r == Err(Unauthorized) <==> HasStatus(reply, 401, 401) && !Names(reply, 401, "oauth-token-invalid"))
    && (r == Err(HistoricalDataAllowanceExceeded) <==>
          Names(reply, 403, "exceeded-account-historical-data-allowance"))
    && (r == Err(ApiKeyAllowanceExceeded) <==>
          && Names(reply, 403, "exceeded-api-key-allowance")
          && !Names(reply, 403, "exceeded-account-historical-data-allowance"))
    && (r == Err(TradingAllowanceExceeded) <==>
          && Names(reply, 403, "exceeded-account-trading-allowance")
          && !Names(reply, 403, "exceeded-account-historical-data-allowance")
          && !Names(reply, 403, "exceeded-api-key-allowance"))
    && (r == Err(AccountAllowanceExceeded) <==>
          && Names(reply, 403, "exceeded-account-allowance")
          && !Names(reply, 403, "exceeded-account-historical-data-allowance")
          && !Names(reply, 403, "exceeded-api-key-allowance")
          && !Names(reply, 403, "exceeded-account-trading-allowance"))
    && (reply.Reply? ==>
          (r == Err(Unexpected(reply.status)) <==>
             && !HasStatus(reply, 200, 299) && !HasStatus(reply, 401, 401) && !HasStatus(reply, 429, 429)
             && !NamesAllowance(reply)))
  }
}
