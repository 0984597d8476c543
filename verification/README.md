# IG client: request protocol and stateful components

A Dafny model of the parts of the IG Markets client that hold state across calls, with proofs that
hold for every network, every pool size, every retry count and every clock:

- **The pooled request** (`HttpClient`, `PoolView`, `Transport`, `RequestProtocol`, `Ledger`,
  `CandidateOrder`, `Endpoints`). A pool of API keys serves one business request through selection,
  pacing, retry, key rotation and authentication replay. `RequestProtocol` is the request as a pure
  state machine; `HttpClient` runs the client's loops over slots, cooldowns, sessions and the selected
  account and is proved to make only runs of that machine; `Ledger` keeps the books, a trace of every
  key cell, account cell and send, against which token conservation is stated. `BriefTokens` runs the
  client into the loss of two cells.
- **The session of one key** (`SessionModel`, `Auth`): login, refresh, account switch and logout.
- **Pacing and backoff** (`RateLimiter`, `Retry`): what the computed interval, burst and shift imply
  over whole runs.
- **Quote subscriptions** (`QuoteStreamer`), **connection generations** (`DynamicStreamer`), **catalog
  enumeration** (`Catalog`), **position netting** (`Positions`) and **body snippets** (`Snippet`).

The world outside is arbitrary. The network is any sequence of replies, after which it stays silent. Which
session the server has for a key follows from the accepted replies to the logins, switches and logouts on the
trace (`Standings`), and a client's sessions are held against it. Which attempts at a bucket another caller
wins is an input (`rivals`), and every attempt that gave nothing is on record with its moment.
The clock only moves forward, by any amount, at every point where the program waits. Key and account
buckets grant a cell when their quota admits it, or later when others come first; the cells of a trace are
on record with their moments, and `World.Valid` keeps every one of these runs admitted. `Time` bounds
`h` in contracts are ghost: a claim about login economy or about unsent cells holds up to any moment
`h` at which the sessions that were ready, and those the server issues, are still outside their refresh
margin (`Steady`, `FreshUntil`).

Where a property one would expect does not hold of the code, the model keeps the code and states
exactly when it holds:

- At most one reserved cell is lost per request: false, because every attempt whose session cannot be
  fetched loses one and such an attempt can be followed by another. Counting those and the cell of a
  reservation whose own session fetch ends the request, all runs lose at most one if and only if the
  policy is single-attempt (`LostAtMostOneIff`), and then so does the client (`RequestInternal`).
  `BriefTokens.FreshClient` is the client losing two, from its constructor on: one key on v3, tokens
  that last no longer than their refresh margin, and every second login refused with a 401. `Conserved`
  counts the lost cells exactly, and none is lost by an attempt while sessions stay fresh.
- Every send is for the selected account, whose bucket pays: true on v3, where the header carries the
  account in force (`SentForAccountInForce`). On v2 the account is the session's, and for a session that
  was on the selected account, with a real account configured, the two agree if and only if no login
  replaced it or the selected account is the configured one (`SentForSelectedIff`);
  `MispairedAfterLogin` is a send for one account that another account's bucket pays. Beforehand, sessions
  on the selected account that stay fresh are enough, up to a forced refresh (`SentForKeptAccount`).
- The walk over the pool visits every key: if and only if the 64-bit cursor does not wrap inside the
  walk, or the pool size divides 2^64 (`CoversIffWhole`).
- A session built from a v2 response is expired whenever the response is: if and only if
  `ConservativeV2` holds, a condition on the response's lifetime and creation time; a login always meets it.
- A per-second interval covers its second: if and only if nothing was rounded away
  (`PerSecondCoversSecond`); both budgets the client fixes are one per second.
- Netting conserves signed size for all real sizes; non-negative sizes are not needed. The averaged level
  does depend on the order of the positions, unless there are fewer than three of the EPIC or all have the
  same level (`LevelIgnoresOrderIff`).
- A dynamic stream's flag means a current connection to the current EPICs: a call keeps that, whatever
  the connection tasks do meanwhile, if and only if a condition on the state before it holds. For `start`
  nothing was connected, there is no EPIC, or the new connection comes up (`StartIsSafeIff`); for `add`
  and `remove` nothing changes, nothing was connected, or EPICs are left and the new connection comes up
  (`AddIsSafeIff`, `RemoveIsSafeIff`). For one given schedule the old task's exit check in time is the
  only other way (`StartedSafeIff`, `AddedSafeIff`, `RemovedSafeIff`), and a completed handshake is one
  (`ConfirmedIsSafe`). `StartDisowns` and `RemoveOutlivesGrace` are unsafe states these calls reach.
- A connection that is no longer the current one was told to stop, so none is left behind that no call can
  reach: `add`, `remove`, `clear` and `disconnect` keep this always. `start` does not stop the connection it
  replaces: whatever the tasks do it keeps this if and only if none runs on untold, there is no EPIC, or the
  new connection does not come up (`StartIsTidyIff`).

## Model

| member | source | states |
|---|---|---|
| `HttpClient.HttpClient.RequestInternal` | src/application/http.rs:808-956 | One business request, for every reply sequence, pool and policy, and on v3 every interleaved account switch: its attempts are a run of the request machine, its books balance cell by cell and send by send, its sends stay within their bound and its loop turns within pool + 1, an attempt is followed by another only after a refused key allowance of non-trading standard traffic with a key left to enter, or after the first 401 of standard traffic once its session was refreshed, and such an allowance refusal never ends it; its error is that of its last attempt, of that attempt's failed refresh, or of the failed reservation, and the replies say why; success hands over the network's last answer, a reservation is left owing only if the request fails, every key that refused its allowance is left in cooldown, every attempt is made with the account in force selected and charged to that account's bucket, it is sent with the session its key held at the start or one a login left and with that account in the header exactly on OAuth sessions, so on v3 every send is for the account in force, a single-attempt request loses at most one cell, no candidate runs out unless the cursor wrapped in a broken round, and while sessions stay fresh every attempt sends |
| `HttpClient.HttpClient.OrdersAreSentOnce` | src/application/http.rs:834-854 | Mutations of positions or working orders, percent-escaped mutations and single-attempt requests: one attempt, at most one send, no refresh and no rotation, whatever the pool, the sessions and the server do |
| `Endpoints.ClassesIff` | src/application/http.rs:1631-1647 | Trading is exactly a mutation of positions or working orders, and historical exactly a prices path that is not such a mutation |
| `Endpoints.SingleAttemptIff` | src/application/http.rs:834-854 | A request is single-attempt exactly when that was asked, or it is a mutation of positions or working orders, or one with an escaped path |
| `Endpoints.ContainsIff` | src/application/http.rs:1631-1647 | The search for a fragment finds it exactly when it occurs at some position |
| `HttpClient.HttpClient.Turn` | src/application/http.rs:873-955 | One turn of the loop keeps the books and the machine state, uses up the termination measure, and keeps the session, header, bucket and cooldown facts of all earlier attempts |
| `HttpClient.HttpClient.OneAttempt` | src/application/http.rs:873-911 | Reserves (pinned for a replay), then attempts with the account in force selected and records the session, header and bucket of the sends and the replies they got; it is starved only when the whole pool was tried |
| `HttpClient.HttpClient.AttemptOn` | src/application/http.rs:887-955 | An attempt with a reserved cell is legal for the machine, leads to the machine's next state, spends its cell on its first send or leaves it unsent, and leaves a key that refused its allowance parked; its error is what the replies say; it records the session, header, selected account and bucket it was sent with; without a ready session and with a refused v3 login its cell is lost |
| `HttpClient.HttpClient.React` | src/application/http.rs:909-955 | What follows a result: rotation or return on an allowance refusal, one forced refresh on the same slot after the first 401 of standard traffic, return on everything else; a refresh is a login that succeeded, an error is the attempt's or its failed refresh's; the new loop state is that of the machine |
| `RequestProtocol.OnlyTheseGoOn` | src/application/http.rs:909-955 | In every run exactly two results lead to another attempt: a refused key allowance of non-trading standard traffic with a key not yet entered, and the first 401 of standard traffic after its refresh; a throttled attempt has made all the sends due to it |
| `HttpClient.HttpClient.ReserveNext` | src/application/http.rs:873-889 | A replay pays for a new cell of its pinned slot; everything else goes through the selector and gets an untried slot |
| `HttpClient.HttpClient.RequestOnSlot` | src/application/http.rs:967-1028 | Without a session nothing is sent and the session's error is told; otherwise the sends cost exactly one key cell and one account cell each, the account header and the account bucket come from one read of the selected account, the header is sent exactly on OAuth sessions, the sends go out on the session the server has for the key, and throttling is told only after all retries |
| `HttpClient.HttpClient.ReserveSlot` | src/application/http.rs:495-630 | One reservation holds one cell on an untried slot; trading takes the primary; an untried key that is not cooling, holds a session that stays ready and has a cell in its bucket is enough to be served at once, in the order of the walk, by one cell and without any traffic or wait, unless another caller is first at a bucket; otherwise, on a walk that covers the pool, no untried key could serve at a moment before this reservation paid for anything, each for a bucket that was asked and had no cell or lost it to another caller, a cooldown or a stale session; a cooling key only when every untried key was cooling at a later moment; the primary moves only off a slot that is cooling at that moment and afterwards is the served slot or not cooling; no candidate exactly when all were tried, for a walk that covers the pool; at most one login while sessions stay fresh |
| `HttpClient.HttpClient.ReserveFrom` | src/application/http.rs:514-630 | The same, at the same moments, for one walk of the pool from a given cursor value |
| `HttpClient.HttpClient.ReserveReady` | src/application/http.rs:526-541 | First pass: the first candidate that is not cooling, holds a ready session and has a cell, taken without traffic; every one before it lacked one of these, and a bucket that counts as empty was asked and admitted no cell at that moment, or lost it to another caller |
| `HttpClient.HttpClient.ReserveAfterLogin` | src/application/http.rs:543-570 | Second pass: at most one key logs in, the first in the order that was not cooling, refused and parked, or holding a session already; a key that refuses its allowance is parked and the next asked; nobody logs in only if every candidate was settled in one of these ways |
| `HttpClient.HttpClient.LoginOn` | src/application/http.rs:551-569 | A login on one key: it may take over a parked primary and serve, or is parked exactly on an allowance refusal in a pool of several keys |
| `HttpClient.HttpClient.Waitlist` | src/application/http.rs:572-609 | Whom to wait on: the keys not cooling, or all of them after the shortest cooldown, and of those the ones with a ready session if there are any |
| `HttpClient.HttpClient.ReserveByWaiting` | src/application/http.rs:572-630 | Waiting spends one cell of the winner and logs in only if no candidate out of cooldown was ready; a cooling winner only if all were cooling at the start |
| `HttpClient.HttpClient.ReserveTrading` | src/application/http.rs:502-511 | Trading is pinned to the primary, cooling or not, and is refused only when the primary was tried |
| `HttpClient.HttpClient.LoginAny` | src/application/http.rs:443-462 | The first key that logs in; the ones before it refused their allowance and are parked; an allowance error only when all were refused and parked; one login at most while sessions stay fresh |
| `HttpClient.HttpClient.SwitchAccount` | src/application/http.rs:1098-1147 | v3: the account and its bucket are replaced together, without traffic and without touching a session; v2: through the server, for one key only, whose session the server then keeps on that account; on failure the account in force stays |
| `HttpClient.HttpClient.SelectAccount` | src/application/http.rs:1133-1145 | The account in force is always paired with its own bucket, and no other account's bucket moves |
| `HttpClient.AccountRegistry.BuildAccountLimiter` | src/application/http.rs:411-429 | One bucket per account for the whole process, each with the quota of thirty requests a minute |
| `HttpClient.AccountRegistry.AccountsKeepCeiling` | src/application/http.rs:155-163 | What an account's bucket admits, whoever asks, is at most thirty cells in any sixty seconds |
| `HttpClient.HttpClient.Lazy` | src/application/http.rs:273-300 | A client over a pool of keys starts without sessions or cooldowns, on the configured account, with the first key as primary |
| `HttpClient.HttpClient.FirstDeadline` | src/application/http.rs:584-600 | The shortest cooldown: every candidate is cooling until just before it and one recovers then |
| `HttpClient.HttpClient.NotStarved` | src/application/http.rs:873-882 | A request that goes on finds a candidate whenever the walk covers the pool |
| `PoolView.PassedOverStill` | src/application/http.rs:526-541 | A key that could not serve when it was asked counts as such for the rest of the reservation: cooldowns only extend and sessions only age |
| `PoolView.SettledParked` | src/application/http.rs:543-569 | A refused and parked key keeps the account of all earlier candidates of the login pass |
| `HttpClient.HttpClient.SentForAccountInForce` | src/application/http.rs:979-1003 | On v3 every send of a request carries the account in force at its attempt in its header, and that account's bucket pays, whatever logins, refreshes and switches happen |
| `PoolView.SentForSelectedIff` | src/application/http.rs:979-1003 | On v2 a send is for the selected account if and only if no login replaced the session that was on it, or the selected account is the configured one |
| `PoolView.MispairedAfterLogin` | src/application/auth.rs:378-439 | Configured for A, switched to B, logged in again: the sends are for A and B's bucket pays |
| `HttpClient.HttpClient.SentForKeptAccount` | src/application/http.rs:979-1003 | On v2, with every session on the selected account and fresh up to a moment, every send that is over by then is for it and its bucket pays, up to a forced refresh |
| `PoolView.FreshSessionKeepsAccount` | src/application/auth.rs:347-369 | A session that stays outside its margin is the one sent with, unless a forced refresh threw it away |
| `RequestProtocol.SendsAreBounded` | src/application/http.rs:850-956 | Every run makes at most pool - 1 + 2(retries + 1) sends when it may rotate, 2(retries + 1) otherwise, and one under a single-attempt policy |
| `RequestProtocol.SendBoundAttained` | src/application/http.rs:850-956 | For the request machine the bound is the best possible: one of its runs attains it |
| `RequestProtocol.RunIsShort` | src/application/http.rs:872-956 | At most pool + 1 turns: each uses up an untried slot, the replay, or the replay owed |
| `RequestProtocol.NeverOutOfSlots` | src/application/http.rs:873-882 | While a request goes on a slot is pinned or untried |
| `RequestProtocol.SingleAttemptSendsOnce` | src/application/http.rs:834-854 | A single-attempt request makes one attempt, at most one send and no forced refresh |
| `RequestProtocol.ReplayDiscipline` | src/application/http.rs:856-880 | A slot is entered twice only by the replay, directly after the only forced refresh, which was made on that slot |
| `RequestProtocol.LostAtMostOneIff` | src/application/http.rs:865-911 | All runs, with the cell of a reservation that ended them, lose at most one reserved cell if and only if the policy is single-attempt |
| `RequestProtocol.SingleAttemptLosesOne` | src/application/http.rs:834-911 | A single-attempt request loses one cell at most, its attempt's or its reservation's |
| `RequestProtocol.LostAtMostTurns` | src/application/http.rs:865-911 | No request loses more cells than it has turns, at most pool + 1 |
| `BriefTokens.FreshClient` | src/application/http.rs:543-570 | A new v3 client of one key, against a server whose tokens are inside their refresh margin at once and which refuses every second login, loses two cells in two turns and sends nothing, with its trace, books and plan, unless its reservation had to wait for its bucket |
| `BriefTokens.LosesTwo` | src/application/http.rs:873-955 | The same from any state of such a client, with the run legal, ended and its books balanced |
| `RequestProtocol.UnsentAtMostAttempts` | src/application/http.rs:865-911 | No run loses more reserved cells than it makes attempts |
| `Ledger.RequestAccounting` | src/application/http.rs:144-152 | Balanced books of a run bound the sends, and on every lane the key cells beyond its sends by the unsent reservations; a single-attempt run loses one cell at most |
| `Ledger.AttemptConserved` | src/application/http.rs:967-1028 | An attempt takes over its reserved cell: spent on the first send, or left unsent |
| `Ledger.ConservedNext` | src/application/http.rs:872-956 | Balanced books of one attempt join those of the attempts before it |
| `Ledger.ConservedThen` | src/application/http.rs:495-630 | Session traffic and reservations keep the books balanced, with at most one cell owed |
| `Ledger.ChargedToOne` | src/application/http.rs:1172-1178 | Sends of attempts that all used one bucket are all charged to it |
| `CandidateOrder.CoversIffWhole` | src/application/http.rs:514-520 | The walk visits every slot if and only if the cursor does not wrap inside it or the pool size divides 2^64 |
| `CandidateOrder.BrokenRound` | src/application/http.rs:514-520 | Three keys at the end of the 64-bit range: the last one is no candidate |
| `Transport.MakeHttpRequestPaced` | src/application/http.rs:1391-1543 | Every reply followed by another send has status 429 or 500 to 599, and a loop that stops before the retries are spent stops on a reply that has neither; the waits between sends are the configured backoff; both budgets are charged, key first, on every send but the reserved first one; the result is Ok exactly for a last status of 200 to 299, and each error exactly for its status and body: throttling, the two 401 errors, the four 403 allowances in their order, a lost connection, anything else |
| `Transport.AnswerReports` | src/application/http.rs:1446-1543 | Which replies are sent again and what the caller is told of the last one, in statuses and bodies |
| `Transport.PaidBeforeSent` | src/application/http.rs:1411-1442 | In every request each send has its key cell and then its account cell taken before it, the reserved first key cell aside |
| `Transport.World.AccountKeepsCeiling` | src/application/http.rs:132-163 | In every state a client reaches, the cells its trace took from an account were granted at most thirty in any sixty seconds |
| `Transport.World.KeysKeepRate` | src/application/rate_limiter.rs:172-216 | And the cells of a key's class within its configured rate, or one in any second for trading and historical traffic |
| `Transport.PacedGrant` | src/application/rate_limiter.rs:280-288 | A cell granted when its own bucket admits it keeps every bucket's run admitted |
| `Transport.World.TryGrant` | src/application/rate_limiter.rs:272-277 | A cell is taken exactly if the budget admits one at that moment and no other caller is first; a refusal is put on record with its budget and moment |
| `PoolView.ServiceableServes` | src/application/http.rs:526-541 | A key that is not cooling, has a session that stays ready and a cell in its bucket is never passed over while no other caller is first |
| `Transport.StopIsUnique` | src/application/http.rs:1402-1543 | The network and the retry count determine the number of sends |
| `Transport.RequestCosts` | src/application/http.rs:1411-1424 | n sends cost n key cells of their own lane, one fewer when the first was reserved, and n account cells, none for trading |
| `Transport.RequestWaits` | src/application/http.rs:1526-1535 | All sleeps of one request sum to at most 75 s per retry |
| `Transport.WaitsAreConfigured` | src/model/retry.rs:145-184 | Wait number k lies between the configured base (10 s if unset) doubled k times, capped at a minute, and a quarter more; there are at most the configured retries, 3 if unset |
| `Auth.Auth.Login` | src/application/auth.rs:378-439 | All or nothing: on success the cached session is the returned one, with the account and the tokens of the session the server has for the key by its accepted replies, on the configured account whenever a real one is configured; if the login body named another account, an accepted switch to the configured one followed it on the trace; on failure the cache is unchanged or empty and the error is that of a reply; exactly one login when fresh sessions are outside their margin |
| `Auth.Auth.LoginV2` | src/application/auth.rs:442-534 | A v2 login succeeds exactly when its last reply is accepted with both tokens and a session body, and carries that reply's account and tokens; a failed one opens nothing at the server |
| `Transport.LastSetCounts` | src/application/auth.rs:378-439 | By the replies alone: the account the server has for a key is the one named by the last accepted login or requested by the last accepted switch on the trace |
| `Auth.Auth.GetSession` | src/application/auth.rs:347-369 | A ready session is handed back without traffic; one inside its margin on entry never is: a login took its place, whose account and tokens are the server's |
| `Auth.Auth.RefreshToken` | src/application/auth.rs:594-618 | The same check with the same margin, so the two agree |
| `Auth.Auth.ForceRefresh` | src/application/auth.rs:644-648 | Re-authenticates whatever the local clock says |
| `Auth.Auth.SwitchAccount` | src/application/auth.rs:658-759 | On success the cached session and the server's are on the requested account; a ready session is switched by exactly one call naming that account, none if it is there already; on failure the session is the old one, gone, or one a login put on the configured account |
| `Auth.Auth.Redirect` | src/application/auth.rs:676-759 | One call asks for the account; the session follows, with its tokens as ApplySwitchHeaders has them, exactly when the server accepts |
| `Auth.Auth.Logout` | src/application/auth.rs:781-822 | The local session always ends; one that was held is ended by exactly one call, which fails only for a last reply that is neither a success nor a 401, with the error of that reply |
| `Auth.ApplySwitchHeaders` | src/application/auth.rs:51-62 | New tokens replace the old ones, a missing one keeps the one in use, and the expiry does not move |
| `Auth.IssuedStaysFresh` | src/application/auth.rs:378-439 | A session the server issued in a span in which its bodies stay fresh is outside its margin at the end of it |
| `SessionModel.ExpiryIsMonotone` | src/model/auth.rs:146-152 | An expired session stays expired, for every margin |
| `SessionModel.OAuthExpiryIsConservative` | src/model/auth.rs:229-316 | A session is expired whenever the OAuth token it came from is, and at most two seconds too early |
| `SessionModel.V2ExpiryIsConservativeIff` | src/model/auth.rs:525-535 | The v2 session check is conservative for all margins and moments if and only if the response carries a lifetime the calendar can add to a creation time after the epoch |
| `SessionModel.LoginExpiryIsConservative` | src/model/auth.rs:321-335 | The response a v2 login completes meets that condition |
| `SessionModel.FreshV2` | src/application/auth.rs:94-100 | A v2 session stays outside its margin for 21300 s, to the second |
| `SessionModel.FreshV3` | src/application/auth.rs:94-100 | A v3 session of a token of s seconds, 11 <= s <= 1,000,000, stays outside its margin for s - 11 s, to the second |
| `RateLimiter.IntervalsCoverPeriod` | src/application/rate_limiter.rs:115-130 | The rounded-up interval times the maximum of requests is at least the period and exceeds it by less than one unit per request |
| `RateLimiter.QuotaOfConfig` | src/application/rate_limiter.rs:115-163 | A configuration gives the shortest interval that its maximum of requests times covers its period, and its burst; unset values count as 1 request, 1 s and a burst of 10 |
| `RateLimiter.EffectivePeriodIsConfigured` | src/application/rate_limiter.rs:115-130 | The saturating conversion keeps the period exactly from one second to 584 years |
| `RateLimiter.PerSecondCoversSecond` | src/application/rate_limiter.rs:138-146 | The per-second interval covers the second if and only if nothing was rounded away |
| `RateLimiter.WindowBound` | src/application/rate_limiter.rs:115-163 | Over every run of a bucket, a half-open window that `requests` intervals cover admits at most burst + requests - 1 cells |
| `RateLimiter.WindowBoundAttained` | src/application/rate_limiter.rs:115-163 | The bound is attained |
| `RateLimiter.ConfiguredRate` | src/application/rate_limiter.rs:115-163 | What a configuration promises, over every run |
| `RateLimiter.AccountCeiling` | src/application/http.rs:155-163 | The account bucket never passes thirty cells in any sixty seconds |
| `RateLimiter.OnePerSecond` | src/application/rate_limiter.rs:200-216 | The trading and historical buckets admit one cell in any second |
| `RateLimiter.Bucket.TryTake` | src/application/rate_limiter.rs:272-277 | A cell is taken exactly when the bucket's contract admits it now |
| `RateLimiter.Bucket.Take` | src/application/rate_limiter.rs:280-288 | A waiting caller gets the first moment the contract admits |
| `RateLimiter.RateLimiter.TryReserve` | src/application/rate_limiter.rs:220-277 | One class never spends another's cells |
| `Retry.BackoffIsExact` | src/model/retry.rs:145-184 | The saturating shift and multiplication compute min(base * 2^attempt, 60 s) for every base and attempt |
| `Retry.BackoffBounds` | src/model/retry.rs:159-184 | A delay lies between that value and a quarter more, and the value grows with the attempt |
| `Retry.BackoffRange` | src/model/retry.rs:159-184 | Every delay in that range occurs for some entropy |
| `Retry.DelayBound` | src/model/retry.rs:145-184 | No delay exceeds 75 s |
| `Retry.TotalDelayBound` | src/application/http.rs:1526-1535 | The delays of a loop sum to at most 75 s times the retry count |
| `QuoteStreamer.HeldAreTheMostRecent` | src/application/quote_streamer.rs:216-327 | Without failures the held EPICs are the last min(capacity, distinct) distinct EPICs requested, in order of use |
| `QuoteStreamer.HeldIff` | src/application/quote_streamer.rs:216-327 | An EPIC is held exactly when fewer than `capacity` others were requested since |
| `QuoteStreamer.LargerHoldsMore` | src/application/quote_streamer.rs:216-327 | A larger capacity holds the same EPICs in the same order, and perhaps more |
| `QuoteStreamer.FailureFree` | src/application/quote_streamer.rs:216-327 | A run in which every request is served and only the first opens a session is the plain one |
| `QuoteStreamer.CapHolds` | src/application/quote_streamer.rs:216-327 | In every run, failures included, the cap holds and a served EPIC is held in front |
| `QuoteStreamer.DroppedOnlyFor` | src/application/quote_streamer.rs:230-273 | An EPIC is dropped only with its session, by its own refusal, or as the least recent of a full house for another EPIC |
| `QuoteStreamer.QuoteStreamer.Subscription` | src/application/quote_streamer.rs:216-327 | A call does exactly what `Track` says for strictly later use times; whatever the times, the cap holds, success leaves the EPIC held and live, other entries are only kept or dropped, and a closed streamer refuses and stays closed |
| `QuoteStreamer.RunAll` | src/application/quote_streamer.rs:216-327 | After any sequence of requests, session ends and subscription ends, one streamer's answers, session and ranking are those of the run, which the events determine; with a willing server it holds the last min(capacity, distinct) distinct EPICs requested in its last session |
| `QuoteStreamer.RunTracks` | src/application/quote_streamer.rs:216-327 | What is held depends on the requests alone, each with what it met and how it ended |
| `QuoteStreamer.WillingHoldsRecent` | src/application/quote_streamer.rs:216-327 | When every request finds a server that opens, takes and subscribes, the held EPICs are the most recent distinct ones of the last session, whatever ends in between |
| `QuoteStreamer.LargerHoldsMoreOf` | src/application/quote_streamer.rs:216-327 | Of two streamers that meet the same events with a willing server, the larger one holds all the smaller one holds, in the same order |
| `QuoteStreamer.QuoteStreamer.MakeRoom` | src/application/quote_streamer.rs:262-273 | Room for one more, by dropping the end of the ranking and nothing else |
| `QuoteStreamer.RefusedStillMakesRoom` | src/application/quote_streamer.rs:262-273 | Room is made before the server is asked: a refused newcomer still costs a full house its least recent entry |
| `QuoteStreamer.LeastRecentlyUsed` | src/application/quote_streamer.rs:108-116 | None exactly for no entries, and otherwise an entry used no later than any other |
| `QuoteStreamer.QuoteStreamer.Close` | src/application/quote_streamer.rs:383-399 | Everything is unsubscribed and the streamer closed, also when the session does not close cleanly |
| `QuoteStreamer.FieldsAreLatest` | src/application/quote_streamer.rs:74-97 | After any run of updates every field is the latest value any of them carried |
| `DynamicStreamer.TasksOnlyMove` | src/application/dynamic_streamer.rs:411-450 | Whatever connection tasks do between two steps of a call, the flag falls exactly when the current generation's own task runs its exit check |
| `DynamicStreamer.MovingKeepsSafe` | src/application/dynamic_streamer.rs:411-450 | Task steps keep the safety of the flag |
| `DynamicStreamer.StartIsSafeIff` | src/application/dynamic_streamer.rs:350-476 | `start` leaves a safe state whatever the tasks do if and only if nothing was connected, there is no EPIC, or the new connection comes up |
| `DynamicStreamer.StartedSafeIff` | src/application/dynamic_streamer.rs:350-476 | For one schedule: if and only if one of these holds or the old task checks out before the generation moves on |
| `DynamicStreamer.AddIsSafeIff` | src/application/dynamic_streamer.rs:160-178 | `add` is safe for all schedules if and only if the EPIC is there already, nothing was connected, or the new connection comes up |
| `DynamicStreamer.RemoveIsSafeIff` | src/application/dynamic_streamer.rs:198-217 | `remove` is safe for all schedules if and only if the EPIC is not there, nothing was connected, or EPICs are left and their connection comes up |
| `DynamicStreamer.RemovedSafeIff` | src/application/dynamic_streamer.rs:198-217 | For one schedule: if and only if one of these holds or the old task checks out by the end of the handshake |
| `DynamicStreamer.ConfirmedIsSafe` | src/application/dynamic_streamer.rs:315-347 | With the handshake completing, `add` and `remove` leave a safe state |
| `DynamicStreamer.StartDisowns` | src/application/dynamic_streamer.rs:474-476 | An unsafe state `start` reaches: it fails beside a live connection, and the flag stays up for a task that is no longer current |
| `DynamicStreamer.StartIsTidyIff` | src/application/dynamic_streamer.rs:474-476 | `start` leaves no connection behind, whatever the tasks do, if and only if none runs on that nobody told to stop, there is no EPIC, or the new connection does not come up |
| `DynamicStreamer.ReconnectedIsTidy` | src/application/dynamic_streamer.rs:315-347 | A reconnection tells the connection in force to stop before it opens the next, so none is left behind |
| `DynamicStreamer.RemoveOutlivesGrace` | src/application/dynamic_streamer.rs:198-217 | An unsafe state `remove` reaches: the last EPIC goes, the task outlives its grace time, and the flag stays up |
| `DynamicStreamer.DynamicStreamer.AwaitStopped` | src/application/dynamic_streamer.rs:331-340 | The handshake completes exactly when the task left its confirmation, which a patient wait for a running task always finds |
| `DynamicStreamer.DynamicStreamer.StartInternal` | src/application/dynamic_streamer.rs:350-456 | A new generation subscribed to exactly the current EPICs, or an error after which the state is safe exactly when the flag is down |
| `DynamicStreamer.DynamicStreamer.Reconnect` | src/application/dynamic_streamer.rs:315-347 | With a completed handshake a failed or empty restart leaves the flag down; the connection that was in force is told to stop, and has stopped if the wait has no limit; a live connection's handshake times out only if it outlives its grace time |
| `DynamicStreamer.DynamicStreamer.Add` | src/application/dynamic_streamer.rs:160-178 | The new state is `Added` of the old one, with the EPIC; safety is kept exactly when it was there, nothing was connected, the connection comes up, or the old task checks out by the end of the handshake; a connection in force when the EPICs change is told to stop, and has stopped if the wait has no limit, so none is left behind; it fails exactly when one had to be replaced and the new one does not come up |
| `DynamicStreamer.DynamicStreamer.Remove` | src/application/dynamic_streamer.rs:198-217 | The new state is `Removed` of the old one; safety is kept exactly when the EPIC is not there, nothing was connected, EPICs are left and the connection comes up, or the old task checks out by the end of the handshake; a connection in force when the EPICs change is told to stop, and has stopped if the wait has no limit, so none is left behind; it fails exactly when one had to be replaced, EPICs are left and the new one does not come up |
| `DynamicStreamer.DynamicStreamer.Clear` | src/application/dynamic_streamer.rs:240-260 | No EPIC and no connection in force, whatever the handshake does; the new state is `Cleared` of the old one; a connection in force when the EPICs went is told to stop, has stopped if the wait has no limit, and none is left behind |
| `DynamicStreamer.DynamicStreamer.Start` | src/application/dynamic_streamer.rs:474-476 | The new state is `Started` of the old one; safety is kept exactly when nothing was connected, there is no EPIC, the new connection comes up, or the old task checks out first; a connection is left behind exactly when the new one comes up beside one that still ran untold |
| `DynamicStreamer.DynamicStreamer.Disconnect` | src/application/dynamic_streamer.rs:529-545 | The current task is told to stop the flag is down at once, and no connection is left behind |
| `Catalog.GetAllMarkets` | src/application/client.rs:576-677 | It succeeds if and only if every category code is not blank and the category can be listed to a validated empty page; then the result is the first listing per EPIC of all pages of all distinct categories, in order; an error is of the first category that cannot be listed, at the page where its listing breaks off, and is true of that page; no page is asked for twice and at most 1000 per category |
| `Catalog.EnumerateCategory` | src/application/client.rs:597-670 | A category is listed completely, or the server has no complete listing of it |
| `Catalog.ValidateCategoryPage` | src/application/client.rs:103-149 | A page is accepted exactly when it answers the request and keeps the page size, which the first page fixes |
| `Catalog.ListingIsUnique` | src/application/client.rs:597-670 | A category has at most one complete listing |
| `Catalog.Broken` | src/application/client.rs:597-661 | A page that cannot be accepted rules out every complete listing |
| `Catalog.Blamed` | src/application/client.rs:597-661 | A truthful error of a category, behind its accepted pages, rules out every complete listing |
| `Catalog.EachEpicOnce` | src/application/client.rs:655-660 | No EPIC is lost and none appears twice |
| `Catalog.FirstListingWins` | src/application/client.rs:655-660 | A row is kept if and only if it is the first of its EPIC |
| `Catalog.KeptInOrder` | src/application/client.rs:655-660 | The rows that are kept stand in the order in which they were listed |
| `Positions.CompactByEpic` | src/model/responses.rs:376-390 | Each EPIC of the input once, as its positions added up in order |
| `Positions.NettingConserves` | src/presentation/account.rs:371-496 | The net position carries the sum of the signed sizes and the sum of the profits that are present, and none if none is |
| `Positions.ContractsFollowSizes` | src/presentation/account.rs:444-468 | Contract sizes that are proportional to the sizes stay so through netting, whatever the directions |
| `Positions.AddConserves` | src/presentation/account.rs:444-468 | Adding two positions adds their signed sizes, whatever the directions and sizes |
| `Positions.NetSizeIsExposure` | src/presentation/account.rs:444-468 | For sizes that are not negative the net size is the amount of the exposure |
| `Positions.NettingIgnoresOrder` | src/model/responses.rs:376-390 | Exposure and profit of every EPIC do not depend on the order of the positions |
| `Positions.LimitsAreLatest` | src/presentation/account.rs:470-487 | Limits, stops and trailing steps are those of the latest position that set them; the deal is the first one's |
| `Positions.MarketAndRisk` | src/presentation/account.rs:444-496 | The net position shows the market of the first position of its EPIC, and is guaranteed exactly when one of them is |
| `Positions.LevelIgnoresOrderIff` | src/presentation/account.rs:444-468 | The averaged level is the same for every order of the positions if and only if the EPIC has fewer than three or all have the same level |
| `Positions.NettedLevel` | src/presentation/account.rs:444-468 | The level is the average of the levels before it and the last one, position by position |
| `Snippet.EscapingIsOnePass` | src/application/http.rs:1569-1584 | The four successive replacements are one simultaneous substitution |
| `Snippet.EscapeRoundTrip` | src/application/http.rs:1569-1584 | The substitution can be undone |
| `Snippet.SnippetIsFaithful` | src/application/http.rs:1569-1584 | The snippet is one line without tabs, from which the body, cut to 500 characters, can be read back |
| `Snippet.TruncatedIff` | src/application/http.rs:1569-1584 | A body of at most 500 characters stays as it is, a longer one is cut there and marked |

## Left out

- The transport: sockets, TLS, redirects, HTTP/2 retries, reqwest's parsing of URLs and bodies. The path a request is classified by is an input.
- The internals of `governor`: a bucket is its contract of interval and burst. Waiting callers that lose a race (`select_all`) are taken to spend nothing.
- The finite script of replies: a server that answers every login with a session already inside its margin makes login and account switch call each other without end; the model stops when the script does.
- Interleaving of several requests on one client, but for account switches between attempts. A claim about the primary and the cursor is about one request at a time.
- HttpClient.HttpClient.SwitchAccount: on v2 the account is that of the session it was set on, and a later login goes to the configured account again; that it persists through logins holds, and is stated, for v3 only.
- Transport.World.AccountKeepsCeiling: speaks of one client's own cells; those that other clients of the process take from the same bucket are not on its record.
- BriefTokens.FreshClient: another caller may take the key's cell first; then the reservation waits, and nothing is claimed of this run.
- HttpClient.HttpClient.ReserveSlot: login economy counts logins that end in success, and needs sessions that stay outside their refresh margin up to the horizon `h`.
- Session calls are taken to be non-trading traffic, as their paths make them.
- The wall clock: any monotone time, saturating at the end of the calendar. Jitter is any entropy.
- DynamicStreamer.TasksOnlyMove: the exit check's load and write are one step. Split, a task that had passed its check could clear the flag of a connection that `disconnect` and `start` put in its place.
- Overlapping calls on one dynamic streamer, and the wrap-around of its 64-bit generation counter.
- QuoteStreamer.QuoteStreamer.Close: that it returns when it races with a request; a task spawned after the shutdown signal does not see it.
- QuoteStreamer.QuoteStreamer.Subscription: with equal use times the evicted entry is any of the least recent ones, so the ranking is claimed for strictly later times.
- Lightstreamer sessions, tokio channels and the forwarding of updates: sessions and subscriptions end at any time, and abort is immediate.
- `get_transactions` and `get_costs_history` paging, whose page counts the server controls.
- The text of errors beyond what tells them apart, logging, redaction, tables, environment configuration and SQL storage.
- Positions.NettingConserves: floats are reals, so rounding is not modelled; contract sizes that are not proportional to the sizes are not claimed to be conserved.
- `ws_info`, `fetch_session_tokens`, streaming field names, order builders and date parsing.
