# Dynamic DNS rotation worker, in Dafny

This project models the core of a worker that keeps one DNS name pointing at a
fixed number of addresses in each of several `/24` prefixes. Each run does the
following:

- It lists the name's A records through the DNS provider's API. The API client
  retries with exponential backoff.
- For each configured prefix, it takes the listed records whose address starts
  with the prefix and a dot:
  - it deletes every record beyond the first `TARGET`;
  - it moves each kept record to a fresh random address in the prefix;
  - it creates new records until the prefix has `TARGET` of them.
- It dispatches all of these operations, counts them in a report, and returns
  the report.

The model lives in five modules:

- `Records` (records.dfy): records, the configuration and prefix groups.
  - `Deployed` holds the seven prefixes and the target of 5 that the worker
    ships with.
  - Every lemma takes the configuration as a parameter.
- `Address` (address.dfy): `randIp`.
  - The `i`-th draw of `Math.floor(Math.random() * 254)` is the `i`-th value
    of a function `random: nat -> Draw`, where `Draw` is [0, 254).
  - The decimal rendering of the last octet is written out.
- `ApiClient` (api_client.dfy): `cfApi` and `getRecords`.
  - What attempt `i` meets (an exception, or a response with a status and a
    body that parses or not) is `network(i)`.
  - The sleeps are recorded as requested durations.
  - `CallApi` is recursive, as `cfApi` is. Its specification is the function
    `CallFrom`.
- `Reconciler` (reconciler.dfy): the `updateDns` planning loop, the report
  (a class `Stats` whose methods update its fields), and the dispatch of the
  planned operations.
  - A run's plan is `Plan`: the concatenation of each prefix's plan
    `PrefixPlan`. The `k`-th prefix draws its addresses after the `k * target`
    draws of the prefixes before it.
  - `PlanRun` is the loop. It is proved to push exactly `Plan`.
- `Convergence` (convergence.dfy): what the planned operations do to the
  listed records once applied.
  - Every operation of a run is issued against the same listing, so `Apply`
    applies the batch to that listing. That is the provider's record set
    only when the listing call succeeded: a failed listing gives no records,
    and `Reconciler.FailedListingOnlyCreates` shows that the run then only
    adds `target` records per prefix.
  - The identifiers the provider gives created records are a parameter.

The `.catch` handlers (index.js:106, 116, 125) record a failed operation as
`"delete: <message>"` and so on, but they never run, because `cfApi` never
rejects:
- its `catch` turns every exception into a resolved `{ success: false, error }`
  value;
- once the retries are spent, a response whose body says `success: false` is
  returned as is.

So every operation's `.then` handler runs and increments its counter, and no
`.catch` handler ever runs. The model follows the code: `Reconciler.UpdateDns`
proves that the error list stays empty and that each counter equals the number
of operations of its kind that were planned, whatever the network does.
`Reconciler.Stats.Settle` still models the `.catch` branch, for a rejection
that the client never produces.

Each configured prefix is three octets joined by exactly two dots, so a
prefix's group is well defined:
`Records.GroupUnique` shows that no address starts with `p.` and `q.` for two
distinct such prefixes.

## Model

| member | source | states |
|---|---|---|
| Records.GroupUnique | index.js:99 | an address lies in the group (`startsWith(prefix + ".")`) of at most one three-octet prefix, so the groups of distinct configured prefixes are disjoint |
| Records.DeployedIsValid | index.js:3-11 | the seven shipped prefixes are pairwise distinct and each holds exactly two dots |
| Address.RandIp | index.js:15-17 | a generated address starts with the prefix and a dot and is longer than the prefix |
| Address.RandIpOctet | index.js:15-17 | the part after the prefix and its dot is 1 to 3 decimal digits without a leading zero, whose value is the draw plus one, in [1, 254] |
| Address.RandIpStaysInGroup | index.js:15-17 | a generated address has three dots and lies in the group of another three-octet prefix exactly when that prefix is its own |
| Address.DecimalRoundTrip | index.js:16 | reading back the decimal rendering of a number gives the number |
| ApiClient.Decide | index.js:38-58 | an attempt is retried exactly when `retry < 3` and it is an exception, HTTP 429, an unparsable body or a falsy `success`; otherwise the call resolves with the parsed body or a failure made from the exception message, and it reports success exactly when the attempt delivered a successful body |
| ApiClient.CallApi | index.js:21-60 | the recursive call resolves with the outcome `CallFrom` specifies: its reply, its number of attempts (1 to 4 from counter 0) and its sleeps |
| ApiClient.BackoffSchedule | index.js:22 | the backoff is 1000, 2000 and 4000 ms for counters 0, 1 and 2, and is capped at 8000 ms from counter 3 on |
| ApiClient.SleepsAreBackoffs | index.js:22-58 | sleep `j` of a call that starts at counter `retry` is the backoff of counter `retry + j` |
| ApiClient.SleepSchedule | index.js:21-60 | the sleeps taken are a prefix of 1000, 2000, 4000 ms with one sleep fewer than attempts, and the 8000 ms cap is never reached |
| ApiClient.RetriesOnlyWhileTransient | index.js:38-58 | every attempt but the last was transient; the last is not transient unless the retries ran out; and the reply is what the last attempt yields |
| ApiClient.FirstSuccessReturned | index.js:38-51 | after `i` transient attempts, a successful body that is not a 429 while retries remain is returned at once, after `i + 1` attempts and the first `i` sleeps |
| ApiClient.FailureExhaustsRetries | index.js:21-60 | a call that does not succeed has made all four attempts and slept 1000, 2000 and 4000 ms, and its first three attempts were all transient |
| ApiClient.LateRateLimitIsReturned | index.js:38-51 | a 429 on the fourth attempt is not retried: its parsed body is returned, counting as success exactly when its `success` field is truthy |
| ApiClient.ListedRecords | index.js:65 | a successful reply gives the records in its body's `result`, and a reply that did not succeed gives no records |
| ApiClient.GetRecords | index.js:62-66 | the listing is `ListedRecords` of the call's reply, and a non-empty listing means some attempt delivered a successful body |
| Reconciler.Related | index.js:99 | the filter keeps at most the listed records, and every record it keeps lies in the prefix's group (`content.startsWith(prefix + ".")`) |
| Convergence.RelatedAt | index.js:99 | every listed record of the group is kept by the filter, at its rank: the position given by the number of group records listed before it, so the filter keeps listing order |
| Convergence.RelatedSource | index.js:99 | every entry `j` of the filtered list is a listed record of the group whose rank is `j`, so the filter holds exactly the group's records, in listing order |
| Reconciler.Split | index.js:101-110 | the kept records followed by the dropped ones are the group; `min(n, target)` records are kept, `max(n - target, 0)` are dropped, and the kept plus the missing make `target` |
| Reconciler.PushDeletes | index.js:101-108 | pushes one delete per excess record, in order |
| Reconciler.PushUpdates | index.js:112-118 | pushes one update per kept record, in order, each with the next draw's address, and uses one draw per record |
| Reconciler.PushCreates | index.js:120-127 | pushes `need` creates, each with the next draw's address, and uses `need` draws |
| Reconciler.PushPrefixOps | index.js:99-127 | one iteration of the prefix loop pushes exactly that prefix's plan and uses `target` draws |
| Reconciler.PlanRun | index.js:98-128 | the loop over the prefixes pushes exactly `Plan`, the concatenation of the prefixes' plans in order |
| Reconciler.Stats.constructor | index.js:96 | the report starts with zero counters and no errors |
| Reconciler.Stats.Settle | index.js:103-126 | a resolved operation increments the counter of its kind whatever its reply; a rejected one appends `"<kind>: <message>"` to the errors and changes no counter |
| Reconciler.Dispatch | index.js:103-130 | after every task has settled, each counter has grown by the number of tasks of its kind and the errors are unchanged |
| Reconciler.UpdateDns | index.js:93-132 | the tasks are the plan for the listed records; in the returned report each counter equals the number of planned operations of its kind, and the error list is empty |
| Reconciler.PrefixPlanDeletesAt | index.js:101-109 | a prefix's plan starts by deleting `related[target..]` in listing order, and holds one operation per excess record plus `target` |
| Reconciler.PrefixPlanUpdatesAt | index.js:109-118 | next it updates `related[..min(n, target)]` in listing order, each to an address of the prefix |
| Reconciler.PrefixPlanCreatesAt | index.js:120-127 | the rest are creates with addresses of the prefix |
| Reconciler.PrefixPlanCounts | index.js:99-127 | per prefix: `max(n - target, 0)` deletes and `min(n, target)` updates; updates plus creates make `target`; no creates once `target` records exist; a target of 0 deletes the whole group and plans nothing else |
| Reconciler.PlanTotals | index.js:98-128 | over a run, the deletes add up the excess of every group, and the updates plus creates make `target` per configured prefix |
| Reconciler.FailedListingOnlyCreates | index.js:93-128 | when the listing call does not succeed, `getRecords` (index.js:65) yields no records and the run plans no delete, no update and `target` creates per configured prefix |
| Convergence.PrefixPlanDeletes | index.js:101-108 | a prefix's plan deletes a listed record exactly when the record is in its group at a rank of `target` or more |
| Convergence.PrefixPlanUpdates | index.js:109-118 | a prefix's plan updates only records of its group, and only to addresses of its group |
| Convergence.PlanDeletes | index.js:98-110 | a run deletes a listed record exactly when some configured prefix holds it at a rank of `target` or more |
| Convergence.PlanUpdates | index.js:98-118 | a run updates a listed record only when some configured prefix holds both its old and its new address |
| Convergence.PrefixPlanCreatesIn | index.js:120-127 | a prefix's plan creates, in a three-octet prefix's group, the records that group lacks when the two prefixes are the same, and none otherwise |
| Convergence.PlanCreatesIn | index.js:98-128 | over distinct three-octet prefixes, a run creates in a prefix's group exactly the records that group lacks if the prefix is configured, and none otherwise |
| Convergence.FateCount | index.js:99-118 | after the run, a listed record counts toward a configured prefix's group exactly when it was in that group below rank `target` |
| Convergence.SurvivorsCount | index.js:101-118 | given each listed record's fate as `FateCount` states it, the listed records that survive in a group are `min(n, target)` |
| Convergence.Untouched | index.js:99 | a record of no configured prefix is neither deleted nor updated, and keeps its address |
| Convergence.Converges | index.js:93-132 | once a run's plan is applied to the listing it was planned from, every configured prefix holds exactly `target` records, and every listed record of no configured prefix is still there unchanged |
| Convergence.SteadyState | index.js:98-127 | a listing that already has `target` records per prefix gets no delete and no create, and gets `target` updates per prefix |
| Convergence.SecondRunKeepsShape | index.js:93-132 | a second run over the converged records keeps every configured prefix at `target` records |

## Left out

- Requests: URLs, headers, credentials and JSON encoding are not modelled (index.js:25-39 and 62-91). This includes the paths and payloads of `createRecord`, `updateRecord` and `deleteRecord`. A planned operation is a value (`Delete`, `Update`, `Create`), and its request goes through the client like any other call.
- Sleeping: the waits are recorded as durations. No time passes in the model.
- `Math.random`: the draws are a parameter function. The model takes as given that `Math.floor(Math.random() * 254)` is an integer in [0, 254), and does not model floating point.
- Concurrency: in the source, each operation's request starts when it is pushed, and the `.then` handlers run in any order before `Promise.all` resolves (index.js:103-130). The model dispatches the tasks one after another after the loop.
  - Both forms give the same report, because each handler only increments a counter.
  - Whether the provider applies the operations in some interleaved order is not modelled: `Convergence.Apply` applies the whole batch to the listing they were planned from.
- The identifiers the provider gives created records are a parameter of `Convergence.Apply`. `Convergence.SecondRunKeepsShape` requires that the records after the first run have distinct identifiers.
- The HTTP handler (secret check, JSON report, the 401 and 500 responses) and the scheduled handler (index.js:134-163) are not part of this model.
- Reconciler.UpdateDns: it is generalised over the prefix list and the target. `Records.Deployed` holds the shipped values (index.js:3-13), and `Records.DeployedIsValid` shows that they meet the configuration's requirements.
- Convergence.Converges: requires distinct record identifiers in the listing and a configuration of distinct three-octet prefixes. The shipped configuration meets the latter.
- Convergence.Converges: it speaks of the listing, which is taken to be the provider's record set. When the listing call exhausts its retries, `getRecords` returns no records (index.js:65), the run deletes and updates nothing and creates `target` records per prefix (`Reconciler.FailedListingOnlyCreates`), so each group ends with its old records plus `target`, not `target`.
