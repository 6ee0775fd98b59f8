/// The provider API client: one logical call with bounded exponential backoff
/// (`cfApi`), and the record listing built on it (`getRecords`). The network is
/// a function from the attempt number to that attempt's outcome; the sleeps are
/// recorded as requested durations.
module ApiClient {
  import opened Records

  /** Retries after the first attempt; at most `MaxRetries + 1` attempts in all. */
  const MaxRetries: nat := 3

  /** The parsed JSON body of a provider response. `success` stands for the
      truthiness of the field; `result` is the listed records (empty for the
      single-record calls, whose payload nothing reads). */
  datatype Body = Body(success: bool, result: seq<Record>)

  /** What `res.json()` gives: the body, or the message of the exception it throws. */
  datatype Json = Parsed(body: Body) | Unparsable(message: string)

  /** What one attempt meets: `fetch` throws, or a response arrives. */
  datatype Attempt = Threw(message: string) | Response(status: int, json: Json)

  /** What the call resolves with: a body as the provider sent it, or the
      `{ success: false, error }` object made up from an exception message. */
  datatype Reply = Returned(body: Body) | Synthesized(error: string)

  predicate Succeeded(r: Reply) {
    r.Returned? && r.body.success
  }

  /** An attempt the client gives up on while retries remain: an exception,
      HTTP 429 (Too Many Requests, section 4 of RFC 6585), or a body whose
      `success` is falsy. */
  predicate Transient(a: Attempt) {
    match a
    case Threw(_) => true
    case Response(status, json) => status == 429 || json.Unparsable? || !json.body.success
  }

  /** An attempt whose response carries a successful body. */
  predicate DeliversSuccess(a: Attempt) {
    a.Response? && a.json.Parsed? && a.json.body.success
  }

  /** What an attempt yields when it is not retried: the parsed body whatever
      the status, or a failure built from the exception's message. */
  function Final(a: Attempt): Reply {
    match a
    case Threw(message) => Synthesized(message)
    case Response(_, Unparsable(message)) => Synthesized(message)
    case Response(_, Parsed(body)) => Returned(body)
  }

  function Pow2(n: nat): (p: nat)
    ensures p >= 1
  {
    if n == 0 then 1 else 2 * Pow2(n - 1)
  }

  /** Milliseconds to sleep before retrying from counter `retry`. */
  function Backoff(retry: nat): nat {
    Min(Pow2(retry), 8) * 1000
  }

  /** The backoff doubles from one second and is capped at eight. */
  lemma {:induction false} BackoffSchedule(retry: nat)
    ensures retry == 0 ==> Backoff(retry) == 1000
    ensures retry == 1 ==> Backoff(retry) == 2000
    ensures retry == 2 ==> Backoff(retry) == 4000
    ensures retry >= 3 ==> Backoff(retry) == 8000
  {
    if retry >= 3 {
      Pow2AtLeast8(retry);
    }
  }

  lemma {:induction false} Pow2AtLeast8(n: nat)
    requires n >= 3
    ensures Pow2(n) >= 8
  {
    if n > 3 {
      Pow2AtLeast8(n - 1);
    }
  }

  datatype Step = Retry | Settle(reply: Reply)

  /** One attempt's handling at counter `retry`. */
  function Decide(a: Attempt, retry: nat): (s: Step)
    ensures s.Retry? <==> retry < MaxRetries && Transient(a)
    ensures s.Settle? ==> s.reply == Final(a)
    ensures s.Settle? ==> (Succeeded(s.reply) <==> DeliversSuccess(a))
  {
    match a
    case Threw(message) =>
      if retry < MaxRetries then Retry else Settle(Synthesized(message))
    case Response(status, json) =>
      if status == 429 && retry < MaxRetries then Retry
      else
        match json
        case Unparsable(message) =>
          if retry < MaxRetries then Retry else Settle(Synthesized(message))
        case Parsed(body) =>
          if !body.success && retry < MaxRetries then Retry else Settle(Returned(body))
  }

  /** A finished call: what it resolved with, how many attempts it made, and
      the sleeps it requested, in order. */
  datatype Outcome = Outcome(reply: Reply, attempts: nat, sleeps: seq<nat>)

  /** `cfApi(..., retry)` when attempt number `i` meets `network(i)`. */
  function CallFrom(network: nat -> Attempt, retry: nat): (o: Outcome)
    requires retry <= MaxRetries
    ensures 1 <= o.attempts <= MaxRetries + 1 - retry
    ensures |o.sleeps| == o.attempts - 1
    decreases MaxRetries - retry
  {
    match Decide(network(retry), retry)
    case Retry =>
      var rest := CallFrom(network, retry + 1);
      Outcome(rest.reply, rest.attempts + 1, [Backoff(retry)] + rest.sleeps)
    case Settle(reply) =>
      Outcome(reply, 1, [])
  }

  /** `cfApi(..., retry)`: make attempt `retry`; on HTTP 429, on a body that
      cannot be parsed or is not successful, or on an exception, sleep the
      backoff and call again with the counter one higher while `retry < 3`;
      otherwise resolve with the body, or with a failure made from the
      exception's message. */
  method CallApi(network: nat -> Attempt, retry: nat) returns (reply: Reply, attempts: nat, sleeps: seq<nat>)
    requires retry <= MaxRetries
    ensures Outcome(reply, attempts, sleeps) == CallFrom(network, retry)
    ensures 1 <= attempts <= MaxRetries + 1 - retry
    decreases MaxRetries - retry
  {
    var backoff := Min(Pow2(retry), 8) * 1000;
    var again := false;
    match network(retry) {
      case Threw(message) =>
        if retry < MaxRetries {
          again := true;
        } else {
          reply := Synthesized(message);
        }
      case Response(status, json) =>
        if status == 429 && retry < MaxRetries {
          again := true;
        } else {
          match json {
            case Unparsable(message) =>
              if retry < MaxRetries {
                again := true;
              } else {
                reply := Synthesized(message);
              }
            case Parsed(body) =>
              if !body.success && retry < MaxRetries {
                again := true;
              } else {
                reply := Returned(body);
              }
          }
        }
    }
    if again {
      var later;
      reply, attempts, later := CallApi(network, retry + 1);
      attempts, sleeps := attempts + 1, [backoff] + later;
    } else {
      attempts, sleeps := 1, [];
    }
  }

  /** Sleep `j` of a call that starts at counter `retry` is the backoff of counter `retry + j`. */
  lemma {:induction false} SleepsAreBackoffs(network: nat -> Attempt, retry: nat)
    requires retry <= MaxRetries
    ensures var o := CallFrom(network, retry);
      forall j :: 0 <= j < |o.sleeps| ==> o.sleeps[j] == Backoff(retry + j)
    decreases MaxRetries - retry
  {
    if Decide(network(retry), retry).Retry? {
      SleepsAreBackoffs(network, retry + 1);
    }
  }

  /** The sleeps actually taken are 1, 2 and 4 seconds, in that order, as many
      as there were retries; the eight-second cap is never reached. */
  lemma SleepSchedule(network: nat -> Attempt)
    ensures var o := CallFrom(network, 0);
      o.sleeps == [1000, 2000, 4000][..o.attempts - 1] &&
      forall j :: 0 <= j < |o.sleeps| ==> o.sleeps[j] < 8000
  {
    var o := CallFrom(network, 0);
    SleepsAreBackoffs(network, 0);
    BackoffSchedule(0);
    BackoffSchedule(1);
    BackoffSchedule(2);
    assert o.sleeps == [1000, 2000, 4000][..o.attempts - 1];
  }

  /** The call retries exactly over a run of transient attempts and stops at
      the first attempt that is not transient, or after the last retry; it
      resolves with what that last attempt yields. */
  lemma {:induction false} RetriesOnlyWhileTransient(network: nat -> Attempt, retry: nat)
    requires retry <= MaxRetries
    ensures var o := CallFrom(network, retry);
      var last := retry + o.attempts - 1;
      (forall i :: retry <= i < last ==> Transient(network(i))) &&
      (last < MaxRetries ==> !Transient(network(last))) &&
      o.reply == Final(network(last))
    decreases MaxRetries - retry
  {
    if Decide(network(retry), retry).Retry? {
      RetriesOnlyWhileTransient(network, retry + 1);
    }
  }

  /** A successful body is returned at once: after a run of `i` transient
      attempts, attempt `i` delivering success (not under status 429 while
      retries remain) ends the call with that body, after `i` sleeps. */
  lemma FirstSuccessReturned(network: nat -> Attempt, i: nat, body: Body, status: int)
    requires i <= MaxRetries
    requires forall j :: 0 <= j < i ==> Transient(network(j))
    requires network(i) == Response(status, Parsed(body)) && body.success
    requires i < MaxRetries ==> status != 429
    ensures var o := CallFrom(network, 0);
      o.reply == Returned(body) && Succeeded(o.reply) &&
      o.attempts == i + 1 && o.sleeps == [1000, 2000, 4000][..i]
  {
    var o := CallFrom(network, 0);
    RetriesOnlyWhileTransient(network, 0);
    SleepSchedule(network);
  }

  /** A call that did not succeed has spent all four attempts and all three sleeps. */
  lemma FailureExhaustsRetries(network: nat -> Attempt)
    ensures var o := CallFrom(network, 0);
      !Succeeded(o.reply) ==>
        o.attempts == MaxRetries + 1 && o.sleeps == [1000, 2000, 4000] &&
        forall i :: 0 <= i < MaxRetries ==> Transient(network(i))
  {
    var o := CallFrom(network, 0);
    RetriesOnlyWhileTransient(network, 0);
    SleepSchedule(network);
  }

  /** A 429 on the last attempt is not retried: its body is parsed and
      returned as it is, and reported as success if it says so. */
  lemma LateRateLimitIsReturned(network: nat -> Attempt, body: Body)
    requires forall j :: 0 <= j < MaxRetries ==> Transient(network(j))
    requires network(MaxRetries) == Response(429, Parsed(body))
    ensures var o := CallFrom(network, 0);
      o.reply == Returned(body) && o.attempts == MaxRetries + 1 &&
      (Succeeded(o.reply) <==> body.success)
  {
    RetriesOnlyWhileTransient(network, 0);
  }

  /** `getRecords`: the listed records when the call succeeded, and no records,
      never an error, when it did not. */
  function ListedRecords(reply: Reply): (records: seq<Record>)
    ensures Succeeded(reply) ==> records == reply.body.result
    ensures !Succeeded(reply) ==> records == []
  {
    if Succeeded(reply) then reply.body.result else []
  }

  /** The listing call: only a successful attempt can contribute records. */
  method GetRecords(network: nat -> Attempt) returns (records: seq<Record>)
    ensures records == ListedRecords(CallFrom(network, 0).reply)
    ensures records != [] ==> exists i :: 0 <= i <= MaxRetries && DeliversSuccess(network(i))
  {
    var reply, attempts, sleeps := CallApi(network, 0);
    records := ListedRecords(reply);
    RetriesOnlyWhileTransient(network, 0);
    if records != [] {
      assert DeliversSuccess(network(attempts - 1));
    }
  }
}
