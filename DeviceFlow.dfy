/**
 * The GitHubDeviceFlow client of agents/agent.py: the OAuth 2.0 Device Authorization
 * Grant (RFC 8628) as a GitHub OAuth app runs it. The client asks for a device code,
 * polls the token endpoint until the user has authorised the code (section 3.4 of
 * RFC 8628), and looks up the user it was issued for. Of the error codes of section 3.5 the
 * loop knows `authorization_pending`, `expired_token` and `access_denied`; every other code,
 * `slow_down` included, ends the loop with a generic error instead of backing off.
 *
 * Network replies are inputs: the token endpoint is an oracle `server` giving the reply to
 * each attempt, and `time.sleep` is recorded in a trace of events rather than performed.
 */
module DeviceFlow {
  import opened Wrappers

  /** The `error` value that means "the user has not finished yet; keep polling". */
  const AuthorizationPending: string := "authorization_pending"
  const ExpiredToken: string := "expired_token"
  const AccessDenied: string := "access_denied"

  /** The fallback message when a rejection carries neither `error_description` nor `error`. */
  const UnknownError: string := "Unknown error"

  /** `poll_for_token`'s default `max_minutes`; the session code always uses it. */
  const DefaultMaxMinutes: int := 10

  // ---------------------------------------------------------------- replies and outcomes

  /** The keys of a token endpoint JSON body that `poll_for_token` reads. */
  datatype TokenBody = TokenBody(accessToken: Option<string>, error: Option<string>, errorDescription: Option<string>)

  /** What one POST to the token endpoint produces. */
  datatype TokenReply =
    | TokenHttp(status: int, body: Option<TokenBody>)  // body None: not a JSON object
    | TokenUnreachable                                 // `requests.post` itself raised

  /** The exceptions `poll_for_token` lets escape, by cause. */
  datatype PollError =
    | Expired                  // error == "expired_token"
    | Denied                   // error == "access_denied"
    | Rejected(message: string) // any other error; the message the exception carries
    | TimedOut                 // the attempt budget ran out
    | RequestFailed            // the POST raised (connection error and the like)
    | BodyNotJson              // a 200 reply whose body did not parse as JSON

  datatype PollOutcome = Token(token: string) | Failed(error: PollError)

  /** How one reply steers the loop: return a token, sleep and retry, or raise. */
  datatype Step = Done(token: string) | Wait | Stop(error: PollError)

  /** The observable effects of polling, in order. */
  datatype Event = TokenRequest(clientId: string, deviceCode: string) | Sleep(seconds: int)

  datatype PollRun = PollRun(outcome: PollOutcome, trace: seq<Event>)

  // ---------------------------------------------------------------- the attempt budget

  /**
   * `max_attempts = (max_minutes * 60) // interval`, where `range` of a negative number is
   * empty. With a positive divisor Dafny's `/` rounds down exactly as Python's `//` does.
   * The budget is the number of whole intervals that fit in `maxMinutes` minutes.
   */
  function MaxAttempts(maxMinutes: int, interval: int): (n: nat)
    requires interval > 0
    ensures maxMinutes >= 0 ==> n * interval <= maxMinutes * 60 < (n + 1) * interval
    ensures n == 0 <==> maxMinutes * 60 < interval
  {
    var q := (maxMinutes * 60) / interval;
    FloorDivision(maxMinutes * 60, interval);
    if q > 0 then q else 0
  }

  /** Rounding down: `a // b` is the largest `q` with `q * b <= a`. */
  lemma FloorDivision(a: int, b: int)
    requires b > 0
    ensures (a / b) * b <= a < (a / b + 1) * b
    ensures a / b > 0 <==> a >= b
  {
  }

  // ---------------------------------------------------------------- one reply

  /** The text of the "Authorization error" exception: `error_description`, else `error`, else a fixed text. */
  function RejectionMessage(body: TokenBody): (m: string)
    ensures body.errorDescription.Some? ==> m == body.errorDescription.value
    ensures body.errorDescription.None? && body.error.Some? ==> m == body.error.value
    ensures body.errorDescription.None? && body.error.None? ==> m == UnknownError
  {
    match body.errorDescription
    case Some(d) => d
    case None => if body.error.Some? then body.error.value else UnknownError
  }

  /** An `error` value the loop tests for by name. */
  predicate KnownError(error: Option<string>)
  {
    error == Some(AuthorizationPending) || error == Some(ExpiredToken) || error == Some(AccessDenied)
  }

  /**
   * The classification of one reply, in the loop's order: a non-200 status is transient;
   * a 200 body is tested for `access_token` first, then for each `error` value.
   */
  function Classify(r: TokenReply): (s: Step)
    // an access token wins over whatever `error` says
    ensures s.Done? <==> r.TokenHttp? && r.status == 200 && r.body.Some? && r.body.value.accessToken.Some?
    ensures s.Done? ==> s.token == r.body.value.accessToken.value
    // the loop sleeps and retries exactly on a non-200 status or a pending authorisation
    ensures s.Wait? <==>
              (r.TokenHttp? && (r.status != 200 ||
                 (r.body.Some? && r.body.value.accessToken.None? && r.body.value.error == Some(AuthorizationPending))))
    ensures s == Stop(RequestFailed) <==> r.TokenUnreachable?
    ensures s == Stop(BodyNotJson) <==> r.TokenHttp? && r.status == 200 && r.body.None?
    ensures s.Stop? && s.error.Rejected? ==>
              r.TokenHttp? && r.body.Some? && s.error.message == RejectionMessage(r.body.value) &&
              !KnownError(r.body.value.error)
    // each error code of a 200 body without a token maps to its own exception
    ensures r.TokenHttp? && r.status == 200 && r.body.Some? && r.body.value.accessToken.None? ==>
              && (r.body.value.error == Some(ExpiredToken) ==> s == Stop(Expired))
              && (r.body.value.error == Some(AccessDenied) ==> s == Stop(Denied))
              && (!KnownError(r.body.value.error) ==>
                    s == Stop(Rejected(RejectionMessage(r.body.value))))
    // the budget running out is never a reply's doing
    ensures s != Stop(TimedOut)
  {
    match r
    case TokenUnreachable => Stop(RequestFailed)
    case TokenHttp(status, body) =>
      if status != 200 then Wait
      else if body.None? then Stop(BodyNotJson)
      else if body.value.accessToken.Some? then Done(body.value.accessToken.value)
      else if body.value.error == Some(AuthorizationPending) then Wait
      else if body.value.error == Some(ExpiredToken) then Stop(Expired)
      else if body.value.error == Some(AccessDenied) then Stop(Denied)
      else Stop(Rejected(RejectionMessage(body.value)))
  }

  /**
   * `slow_down` (section 3.5 of RFC 8628: keep polling, five seconds slower) is not among the
   * codes the loop knows: it raises the generic "Authorization error" at once.
   */
  lemma SlowDownIsFatal(description: Option<string>)
    ensures var body := TokenBody(None, Some("slow_down"), description);
            Classify(TokenHttp(200, Some(body))) == Stop(Rejected(RejectionMessage(body)))
  {
    var body := TokenBody(None, Some("slow_down"), description);
    assert !KnownError(Some("slow_down"));
  }

  /** The outcome a reply that ends the loop produces. */
  function Final(s: Step): PollOutcome
    requires !s.Wait?
  {
    if s.Done? then Token(s.token) else Failed(s.error)
  }

  // ---------------------------------------------------------------- the loop, as a function

  /** Every reply to the attempts in `[from, budget)` asks the loop to try again. */
  predicate AllRetries(server: nat -> TokenReply, from: nat, budget: nat)
  {
    forall j :: from <= j < budget ==> Classify(server(j)).Wait?
  }

  /** The polling loop from attempt `attempt` on: request, classify, then return, raise or sleep. */
  function PollFrom(request: Event, interval: int, server: nat -> TokenReply, attempt: nat, budget: nat): (r: PollRun)
    // one request and at most one sleep per remaining attempt
    ensures attempt <= budget ==> |r.trace| <= 2 * (budget - attempt)
    decreases budget - attempt
  {
    if attempt >= budget then PollRun(Failed(TimedOut), [])
    else
      var step := Classify(server(attempt));
      if step.Wait? then
        var rest := PollFrom(request, interval, server, attempt + 1, budget);
        PollRun(rest.outcome, [request, Sleep(interval)] + rest.trace)
      else PollRun(Final(step), [request])
  }

  /** `poll_for_token(device_code, interval, max_minutes)` as a function of the replies it gets. */
  function Poll(clientId: string, deviceCode: string, interval: int, maxMinutes: int, server: nat -> TokenReply): (r: PollRun)
    requires interval > 0
    ensures |r.trace| <= 2 * MaxAttempts(maxMinutes, interval)
    ensures r.outcome == Failed(TimedOut) <==> AllRetries(server, 0, MaxAttempts(maxMinutes, interval))
  {
    PollFromTimesOut(TokenRequest(clientId, deviceCode), interval, server, 0, MaxAttempts(maxMinutes, interval));
    PollFrom(TokenRequest(clientId, deviceCode), interval, server, 0, MaxAttempts(maxMinutes, interval))
  }

  /** From any attempt on, the loop times out exactly when every remaining reply is a retry. */
  lemma {:induction false} PollFromTimesOut(request: Event, interval: int, server: nat -> TokenReply, attempt: nat, budget: nat)
    ensures PollFrom(request, interval, server, attempt, budget).outcome == Failed(TimedOut) <==>
            AllRetries(server, attempt, budget)
    decreases budget - attempt
  {
    if attempt < budget {
      var step := Classify(server(attempt));
      if step.Wait? {
        PollFromTimesOut(request, interval, server, attempt + 1, budget);
        assert AllRetries(server, attempt, budget) <==> AllRetries(server, attempt + 1, budget);
      } else {
        assert Final(step) != Failed(TimedOut);
        assert !AllRetries(server, attempt, budget);
      }
    }
  }

  // ---------------------------------------------------------------- a closed form of the loop

  /** The first attempt in `[from, budget)` whose reply ends the loop, or `budget` if there is none. */
  function FirstStop(server: nat -> TokenReply, from: nat, budget: nat): (k: nat)
    requires from <= budget
    ensures from <= k <= budget
    ensures forall j :: from <= j < k ==> Classify(server(j)).Wait?
    ensures k < budget ==> !Classify(server(k)).Wait?
    decreases budget - from
  {
    if from == budget then budget
    else if !Classify(server(from)).Wait? then from
    else FirstStop(server, from + 1, budget)
  }

  /** `n` rounds of "request, then sleep `interval`". */
  function Rounds(request: Event, interval: int, n: nat): (r: seq<Event>)
    ensures |r| == 2 * n
    ensures forall i :: 0 <= i < |r| ==> r[i] == if i % 2 == 0 then request else Sleep(interval)
  {
    if n == 0 then [] else [request, Sleep(interval)] + Rounds(request, interval, n - 1)
  }

  /**
   * The loop in closed form: with `k` the first attempt whose reply ends it, polling makes
   * `k` retry rounds and then one last request whose reply decides the outcome; if no reply
   * in the budget ends it, it makes `budget` retry rounds and times out.
   */
  lemma {:induction false} PollFromClosedForm(request: Event, interval: int, server: nat -> TokenReply, attempt: nat, budget: nat)
    requires attempt <= budget
    ensures var k := FirstStop(server, attempt, budget);
            PollFrom(request, interval, server, attempt, budget) ==
              if k < budget then PollRun(Final(Classify(server(k))), Rounds(request, interval, k - attempt) + [request])
              else PollRun(Failed(TimedOut), Rounds(request, interval, budget - attempt))
    decreases budget - attempt
  {
    if attempt < budget && Classify(server(attempt)).Wait? {
      PollFromClosedForm(request, interval, server, attempt + 1, budget);
      var rest := PollFrom(request, interval, server, attempt + 1, budget);
      assert PollFrom(request, interval, server, attempt, budget) ==
             PollRun(rest.outcome, [request, Sleep(interval)] + rest.trace);
      var k := FirstStop(server, attempt, budget);
      assert k == FirstStop(server, attempt + 1, budget);
      var rounds := Rounds(request, interval, k - attempt - 1);
      assert Rounds(request, interval, k - attempt) == [request, Sleep(interval)] + rounds;
      if k < budget {
        assert [request, Sleep(interval)] + (rounds + [request]) == ([request, Sleep(interval)] + rounds) + [request];
      }
    } else if attempt < budget {
      assert Rounds(request, interval, 0) + [request] == [request];
    }
  }

  /** The number of requests a trace sends to the token endpoint. */
  function Requests(trace: seq<Event>): nat
  {
    if trace == [] then 0 else (if trace[0].TokenRequest? then 1 else 0) + Requests(trace[1..])
  }

  /** The number of sleeps in a trace. */
  function Sleeps(trace: seq<Event>): nat
  {
    if trace == [] then 0 else (if trace[0].Sleep? then 1 else 0) + Sleeps(trace[1..])
  }

  lemma {:induction false} CountRounds(request: Event, interval: int, n: nat, tail: seq<Event>)
    requires request.TokenRequest?
    ensures Requests(Rounds(request, interval, n) + tail) == n + Requests(tail)
    ensures Sleeps(Rounds(request, interval, n) + tail) == n + Sleeps(tail)
  {
    if n > 0 {
      var rest := Rounds(request, interval, n - 1) + tail;
      CountRounds(request, interval, n - 1, tail);
      assert Rounds(request, interval, n) + tail == [request, Sleep(interval)] + rest;
      assert ([request, Sleep(interval)] + rest)[1..] == [Sleep(interval)] + rest;
      assert ([Sleep(interval)] + rest)[1..] == rest;
    } else {
      assert Rounds(request, interval, n) + tail == tail;
    }
  }

  /**
   * The budget: polling sends at most `(max_minutes*60)//interval` requests, every sleep lasts
   * exactly `interval`, and a timeout comes after exactly that many requests and sleeps.
   * With a budget of 0 nothing is sent and the result is a timeout.
   */
  lemma PollWithinBudget(clientId: string, deviceCode: string, interval: int, maxMinutes: int, server: nat -> TokenReply)
    requires interval > 0
    ensures var run := Poll(clientId, deviceCode, interval, maxMinutes, server);
            var budget := MaxAttempts(maxMinutes, interval);
            && Requests(run.trace) <= budget
            && (forall i :: 0 <= i < |run.trace| && run.trace[i].Sleep? ==> run.trace[i].seconds == interval)
            && (forall i :: 0 <= i < |run.trace| && run.trace[i].TokenRequest? ==>
                  run.trace[i] == TokenRequest(clientId, deviceCode))
            && (run.outcome == Failed(TimedOut) ==> Requests(run.trace) == budget && Sleeps(run.trace) == budget)
            && (budget == 0 ==> run == PollRun(Failed(TimedOut), []))
  {
    var request := TokenRequest(clientId, deviceCode);
    var budget := MaxAttempts(maxMinutes, interval);
    PollTraceShape(request, interval, server, budget);
    PollTraceCounts(request, interval, server, budget);
  }

  /** Every event of a polling trace is the one request or a sleep of `interval`. */
  lemma PollTraceShape(request: Event, interval: int, server: nat -> TokenReply, budget: nat)
    ensures var trace := PollFrom(request, interval, server, 0, budget).trace;
            forall i :: 0 <= i < |trace| ==> trace[i] == request || trace[i] == Sleep(interval)
  {
    PollFromClosedForm(request, interval, server, 0, budget);
    var k := FirstStop(server, 0, budget);
    if k < budget {
      var trace := Rounds(request, interval, k) + [request];
      assert forall i :: 0 <= i < |trace| ==> trace[i] == request || trace[i] == Sleep(interval);
    }
  }

  /** A polling trace sends at most `budget` requests; a timeout sends and sleeps exactly `budget` times. */
  lemma PollTraceCounts(request: Event, interval: int, server: nat -> TokenReply, budget: nat)
    requires request.TokenRequest?
    ensures var run := PollFrom(request, interval, server, 0, budget);
            && Requests(run.trace) <= budget
            && (run.outcome == Failed(TimedOut) ==> Requests(run.trace) == budget && Sleeps(run.trace) == budget)
            && (budget == 0 ==> run == PollRun(Failed(TimedOut), []))
  {
    PollFromClosedForm(request, interval, server, 0, budget);
    var k := FirstStop(server, 0, budget);
    if k < budget {
      CountRounds(request, interval, k, [request]);
      assert Requests([request]) == 1 && Sleeps([request]) == 0;
      assert Final(Classify(server(k))) != Failed(TimedOut);
    } else {
      CountRounds(request, interval, budget, []);
      assert Rounds(request, interval, budget) + [] == Rounds(request, interval, budget);
    }
  }


  /**
   * Polling returns token `t` exactly when some attempt within the budget gets a 200 reply
   * carrying `access_token` `t` and every earlier attempt only got "pending" or a non-200
   * status. It then sent exactly that many requests and made no further one.
   */
  lemma PollTokenExactly(clientId: string, deviceCode: string, interval: int, maxMinutes: int, server: nat -> TokenReply, t: string)
    requires interval > 0
    ensures var run := Poll(clientId, deviceCode, interval, maxMinutes, server);
            run.outcome == Token(t) <==>
              exists k :: 0 <= k < MaxAttempts(maxMinutes, interval) && Classify(server(k)) == Done(t) &&
                (forall j :: 0 <= j < k ==> Classify(server(j)).Wait?)
    ensures forall k ::
              (0 <= k < MaxAttempts(maxMinutes, interval) && Classify(server(k)) == Done(t) &&
               (forall j :: 0 <= j < k ==> Classify(server(j)).Wait?)) ==>
              Requests(Poll(clientId, deviceCode, interval, maxMinutes, server).trace) == k + 1
  {
    var request := TokenRequest(clientId, deviceCode);
    var budget := MaxAttempts(maxMinutes, interval);
    PollFromClosedForm(request, interval, server, 0, budget);
    var first := FirstStop(server, 0, budget);
    if first < budget {
      CountRounds(request, interval, first, [request]);
      assert Requests([request]) == 1;
    }
    forall k | 0 <= k < budget && Classify(server(k)) == Done(t) && (forall j :: 0 <= j < k ==> Classify(server(j)).Wait?)
      ensures first == k
    {
    }
  }

  /**
   * A reply that ends the loop with an error (expired, denied, any other error, a failed
   * request or an unreadable body) raises at once: no sleep follows it and no later reply is
   * read. The outcome is that error, and the trace ends with the request that drew it.
   */
  lemma PollStopsAtFirstError(clientId: string, deviceCode: string, interval: int, maxMinutes: int, server: nat -> TokenReply, k: nat)
    requires interval > 0
    requires k < MaxAttempts(maxMinutes, interval)
    requires Classify(server(k)).Stop?
    requires forall j :: 0 <= j < k ==> Classify(server(j)).Wait?
    ensures var run := Poll(clientId, deviceCode, interval, maxMinutes, server);
            && run.outcome == Failed(Classify(server(k)).error)
            && Requests(run.trace) == k + 1 && Sleeps(run.trace) == k
            && run.trace[|run.trace| - 1] == TokenRequest(clientId, deviceCode)
  {
    var request := TokenRequest(clientId, deviceCode);
    var budget := MaxAttempts(maxMinutes, interval);
    PollFromClosedForm(request, interval, server, 0, budget);
    assert FirstStop(server, 0, budget) == k;
    CountRounds(request, interval, k, [request]);
    assert Requests([request]) == 1 && Sleeps([request]) == 0;
  }

  /**
   * Replies after the one that ends the loop are never consulted: two servers that agree up
   * to and including that attempt give the same run.
   */
  lemma PollIgnoresLaterReplies(clientId: string, deviceCode: string, interval: int, maxMinutes: int,
                                server: nat -> TokenReply, other: nat -> TokenReply)
    requires interval > 0
    requires var k := FirstStop(server, 0, MaxAttempts(maxMinutes, interval));
             forall j :: 0 <= j <= k && j < MaxAttempts(maxMinutes, interval) ==> other(j) == server(j)
    ensures Poll(clientId, deviceCode, interval, maxMinutes, other) == Poll(clientId, deviceCode, interval, maxMinutes, server)
  {
    var request := TokenRequest(clientId, deviceCode);
    var budget := MaxAttempts(maxMinutes, interval);
    PollFromClosedForm(request, interval, server, 0, budget);
    PollFromClosedForm(request, interval, other, 0, budget);
    var k := FirstStop(server, 0, budget);
    assert forall j :: 0 <= j < k ==> Classify(other(j)).Wait?;
    if k < budget {
      assert other(k) == server(k);
    }
    assert FirstStop(other, 0, budget) == k;
  }

  // ---------------------------------------------------------------- the identity endpoint

  /** The identity fields the success message shows. */
  datatype UserInfo = UserInfo(login: Option<string>, name: Option<string>, email: Option<string>, publicRepos: Option<int>)

  /** What the GET to the identity endpoint produces. */
  datatype IdentityReply =
    | IdentityHttp(status: int, body: Option<UserInfo>)  // body None: not JSON
    | IdentityUnreachable

  /** What `get_user_info` makes of a reply once it has sent the request: the body of a 200 reply, else nothing. */
  function IdentityFrom(reply: IdentityReply): (info: Option<UserInfo>)
    // a user only ever comes from a 200 reply with a JSON body; every failure gives None, never an exception
    ensures info.Some? <==> reply.IdentityHttp? && reply.status == 200 && reply.body.Some?
    ensures info.Some? ==> info == reply.body
  {
    if reply.IdentityHttp? && reply.status == 200 then reply.body else None
  }

  /** Python truthiness of an optional string: present and non-empty. */
  predicate Truthy(token: Option<string>)
  {
    token.Some? && token.value != ""
  }

  // ---------------------------------------------------------------- the device-code endpoint

  /** The keys of a device-code JSON body that the session code reads. */
  datatype DeviceCodeBody = DeviceCodeBody(
    userCode: Option<string>, verificationUri: Option<string>, deviceCode: Option<string>,
    interval: Option<int>, expiresIn: Option<int>)

  /** What the POST to the device-code endpoint produces. */
  datatype DeviceCodeReply =
    | DeviceCodeHttp(status: int, body: Option<DeviceCodeBody>)  // body None: not JSON
    | DeviceCodeUnreachable

  /** Why `start_device_flow` raised. */
  datatype InitiationError = InitiationFailed | InitiationRejected(status: int) | InitiationNotJson

  /**
   * `start_device_flow`: a 200 reply's parsed body is returned as it is, without checking
   * that any field is there; every other reply raises.
   */
  function StartDeviceFlow(reply: DeviceCodeReply): (r: Result<DeviceCodeBody, InitiationError>)
    ensures r.Ok? <==> reply.DeviceCodeHttp? && reply.status == 200 && reply.body.Some?
    ensures r.Ok? ==> r.value == reply.body.value
    ensures (r.Err? && r.error.InitiationRejected?) <==> (reply.DeviceCodeHttp? && reply.status != 200)
    ensures reply.DeviceCodeHttp? && reply.status != 200 ==> r == Err(InitiationRejected(reply.status))
  {
    match reply
    case DeviceCodeUnreachable => Err(InitiationFailed)
    case DeviceCodeHttp(status, body) =>
      if status != 200 then Err(InitiationRejected(status))
      else if body.None? then Err(InitiationNotJson)
      else Ok(body.value)
  }

  // ---------------------------------------------------------------- the client object

  /** `GitHubDeviceFlow`: the app credentials and the token it has obtained, if any. */
  class DeviceFlowClient {
    const clientId: string
    const clientSecret: string
    var accessToken: Option<string>

    /** `__init__`: the credentials come from the environment; no token yet. */
    constructor (clientId: string, clientSecret: string)
      ensures this.clientId == clientId && this.clientSecret == clientSecret
      ensures accessToken == None
    {
      this.clientId := clientId;
      this.clientSecret := clientSecret;
      accessToken := None;
    }

    /**
     * `poll_for_token`: at most `MaxAttempts` requests; the first 200 reply with an
     * `access_token` stores that token on the client and returns it; "pending" and non-200
     * replies sleep `interval` and retry; any other reply raises. The token field changes
     * only on success.
     */
    method PollForToken(deviceCode: string, interval: int, maxMinutes: int, server: nat -> TokenReply)
      returns (outcome: PollOutcome, trace: seq<Event>)
      requires interval > 0
      modifies this`accessToken
      ensures PollRun(outcome, trace) == Poll(clientId, deviceCode, interval, maxMinutes, server)
      ensures accessToken == if outcome.Token? then Some(outcome.token) else old(accessToken)
    {
      var request := TokenRequest(clientId, deviceCode);
      var maxAttempts := MaxAttempts(maxMinutes, interval);
      ghost var whole := PollFrom(request, interval, server, 0, maxAttempts);
      var attempt := 0;
      trace := [];
      while attempt < maxAttempts
        invariant 0 <= attempt <= maxAttempts
        invariant var rest := PollFrom(request, interval, server, attempt, maxAttempts);
                  whole == PollRun(rest.outcome, trace + rest.trace)
        invariant accessToken == old(accessToken)
      {
        trace := trace + [request];
        var step := Classify(server(attempt));
        match step {
          case Done(token) =>
            accessToken := Some(token);
            return Token(token), trace;
          case Wait =>
            trace := trace + [Sleep(interval)];
            attempt := attempt + 1;
          case Stop(error) =>
            return Failed(error), trace;
        }
      }
      outcome := Failed(TimedOut);
    }

    /**
     * `get_user_info`: without a (non-empty) token there is no request and no result;
     * otherwise the identity reply's body if it came back with status 200, else nothing.
     */
    method GetUserInfo(reply: IdentityReply) returns (info: Option<UserInfo>, requested: bool)
      ensures requested <==> Truthy(accessToken)
      ensures !requested ==> info == None
      ensures requested ==> info == IdentityFrom(reply)
    {
      if !Truthy(accessToken) {
        return None, false;
      }
      info := IdentityFrom(reply);
      requested := true;
    }
  }
}
