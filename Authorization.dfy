/**
 * The GitHub tool functions of agents/agent.py and the module-level state they share: the
 * single session slot `device_flow_storage`, the process environment's
 * `GITHUB_PERSONAL_ACCESS_TOKEN`, and the `.env` files on disk.
 *
 * Both tools return text; the model returns the category of that text and the values the
 * code embeds in it.
 */
module Authorization {
  import opened Wrappers
  import opened DeviceFlow
  import opened EnvFile

  /** The five entries of `device_flow_storage` after a successful start. */
  datatype Session = Session(client: DeviceFlowClient, deviceCode: string, interval: int, userCode: string, expiresIn: int)

  /** The fields `start_github_authorization` reads from the device-code body. */
  datatype Grant = Grant(userCode: string, verificationUri: string, deviceCode: string, interval: int, expiresIn: int)

  /** Why `start_github_authorization` returned an error text. */
  datatype StartFailure = Initiation(cause: InitiationError) | MissingField(key: string)

  /** The text `start_github_authorization` returns. */
  datatype StartText =
    | Instructions(userCode: string, expiresInMinutes: int)  // the banner with the code and the countdown
    | StartFailed(reason: StartFailure)                     // "Error starting GitHub authorization: ..."

  /** Why `complete_github_authorization` returned an error text. */
  datatype CompleteFailure =
    | PollFailed(error: PollError)  // `poll_for_token` raised
    | ZeroInterval                  // `(10 * 60) // 0` raised
    | EnvRejected                   // setting `os.environ` raised

  /**
   * Whether `os.environ` accepts `token` as a value: the environment is a C string table, so a
   * value with an embedded NUL makes the assignment raise `ValueError`.
   */
  predicate EnvAccepts(token: string)
  {
    '\0' !in token
  }

  /** The text `complete_github_authorization` returns. */
  datatype CompleteText =
    | NoFlowFound                                        // "No authorization flow found!"
    | Authorized(user: Option<UserInfo>, saved: bool)    // the success text
    | NoAccessToken                                      // "Failed to get access token"
    | CompleteFailed(reason: CompleteFailure)            // "Error completing authorization: ..."

  /** The keys read from the device-code body, in the order the code reads them. */
  const GrantKeys: seq<string> := ["user_code", "verification_uri", "device_code", "interval", "expires_in"]

  /** Whether `body` has `key`. */
  predicate HasKey(body: DeviceCodeBody, key: string)
  {
    if key == "user_code" then body.userCode.Some?
    else if key == "verification_uri" then body.verificationUri.Some?
    else if key == "device_code" then body.deviceCode.Some?
    else if key == "interval" then body.interval.Some?
    else if key == "expires_in" then body.expiresIn.Some?
    else false
  }

  /**
   * The five `flow_data[...]` lookups: the first missing key raises `KeyError` naming it;
   * with all five present their values are taken as they are, unchecked.
   */
  function ReadGrant(body: DeviceCodeBody): (r: Result<Grant, StartFailure>)
    ensures r.Ok? <==> forall i :: 0 <= i < |GrantKeys| ==> HasKey(body, GrantKeys[i])
    ensures r.Ok? ==> body.userCode.Some? && body.verificationUri.Some? && body.deviceCode.Some? &&
                      body.interval.Some? && body.expiresIn.Some? &&
                      r.value == Grant(body.userCode.value, body.verificationUri.value, body.deviceCode.value,
                                       body.interval.value, body.expiresIn.value)
    ensures r.Err? ==> exists i :: 0 <= i < |GrantKeys| && r.error == MissingField(GrantKeys[i]) &&
                         !HasKey(body, GrantKeys[i]) && forall j :: 0 <= j < i ==> HasKey(body, GrantKeys[j])
  {
    if body.userCode.None? then Err(MissingField(GrantKeys[0]))
    else if body.verificationUri.None? then Err(MissingField(GrantKeys[1]))
    else if body.deviceCode.None? then Err(MissingField(GrantKeys[2]))
    else if body.interval.None? then Err(MissingField(GrantKeys[3]))
    else if body.expiresIn.None? then Err(MissingField(GrantKeys[4]))
    else Ok(Grant(body.userCode.value, body.verificationUri.value, body.deviceCode.value,
                  body.interval.value, body.expiresIn.value))
  }

  /** What the start tool makes of the device-code reply: the grant, or why it failed. */
  function StartResult(reply: DeviceCodeReply): (r: Result<Grant, StartFailure>)
    // a grant only from a 200 JSON reply that has all five keys
    ensures r.Ok? <==> reply.DeviceCodeHttp? && reply.status == 200 && reply.body.Some? &&
                       forall i :: 0 <= i < |GrantKeys| ==> HasKey(reply.body.value, GrantKeys[i])
    ensures r.Ok? ==> var b := reply.body.value;
                      && b.userCode.Some? && b.verificationUri.Some? && b.deviceCode.Some?
                      && b.interval.Some? && b.expiresIn.Some?
                      && r.value == Grant(b.userCode.value, b.verificationUri.value, b.deviceCode.value,
                                          b.interval.value, b.expiresIn.value)
    // a missing key is only reported once the request itself succeeded
    ensures r.Err? && r.error.MissingField? ==> reply.DeviceCodeHttp? && reply.status == 200 && reply.body.Some?
    ensures reply.DeviceCodeHttp? && reply.status != 200 ==> r == Err(Initiation(InitiationRejected(reply.status)))
  {
    match StartDeviceFlow(reply)
    case Err(e) => Err(Initiation(e))
    case Ok(body) => ReadGrant(body)
  }

  /** `expires_in // 60`: whole minutes, rounded down. */
  function Minutes(seconds: int): (m: int)
    ensures m * 60 <= seconds < m * 60 + 60
  {
    seconds / 60
  }

  /**
   * What polling does for a stored session: the default ten-minute budget when the interval
   * is positive; with a negative interval `(10 * 60) // interval` is negative, the loop runs
   * no attempt and the timeout is raised at once. (A zero interval divides by zero and is
   * handled by the caller.)
   */
  function SessionPoll(s: Session, server: nat -> TokenReply): (r: PollRun)
    requires s.interval != 0
    reads s.client
    // the budget is `(10 * 60) // interval` attempts, none when that is negative
    ensures var budget := if s.interval > 0 then MaxAttempts(DefaultMaxMinutes, s.interval) else 0;
            && |r.trace| <= 2 * budget
            && (r.outcome == Failed(TimedOut) <==> AllRetries(server, 0, budget))
    ensures s.interval < 0 ==> r.trace == [] && r.outcome == Failed(TimedOut)
  {
    if s.interval > 0 then Poll(s.client.clientId, s.deviceCode, s.interval, DefaultMaxMinutes, server)
    else PollRun(Failed(TimedOut), [])
  }

  /** The state the GitHub tools share within one process. */
  class GitHubTools {
    /** `device_flow_storage`: empty, or the session of the last successful start. */
    var storage: Option<Session>
    /** `os.environ['GITHUB_PERSONAL_ACCESS_TOKEN']`. */
    var envToken: Option<string>
    /** The `.env` files on disk. */
    const envFiles: EnvFiles
    /** The paths `save_token_to_env` tries, in order. */
    const envPaths: seq<string>

    /** Module load: the slot is empty; the token may already be set from `.env`. */
    constructor (envToken: Option<string>, envFiles: EnvFiles, envPaths: seq<string>)
      ensures storage == None && this.envToken == envToken
      ensures this.envFiles == envFiles && this.envPaths == envPaths
    {
      storage := None;
      this.envToken := envToken;
      this.envFiles := envFiles;
      this.envPaths := envPaths;
    }

    /**
     * `start_github_authorization`: a new client asks for a device code. Only when the reply
     * carries all five fields is the slot overwritten, as a whole, with a fresh session; the
     * text then shows the user code and the expiry in minutes. Any failure leaves the slot
     * (and with it an earlier session) as it was and returns an error text.
     */
    method StartGitHubAuthorization(clientId: string, clientSecret: string, reply: DeviceCodeReply)
      returns (text: StartText)
      modifies this`storage
      ensures StartResult(reply).Err? ==> text == StartFailed(StartResult(reply).error) && storage == old(storage)
      ensures StartResult(reply).Ok? ==>
                var g := StartResult(reply).value;
                && storage.Some?
                && storage.value == Session(storage.value.client, g.deviceCode, g.interval, g.userCode, g.expiresIn)
                && fresh(storage.value.client)
                && storage.value.client.clientId == clientId
                && storage.value.client.accessToken == None
                && text == Instructions(g.userCode, Minutes(g.expiresIn))
    {
      var client := new DeviceFlowClient(clientId, clientSecret);
      var flow := StartDeviceFlow(reply);
      if flow.Err? {
        return StartFailed(Initiation(flow.error));
      }
      var grant := ReadGrant(flow.value);
      if grant.Err? {
        return StartFailed(grant.error);
      }
      var g := grant.value;
      storage := Some(Session(client, g.deviceCode, g.interval, g.userCode, g.expiresIn));
      text := Instructions(g.userCode, Minutes(g.expiresIn));
    }

    /**
     * `complete_github_authorization`: with an empty slot, the "no flow found" text and
     * nothing else. Otherwise the stored client polls with the stored device code and
     * interval. A raised poll error becomes an error text and changes nothing. A token that
     * comes back is stored on the client; only a non-empty one is put into the environment,
     * followed by the identity lookup and the save to `.env`. A token the environment refuses
     * raises there, before the lookup and the save. The slot is never cleared.
     */
    method CompleteGitHubAuthorization(server: nat -> TokenReply, identity: IdentityReply)
      returns (text: CompleteText, trace: seq<Event>)
      modifies this`envToken, envFiles`files, if storage.Some? then {storage.value.client} else {}
      ensures storage == old(storage)
      ensures old(storage).None? ==>
                text == NoFlowFound && trace == [] && envToken == old(envToken) && envFiles.files == old(envFiles.files)
      ensures old(storage).Some? && old(storage).value.interval == 0 ==>
                && text == CompleteFailed(ZeroInterval) && trace == []
                && envToken == old(envToken) && envFiles.files == old(envFiles.files)
                && old(storage).value.client.accessToken == old(storage.value.client.accessToken)
      ensures old(storage).Some? && old(storage).value.interval != 0 ==>
                var s := old(storage).value;
                var run := old(SessionPoll(s, server));
                && trace == run.trace
                && s.client.accessToken == (if run.outcome.Token? then Some(run.outcome.token) else old(s.client.accessToken))
                && (run.outcome.Failed? ==>
                      text == CompleteFailed(PollFailed(run.outcome.error)) &&
                      envToken == old(envToken) && envFiles.files == old(envFiles.files))
                && (run.outcome == Token("") ==>
                      text == NoAccessToken && envToken == old(envToken) && envFiles.files == old(envFiles.files))
                && (run.outcome.Token? && run.outcome.token != "" && !EnvAccepts(run.outcome.token) ==>
                      text == CompleteFailed(EnvRejected) &&
                      envToken == old(envToken) && envFiles.files == old(envFiles.files))
                && (run.outcome.Token? && run.outcome.token != "" && EnvAccepts(run.outcome.token) ==>
                      var save := SaveOutcome(old(envFiles.files), envFiles.failing, envPaths, run.outcome.token);
                      && envToken == Some(run.outcome.token)
                      && text == Authorized(IdentityFrom(identity), save.saved)
                      && envFiles.files == save.files)
    {
      if storage.None? {
        return NoFlowFound, [];
      }
      var s := storage.value;
      var outcome: PollOutcome;
      if s.interval > 0 {
        outcome, trace := s.client.PollForToken(s.deviceCode, s.interval, DefaultMaxMinutes, server);
      } else if s.interval == 0 {
        return CompleteFailed(ZeroInterval), [];
      } else {
        outcome, trace := Failed(TimedOut), [];
      }
      match outcome {
        case Failed(error) =>
          text := CompleteFailed(PollFailed(error));
        case Token(token) =>
          if token == "" {
            text := NoAccessToken;
          } else if !EnvAccepts(token) {
            text := CompleteFailed(EnvRejected);
          } else {
            envToken := Some(token);
            var user, _ := s.client.GetUserInfo(identity);
            var saved := envFiles.SaveTokenToEnv(envPaths, token);
            text := Authorized(user, saved);
          }
      }
    }
  }
}
