# GitHub device-flow authorisation, modelled in Dafny

The agent in `agents/agent.py` lets a user authorise GitHub access through the OAuth 2.0
Device Authorization Grant (RFC 8628). It has three parts:

- **`GitHubDeviceFlow`** asks GitHub for a device code. It then polls the token endpoint until the user has entered the code in a browser (section 3.4 of RFC 8628). The loop knows three of the error codes of section 3.5: `authorization_pending`, `expired_token` and `access_denied`. Section 3.5 also defines `slow_down`, which asks the client to keep polling more slowly. The code does not know it and raises the generic "Authorization error" (lines 87-89); the model follows the code (`DeviceFlow.SlowDownIsFatal`).
- **`start_github_authorization` / `complete_github_authorization`** are two tool functions that share one global session slot (`device_flow_storage`). On success, `complete_github_authorization` also puts the token into the process environment.
- **`save_token_to_env`** writes the token into the first `.env` file it finds. It replaces the first `GITHUB_PERSONAL_ACCESS_TOKEN=` line, or appends one.

The model turns the network into inputs:
- The token endpoint is an oracle `server: nat -> TokenReply` that gives the reply to each attempt.
- The device-code and identity endpoints each return one reply value.
- `time.sleep` becomes a `Sleep` event in the trace that polling returns.
- The disk is an `EnvFiles` object. It maps each existing path to its text and records which existing paths raise when read or written.
- That text is what Python's text mode reads and writes: newlines are translated and bytes decoded with the locale's encoding. "Written back unchanged" means the same text, not necessarily the same bytes.

The two tool functions return text. The model returns the text's category and the values the code puts into it: the user code, `expires_in // 60`, the identity and the saved flag.

Files:
- `Wrappers.dfy`: Option and Result.
- `Lines.dfy`: Python's `split('\n')`, `'\n'.join` and substring `in`.
- `DeviceFlow.dfy`: the client and the polling loop.
- `EnvFile.dfy`: `save_token_to_env`.
- `Authorization.dfy`: the session slot and the two tool functions.

In these places the code does less than a first reading suggests; the model follows the code:
- The device-code request returns the parsed body without checking it. A missing field only shows up as a `KeyError` in `start_github_authorization`, which becomes error text (`Authorization.ReadGrant`).
- A connection error during polling is not treated as transient. It ends the poll with an error (`RequestFailed`). Only a non-200 status is retried.
- A save does not guarantee at most one token line. Only the first line that starts with the key is replaced; later ones stay (`EnvFile.ReplacesFirstKeyLine`).
- A key that occurs only inside a line (for instance after `#`) is not replaced and nothing is appended. The content is written back unchanged and the save still returns True (`EnvFile.KeepsContentWithoutKeyLine`).
- `complete_github_authorization` never clears the slot, so a second call polls again with the same device code.

## Model

| member | source | states |
|---|---|---|
| DeviceFlow.MaxAttempts | agents/agent.py:54-56 | the attempt budget `(max_minutes*60)//interval` is the number of whole intervals that fit in `max_minutes` minutes; it is 0 (no request) exactly when one interval is longer than that |
| DeviceFlow.RejectionMessage | agents/agent.py:89 | the message of the "Authorization error" exception is `error_description`, else `error`, else `Unknown error` |
| DeviceFlow.Classify | agents/agent.py:71-93 | `access_token` takes priority over any `error`; the loop retries exactly on a non-200 status or `authorization_pending`; a failed request or a non-JSON 200 body raises; on a 200 body without a token, `expired_token` raises the expiry error, `access_denied` the denial error, and every other error value (none included) exactly the "Authorization error" with the rejection message; no reply produces the timeout |
| DeviceFlow.SlowDownIsFatal | agents/agent.py:79-89 | a `slow_down` reply is not retried: it raises the "Authorization error" at once |
| DeviceFlow.PollFrom | agents/agent.py:56-95 | from a given attempt on, the trace holds at most two events per remaining attempt |
| DeviceFlow.PollFromTimesOut | agents/agent.py:56-95 | from any attempt on, the loop times out exactly when every remaining reply is a retry |
| DeviceFlow.Poll | agents/agent.py:54-95 | the trace holds at most two events per attempt of the budget; it times out exactly when every reply within the budget is a retry |
| DeviceFlow.FirstStop | agents/agent.py:56-93 | the first attempt whose reply ends the loop: all earlier replies are retries, and this one is not |
| DeviceFlow.Rounds | agents/agent.py:79-82 | a retry round is one token request followed by one sleep of exactly `interval` |
| DeviceFlow.PollFromClosedForm | agents/agent.py:56-95 | polling makes k retry rounds and then one last request whose reply decides the outcome, where k is the first deciding attempt; if no reply within the budget decides, it makes `budget` rounds and times out |
| DeviceFlow.PollWithinBudget | agents/agent.py:54-95 | at most `max_attempts` requests, all with the stored client id and device code; every sleep lasts `interval`; a timeout comes after exactly `max_attempts` requests and sleeps; a budget of 0 sends nothing and times out |
| DeviceFlow.PollTokenExactly | agents/agent.py:75-78 | polling returns token t iff some attempt within the budget gets a 200 reply with `access_token` t and every earlier one was a retry; then exactly that many requests were sent |
| DeviceFlow.PollStopsAtFirstError | agents/agent.py:83-89 | an expired, denied or other error reply raises at once: the outcome is that error, there is no sleep after it and no further request |
| DeviceFlow.PollIgnoresLaterReplies | agents/agent.py:75-89 | replies after the one that ends the loop are never read: servers that agree up to it give the same run |
| DeviceFlow.IdentityFrom | agents/agent.py:110-115 | a user comes back exactly for a 200 reply with a JSON body, and is that body; a non-200 status or a failed request gives None, never an exception |
| DeviceFlow.StartDeviceFlow | agents/agent.py:38-48 | a 200 reply's body is returned unchanged and unvalidated; a non-200 status, a non-JSON body or a failed request raises |
| DeviceFlow.DeviceFlowClient.constructor | agents/agent.py:17-20 | a new client holds its credentials and no token |
| DeviceFlow.DeviceFlowClient.PollForToken | agents/agent.py:50-99 | the loop's outcome and trace are those of `Poll`; the token field becomes the returned token on success and is unchanged otherwise |
| DeviceFlow.DeviceFlowClient.GetUserInfo | agents/agent.py:101-115 | with no token or an empty one, nothing is requested and the result is None; otherwise the result is the body of a 200 reply, else None |
| Lines.Join | agents/agent.py:290 | `'\n'.join` starts with the first line and contains a newline once there are two lines |
| Lines.Contains | agents/agent.py:284 | `sub in s` holds exactly when `sub` starts at some position of `s` |
| Lines.Split | agents/agent.py:285 | splitting gives at least one piece and no piece contains a newline |
| Lines.JoinSplit | agents/agent.py:285-290 | joining the split lines gives back the original text |
| Lines.SplitJoin | agents/agent.py:285-290 | splitting a join of newline-free lines gives back those lines |
| Lines.SplitConcat | agents/agent.py:292 | the lines of `a + "\n" + b` are the lines of `a` followed by the lines of `b` |
| Lines.ContainsLinePrefix | agents/agent.py:284-287 | if a line starts with the key, the whole text contains the key, so the replace branch is taken |
| EnvFile.FirstKeyLine | agents/agent.py:286-289 | the index of the first line that starts with `GITHUB_PERSONAL_ACCESS_TOKEN=`: no earlier line does; None when no line does |
| EnvFile.UpdatedContent | agents/agent.py:283-292 | whichever branch is taken, the written text contains `GITHUB_PERSONAL_ACCESS_TOKEN=` |
| EnvFile.UpdateEnvContent | agents/agent.py:283-292 | the split, scan, replace-and-break, join or append loop computes `UpdatedContent`; without the key it appends `"\nKEY=token\n"` to the old content |
| EnvFile.AppendsKeyLine | agents/agent.py:291-292 | key absent and the token free of newlines: every old line is kept, followed by the key line and an empty last line |
| EnvFile.ReplacesFirstKeyLine | agents/agent.py:284-290 | key at the start of a line and the token free of newlines: only the first such line becomes `KEY=token`; the line count, the order and every other line are unchanged |
| EnvFile.KeepsContentWithoutKeyLine | agents/agent.py:284-290 | key present but no line starts with it: the content is written back unchanged |
| EnvFile.FirstExisting | agents/agent.py:274-278 | the first candidate path that exists; no earlier candidate exists |
| EnvFile.SaveOutcome | agents/agent.py:265-305 | True iff the first existing candidate can be read and written; then only that file changes, to the updated content; otherwise nothing changes; no file is ever created |
| EnvFile.EnvFiles.constructor | agents/agent.py:277-284 | the disk starts as the given files, and exactly the given paths raise when read or written |
| EnvFile.EnvFiles.SaveTokenToEnv | agents/agent.py:274-301 | walking the candidates with an early return gives exactly `SaveOutcome` |
| Authorization.ReadGrant | agents/agent.py:132-136 | the five fields are read in order; the first missing one becomes the error; with all present the grant holds their values unchanged |
| Authorization.StartResult | agents/agent.py:129-136 | a grant comes only from a 200 JSON reply with all five keys, and holds their five values unchanged; a missing key is reported only after the request succeeded; a non-200 status is reported with that status |
| Authorization.Minutes | agents/agent.py:182 | `expires_in // 60` is the number of whole minutes, rounded down |
| Authorization.SessionPoll | agents/agent.py:211-219 | the stored session polls with a budget of `(10 * 60) // interval` attempts, none when that is negative; a negative interval times out at once with no request |
| Authorization.GitHubTools.constructor | agents/agent.py:117-118 | at module load the session slot is empty |
| Authorization.GitHubTools.StartGitHubAuthorization | agents/agent.py:122-193 | on a complete reply the slot is overwritten as a whole with a fresh client and the five values, and the text carries `user_code` and `expires_in // 60`; on any failure the slot keeps its old value and the text is an error |
| Authorization.GitHubTools.CompleteGitHubAuthorization | agents/agent.py:195-263 | an empty slot gives "no flow found" with no request and no change; a poll error gives error text and changes nothing; the environment token and `.env` change only for a non-empty token the environment accepts; a token with an embedded NUL makes the environment assignment raise, giving error text with no identity lookup and no save while the client keeps the token; the slot is never cleared |

## Left out

- HTTP and JSON are replaced by reply values. Request headers, the scope string and the grant-type string are not modelled.
- `time.sleep` becomes a `Sleep` event, and `print` logging is dropped.
- `webbrowser.open` is left out. It is best-effort and its errors are swallowed, so the verification URI is read but not used.
- The candidate `.env` paths are an abstract list `envPaths`. The model does not hardcode the Windows path, the working directory or the module directory.
- DeviceFlow.DeviceFlowClient.PollForToken: requires `interval > 0` and does not model the `ZeroDivisionError`. The session code handles a stored interval of 0 as error text and a negative interval as an immediate timeout (`Authorization.SessionPoll`), which is what the source does.
- EnvFile.AppendsKeyLine, EnvFile.ReplacesFirstKeyLine: these line-level statements need a token without newlines. A token that contains `\n` is written as it is and adds lines of its own to the file.
- A JSON `null` is modelled like a missing key (`None`). In the source, a `null` device-code field (lines 132-136) raises no `KeyError`, so the slot is overwritten with `None` values, while `Authorization.ReadGrant` reports `MissingField`.
- DeviceFlow.RejectionMessage: a `null` `error_description` makes the source's message the text `None` (line 89); the model falls back to `error` as for a missing one.
- Characters are Unicode scalar values, so a token holding a lone surrogate (which would make the environment assignment at line 225 raise `UnicodeEncodeError`) cannot be expressed. Of the values `os.environ` refuses, only an embedded NUL is modelled (`Authorization.EnvAccepts`).
- A non-string `access_token` (null or a number) would raise `TypeError` at the log line's slice (line 77). Tokens are modelled as strings.
- Non-integer `interval` or `expires_in` values are not modelled. In the source, a non-numeric `expires_in` makes `expires_in // 60` raise after the slot was already overwritten (lines 139-182); a float gives a float minute count.
- An identity body that is JSON but not an object is not modelled. A truthy one (a non-empty list or string, a non-zero number, `true`) makes the success text raise after the token was saved (line 238); a falsy one is shown as for no identity (lines 238-240).
- EnvFile.EnvFiles.SaveTokenToEnv: a failing read or write leaves the file unchanged. In the source, `open(path, 'w')` truncates before writing, so a write that fails partway is not modelled.
- Exception messages and the banner and success texts are reduced to their category and the values they embed.
- `check_github_status` and everything else in `agents/agent.py` after line 306 are not part of this model. That includes the Salesforce and ServiceNow status and setup functions, the MCP toolsets, the `tools` list and the `LlmAgent`. These are text templates, network checks and third-party wiring.
- `agents/servicenow_agent/agent.py` is not part of this model. It only configures a toolset and an agent.
