# Gmail credentials and Excel tool of Computer_agent, in Dafny

This project models the decision logic of the Computer_agent repository, a
Python email and spreadsheet agent. It covers two pieces of that logic.

The first is how the agent gets Google OAuth credentials for Gmail. It does
this in three variants, which share one small state machine over the stored
token (`GoogleAuth.TokenState`: no token, unreadable, valid, refreshable, not
refreshable):

- `get_gmail_credentials` in `app/main_agent/sub_tools.py`, used by the Gmail
  tools `send_email` and `list_email_labels`;
- `setup_gmail_auth` in `quickstart.py`, the one-off authorisation script;
- `generate_email_token` in `generate_email_token.py`, which always deletes
  the old token and starts afresh.

The second is `create_excel_file` in `agent_tools/excel_agent_tools.py`. It
validates `data` against `headers`, creates the parent directory, writes the
sheet, and reports every outcome as a string.

Each procedure is a method. It takes an abstract environment: which files
exist, and what loading the token, refreshing it, running the consent flow
and each Gmail or pandas call return (`Host.Call`: a value or an exception).
It returns the procedure's result plus the ordered list of its observable
effects: existence checks, refresh, consent flow, token writes and deletes,
directory creation and sheet writes. `GoogleAuth.FilesAfter` replays such a
list to give the files that exist afterwards.

Each method is proved against a specification:
- a predicate or function of the inputs, written case by case
  (`SubTools.Acquires`, `Quickstart.SetsUp`, `EmailToken.RunTrace`,
  `ExcelTools.Validate`);
- the first-match search `GoogleAuth.FirstExistingAt`.

Lemmas then state what the source promises about those specifications.

The paths in `sub_tools.py` are built with `os.path.join` from the project
root. The paths in `generate_email_token.py` are relative to the working
directory. The model passes that root or directory as a parameter (`root`,
`cwd`) and applies a model of `os.path.join` (`OsPath.Join`).

`get_gmail_credentials` has a quirk that the model keeps. A stored token that
loads but is invalid and not refreshable is neither refreshed nor
re-authorised. It is written back unchanged and returned. `setup_gmail_auth`
treats the same token as a reason to re-authorise.

## Model

| member | source | states |
|---|---|---|
| `SubTools.GetGmailCredentials` | app/main_agent/sub_tools.py:21-72 | Outcome and effects per token state (`Acquires`). A valid token is returned as stored, with one existence check and nothing else. A refreshable token whose refresh succeeds is returned refreshed and rewritten, with no search or flow. An invalid, non-refreshable token is written back and returned unchanged. A missing or unreadable token, or a failed refresh, goes to the consent path. |
| `SubTools.FindClientSecret` | app/main_agent/sub_tools.py:49-62 | The `for … break` loop picks the first candidate that exists (`FirstExistingAt`), or none. It checks exactly the candidates up to and including that one (`SearchProbes`). |
| `SubTools.Reauthorize` | app/main_agent/sub_tools.py:47-65 | The consent path: FileNotFoundError with the fixed message when no client secret exists; otherwise the consent flow on the first one found, ending in its credentials or its exception. |
| `SubTools.AcquiresRaises` | app/main_agent/sub_tools.py:29-65 | The procedure raises exactly when the consent path is needed and either no client secret exists or the flow raises. The exception is the one `AcquireError` names. |
| `SubTools.AcquiresWrites` | app/main_agent/sub_tools.py:37-70 | Whenever the stored credentials were missing or invalid and nothing was raised, token.json is written as the last step. It is written in no other case. |
| `SubTools.NoWriteBeforeConsentEnds` | app/main_agent/sub_tools.py:47-65 | Nothing on the consent path writes a file before the flow completes, so a missing client secret writes nothing. |
| `SubTools.SendEmail` | app/main_agent/sub_tools.py:75-122 | Never raises. Success holds exactly when credentials are obtained, the send returns and its response has an `id`; it then carries the fixed message and that id. Each failure gives the HttpError or catch-all message, including a missing client secret and a response without `id`. |
| `SubTools.ListEmailLabels` | app/main_agent/sub_tools.py:124-156 | Never raises. Success holds exactly when credentials are obtained, the call returns and every label has a name. Success carries exactly the labels' names, in API order, and an empty list when `labels` is absent. A nameless label gives the catch-all KeyError message. |
| `SubTools.ErrorResult` | app/main_agent/sub_tools.py:113-156 | Both tools' `except` clauses: an error record with no payload. An HttpError gives "An error occurred: " and its text; any other exception gives "An unexpected error occurred: " and `str(e)`. |
| `Host.Str` | app/main_agent/sub_tools.py:118-122 | `str(e)`: the message of an exception, except that a KeyError shows its key in single quotes. |
| `SubTools.NamelessLabelMessage` | app/main_agent/sub_tools.py:139-156 | The message for a label without a name is `An unexpected error occurred: 'name'`. |
| `Gmail.LabelNames` | app/main_agent/sub_tools.py:139 | Defined exactly when every label has a `name`. Same length as the labels, and the i-th result is the i-th label's name. |
| `GoogleAuth.FirstExistingAt` | app/main_agent/sub_tools.py:55-59 | The index of the first existing candidate: every candidate before it is missing, and the one at it exists. The number of candidates when none exists. |
| `GoogleAuth.FilesAfterAppend` | generate_email_token.py:26-28 | Replaying two effect lists one after the other equals replaying their concatenation. |
| `GoogleAuth.FilesAfterUntouched` | generate_email_token.py:26-28 | A path that a list of effects neither writes nor deletes exists afterwards exactly when it existed before. |
| `GoogleAuth.ProbesSnoc` | app/main_agent/sub_tools.py:55-56 | Checking one more path appends one existence check. |
| `Quickstart.SetupGmailAuth` | quickstart.py:22-71 | Outcome and effects per token state (`SetsUp`). A valid token returns at once, without writing and without looking for the client-secret file. A refreshable token whose refresh succeeds is written back, with no consent flow. Any other state takes the consent path (`ConsentSetup`, `ConsentSetupEffects`). |
| `Quickstart.SetupSummary` | quickstart.py:31-69 | A missing token leads straight to the client-secret check. The consent path runs exactly when the token does not end the procedure. token.json is written last exactly when new credentials were obtained. It is untouched when the procedure raises or keeps the stored token. |
| `EmailToken.PickClientSecret` | generate_email_token.py:34-43 | `credentials.json` if it exists, else the fixed file under `static/` if that exists, else none. The same first-match choice and the same checks as `FirstExistingAt`/`SearchProbes` over the two candidates. |
| `EmailToken.AuthorizeAndCheck` | generate_email_token.py:45-88 | The try block. A failed flow gives False and writes nothing. A completed flow always writes the token before any check. The result is True exactly when the `gmail.send` URL is among the granted scope URLs and the profile and labels calls complete, including naming the first three labels. |
| `EmailToken.GenerateEmailToken` | generate_email_token.py:20-88 | The effects are those of `RunTrace`: the old token is looked for and deleted; the secrets are searched among the remaining files; then the flow and write. The result is True exactly when credentials were obtained and pass every check (`TokenWorks`). |
| `EmailToken.OldTokenDeletedFirst` | generate_email_token.py:26-28 | An existing email_token.json is deleted right after it is found, before anything else. |
| `EmailToken.OnlyNewTokenSurvives` | generate_email_token.py:26-56 | For any token path, a run that deletes it, probes, and then at most runs a flow and writes it, ends with the token present exactly when it was written. |
| `EmailToken.TokenExistsAfterRun` | generate_email_token.py:26-56 | Afterwards email_token.json exists exactly when this run obtained credentials, whatever the checks then say. An old token never survives a failed run. |
| `EmailToken.NoSecretNoFlow` | generate_email_token.py:34-43 | Without a client secret the run only checks and deletes: no flow, no write. |
| `GoogleAuth.GrantedUrlIff` | generate_email_token.py:61 | Searching the granted scopes for a scope's URL, as the script does, finds it exactly when that scope was granted: no scope other than the three named ones carries one of their URLs. |
| `EmailToken.TokenWithoutSendIsKept` | generate_email_token.py:55-66 | A token lacking `gmail.send` is saved, yet the run does not succeed. |
| `ExcelTools.CreateExcelFile` | agent_tools/excel_agent_tools.py:5-51 | Never raises. The parent directory, when the path names one, is created first, before validation; a failure there ends the call with its message. A rejected call returns the validation message and writes nothing, though the directory exists. An accepted call writes one sheet holding `FrameOf(data, headers)`. It reports the absolute path and sheet name, or the write's error message. Unless `makedirs` raises, the effects are exactly the directory, when there is one, then the sheet, when the input is accepted. |
| `ExcelTools.Validate` | agent_tools/excel_agent_tools.py:30-35 | Data without headers is refused with the "Headers must be provided" message. With headers, the only refusal is non-empty data and headers whose widths differ on the first row, and its message names both widths. Without data everything passes. |
| `ExcelTools.FrameOf` | agent_tools/excel_agent_tools.py:38-42 | The table holds the given rows, or none without data, under the given headers, or none without headers. A table built from accepted input has one column name per cell of its first row, unless it has no rows or no column names. |
| `ExcelTools.LaterRowsNotChecked` | agent_tools/excel_agent_tools.py:34-39 | Validation reads the first row only: rows after it never change the verdict. |
| `ExcelTools.DataWithoutHeadersRejected` | agent_tools/excel_agent_tools.py:30-31 | Data without headers is rejected with the "Headers must be provided" message, even an empty list of rows. |
| `ExcelTools.AcceptedWidthsAgree` | agent_tools/excel_agent_tools.py:30-35 | Whatever passes validation has headers when it has data. When both are non-empty, it has one header per column of the first row. |
| `ExcelTools.HeadersOnlyFrame` | agent_tools/excel_agent_tools.py:34-42 | Headers with no data, or with an empty list of rows, pass validation and give a table with those columns and no rows. |
| `ExcelTools.MismatchMessageNamesBoth` | agent_tools/excel_agent_tools.py:35 | The mismatch message determines both counts it names. |
| `OsPath.DirName` | agent_tools/excel_agent_tools.py:25-26 | `os.path.dirname`: a prefix of the path, empty exactly when the path has no '/', so a directory is created exactly for paths with a '/'. |
| `OsPath.JoinShape` | app/main_agent/sub_tools.py:26 | `os.path.join`: an absolute second part replaces the first. Otherwise the result is the first part, then one '/' unless the first part is empty or already ends with one, then the second part. |
| `Text.NatToString` | agent_tools/excel_agent_tools.py:35 | `str(n)` for the counts in the mismatch message: at least one digit, and no leading zero unless n is 0. |
| `Text.DecimalRoundTrip` | agent_tools/excel_agent_tools.py:35 | Reading the printed count back gives the count. |

## Left out

- google-auth internals are not modelled. These are token parsing, how `valid` and `expired` are computed, the refresh-token grant (section 6 of RFC 6749) and `run_local_server`. What each yields is an input of `AuthEnv`.
- The Gmail API calls (send, labels, profile) are inputs, not behaviour. MIME construction and base64url encoding of the message are left out. `SendEmail` keeps `to`, `subject` and `body` only as parameters.
- pandas table construction and `to_excel` are one input (`ExcelEnv.write`). An error raised by either, such as later rows wider than the headers, becomes the message.
- `os.path.abspath` is an input (`ExcelEnv.absPath`). The project root in `sub_tools.py` and the working directory in `generate_email_token.py` are parameters.
- Writing a token file is assumed to succeed in all three procedures. In `sub_tools.py` a failing write would propagate to the tools' catch-all. In `quickstart.py` a failing write of a refreshed token (quickstart.py:47-48) is inside the `try` and would lead to the consent path; a failing write after the consent flow (quickstart.py:68-69) is outside any `try` and would raise out of `setup_gmail_auth`. None of these cases is modelled.
- EmailToken.GenerateEmailToken: deleting the old token is assumed to succeed. In the source `os.remove` (generate_email_token.py:28) is outside the `try`, so a failing delete raises out of `generate_email_token`; the model always returns a boolean.
- Host.Str: a KeyError's key is always shown in single quotes. Python shows `repr(key)`, which uses double quotes for a key containing `'` and escapes backslashes and non-printable characters. This is exact for the keys the modelled code looks up (`id`, `name`) but not for arbitrary keys in exceptions the environment supplies.
- `OsPath` models POSIX paths (`posixpath`) only. Windows paths (`ntpath`: backslash separators, drive letters) are not modelled.
- `EmailToken.AuthorizeAndCheck`: `creds.scopes` is a set of scopes and never None, so the TypeError that `in None` would raise is not modelled.
- `print` logging is not modelled.
- The module-level `send_email(...)` call at app/main_agent/sub_tools.py:158, which sends a real email on import, is not modelled.
- The agent framework glue and prompt texts are not part of this model (app/main_agent/sub_agents.py, app/main_agent/prompts.py, app/main_agent/agent.py, main_agent/agent.py, static/promts.py, app/main_agent/side/agent.py, app/main_agent/tools.py). Neither is `EmailAgent.process_message`, which iterates asynchronously over the external runtime's events.
- The command-line entry points of `quickstart.py` and `generate_email_token.py` are not modelled. The default arguments (`credentials_file='credentials.json'`, `sheet_name='Sheet1'`) are not modelled: the modelled procedures take both as parameters.
