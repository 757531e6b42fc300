/** app/main_agent/sub_tools.py: `get_gmail_credentials`, the credential
    procedure the Gmail tools use, and the two tools `send_email` and
    `list_email_labels`, which turn every outcome into a status record. */
module SubTools {
  import opened OsPath
  import opened Host
  import opened GoogleAuth
  import opened Gmail

  /** The scopes requested from the consent flow. */
  const Scopes: seq<Scope> := [GmailSend, GmailReadonly]

  const NoSecretMessage := "No credentials.json file found in any of the expected locations."

  /** `<root>/token.json`; `root` is the project root, two directories above
      the module's own file. */
  function TokenPath(root: Path): Path {
    Join(root, "token.json")
  }

  /** The client-secret locations, in the order they are tried. */
  function SecretCandidates(root: Path): seq<Path> {
    [Join(root, "credentials.json"), Join(Join(root, "static"), "credentials.json")]
  }

  /** What `get_gmail_credentials` ends with: credentials, or the exception
      that escapes it. */
  datatype Acquired = Got(creds: Creds, source: CredSource) | Failed(exc: Exception)

  /** No usable credentials remain after loading and refreshing: the token file
      is missing, does not load, or its refresh raised. */
  predicate NeedsConsent(root: Path, env: AuthEnv) {
    var st := Classify(TokenPath(root), env);
    st == NoToken || st == Unreadable || (st == Refreshable && env.refresh.Raises?)
  }

  /** The effects that precede the client-secret search on the consent path. */
  function ConsentLead(root: Path, env: AuthEnv): seq<Effect> {
    [Probe(TokenPath(root))] + (if Classify(TokenPath(root), env) == Refreshable then [Refresh] else [])
  }

  /** The exception `get_gmail_credentials` raises, if any. */
  function AcquireError(root: Path, env: AuthEnv): Option<Exception> {
    if !NeedsConsent(root, env) then None
    else if FirstExistingAt(SecretCandidates(root), env.files) == |SecretCandidates(root)| then
      Some(FileNotFoundError(NoSecretMessage))
    else if env.consent.Raises? then Some(env.consent.exc)
    else None
  }

  /** The `for ... break` loop over the candidate locations: the first that
      exists is chosen, and each candidate up to it is checked. */
  method FindClientSecret(candidates: seq<Path>, files: set<Path>) returns (secret: Option<Path>, probes: seq<Effect>)
    ensures var k := FirstExistingAt(candidates, files);
      secret == if k < |candidates| then Some(candidates[k]) else None
    ensures probes == SearchProbes(candidates, files)
  {
    secret := None;
    probes := [];
    var i := 0;
    while i < |candidates|
      invariant 0 <= i <= |candidates|
      invariant secret.None?
      invariant forall j :: 0 <= j < i ==> candidates[j] !in files
      invariant probes == Probes(candidates[..i])
    {
      assert candidates[..i + 1] == candidates[..i] + [candidates[i]];
      ProbesSnoc(candidates[..i], candidates[i]);
      probes := probes + [Probe(candidates[i])];
      if candidates[i] in files {
        secret := Some(candidates[i]);
        break;
      }
      i := i + 1;
    }
  }

  /** How the consent path ends: FileNotFoundError when no client secret
      exists, else whatever the consent flow on the first one yields. */
  function ConsentResult(root: Path, env: AuthEnv): Acquired {
    if FirstExistingAt(SecretCandidates(root), env.files) == |SecretCandidates(root)| then
      Failed(FileNotFoundError(NoSecretMessage))
    else if env.consent.Raises? then Failed(env.consent.exc)
    else Got(env.consent.value, Consented)
  }

  /** The effects of the consent path: the first-match search for a client
      secret and, when one is found, the consent flow on it. */
  function ConsentEffects(root: Path, env: AuthEnv): seq<Effect> {
    var cands := SecretCandidates(root);
    var k := FirstExistingAt(cands, env.files);
    SearchProbes(cands, env.files) + if k == |cands| then [] else [ConsentFlow(cands[k], Scopes)]
  }

  /** The consent path: find a client secret, then run the consent flow on it. */
  method Reauthorize(root: Path, env: AuthEnv) returns (r: Acquired, effects: seq<Effect>)
    ensures r == ConsentResult(root, env) && effects == ConsentEffects(root, env)
  {
    var secret;
    secret, effects := FindClientSecret(SecretCandidates(root), env.files);
    if secret.None? {
      return Failed(FileNotFoundError(NoSecretMessage)), effects;
    }
    effects := effects + [ConsentFlow(secret.value, Scopes)];
    match env.consent {
      case Raises(e) => r := Failed(e);
      case Returns(c) => r := Got(c, Consented);
    }
  }

  /** The consent path inside `get_gmail_credentials`: what precedes it, its
      own effects and, when it yields credentials, the write of the token. */
  predicate ConsentOutcome(root: Path, env: AuthEnv, r: Acquired, trace: seq<Effect>) {
    && r == ConsentResult(root, env)
    && trace == ConsentLead(root, env) + ConsentEffects(root, env) + if r.Got? then [Write(TokenPath(root))] else []
  }

  /** What `get_gmail_credentials` ends with and does, by the state of the
      stored token:
      - valid: returned as it is, with no refresh, search, flow or write;
      - refreshable and the refresh succeeds: rewritten and returned;
      - invalid and not refreshable: written back and returned unchanged,
        neither refreshed nor re-authorised;
      - missing, unreadable, or the refresh raised: the consent path. */
  predicate Acquires(root: Path, env: AuthEnv, r: Acquired, trace: seq<Effect>) {
    var tp := TokenPath(root);
    match Classify(tp, env)
    case Usable => r == Got(env.load.value, Stored) && trace == [Probe(tp)]
    case Unrefreshable => r == Got(env.load.value, Stored) && trace == [Probe(tp), Write(tp)]
    case Refreshable =>
      if env.refresh.Returns? then r == Got(env.refresh.value, Refreshed) && trace == [Probe(tp), Refresh, Write(tp)]
      else ConsentOutcome(root, env, r, trace)
    case _ => ConsentOutcome(root, env, r, trace)
  }

  method GetGmailCredentials(root: Path, env: AuthEnv) returns (r: Acquired, trace: seq<Effect>)
    ensures Acquires(root, env, r, trace)
  {
    var tokenPath := TokenPath(root);
    var creds: Option<Creds> := None;
    var source := Stored;
    trace := [Probe(tokenPath)];
    if tokenPath in env.files {
      match env.load {
        case Returns(c) => creds := Some(c);
        case Raises(_) =>  // the error is printed and `creds` stays None
      }
    }
    if creds.None? || !creds.value.valid {
      if creds.Some? && creds.value.expired && creds.value.hasRefreshToken {
        trace := trace + [Refresh];
        match env.refresh {
          case Returns(c) => creds, source := Some(c), Refreshed;
          case Raises(_) => creds := None;
        }
      }
      if creds.None? {
        assert trace == ConsentLead(root, env);
        var acquired, effects := Reauthorize(root, env);
        trace := trace + effects;
        if acquired.Failed? {
          return acquired, trace;
        }
        creds, source := Some(acquired.creds), Consented;
      }
      trace := trace + [Write(tokenPath)];
    }
    r := Got(creds.value, source);
  }

  /** The procedure raises exactly the exception `AcquireError` names. */
  lemma AcquiresRaises(root: Path, env: AuthEnv, r: Acquired, trace: seq<Effect>)
    requires Acquires(root, env, r, trace)
    ensures r.Failed? <==> AcquireError(root, env).Some?
    ensures r.Failed? ==> r.exc == AcquireError(root, env).value
  {
  }

  /** Whenever the stored credentials were missing or invalid and nothing was
      raised, the token file is written last; it is written in no other case. */
  lemma {:induction false} AcquiresWrites(root: Path, env: AuthEnv, r: Acquired, trace: seq<Effect>)
    requires Acquires(root, env, r, trace)
    ensures r.Got? && Classify(TokenPath(root), env) != Usable ==> trace != [] && trace[|trace| - 1] == Write(TokenPath(root))
    ensures Write(TokenPath(root)) in trace ==> r.Got? && Classify(TokenPath(root), env) != Usable
  {
    if NeedsConsent(root, env) {
      NoWriteBeforeConsentEnds(root, env, TokenPath(root));
    }
  }

  /** Nothing on the consent path writes a file before the flow has completed. */
  lemma NoWriteBeforeConsentEnds(root: Path, env: AuthEnv, p: Path)
    ensures Write(p) !in ConsentLead(root, env) + ConsentEffects(root, env)
  {
    var cands := SecretCandidates(root);
    var k := FirstExistingAt(cands, env.files);
    var flow: seq<Effect> := if k == |cands| then [] else [ConsentFlow(cands[k], Scopes)];
    assert Write(p) !in SearchProbes(cands, env.files);
    assert Write(p) !in ConsentLead(root, env) && Write(p) !in flow;
  }

  datatype Status = Success | Error

  /** The operation-specific part of a tool's result dictionary. */
  datatype Payload = NoPayload | MessageId(id: string) | LabelList(names: seq<string>)

  /** The dictionary a tool returns: `{status, message, ...}`. */
  datatype ToolResult = ToolResult(status: Status, message: string, payload: Payload)

  /** The two `except` clauses of a tool: one for HttpError, one for
      everything else. */
  function ErrorResult(e: Exception): (r: ToolResult)
    ensures r.status == Error && r.payload == NoPayload
    ensures e.HttpError? ==> r.message == HttpErrorLead + e.msg
    ensures !e.HttpError? ==> r.message == UnexpectedErrorLead + Str(e)
  {
    if e.HttpError? then ToolResult(Error, HttpErrorLead + Str(e), NoPayload)
    else ToolResult(Error, UnexpectedErrorLead + Str(e), NoPayload)
  }

  const HttpErrorLead := "An error occurred: "
  const UnexpectedErrorLead := "An unexpected error occurred: "
  const SentLead := "Email sent successfully to "
  const LabelsRetrieved := "Labels retrieved successfully"

  /** A label without a name gives the catch-all message for KeyError('name'). */
  lemma NamelessLabelMessage()
    ensures ErrorResult(KeyError("name")) == ToolResult(Error, "An unexpected error occurred: 'name'", NoPayload)
  {
  }

  /** `send_email(to, subject, body)`: `send` is what the Gmail send call
      returns for the encoded message. It never raises. */
  method SendEmail(root: Path, env: AuthEnv, send: Call<Json>, to: string, subject: string, body: string)
    returns (r: ToolResult)
    ensures r.status == Success <==> AcquireError(root, env).None? && send.Returns? && "id" in send.value
    ensures r.status == Success ==>
      r == ToolResult(Success, SentLead + to, MessageId(send.value["id"]))
    ensures r.status == Error ==> r.payload == NoPayload
    ensures AcquireError(root, env).Some? ==> r == ErrorResult(AcquireError(root, env).value)
    ensures AcquireError(root, env).None? && send.Raises? ==> r == ErrorResult(send.exc)
    ensures AcquireError(root, env).None? && send.Returns? && "id" !in send.value ==> r == ErrorResult(KeyError("id"))
    // A missing client secret becomes an error record through the catch-all.
    ensures AcquireError(root, env) == Some(FileNotFoundError(NoSecretMessage)) ==>
      r == ToolResult(Error, UnexpectedErrorLead + NoSecretMessage, NoPayload)
  {
    var acquired, trace := GetGmailCredentials(root, env);
    AcquiresRaises(root, env, acquired, trace);
    if acquired.Failed? {
      return ErrorResult(acquired.exc);
    }
    match send {
      case Raises(e) =>
        r := ErrorResult(e);
      case Returns(response) =>
        if "id" in response {
          r := ToolResult(Success, SentLead + to, MessageId(response["id"]));
        } else {
          r := ErrorResult(KeyError("id"));
        }
    }
  }

  /** `list_email_labels()`: `list` is what the Gmail labels call returns,
      the `labels` field of the response or `None` when it is absent. It
      never raises. */
  method ListEmailLabels(root: Path, env: AuthEnv, list: Call<Option<seq<Json>>>) returns (r: ToolResult)
    ensures r.status == Success <==>
      AcquireError(root, env).None? && list.Returns? && LabelNames(LabelsOrEmpty(list.value)).Some?
    // Success carries the name of every label, in the order the API gave them.
    ensures r.status == Success ==>
      var labels := LabelsOrEmpty(list.value);
      && r.message == LabelsRetrieved
      && r.payload.LabelList?
      && |r.payload.names| == |labels|
      && forall i :: 0 <= i < |labels| ==> r.payload.names[i] == labels[i]["name"]
    // An absent `labels` field gives an empty list.
    ensures AcquireError(root, env).None? && list == Returns(None) ==>
      r == ToolResult(Success, LabelsRetrieved, LabelList([]))
    ensures r.status == Error ==> r.payload == NoPayload
    ensures AcquireError(root, env).Some? ==> r == ErrorResult(AcquireError(root, env).value)
    ensures AcquireError(root, env).None? && list.Raises? ==> r == ErrorResult(list.exc)
    ensures AcquireError(root, env).None? && list.Returns? && LabelNames(LabelsOrEmpty(list.value)).None? ==>
      r == ErrorResult(KeyError("name"))
  {
    var acquired, trace := GetGmailCredentials(root, env);
    AcquiresRaises(root, env, acquired, trace);
    if acquired.Failed? {
      return ErrorResult(acquired.exc);
    }
    match list {
      case Raises(e) =>
        r := ErrorResult(e);
      case Returns(labels) =>
        match LabelNames(LabelsOrEmpty(labels)) {
          case None => r := ErrorResult(KeyError("name"));
          case Some(names) => r := ToolResult(Success, LabelsRetrieved, LabelList(names));
        }
    }
  }
}
