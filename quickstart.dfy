/** quickstart.py: `setup_gmail_auth`, the one-off authorisation script. It
    returns early once a usable token is in place and otherwise runs the
    consent flow on the client-secret file it is given. */
module Quickstart {
  import opened OsPath
  import opened Host
  import opened GoogleAuth

  /** The token file, relative to the working directory. */
  const TokenFile: Path := "token.json"

  /** The scopes requested from the consent flow. */
  const Scopes: seq<Scope> := [GmailSend, GmailLabels, GmailReadonly]

  const MissingSecretAdvice := " file found. Please download it from the Google Cloud Console."

  function MissingSecretMessage(credentialsFile: Path): string {
    "No " + credentialsFile + MissingSecretAdvice
  }

  /** How `setup_gmail_auth` ends: it returns after the given kind of
      authorisation, or raises. */
  datatype Setup = Authorized(source: CredSource) | Raised(exc: Exception)

  /** The stored token does not end the procedure, so control reaches the
      consent path: there is no token, reading it raised, it can not be
      refreshed, or its refresh raised. */
  predicate FallsThrough(env: AuthEnv) {
    var st := Classify(TokenFile, env);
    st == NoToken || st == Unreadable || st == Unrefreshable || (st == Refreshable && env.refresh.Raises?)
  }

  /** The effects before the consent path is reached. */
  function Lead(env: AuthEnv): seq<Effect> {
    [Probe(TokenFile)] + (if Classify(TokenFile, env) == Refreshable then [Refresh] else [])
  }

  /** How the consent path ends: FileNotFoundError when the client-secret
      file is missing, else whatever the consent flow yields. */
  function ConsentSetup(credentialsFile: Path, env: AuthEnv): Setup {
    if credentialsFile !in env.files then Raised(FileNotFoundError(MissingSecretMessage(credentialsFile)))
    else if env.consent.Raises? then Raised(env.consent.exc)
    else Authorized(Consented)
  }

  /** The effects of the consent path: the client-secret file is looked for,
      the flow runs only if it exists, and the token is written only if the
      flow completes. */
  function ConsentSetupEffects(credentialsFile: Path, env: AuthEnv): seq<Effect> {
    [Probe(credentialsFile)]
      + (if credentialsFile in env.files then [ConsentFlow(credentialsFile, Scopes)] else [])
      + (if ConsentSetup(credentialsFile, env).Authorized? then [Write(TokenFile)] else [])
  }

  /** What `setup_gmail_auth` ends with and does, by the state of the token:
      - valid: it returns at once, without writing or looking for the
        client-secret file;
      - refreshable and the refresh succeeds: the token is written back and
        it returns without any consent flow;
      - otherwise (no token, unreadable, not refreshable, or the refresh
        raised): the consent path. */
  predicate SetsUp(credentialsFile: Path, env: AuthEnv, r: Setup, trace: seq<Effect>) {
    match Classify(TokenFile, env)
    case Usable => r == Authorized(Stored) && trace == [Probe(TokenFile)]
    case Refreshable =>
      if env.refresh.Returns? then r == Authorized(Refreshed) && trace == [Probe(TokenFile), Refresh, Write(TokenFile)]
      else r == ConsentSetup(credentialsFile, env) && trace == Lead(env) + ConsentSetupEffects(credentialsFile, env)
    case _ => r == ConsentSetup(credentialsFile, env) && trace == Lead(env) + ConsentSetupEffects(credentialsFile, env)
  }

  method SetupGmailAuth(credentialsFile: Path, env: AuthEnv) returns (r: Setup, trace: seq<Effect>)
    ensures SetsUp(credentialsFile, env, r, trace)
  {
    trace := [Probe(TokenFile)];
    if TokenFile in env.files {
      // try:
      match env.load {
        case Raises(_) =>  // "Error reading token", then the consent path
        case Returns(creds) =>
          if creds.valid {
            return Authorized(Stored), trace;
          }
          if creds.expired && creds.hasRefreshToken {
            trace := trace + [Refresh];
            if env.refresh.Returns? {
              trace := trace + [Write(TokenFile)];
              return Authorized(Refreshed), trace;
            }
            // the refresh raised: "Error reading token", then the consent path
          }
      }
    }
    trace := trace + [Probe(credentialsFile)];
    if credentialsFile !in env.files {
      return Raised(FileNotFoundError(MissingSecretMessage(credentialsFile))), trace;
    }
    trace := trace + [ConsentFlow(credentialsFile, Scopes)];
    if env.consent.Raises? {
      return Raised(env.consent.exc), trace;
    }
    trace := trace + [Write(TokenFile)];
    r := Authorized(Consented);
  }

  /** A missing token file leads straight to the client-secret check. The
      token file is written, as the last step, exactly when new credentials
      were obtained; it is untouched when the procedure raises or keeps the
      stored token. */
  lemma {:induction false} SetupSummary(credentialsFile: Path, env: AuthEnv, r: Setup, trace: seq<Effect>)
    requires SetsUp(credentialsFile, env, r, trace)
    ensures FallsThrough(env) <==> r == ConsentSetup(credentialsFile, env) && trace == Lead(env) + ConsentSetupEffects(credentialsFile, env)
    ensures Classify(TokenFile, env) == NoToken ==> |trace| >= 2 && trace[..2] == [Probe(TokenFile), Probe(credentialsFile)]
    ensures r.Authorized? && r.source != Stored ==> trace[|trace| - 1] == Write(TokenFile)
    ensures r.Raised? || r == Authorized(Stored) ==> Write(TokenFile) !in trace
  {
    var consent := Lead(env) + ConsentSetupEffects(credentialsFile, env);
    if Classify(TokenFile, env) == NoToken {
      assert consent[..2] == [Probe(TokenFile), Probe(credentialsFile)];
    }
    if FallsThrough(env) && ConsentSetup(credentialsFile, env).Raised? {
      assert forall e :: e in consent ==> e != Write(TokenFile);
    }
  }
}
