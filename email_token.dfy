/** generate_email_token.py: `generate_email_token`, which always starts
    afresh: it deletes the old email token, runs the consent flow on the first
    client secret it finds, saves the new token and then checks it. */
module EmailToken {
  import opened OsPath
  import opened Host
  import opened GoogleAuth
  import opened Gmail

  // The script names its files relative to the working directory `cwd`.

  function EmailTokenFile(cwd: Path): Path {
    Join(cwd, "email_token.json")
  }

  function CredentialsFile(cwd: Path): Path {
    Join(cwd, "credentials.json")
  }

  /** The file name of the alternate client secret, a download from the
      Google Cloud Console. */
  const AltSecretName: Path := "client_secret_214218856359-o80naasos3rvtg4mrh7nsbv4hbcqah70.apps.googleusercontent.com.json"

  /** The alternate client secret, under `static/`. */
  function AltSecretFile(cwd: Path): Path {
    Join(cwd, Join("static", AltSecretName))
  }

  /** The scopes requested from the consent flow. */
  const Scopes: seq<Scope> := [GmailSend, GmailReadonly]

  /** The client-secret locations, in the order they are tried. */
  function SecretCandidates(cwd: Path): seq<Path> {
    [CredentialsFile(cwd), AltSecretFile(cwd)]
  }

  /** The checks made once the token is saved: the `gmail.send` URL is among
      the granted scope URLs, the profile call completes, and so does the labels call,
      including reading the names of the first three labels. */
  predicate TokenWorks(creds: Creds, profile: Call<Json>, labels: Call<Option<seq<Json>>>) {
    && SendUrl in GrantedUrls(creds)
    && profile.Returns?
    && labels.Returns?
    && LabelNames(Take(LabelsOrEmpty(labels.value), 3)).Some?
  }

  /** The effects before the client-secret search: the old token is looked for
      and, if it is there, deleted. */
  function Opening(cwd: Path, env: AuthEnv): seq<Effect> {
    [Probe(EmailTokenFile(cwd))] + (if EmailTokenFile(cwd) in env.files then [Delete(EmailTokenFile(cwd))] else [])
  }

  /** The choice of client secret: `credentials.json` if it exists, else the
      alternate file if that exists, else none. */
  method PickClientSecret(cwd: Path, files: set<Path>) returns (secret: Option<Path>, probes: seq<Effect>)
    ensures var k := FirstExistingAt(SecretCandidates(cwd), files);
      secret == if k < |SecretCandidates(cwd)| then Some(SecretCandidates(cwd)[k]) else None
    ensures probes == SearchProbes(SecretCandidates(cwd), files)
  {
    var clientSecret := CredentialsFile(cwd);
    probes := [Probe(clientSecret)];
    if clientSecret !in files {
      var altPath := AltSecretFile(cwd);
      probes := probes + [Probe(altPath)];
      if altPath in files {
        clientSecret := altPath;
      } else {
        return None, probes;
      }
    }
    secret := Some(clientSecret);
  }

  /** The `try` block: the consent flow on `secret`, saving the token, then
      the checks. Every exception inside it gives False. */
  method AuthorizeAndCheck(cwd: Path, secret: Path, consent: Call<Creds>, profile: Call<Json>, labels: Call<Option<seq<Json>>>)
    returns (ok: bool, effects: seq<Effect>)
    ensures consent.Raises? ==> !ok && effects == [ConsentFlow(secret, Scopes)]
    // The token is saved before the scope check, so a token without
    // `gmail.send` is kept although the result is False.
    ensures consent.Returns? ==> effects == [ConsentFlow(secret, Scopes), Write(EmailTokenFile(cwd))]
    ensures ok <==> consent.Returns? && TokenWorks(consent.value, profile, labels)
  {
    effects := [ConsentFlow(secret, Scopes)];
    if consent.Raises? {
      return false, effects;
    }
    var creds := consent.value;
    effects := effects + [Write(EmailTokenFile(cwd))];
    if SendUrl !in GrantedUrls(creds) {
      return false, effects;
    }
    if profile.Raises? || labels.Raises? {
      return false, effects;
    }
    var listed := LabelsOrEmpty(labels.value);
    if listed != [] && LabelNames(Take(listed, 3)).None? {
      // printing the sample of label names raises KeyError('name')
      return false, effects;
    }
    ok := true;
  }

  /** The effects of one run: the old token is looked for and deleted; the
      client secrets are searched in the files that remain; with one found the
      consent flow runs on it and, if it completes, the new token is written. */
  function RunTrace(cwd: Path, env: AuthEnv): seq<Effect> {
    var remaining := env.files - {EmailTokenFile(cwd)};
    var cands := SecretCandidates(cwd);
    var k := FirstExistingAt(cands, remaining);
    Opening(cwd, env) + SearchProbes(cands, remaining)
      + if k == |cands| then []
        else [ConsentFlow(cands[k], Scopes)] + if env.consent.Returns? then [Write(EmailTokenFile(cwd))] else []
  }

  /** A client secret was found and the consent flow returned credentials. */
  predicate Authorized(cwd: Path, env: AuthEnv) {
    && FirstExistingAt(SecretCandidates(cwd), env.files - {EmailTokenFile(cwd)}) < |SecretCandidates(cwd)|
    && env.consent.Returns?
  }

  /** `profile` and `labels` are what the Gmail profile and labels calls return
      with the new token; `ok` is the function's boolean result. */
  method GenerateEmailToken(cwd: Path, env: AuthEnv, profile: Call<Json>, labels: Call<Option<seq<Json>>>)
    returns (ok: bool, trace: seq<Effect>)
    ensures trace == RunTrace(cwd, env)
    // True only for a token that was obtained, saved and passed every check.
    ensures ok <==> Authorized(cwd, env) && TokenWorks(env.consent.value, profile, labels)
  {
    var tokenPath := EmailTokenFile(cwd);
    var files := env.files;
    trace := [Probe(tokenPath)];
    if tokenPath in files {
      trace := trace + [Delete(tokenPath)];
      files := files - {tokenPath};
    }
    assert files == env.files - {tokenPath};
    var secret, probes := PickClientSecret(cwd, files);
    trace := trace + probes;
    if secret.None? {
      return false, trace;
    }
    var effects;
    ok, effects := AuthorizeAndCheck(cwd, secret.value, env.consent, profile, labels);
    trace := trace + effects;
  }

  /** An existing token is deleted before anything else happens. */
  lemma OldTokenDeletedFirst(cwd: Path, env: AuthEnv)
    requires EmailTokenFile(cwd) in env.files
    ensures |RunTrace(cwd, env)| >= 2
    ensures RunTrace(cwd, env)[..2] == [Probe(EmailTokenFile(cwd)), Delete(EmailTokenFile(cwd))]
  {
  }

  /** The shape of a run for any token path `tok`: the token is removed, only
      probes follow, then at most a consent flow and a write of `tok`. The token
      exists at the end exactly when the flow ended in that write. */
  lemma {:induction false} OnlyNewTokenSurvives(files: set<Path>, tok: Path, search: seq<Effect>, flow: seq<Effect>)
    requires forall e :: e in search ==> e.Probe?
    requires |flow| <= 2 && (flow != [] ==> flow[0].ConsentFlow?) && (|flow| == 2 ==> flow[1] == Write(tok))
    ensures var opening := [Probe(tok)] + if tok in files then [Delete(tok)] else [];
      && (tok in FilesAfter(files, opening + search + flow) <==> |flow| == 2)
      && (Write(tok) in opening + search + flow <==> |flow| == 2)
  {
    var opening := [Probe(tok)] + if tok in files then [Delete(tok)] else [];
    var remaining := files - {tok};
    assert FilesAfter(files, opening) == remaining by {
      assert [Probe(tok)][..0] == [];
      assert FilesAfter(files, [Probe(tok)]) == files;
      if tok in files {
        assert opening[..1] == [Probe(tok)];
      }
    }
    FilesAfterAppend(files, opening, search);
    FilesAfterUntouched(remaining, search, tok);
    FilesAfterAppend(files, opening + search, flow);
    if |flow| == 2 {
      assert flow[|flow| - 1] == Write(tok);
      assert (opening + search + flow)[|opening + search| + 1] == Write(tok);
    } else {
      assert Write(tok) !in flow && Delete(tok) !in flow;
      FilesAfterUntouched(remaining, flow, tok);
      assert Write(tok) !in opening && Write(tok) !in search;
    }
  }

  /** Afterwards a token exists exactly when this run wrote one, which it does
      exactly when it obtained credentials, whether or not they then pass the
      checks: an old token never survives. */
  lemma TokenExistsAfterRun(cwd: Path, env: AuthEnv)
    ensures EmailTokenFile(cwd) in FilesAfter(env.files, RunTrace(cwd, env)) <==> Authorized(cwd, env)
    ensures Write(EmailTokenFile(cwd)) in RunTrace(cwd, env) <==> Authorized(cwd, env)
  {
    var tok := EmailTokenFile(cwd);
    var remaining := env.files - {tok};
    var cands := SecretCandidates(cwd);
    var k := FirstExistingAt(cands, remaining);
    var flow := if k == |cands| then []
      else [ConsentFlow(cands[k], Scopes)] + if env.consent.Returns? then [Write(tok)] else [];
    OnlyNewTokenSurvives(env.files, tok, SearchProbes(cands, remaining), flow);
  }

  /** Without a client secret the run ends after the search: no consent flow,
      no token. */
  lemma NoSecretNoFlow(cwd: Path, env: AuthEnv)
    requires FirstExistingAt(SecretCandidates(cwd), env.files - {EmailTokenFile(cwd)}) == |SecretCandidates(cwd)|
    ensures forall e :: e in RunTrace(cwd, env) ==> e.Probe? || e.Delete?
  {
  }

  /** A token without `gmail.send` is saved, yet the run reports failure. */
  lemma TokenWithoutSendIsKept(cwd: Path, env: AuthEnv, profile: Call<Json>, labels: Call<Option<seq<Json>>>)
    requires Authorized(cwd, env) && GmailSend !in env.consent.value.scopes
    ensures EmailTokenFile(cwd) in FilesAfter(env.files, RunTrace(cwd, env))
    ensures !TokenWorks(env.consent.value, profile, labels)
  {
    TokenExistsAfterRun(cwd, env);
    GrantedUrlIff(env.consent.value, GmailSend);
  }
}
