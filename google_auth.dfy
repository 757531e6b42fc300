/** The abstract environment shared by the three credential procedures
    (`get_gmail_credentials`, `setup_gmail_auth`, `generate_email_token`).

    google-auth is not modelled: what loading a token file, refreshing it and
    running the consent flow return is given as an input (`AuthEnv`), and the
    procedures are specified over the state the stored token presents
    (`TokenState`), which is the state machine they share. */
module GoogleAuth {
  import opened OsPath
  import opened Host

  const SendUrl := "https://www.googleapis.com/auth/gmail.send"
  const ReadonlyUrl := "https://www.googleapis.com/auth/gmail.readonly"
  const LabelsUrl := "https://www.googleapis.com/auth/gmail.labels"

  /** The URL of a scope other than the three Gmail scopes the procedures name. */
  type OtherUrl = u: string | u != SendUrl && u != ReadonlyUrl && u != LabelsUrl witness ""

  /** An OAuth scope: the three Gmail scopes the procedures name, or any other. */
  datatype Scope = GmailSend | GmailReadonly | GmailLabels | OtherScope(url: OtherUrl)

  /** The scope's URL, as it appears in `SCOPES` and in `creds.scopes`. */
  function ScopeUrl(s: Scope): string {
    match s
    case GmailSend => SendUrl
    case GmailReadonly => ReadonlyUrl
    case GmailLabels => LabelsUrl
    case OtherScope(url) => url
  }

  /** The attributes of a google-auth `Credentials` object the procedures read. */
  datatype Creds = Creds(valid: bool, expired: bool, hasRefreshToken: bool, scopes: set<Scope>)

  /** The URLs in `creds.scopes`, the list of strings the source searches. */
  function GrantedUrls(creds: Creds): set<string> {
    set s | s in creds.scopes :: ScopeUrl(s)
  }

  /** Testing a scope's URL against the granted URLs, as the source does, is
      testing the scope itself: no two scopes share a URL. */
  lemma GrantedUrlIff(creds: Creds, s: Scope)
    ensures ScopeUrl(s) in GrantedUrls(creds) <==> s in creds.scopes
  {
    if ScopeUrl(s) in GrantedUrls(creds) {
      var t :| t in creds.scopes && ScopeUrl(t) == ScopeUrl(s);
      ScopeUrlInjective(s, t);
    }
  }

  lemma ScopeUrlInjective(s: Scope, t: Scope)
    requires ScopeUrl(s) == ScopeUrl(t)
    ensures s == t
  {
    assert |SendUrl| == 42 && |ReadonlyUrl| == 46 && |LabelsUrl| == 44;
  }

  /** The world a credential procedure runs against:
      - `files`: the paths that exist when it starts;
      - `load`: what parsing the stored token file yields;
      - `refresh`: what the refresh-token grant yields;
      - `consent`: what the interactive consent flow yields. */
  datatype AuthEnv = AuthEnv(files: set<Path>, load: Call<Creds>, refresh: Call<Creds>, consent: Call<Creds>)

  /** Where the credentials a procedure ends with came from. */
  datatype CredSource = Stored | Refreshed | Consented

  /** The state the stored token presents to a procedure. */
  datatype TokenState =
    | NoToken        // no token file
    | Unreadable     // the token file exists but loading it raises
    | Usable         // loaded, and `valid`
    | Refreshable    // loaded, not valid, `expired` and holding a refresh token
    | Unrefreshable  // loaded, not valid, and not both expired and refreshable

  predicate CanRefresh(c: Creds) {
    c.expired && c.hasRefreshToken
  }

  function Classify(tokenPath: Path, env: AuthEnv): TokenState {
    if tokenPath !in env.files then NoToken
    else if env.load.Raises? then Unreadable
    else if env.load.value.valid then Usable
    else if CanRefresh(env.load.value) then Refreshable
    else Unrefreshable
  }

  /** An observable step of a credential procedure, recorded in the order the
      steps happen. */
  datatype Effect =
    | Probe(path: Path)                              // os.path.exists(path)
    | Refresh                                        // the refresh-token grant is attempted
    | ConsentFlow(secret: Path, scopes: seq<Scope>)  // the interactive consent flow is started
    | Write(path: Path)                              // a token file is (re)written
    | Delete(path: Path)                             // os.remove(path)

  /** The files that exist after `trace`, starting from `files`. */
  function FilesAfter(files: set<Path>, trace: seq<Effect>): set<Path> {
    if trace == [] then files
    else
      var before := FilesAfter(files, trace[..|trace| - 1]);
      match trace[|trace| - 1]
      case Write(p) => before + {p}
      case Delete(p) => before - {p}
      case _ => before
  }

  /** Running two traces one after the other is running their concatenation. */
  lemma {:induction false} FilesAfterAppend(files: set<Path>, t1: seq<Effect>, t2: seq<Effect>)
    ensures FilesAfter(files, t1 + t2) == FilesAfter(FilesAfter(files, t1), t2)
    decreases |t2|
  {
    if t2 != [] {
      assert (t1 + t2)[..|t1 + t2| - 1] == t1 + t2[..|t2| - 1];
      FilesAfterAppend(files, t1, t2[..|t2| - 1]);
    } else {
      assert t1 + t2 == t1;
    }
  }

  /** A path that a trace neither writes nor deletes exists afterwards exactly
      when it existed before. */
  lemma {:induction false} FilesAfterUntouched(files: set<Path>, trace: seq<Effect>, p: Path)
    requires Write(p) !in trace && Delete(p) !in trace
    ensures p in FilesAfter(files, trace) <==> p in files
  {
    if trace != [] {
      var init := trace[..|trace| - 1];
      assert forall e :: e in init ==> e in trace;
      FilesAfterUntouched(files, init, p);
    }
  }

  /** The index of the first candidate that exists, or the number of
      candidates when none does: the choice a first-match lookup makes. */
  function FirstExistingAt(candidates: seq<Path>, files: set<Path>): (k: nat)
    ensures k <= |candidates|
    ensures forall j :: 0 <= j < k ==> candidates[j] !in files
    ensures k < |candidates| ==> candidates[k] in files
  {
    if candidates == [] then 0
    else if candidates[0] in files then 0
    else 1 + FirstExistingAt(candidates[1..], files)
  }

  function Probes(paths: seq<Path>): (t: seq<Effect>)
    ensures |t| == |paths|
    ensures forall j :: 0 <= j < |paths| ==> t[j] == Probe(paths[j])
    ensures forall e :: e in t ==> e.Probe?
  {
    if paths == [] then [] else [Probe(paths[0])] + Probes(paths[1..])
  }

  /** Probing one more path adds one probe at the end. */
  lemma {:induction false} ProbesSnoc(paths: seq<Path>, p: Path)
    ensures Probes(paths + [p]) == Probes(paths) + [Probe(p)]
  {
    if paths != [] {
      assert (paths + [p])[1..] == paths[1..] + [p];
      ProbesSnoc(paths[1..], p);
    }
  }

  /** The existence checks a first-match lookup makes: every candidate up to
      and including the first that exists. */
  function SearchProbes(candidates: seq<Path>, files: set<Path>): (t: seq<Effect>)
    ensures forall e :: e in t ==> e.Probe?
  {
    var k := FirstExistingAt(candidates, files);
    Probes(candidates[..if k < |candidates| then k + 1 else k])
  }
}
