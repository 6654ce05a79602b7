/** The deployment run (cmd/root.go): the stages in their fixed order over one
    shared state holding the ServerFailed and ScriptsFailed flags, the file
    handler and the password policies. What a run does that can be observed is
    recorded as a trace of events: the lines it logs, the log checkpoints, the
    commands it runs and its calls into collaborators whose code is not part of
    this model. */
module Root {

  import opened Wrappers
  import opened Text
  import opened Commands
  import Logs
  import Config
  import Policies
  import Packages
  import FileHandling
  import Firewall
  import Dmg
  import Utils

  const ProjectName: string := "macos-deployment"
  const DistDirectory: string := "dist"
  const ZipFile: string := "deploy.zip"

  /** What is posted to the server: the FileVault key or the log file. */
  datatype Payload = KeyPayload(key: string, serialTag: string) | LogPayload(logFileName: string, body: string)

  datatype Response = Response(status: string, content: string)

  /** A Go `(bool, error)` pair, whose boolean is read whatever the error. */
  datatype StatusReply = StatusReply(status: bool, err: Error)

  /** The collaborators whose code is not part of this model, as oracles: sudo
      initialisation, the account maker, the FileVault object (its status
      before the FileVault stage and after it), the HTTP client, the search
      directory walks, the listings of the distribution directory per file
      pattern, the machine architecture, the working directory and its listing. */
  datatype Env = Env(
    shell: Shell,
    initializeSudo: Error,
    createAccount: (Config.User, bool) -> Result<string>,
    addSecureToken: (string, string) -> Error,
    deleteAccount: string -> Error,
    fileVaultBefore: StatusReply,
    fileVaultAfter: StatusReply,
    enableFileVault: (string, string) -> string,
    verifyConnection: string -> Result<bool>,
    postData: (string, Payload) -> Result<Response>,
    getFiles: string -> Result<seq<string>>,
    walk: string -> Result<seq<string>>,
    goarch: string,
    workingDirectory: Result<string>,
    listing: string -> Result<seq<Utils.DirEntry>>)

  /** The configuration file and the command-line flags. */
  datatype Settings = Settings(
    accounts: map<string, Config.User>,
    admin: Config.User,
    packages: Packages.PackageMap,
    policy: Policies.PolicySettings,
    serverHost: string,
    fileVault: bool,
    firewall: bool,
    searchDirectories: seq<string>,
    preScripts: seq<string>,
    interScripts: seq<string>,
    postScripts: seq<string>,
    adminStatus: bool,
    removeFiles: bool,
    noSend: bool,
    mount: bool,
    includePackages: seq<string>,
    excludePackages: seq<string>,
    plistPath: string,
    serialTag: string,
    logFileName: string)

  /** What the run logs, one constructor per message of cmd/root.go; `MessageText`
      gives the line as written into the buffer. */
  datatype Message =
    | SudoFailed(err: string)
    | NoAccounts
    | MakeUserFailed(err: string)
    | TokenFailed
    | RemovalFailed(err: string)
    | PolicyString(policy: string, user: string)
    | PlistPath(path: string, user: string)
    | PolicyFailed(user: string, err: string)
    | ChangeOnLoginUnset
    | ChangeOnLoginHint(user: string)
    | PolicyApplied(out: string)
    | PathMissing(dir: string)
    | FileAmount(count: nat, dirs: seq<string>)
    | NoSearchFiles
    | SearchingImages
    | SearchFailed(err: string)
    | RosettaFailed(err: string)
    | SearchingPackages
    | PackageSearchFailed(dir: string, err: string)
    | NoPackages
    | ScriptSearchFailed(err: string)
    | PhaseScripts(phase: string, names: seq<string>)
    | ScriptFailed(err: string, out: string)
    | ScriptOutput(out: string)
    | FileVaultCheckFailed(err: string)
    | FirewallScriptFailed(err: string)
    | FirewallStatus(on: bool)
    | FirewallFailed(err: string)
    | FirewallAlreadyOn
    | HostUnreachable(err: string)
    | PayloadRejected
    | PayloadSent
    | NoConnection
    | SendingKey
    | SendFailed(err: string)
    | FileVaultRecheckFailed(err: string)
    | KeyNotGenerated
    | SendingLogFile

  /** What fmt appends to a format with no verb given one extra operand. */
  const ExtraOperand: string := "%!(EXTRA int=3)"

  /** The text of a message, with its operands formatted in. */
  function MessageText(m: Message): string
  {
    match m
    case SudoFailed(err) => "Failed to authenticate sudo: " + err
    case NoAccounts => "No account information given in YAML file"
    case MakeUserFailed(err) => "Error making user: " + err
    case TokenFailed => "Failed to add user to secure token, manual interaction needed"
    case RemovalFailed(err) => "Failed to run user removal command, manual deletion needed: " + err
    case PolicyString(policy, user) => "Policy string: " + policy + " | User: " + user
    case PlistPath(path, user) => "plist path: " + path + " | User: " + user
    case PolicyFailed(user, err) => "Failed to add policy to user " + user + ": " + err
    case ChangeOnLoginUnset =>
      "Successfully applied policy, but \"change_on_login\" in the YAML was not set to true"
    case ChangeOnLoginHint(user) =>
      "Run the command sudo pwpolicy -u '" + user + "' -setpolicy 'newPasswordRequired=1' for the policies to apply"
    case PolicyApplied(out) => "Successfully applied policy: " + out
    case PathMissing(dir) => "Path " + dir + " does not exist, skipping path"
    case FileAmount(count, dirs) => "File amount: " + Decimal(count) + " | Directories: " + ListText(dirs)
    case NoSearchFiles => "No files found with search directories, all packages will be installed with no checks"
    case SearchingImages => "Searching for DMG files"
    case SearchFailed(err) => "Failed to search directory: " + err
    case RosettaFailed(err) => "Failed to install Rosetta: " + err
    case SearchingPackages => "Searching for packages"
    case PackageSearchFailed(dir, err) => "Issue occurred with searching directory " + dir + ": " + err
    case NoPackages => "No packages found"
    case ScriptSearchFailed(err) => "Failed to find script files: " + err
    case PhaseScripts(phase, names) => phase + " script files: " + ListText(names)
    case ScriptFailed(err, out) => err + ", output: " + out
    case ScriptOutput(out) => "Output: " + out
    case FileVaultCheckFailed(err) => "Failed to check FileVault status: " + err
    case FirewallScriptFailed(err) => TrimSpace("Failed to execute Firewall script | " + err) + ExtraOperand
    case FirewallStatus(on) => "Firewall status: " + BoolText(on)
    case FirewallFailed(err) => err
    case FirewallAlreadyOn => "Firewall is already enabled"
    case HostUnreachable(err) => "Error reaching host: " + err
    case PayloadRejected => "Failed to send payload to server"
    case PayloadSent => "Successfully sent file to server"
    case NoConnection => "Unable to connect to host, manual interactions needed"
    case SendingKey => "Sending FileVault key to the server"
    case SendFailed(err) => "Failed to send to data to server: " + err
    case FileVaultRecheckFailed(err) => "Failed to check FileVault status " + err
    case KeyNotGenerated => "FileVault key failed to generate."
    case SendingLogFile => "Sending log file to the server"
  }

  datatype Event =
    | Logged(level: Logs.Level, msg: Message)
      /** `log.WriteFile()`: the whole buffer goes to disk */
    | Checkpoint
    | Ran(cmd: Command)
    | InitializeSudo
      /** `CreateAccount` on the configured account under this key */
    | CreateAccount(key: string)
    | AddSecureToken(account: string)
    | DeleteAccount(account: string)
    | CheckFileVault
    | FileVaultEnable(adminUser: string)
    | CopyApplications(apps: seq<string>)
    | VerifyConnection(host: string)
    | Post(url: string, payload: Payload)
      /** the two-argument `utils.RemoveFiles` on the working directory's listing */
    | RemoveFiles(filesToRemove: set<string>, files: seq<Utils.DirEntry>)

  function BoolText(b: bool): string
  {
    if b then "true" else "false"
  }

  /** `%v` of a string slice. */
  function ListText(xs: seq<string>): string
  {
    "[" + Join(xs, " ") + "]"
  }

  /** The commands, in order, as events. */
  function Rans(cmds: seq<Command>): (r: seq<Event>)
    ensures |r| == |cmds|
    ensures forall k :: 0 <= k < |r| ==> r[k] == Ran(cmds[k])
    ensures forall e :: e in r ==> e.Ran?
  {
    if cmds == [] then [] else [Ran(cmds[0])] + Rans(cmds[1..])
  }

  /** Appending in two steps is appending the two parts at once. */
  lemma Regroup(a: seq<Event>, b: seq<Event>, c: seq<Event>)
    ensures a + b + c == a + (b + c)
  {
  }

  /** The entries the log buffer holds after these events. */
  function LoggedOf(events: seq<Event>): seq<Logs.Entry>
  {
    if events == [] then []
    else
      LoggedOf(events[..|events| - 1])
      + if Last(events).Logged? then [Logs.Entry(Last(events).level, MessageText(Last(events).msg))] else []
  }

  lemma {:induction false} LoggedOfNone(events: seq<Event>)
    requires forall e :: e in events ==> !e.Logged?
    ensures LoggedOf(events) == []
  {
    if events != [] {
      assert events[|events| - 1] in events;
      LoggedOfNone(events[..|events| - 1]);
    }
  }

  lemma {:induction false} LoggedOfAppend(a: seq<Event>, b: seq<Event>)
    ensures LoggedOf(a + b) == LoggedOf(a) + LoggedOf(b)
  {
    if b == [] {
      assert a + b == a;
    } else {
      assert (a + b)[..|a + b| - 1] == a + b[..|b| - 1];
      LoggedOfAppend(a, b[..|b| - 1]);
    }
  }

  /** Every checkpoint writes a buffer that starts with what any earlier
      checkpoint wrote: the buffer only grows. */
  lemma CheckpointsNest(t: seq<Event>, i: int, j: int)
    requires 0 <= i < j < |t| && t[i] == Checkpoint && t[j] == Checkpoint
    ensures IsPrefix(Logs.Render(LoggedOf(t[..i])), Logs.Render(LoggedOf(t[..j])))
  {
    assert t[..j] == t[..i] + t[i..j];
    LoggedOfAppend(t[..i], t[i..j]);
    Logs.RenderPrefix(LoggedOf(t[..i]), LoggedOf(t[..j]));
  }

  /** Nothing is posted to the server. */
  predicate NoPosts(events: seq<Event>)
  {
    forall e :: e in events ==> !e.Post?
  }

  /** A post-free step appended to a post-free prefix. */
  lemma Grow(start: seq<Event>, done: seq<Event>, step: seq<Event>)
    requires NoPosts(done) && NoPosts(step)
    ensures start + done + step == start + (done + step)
    ensures NoPosts(done + step)
  {
  }

  lemma RansPostNothing(cmds: seq<Command>)
    ensures NoPosts(Rans(cmds))
  {
    forall e | e in Rans(cmds)
      ensures !e.Post?
    {
      var k :| 0 <= k < |Rans(cmds)| && Rans(cmds)[k] == e;
    }
  }

  /** A directory search in the distribution directory: handler.ReadDir on the walk. */
  function Listing(env: Env, pattern: string): Result<seq<string>>
  {
    match env.walk(pattern)
    case Failure(msg) => Failure(msg)
    case Ok(walked) => Ok(FileHandling.WalkMatches(DistDirectory, pattern, walked))
  }

  function SudoEvents(env: Env): seq<Event>
  {
    [InitializeSudo]
    + match env.initializeSudo
      case Nil => []
      case Err(msg) => [Logged(Logs.Warn, SudoFailed(msg))]
  }

  // ---------------------------------------------------------------- password policies

  /** The string BuildCommand returns when called on these settings. */
  function PolicyCommand(p: Policies.PolicySettings): string
  {
    Join(Policies.PolicyTokens(p), " ")
  }

  /** The pwpolicy call applyPasswordPolicy makes: a configured plist replaces the policy string. */
  function PolicyRunCommand(s: Settings, policyString: string, username: string): Command
  {
    if s.plistPath != "" then Policies.SetPolicyPlistCommand(s.plistPath, username)
    else Policies.SetPolicyCommand(policyString, username)
  }

  /** applyPasswordPolicy. */
  function PolicyEvents(s: Settings, policyString: string, username: string, shell: Shell): seq<Event>
  {
    var usePlist := s.plistPath != "";
    var cmd := PolicyRunCommand(s, policyString, username);
    var r := if usePlist then Policies.SetPolicyPlist(s.plistPath, username, shell)
             else Policies.SetPolicy(policyString, username, shell);
    var debug := if usePlist then PlistPath(s.plistPath, username) else PolicyString(policyString, username);
    [Logged(Logs.Debug, debug), Ran(cmd)] + PolicyOutcome(s, username, r)
  }

  /** What applyPasswordPolicy logs once pwpolicy has returned: one warning
      for its failure, else the change-on-login warnings or the output. */
  function PolicyOutcome(s: Settings, username: string, r: Result<string>): (r': seq<Event>)
    ensures 1 <= |r'| <= 2 && forall k :: 0 <= k < |r'| ==> r'[k].Logged?
    ensures r.Failure? ==> r' == [Logged(Logs.Warn, PolicyFailed(username, r.msg))]
    ensures r.Ok? ==> |r'| == 2 || r'[0].level == Logs.Info
  {
    match r
    case Failure(msg) => [Logged(Logs.Warn, PolicyFailed(username, msg))]
    case Ok(out) =>
      if !s.policy.changeOnLogin then
        [Logged(Logs.Warn, ChangeOnLoginUnset), Logged(Logs.Warn, ChangeOnLoginHint(username))]
      else [Logged(Logs.Info, PolicyApplied(out))]
  }

  /** Exactly one pwpolicy command runs; its failure is one warning naming the
      user and its error, and nothing more. */
  lemma PolicyTargetsUser(s: Settings, policyString: string, username: string, shell: Shell)
    ensures var e := PolicyEvents(s, policyString, username, shell);
      var cmd := PolicyRunCommand(s, policyString, username);
      3 <= |e| <= 4 && e[1] == Ran(cmd) && (forall k :: 0 <= k < |e| && k != 1 ==> e[k].Logged?)
      && (!shell(cmd).ok <==> e[2..] == [Logged(Logs.Warn, PolicyFailed(username, shell(cmd).err))])
  {
    var cmd := PolicyRunCommand(s, policyString, username);
    var r := PolicyResult(s, policyString, username, shell);
    var debug := if s.plistPath != "" then PlistPath(s.plistPath, username) else PolicyString(policyString, username);
    var tail := PolicyOutcome(s, username, r);
    var e := PolicyEvents(s, policyString, username, shell);
    assert e == [Logged(Logs.Debug, debug), Ran(cmd)] + tail;
  }

  /** applyPasswordPolicy's debug line, command and result, followed by what it logs about the result. */
  lemma PolicyHead(s: Settings, policyString: string, username: string, shell: Shell, head: seq<Event>, r: Result<string>)
    requires s.plistPath == "" ==> head == [Logged(Logs.Debug, PolicyString(policyString, username)),
      Ran(Policies.SetPolicyCommand(policyString, username))] && r == Policies.SetPolicy(policyString, username, shell)
    requires s.plistPath != "" ==> head == [Logged(Logs.Debug, PlistPath(s.plistPath, username)),
      Ran(Policies.SetPolicyPlistCommand(s.plistPath, username))] && r == Policies.SetPolicyPlist(s.plistPath, username, shell)
    ensures PolicyEvents(s, policyString, username, shell) == head + PolicyOutcome(s, username, r)
  {
  }

  /** The pwpolicy command for the user: the plist one exactly when a plist is configured. */
  lemma PolicyCommandFor(s: Settings, policyString: string, username: string)
    ensures PolicyRunCommand(s, policyString, username)
      == if s.plistPath == "" then Bash("sudo pwpolicy -u '" + username + "' -setpolicy '" + policyString + "'")
         else Bash("sudo pwpolicy -u '" + username + "' -setaccountpolicies '" + s.plistPath + "'")
  {
  }

  /** The pwpolicy result applyPasswordPolicy acts on: it fails exactly when its command does. */
  lemma PolicyResult(s: Settings, policyString: string, username: string, shell: Shell) returns (r: Result<string>)
    ensures r == if s.plistPath != "" then Policies.SetPolicyPlist(s.plistPath, username, shell)
                 else Policies.SetPolicy(policyString, username, shell)
    ensures r.Failure? <==> !shell(PolicyRunCommand(s, policyString, username)).ok
    ensures r.Failure? ==> r.msg == shell(PolicyRunCommand(s, policyString, username)).err
  {
    r := if s.plistPath != "" then Policies.SetPolicyPlist(s.plistPath, username, shell)
         else Policies.SetPolicy(policyString, username, shell);
  }

  // ---------------------------------------------------------------- account creation


  /** What one account contributes: the create call; for an error, its log
      line unless it mentions "skipped"; otherwise the secure token, and on its
      failure one deletion, after which the policy step still runs unless the
      deletion failed. */
  function AccountEvents(s: Settings, env: Env, key: string, policyString: string): seq<Event>
    requires key in s.accounts
  {
    var acc := s.accounts[key];
    match env.createAccount(acc, s.adminStatus)
    case Failure(msg) =>
      if Contains(msg, "skipped") then [CreateAccount(key)]
      else [CreateAccount(key), Logged(Logs.Error, MakeUserFailed(msg))]
    case Ok(name) =>
      var policy := if acc.applyPolicy then PolicyEvents(s, policyString, name, env.shell) else [];
      if env.addSecureToken(name, acc.password) == Nil then [CreateAccount(key), AddSecureToken(name)] + policy
      else
        match env.deleteAccount(name)
        case Nil => [CreateAccount(key), AddSecureToken(name), Logged(Logs.Error, TokenFailed), DeleteAccount(name)] + policy
        case Err(msg) =>
          [CreateAccount(key), AddSecureToken(name), Logged(Logs.Error, TokenFailed), DeleteAccount(name),
           Logged(Logs.Error, RemovalFailed(msg))]
  }

  /** A range over a map: every key once, in an order the runtime picks. */
  method MapOrder(keys: set<string>) returns (order: seq<string>)
    ensures forall k :: k in order <==> k in keys
    ensures forall i, j :: 0 <= i < j < |order| ==> order[i] != order[j]
  {
    var pending := keys;
    order := [];
    while pending != {}
      invariant pending <= keys
      invariant forall k :: k in order <==> k in keys && k !in pending
      invariant forall i, j :: 0 <= i < j < |order| ==> order[i] != order[j]
      decreases pending
    {
      var key :| key in pending;
      order := order + [key];
      pending := pending - {key};
    }
  }

  /** The account reaches its policy step: it was created, its token was
      granted or its deletion succeeded, and it asks for the policy. */
  predicate AppliesPolicy(s: Settings, env: Env, key: string)
    requires key in s.accounts
  {
    var acc := s.accounts[key];
    match env.createAccount(acc, s.adminStatus)
    case Failure(_) => false
    case Ok(name) =>
      acc.applyPolicy && (env.addSecureToken(name, acc.password) == Nil || env.deleteAccount(name) == Nil)
  }

  /** The shared policies after the accounts of `order`, starting from `p`:
      every BuildCommand call clamps them. */
  function PolicyAfter(s: Settings, env: Env, order: seq<string>, p: Policies.PolicySettings): Policies.PolicySettings
    requires forall k :: 0 <= k < |order| ==> order[k] in s.accounts
  {
    if order == [] then p
    else
      var q := PolicyAfter(s, env, order[..|order| - 1], p);
      if AppliesPolicy(s, env, Last(order)) then Policies.Clamped(q) else q
  }

  /** The policies are clamped exactly when some account reached its policy
      step, so every policy step after the first sees the clamped settings. */
  lemma {:induction false} PolicyAfterIff(s: Settings, env: Env, order: seq<string>, p: Policies.PolicySettings)
    requires forall k :: 0 <= k < |order| ==> order[k] in s.accounts
    ensures PolicyAfter(s, env, order, p)
      == if exists k :: 0 <= k < |order| && AppliesPolicy(s, env, order[k]) then Policies.Clamped(p) else p
  {
    if order != [] {
      var front := order[..|order| - 1];
      PolicyAfterIff(s, env, front, p);
      Policies.CorrectedStable(p);
      if exists k :: 0 <= k < |front| && AppliesPolicy(s, env, front[k]) {
        var k :| 0 <= k < |front| && AppliesPolicy(s, env, front[k]);
        assert order[k] == front[k];
      }
      if exists k :: 0 <= k < |order| && AppliesPolicy(s, env, order[k]) {
        var k :| 0 <= k < |order| && AppliesPolicy(s, env, order[k]);
        if k < |front| {
          assert front[k] == order[k];
        }
      }
    }
  }

  /** The accounts in the order the loop visited them; each policy step uses
      the string BuildCommand returns on the policies as the earlier accounts
      left them. */
  function AccountsEvents(s: Settings, env: Env, order: seq<string>, p: Policies.PolicySettings): seq<Event>
    requires forall k :: 0 <= k < |order| ==> order[k] in s.accounts
  {
    if order == [] then []
    else
      var front := order[..|order| - 1];
      AccountsEvents(s, env, front, p) + AccountEvents(s, env, Last(order), PolicyCommand(PolicyAfter(s, env, front, p)))
  }

  lemma AccountsEventsSnoc(s: Settings, env: Env, order: seq<string>, key: string, p: Policies.PolicySettings)
    requires forall k :: 0 <= k < |order| ==> order[k] in s.accounts
    requires key in s.accounts
    ensures AccountsEvents(s, env, order + [key], p)
      == AccountsEvents(s, env, order, p) + AccountEvents(s, env, key, PolicyCommand(PolicyAfter(s, env, order, p)))
    ensures PolicyAfter(s, env, order + [key], p)
      == if AppliesPolicy(s, env, key) then Policies.Clamped(PolicyAfter(s, env, order, p)) else PolicyAfter(s, env, order, p)
  {
    assert (order + [key])[..|order|] == order;
  }

  lemma StepAppends(start: seq<Event>, before: seq<Event>, after: seq<Event>, s: Settings, env: Env, order: seq<string>, i: nat,
                    p: Policies.PolicySettings)
    requires forall k :: 0 <= k < |order| ==> order[k] in s.accounts
    requires i < |order|
    requires before == start + AccountsEvents(s, env, order[..i], p)
    requires after == before + AccountEvents(s, env, order[i], PolicyCommand(PolicyAfter(s, env, order[..i], p)))
    ensures after == start + AccountsEvents(s, env, order[..i + 1], p)
    ensures PolicyAfter(s, env, order[..i + 1], p)
      == if AppliesPolicy(s, env, order[i]) then Policies.Clamped(PolicyAfter(s, env, order[..i], p)) else PolicyAfter(s, env, order[..i], p)
  {
    assert order[..i + 1] == order[..i] + [order[i]];
    AccountsEventsSnoc(s, env, order[..i], order[i], p);
    Regroup(start, AccountsEvents(s, env, order[..i], p), AccountEvents(s, env, order[i], PolicyCommand(PolicyAfter(s, env, order[..i], p))));
  }

  function AccountStageEvents(s: Settings, env: Env, order: seq<string>, p: Policies.PolicySettings): seq<Event>
    requires forall k :: 0 <= k < |order| ==> order[k] in s.accounts
  {
    if |s.accounts| < 1 then [Logged(Logs.Warn, NoAccounts)] else AccountsEvents(s, env, order, p)
  }

  /** A creation error mentioning "skipped" leaves nothing but the call itself. */
  lemma SkippedNotLogged(s: Settings, env: Env, key: string, policyString: string)
    requires key in s.accounts
    requires env.createAccount(s.accounts[key], s.adminStatus).Failure?
    ensures var e := AccountEvents(s, env, key, policyString);
      LoggedOf(e) == [] <==> Contains(env.createAccount(s.accounts[key], s.adminStatus).msg, "skipped")
  {
    var e := AccountEvents(s, env, key, policyString);
    assert LoggedOf([CreateAccount(key)]) == [];
    if !Contains(env.createAccount(s.accounts[key], s.adminStatus).msg, "skipped") {
      assert e[..1] == [CreateAccount(key)];
      assert |LoggedOf(e)| == 1;
    }
  }

  /** The policy events never delete an account. */
  lemma PolicyDeletesNothing(s: Settings, policyString: string, username: string, shell: Shell)
    ensures forall e :: e in PolicyEvents(s, policyString, username, shell) ==> !e.DeleteAccount?
  {
    PolicyTargetsUser(s, policyString, username, shell);
  }

  /** A failed secure-token grant deletes that account exactly once; a failed
      deletion stops the account there, a successful one still applies the policy. */
  lemma DeleteOnceOnTokenFailure(s: Settings, env: Env, key: string, policyString: string)
    requires key in s.accounts
    requires env.createAccount(s.accounts[key], s.adminStatus).Ok?
    ensures var name := env.createAccount(s.accounts[key], s.adminStatus).value;
      var e := AccountEvents(s, env, key, policyString);
      var policy := PolicyEvents(s, policyString, name, env.shell);
      (env.addSecureToken(name, s.accounts[key].password) != Nil <==> DeleteAccount(name) in e)
      && (env.addSecureToken(name, s.accounts[key].password) != Nil ==>
            e[..4] == [CreateAccount(key), AddSecureToken(name), Logged(Logs.Error, TokenFailed), DeleteAccount(name)]
            && (forall k :: 4 <= k < |e| ==> !e[k].DeleteAccount?)
            && (env.deleteAccount(name) == Nil && s.accounts[key].applyPolicy ==> e[4..] == policy)
            && (env.deleteAccount(name) != Nil ==> |e| == 5))
  {
    var acc := s.accounts[key];
    var name := env.createAccount(acc, s.adminStatus).value;
    var e := AccountEvents(s, env, key, policyString);
    var p := if acc.applyPolicy then PolicyEvents(s, policyString, name, env.shell) else [];
    PolicyDeletesNothing(s, policyString, name, env.shell);
    assert forall k :: 0 <= k < |p| ==> !p[k].DeleteAccount?;
    if env.addSecureToken(name, acc.password) == Nil {
      TokenGrantedNoDelete(e, [CreateAccount(key), AddSecureToken(name)], p, name);
    } else if env.deleteAccount(name) == Nil {
      DeletedThenRest(e, [CreateAccount(key), AddSecureToken(name), Logged(Logs.Error, TokenFailed), DeleteAccount(name)], p);
    } else {
      assert e[3] == DeleteAccount(name);
    }
  }

  /** Nothing in the events deletes the account when neither part does. */
  lemma TokenGrantedNoDelete(e: seq<Event>, head: seq<Event>, p: seq<Event>, name: string)
    requires e == head + p
    requires forall k :: 0 <= k < |head| ==> !head[k].DeleteAccount?
    requires forall k :: 0 <= k < |p| ==> !p[k].DeleteAccount?
    ensures DeleteAccount(name) !in e
  {
    forall k | 0 <= k < |e|
      ensures !e[k].DeleteAccount?
    {
      if k >= |head| {
        assert e[k] == p[k - |head|];
      }
    }
  }

  /** A four-event head ending in a deletion, then events that delete nothing. */
  lemma DeletedThenRest(e: seq<Event>, head: seq<Event>, p: seq<Event>)
    requires |head| == 4 && head[3].DeleteAccount?
    requires e == head + p
    requires forall k :: 0 <= k < |p| ==> !p[k].DeleteAccount?
    ensures e[..4] == head && e[4..] == p && e[3] == head[3]
    ensures forall k :: 4 <= k < |e| ==> !e[k].DeleteAccount?
  {
    assert e[..4] == head;
    assert e[4..] == p;
    forall k | 4 <= k < |e|
      ensures !e[k].DeleteAccount?
    {
      assert e[k] == p[k - 4];
    }
  }

  /** Every account is visited whatever happened to the ones before it. */
  lemma {:induction false} EveryAccountAttempted(s: Settings, env: Env, order: seq<string>, p: Policies.PolicySettings, k: int)
    requires forall i :: 0 <= i < |order| ==> order[i] in s.accounts
    requires 0 <= k < |order|
    ensures CreateAccount(order[k]) in AccountsEvents(s, env, order, p)
  {
    var front := order[..|order| - 1];
    if k == |order| - 1 {
      assert AccountEvents(s, env, Last(order), PolicyCommand(PolicyAfter(s, env, front, p)))[0] == CreateAccount(order[k]);
    } else {
      assert front[k] == order[k];
      EveryAccountAttempted(s, env, front, p, k);
    }
  }

  // ---------------------------------------------------------------- search directories

  /** The files of every search directory that could be walked, flattened in order. */
  function SearchFiles(dirs: seq<string>, getFiles: string -> Result<seq<string>>): seq<string>
  {
    if dirs == [] then []
    else
      SearchFiles(dirs[..|dirs| - 1], getFiles)
      + match getFiles(Last(dirs)) case Ok(files) => files case Failure(_) => []
  }

  /** One warning per directory that could not be walked. */
  function SearchWarnings(dirs: seq<string>, getFiles: string -> Result<seq<string>>): seq<Event>
  {
    if dirs == [] then []
    else
      SearchWarnings(dirs[..|dirs| - 1], getFiles)
      + if getFiles(Last(dirs)).Failure? then [Logged(Logs.Warn, PathMissing(Last(dirs)))]
        else []
  }

  /** One more directory walked. */
  lemma SearchSnoc(dirs: seq<string>, i: int, getFiles: string -> Result<seq<string>>)
    requires 0 <= i < |dirs|
    ensures SearchFiles(dirs[..i + 1], getFiles) == SearchFiles(dirs[..i], getFiles)
      + match getFiles(dirs[i]) case Ok(files) => files case Failure(_) => []
    ensures SearchWarnings(dirs[..i + 1], getFiles) == SearchWarnings(dirs[..i], getFiles)
      + if getFiles(dirs[i]).Failure? then [Logged(Logs.Warn, PathMissing(dirs[i]))] else []
  {
    assert dirs[..i + 1][..i] == dirs[..i];
  }

  function SearchEvents(s: Settings, env: Env): seq<Event>
  {
    var files := SearchFiles(s.searchDirectories, env.getFiles);
    SearchWarnings(s.searchDirectories, env.getFiles)
    + [Logged(Logs.Debug, FileAmount(|files|, s.searchDirectories))]
    + if files == [] then [Logged(Logs.Warn, NoSearchFiles)] else []
  }

  /** A file is searched iff some directory that could be walked holds it:
      a missing directory is skipped and the rest are still searched. */
  lemma {:induction false} SearchFilesFrom(dirs: seq<string>, getFiles: string -> Result<seq<string>>, x: string)
    ensures x in SearchFiles(dirs, getFiles) <==>
      exists k :: 0 <= k < |dirs| && getFiles(dirs[k]).Ok? && x in getFiles(dirs[k]).value
  {
    if dirs != [] {
      var front := dirs[..|dirs| - 1];
      SearchFilesFrom(front, getFiles, x);
      if x in SearchFiles(dirs, getFiles) && x !in SearchFiles(front, getFiles) {
        assert dirs[|dirs| - 1] == Last(dirs);
      }
      if exists k :: 0 <= k < |dirs| && getFiles(dirs[k]).Ok? && x in getFiles(dirs[k]).value {
        var k :| 0 <= k < |dirs| && getFiles(dirs[k]).Ok? && x in getFiles(dirs[k]).value;
        if k < |front| {
          assert front[k] == dirs[k];
        }
      }
    }
  }

  // ---------------------------------------------------------------- disk images

  /** The mount step: attach every image found, and copy from and detach the
      volumes only when some attach succeeded. */
  function MountEvents(s: Settings, env: Env): seq<Event>
  {
    if !s.mount then []
    else
      [Logged(Logs.Info, SearchingImages)]
      + match Listing(env, ".dmg")
        case Failure(msg) => [Logged(Logs.Error, SearchFailed(msg))]
        case Ok(dmgFiles) =>
          var dmgs := Dmg.DmgPaths(dmgFiles);
          var volumes := Dmg.Mounted(dmgs, env.shell);
          Rans(Dmg.AttachCommands(dmgs))
          + if volumes == [] then []
            else Rans(Dmg.CopyCommands(volumes, DistDirectory)) + Rans(Dmg.DetachCommands(volumes))
  }

  // ---------------------------------------------------------------- packages

  /** The package map after the include and exclude flags, the exclusion as
      FileHandler.RemovePackages does it. */
  function Desired(m: Packages.PackageMap, s: Settings): Packages.PackageMap
  {
    FileHandling.RemovedAsWritten(Packages.Added(m, LowerAll(s.includePackages)), s.excludePackages)
  }

  predicate RosettaFails(env: Env)
  {
    env.goarch != "amd64" && env.shell(Packages.RosettaCheck).output == ""
    && !env.shell(Packages.RosettaInstall).ok
  }

  /** startPackageInstallation on the map `m` the include and exclude flags
      left, installing in the visit order `order`. */
  function PackageEvents(s: Settings, env: Env, m: Packages.PackageMap, order: seq<string>, search: seq<string>)
    : seq<Event>
    requires forall k :: 0 <= k < |order| ==> order[k] in m
  {
    Rans(Packages.RosettaRan(env.goarch, env.shell))
    + if RosettaFails(env) then [Logged(Logs.Error, RosettaFailed("rosetta failed to install"))]
      else FoundEvents(env, m, order, search)
  }

  /** The package search and the installs, once Rosetta is in place. */
  function FoundEvents(env: Env, m: Packages.PackageMap, order: seq<string>, search: seq<string>): seq<Event>
    requires forall k :: 0 <= k < |order| ==> order[k] in m
  {
    match Listing(env, ".pkg")
    case Failure(msg) =>
      [Logged(Logs.Info, SearchingPackages), Logged(Logs.Error, PackageSearchFailed(DistDirectory, msg))]
    case Ok(files) =>
      if files == [] then [Logged(Logs.Info, SearchingPackages), Logged(Logs.Warn, NoPackages)]
      else [Logged(Logs.Info, SearchingPackages)] + Rans(FileHandling.Attempts(m, order, files, search))
  }

  /** The Rosetta check and install are not package installers. */
  lemma InstallerIsNotRosetta(path: string)
    ensures Packages.Installer(path) != Packages.RosettaCheck
    ensures Packages.Installer(path) != Packages.RosettaInstall
  {
    var c := Packages.Installer(path).line;
    assert c[0] == 'i';
    assert Packages.RosettaCheck.line[0] == 'p';
  }

  /** A failed Rosetta install, or an empty package listing, runs no installer. */
  lemma NoInstallWithoutRosettaOrPackages(s: Settings, env: Env, m: Packages.PackageMap, order: seq<string>,
                                          search: seq<string>, path: string)
    requires forall k :: 0 <= k < |order| ==> order[k] in m
    requires RosettaFails(env) || Listing(env, ".pkg") == Ok([]) || Listing(env, ".pkg").Failure?
    ensures Ran(Packages.Installer(path)) !in PackageEvents(s, env, m, order, search)
  {
    InstallerIsNotRosetta(path);
  }

  /** Over lower-case keys, a package stays in the map installed from exactly
      when it is in the map or included and no exclude name equals it as
      written: an exclude name with an upper-case letter excludes nothing. */
  lemma ExcludedNotInstalled(m: Packages.PackageMap, s: Settings, x: string)
    requires forall p :: p in m ==> IsLower(p)
    ensures x in Desired(m, s) <==> x in Packages.Added(m, LowerAll(s.includePackages)) && x !in s.excludePackages
  {
    var added := Packages.Added(m, LowerAll(s.includePackages));
    FileHandling.AddedLowerKeys(m, s.includePackages);
    FileHandling.RemovedAsWrittenIsExact(added, s.excludePackages);
    if x in s.excludePackages {
      var k :| 0 <= k < |s.excludePackages| && s.excludePackages[k] == x;
    }
  }

  function AppEvents(env: Env): seq<Event>
  {
    match Listing(env, ".app")
    case Failure(msg) => [Logged(Logs.Error, SearchFailed(msg))]
    case Ok(apps) => if apps == [] then [] else [CopyApplications(apps)]
  }

  // ---------------------------------------------------------------- scripts

  /** The commands ExecuteScript runs for a name against the cache: the cached
      path on a hit, otherwise the first path containing the key. */
  function ScriptLookup(cache: map<string, string>, name: string, paths: seq<string>): (r: seq<Command>)
    ensures |r| <= 1
  {
    var key := FileHandling.ScriptKey(name);
    if key in cache then [Bash(cache[key])]
    else match Packages.FirstMatch(paths, key)
      case None => []
      case Some(i) => [Bash(paths[i])]
  }

  /** ExecuteScript's three outcomes are the lookup and the cache above. */
  lemma ScriptLookupRan(cache: map<string, string>, name: string, paths: seq<string>,
                        cache': map<string, string>, ran: seq<Command>)
    requires var key := FileHandling.ScriptKey(name);
      && (key in cache ==> cache' == cache && ran == [Bash(cache[key])])
      && (key !in cache && Packages.FirstMatch(paths, key).Some? ==>
            var i := Packages.FirstMatch(paths, key).value;
            cache' == FileHandling.CacheAfter(cache, paths[..i]) && ran == [Bash(paths[i])])
      && (key !in cache && Packages.FirstMatch(paths, key).None? ==>
            cache' == FileHandling.CacheAfter(cache, paths) && ran == [])
    ensures ran == ScriptLookup(cache, name, paths)
    ensures cache' == CacheAfterScript(cache, name, paths)
  {
  }

  /** The cache after ExecuteScript for a name. */
  function CacheAfterScript(cache: map<string, string>, name: string, paths: seq<string>): map<string, string>
  {
    var key := FileHandling.ScriptKey(name);
    if key in cache then cache
    else match Packages.FirstMatch(paths, key)
      case None => FileHandling.CacheAfter(cache, paths)
      case Some(i) => FileHandling.CacheAfter(cache, paths[..i])
  }

  /** The line executeScripts logs for one script: its error and output, or its output. */
  function ScriptLine(ran: seq<Command>, shell: Shell): Event
  {
    var out := if ran == [] then "" else TrimSpace(shell(ran[0]).output);
    var err := if ran == [] then Err("failed to find script") else ErrorOf(shell(ran[0]));
    match err
    case Err(msg) => Logged(Logs.Error, ScriptFailed(msg, out))
    case Nil => Logged(Logs.Info, ScriptOutput(out))
  }

  /** The line for what ExecuteScript returned. */
  lemma ScriptLineOf(ran: seq<Command>, shell: Shell, out: string, err: Error, line: Event)
    requires ran == [] ==> out == "" && err == Err("failed to find script")
    requires ran != [] ==> out == TrimSpace(shell(ran[0]).output) && err == ErrorOf(shell(ran[0]))
    requires line == if err.Err? then Logged(Logs.Error, ScriptFailed(err.msg, out)) else Logged(Logs.Info, ScriptOutput(out))
    ensures line == ScriptLine(ran, shell)
  {
  }

  /** One name of executeScripts: a blank name is skipped and leaves the cache alone. */
  function NameCache(cache: map<string, string>, name: string, paths: seq<string>): map<string, string>
  {
    if name == "" then cache else CacheAfterScript(cache, name, paths)
  }

  /** The events of one name: nothing for a blank name, otherwise its lookup
      and one log line. */
  function NameEvents(cache: map<string, string>, name: string, paths: seq<string>, shell: Shell): seq<Event>
  {
    if name == "" then []
    else
      var ran := ScriptLookup(cache, name, paths);
      Rans(ran) + [ScriptLine(ran, shell)]
  }

  function CacheAfterScripts(cache: map<string, string>, names: seq<string>, paths: seq<string>)
    : map<string, string>
  {
    if names == [] then cache
    else NameCache(CacheAfterScripts(cache, names[..|names| - 1], paths), Last(names), paths)
  }

  /** executeScripts: every name gets its events whatever the earlier scripts did. */
  function ScriptsEvents(cache: map<string, string>, names: seq<string>, paths: seq<string>, shell: Shell)
    : seq<Event>
  {
    if names == [] then []
    else
      var front := names[..|names| - 1];
      ScriptsEvents(cache, front, paths, shell) + NameEvents(CacheAfterScripts(cache, front, paths), Last(names), paths, shell)
  }

  /** The scripts of `names[..i + 1]` are those of `names[..i]` and then `names[i]`. */
  lemma ScriptsSnoc(start: seq<Event>, before: seq<Event>, after: seq<Event>, cache: map<string, string>,
                    names: seq<string>, i: nat, paths: seq<string>, shell: Shell)
    requires i < |names|
    requires before == start + ScriptsEvents(cache, names[..i], paths, shell)
    requires after == before + NameEvents(CacheAfterScripts(cache, names[..i], paths), names[i], paths, shell)
    ensures after == start + ScriptsEvents(cache, names[..i + 1], paths, shell)
    ensures CacheAfterScripts(cache, names[..i + 1], paths)
      == NameCache(CacheAfterScripts(cache, names[..i], paths), names[i], paths)
  {
    assert names[..i + 1][..i] == names[..i];
    Regroup(start, ScriptsEvents(cache, names[..i], paths, shell),
            NameEvents(CacheAfterScripts(cache, names[..i], paths), names[i], paths, shell));
  }

  /** A script phase runs only for a non-empty list while scripts were found. */
  function PhaseEvents(phase: string, names: seq<string>, scriptsFailed: bool, cache: map<string, string>,
                       paths: seq<string>, shell: Shell): seq<Event>
  {
    if |names| > 0 && !scriptsFailed then
      [Logged(Logs.Debug, PhaseScripts(phase, names))] + ScriptsEvents(cache, names, paths, shell)
    else []
  }

  function NonBlank(names: seq<string>): nat
  {
    if names == [] then 0 else NonBlank(names[..|names| - 1]) + if Last(names) == "" then 0 else 1
  }

  /** A non-blank name logs one line after at most one run; a blank one nothing. */
  lemma NameEventsCount(cache: map<string, string>, name: string, paths: seq<string>, shell: Shell)
    ensures |LoggedOf(NameEvents(cache, name, paths, shell))| == if name == "" then 0 else 1
    ensures |NameEvents(cache, name, paths, shell)| <= if name == "" then 0 else 2
  {
    if name != "" {
      var ran := ScriptLookup(cache, name, paths);
      var line := ScriptLine(ran, shell);
      assert line.Logged?;
      LoggedOfAppend(Rans(ran), [line]);
      assert LoggedOf([line]) == LoggedOf([]) + [Logs.Entry(line.level, MessageText(line.msg))];
      LoggedOfNone(Rans(ran));
    }
  }

  /** One log line per non-blank name, and at most one script run each. */
  lemma {:induction false} OneLinePerScript(cache: map<string, string>, names: seq<string>, paths: seq<string>,
                                            shell: Shell)
    ensures |LoggedOf(ScriptsEvents(cache, names, paths, shell))| == NonBlank(names)
    ensures |ScriptsEvents(cache, names, paths, shell)| <= 2 * NonBlank(names)
  {
    if names != [] {
      var front := names[..|names| - 1];
      OneLinePerScript(cache, front, paths, shell);
      var c := CacheAfterScripts(cache, front, paths);
      LoggedOfAppend(ScriptsEvents(cache, front, paths, shell), NameEvents(c, Last(names), paths, shell));
      NameEventsCount(c, Last(names), paths, shell);
    }
  }

  // ---------------------------------------------------------------- FileVault and firewall

  function FileVaultEvents(s: Settings, env: Env): seq<Event>
  {
    [CheckFileVault]
    + (match env.fileVaultBefore.err
       case Nil => []
       case Err(msg) => [Logged(Logs.Warn, FileVaultCheckFailed(msg))])
    + if !env.fileVaultBefore.status then [FileVaultEnable(s.admin.userName)] else []
  }

  /** The key startFileVault returns: the enable result, or "" when it was already on. */
  function FileVaultKey(s: Settings, env: Env): string
  {
    if !env.fileVaultBefore.status then env.enableFileVault(s.admin.userName, s.admin.password) else ""
  }

  /** FileVault is enabled iff its status reads false, even when the status check failed. */
  lemma FileVaultEnabledIff(s: Settings, env: Env)
    ensures FileVaultEnable(s.admin.userName) in FileVaultEvents(s, env) <==> !env.fileVaultBefore.status
    ensures env.fileVaultBefore.status ==> FileVaultKey(s, env) == ""
  {
  }

  /** What fmt appends to a format with no verb given one extra operand. */

  function FirewallOn(shell: Shell): bool
  {
    var st := Firewall.Status(shell);
    st.Ok? && st.value
  }

  function FirewallEvents(shell: Shell): seq<Event>
  {
    var on := FirewallOn(shell);
    [Ran(Firewall.StatusCommand)]
    + (match Firewall.Status(shell)
       case Failure(msg) =>
         [Logged(Logs.Error, FirewallScriptFailed(msg))]
       case Ok(_) => [])
    + [Logged(Logs.Debug, FirewallStatus(on))]
    + if !on then
        [Ran(Firewall.EnableCommand)]
        + match Firewall.Enable(shell) case Nil => [] case Err(msg) => [Logged(Logs.Error, FirewallFailed(msg))]
      else [Logged(Logs.Info, FirewallAlreadyOn)]
  }

  /** The firewall is enabled iff its status is not "enabled", including when the check failed. */
  lemma FirewallEnabledIff(shell: Shell)
    ensures Ran(Firewall.EnableCommand) in FirewallEvents(shell) <==>
      !(shell(Firewall.StatusCommand).ok && Contains(Lower(shell(Firewall.StatusCommand).output), "enabled"))
  {
    assert Firewall.StatusCommand != Firewall.EnableCommand;
  }

  // ---------------------------------------------------------------- requests

  /** startRequest: the POST happens only after the connection check said
      yes, and only a status containing "success" counts as sent. */
  function RequestEvents(s: Settings, env: Env, payload: Payload, endpoint: string): seq<Event>
  {
    var host := s.serverHost + endpoint;
    [VerifyConnection(s.serverHost)]
    + match env.verifyConnection(s.serverHost)
      case Failure(msg) => [Logged(Logs.Error, HostUnreachable(msg))]
      case Ok(up) =>
        if !up then [Logged(Logs.Warn, NoConnection)]
        else
          [Post(host, payload)]
          + match env.postData(host, payload)
            case Failure(_) => []
            case Ok(res) =>
              if !Contains(res.status, "success") then [Logged(Logs.Warn, PayloadRejected)]
              else [Logged(Logs.Info, PayloadSent)]
  }

  function RequestError(s: Settings, env: Env, payload: Payload, endpoint: string): Error
  {
    var host := s.serverHost + endpoint;
    match env.verifyConnection(s.serverHost)
    case Failure(msg) => Err(msg)
    case Ok(up) =>
      if !up then Err("unable to connect to host")
      else match env.postData(host, payload)
        case Failure(msg) => Err(msg)
        case Ok(res) =>
          if !Contains(res.status, "success") then Err("payload failed to send to server") else Nil
  }

  /** At most one POST, only of this payload to this endpoint, and only after a
      successful connection check. */
  lemma PostOnlyAfterVerified(s: Settings, env: Env, payload: Payload, endpoint: string)
    ensures var e := RequestEvents(s, env, payload, endpoint);
      forall k :: 0 <= k < |e| && e[k].Post? ==>
        k == 1 && e[k] == Post(s.serverHost + endpoint, payload) && env.verifyConnection(s.serverHost) == Ok(true)
  {
  }

  /** A request succeeds iff the host answered, the POST went through and its status says "success". */
  lemma RequestSucceedsIff(s: Settings, env: Env, payload: Payload, endpoint: string)
    ensures RequestError(s, env, payload, endpoint) == Nil <==>
      env.verifyConnection(s.serverHost) == Ok(true)
      && env.postData(s.serverHost + endpoint, payload).Ok?
      && Contains(env.postData(s.serverHost + endpoint, payload).value.status, "success")
    ensures RequestError(s, env, payload, endpoint) == Nil ==>
      Post(s.serverHost + endpoint, payload) in RequestEvents(s, env, payload, endpoint)
  {
  }

  // ---------------------------------------------------------------- sending results


  function KeyRequestError(s: Settings, env: Env, key: string): Error
  {
    RequestError(s, env, KeyPayload(key, s.serialTag), "/api/fv")
  }

  /** The run ends early: a key was generated and could not be sent. */
  predicate KeySendFails(s: Settings, env: Env, key: string)
  {
    key != "" && KeyRequestError(s, env, key) != Nil
  }

  /** The key upload, or without a key, the FileVault re-check. */
  function KeyEvents(s: Settings, env: Env, key: string): seq<Event>
  {
    if key != "" then
      [Logged(Logs.Info, SendingKey)]
      + RequestEvents(s, env, KeyPayload(key, s.serialTag), "/api/fv")
      + match KeyRequestError(s, env, key)
        case Nil => []
        case Err(msg) => [Logged(Logs.Error, SendFailed(msg)), Checkpoint]
    else
      match env.fileVaultAfter.err
      case Err(msg) => [CheckFileVault, Logged(Logs.Error, FileVaultRecheckFailed(msg))]
      case Nil => if !env.fileVaultAfter.status then [CheckFileVault, Logged(Logs.Warn, KeyNotGenerated)] else [CheckFileVault]
  }

  const SendingLog: seq<Event> := [Logged(Logs.Info, SendingLogFile), Checkpoint]

  /** The log upload, whose body is the whole buffer at that point. */
  function LogPayloadAfter(s: Settings, prior: seq<Event>): Payload
  {
    LogPayload(s.logFileName, Logs.Render(LoggedOf(prior + SendingLog)))
  }

  function LogSendEvents(s: Settings, env: Env, prior: seq<Event>): seq<Event>
  {
    if s.noSend then []
    else
      var payload := LogPayloadAfter(s, prior);
      SendingLog
      + RequestEvents(s, env, payload, "/api/log")
      + match RequestError(s, env, payload, "/api/log")
        case Nil => []
        case Err(msg) => [Logged(Logs.Error, SendFailed(msg))]
  }

  /** The send phase after the `prior` events: the key first, and the log
      only if the key did not fail. */
  function SendEvents(s: Settings, env: Env, key: string, prior: seq<Event>): seq<Event>
  {
    var k := KeyEvents(s, env, key);
    k + if KeySendFails(s, env, key) then [] else LogSendEvents(s, env, prior + k)
  }

  predicate PostsKey(e: Event) { e.Post? && e.payload.KeyPayload? }
  predicate PostsLog(e: Event) { e.Post? && e.payload.LogPayload? }

  lemma RequestPostsOnly(s: Settings, env: Env, payload: Payload, endpoint: string)
    ensures forall e :: e in RequestEvents(s, env, payload, endpoint) && e.Post? ==> e.payload == payload
  {
  }

  /** The key is posted before the log; a failed key upload, or --no-send, posts no log. */
  lemma KeyBeforeLog(s: Settings, env: Env, key: string, prior: seq<Event>)
    ensures var e := SendEvents(s, env, key, prior);
      forall i, j :: 0 <= i < |e| && 0 <= j < |e| && PostsKey(e[i]) && PostsLog(e[j]) ==> i < j
    ensures KeySendFails(s, env, key) || s.noSend ==>
      forall e :: e in SendEvents(s, env, key, prior) ==> !PostsLog(e)
    ensures key == "" ==> forall e :: e in SendEvents(s, env, key, prior) ==> !PostsKey(e)
  {
    var k := KeyEvents(s, env, key);
    var l := if KeySendFails(s, env, key) then [] else LogSendEvents(s, env, prior + k);
    KeyPostsNoLog(s, env, key);
    LogPostsNoKey(s, env, prior + k);
    KeysThenLogs(k, l);
  }

  lemma KeyPostsNoLog(s: Settings, env: Env, key: string)
    ensures forall e :: e in KeyEvents(s, env, key) ==> !PostsLog(e)
    ensures key == "" ==> forall e :: e in KeyEvents(s, env, key) ==> !PostsKey(e)
  {
    RequestPostsOnly(s, env, KeyPayload(key, s.serialTag), "/api/fv");
  }

  lemma LogPostsNoKey(s: Settings, env: Env, prior: seq<Event>)
    ensures forall e :: e in LogSendEvents(s, env, prior) ==> !PostsKey(e)
    ensures s.noSend ==> LogSendEvents(s, env, prior) == []
  {
    RequestPostsOnly(s, env, LogPayloadAfter(s, prior), "/api/log");
  }

  /** Key posts only in the front and log posts only in the back put every key post first. */
  lemma KeysThenLogs(k: seq<Event>, l: seq<Event>)
    requires forall e :: e in k ==> !PostsLog(e)
    requires forall e :: e in l ==> !PostsKey(e)
    ensures var e := k + l;
      forall i, j :: 0 <= i < |e| && 0 <= j < |e| && PostsKey(e[i]) && PostsLog(e[j]) ==> i < j
  {
  }

  /** The log body carries every line logged before the upload. */
  lemma LogBodyHoldsEarlierLines(s: Settings, prior: seq<Event>, k: int)
    requires 0 <= k < |LoggedOf(prior)|
    ensures Contains(LogPayloadAfter(s, prior).body, LoggedOf(prior)[k].text)
  {
    LoggedOfAppend(prior, SendingLog);
    Logs.RenderContains(LoggedOf(prior + SendingLog), k);
  }

  /** The stages after the inter scripts, before the send phase: FileVault,
      a checkpoint, the firewall, then the admin's password policy. */
  function LateEvents(s: Settings, env: Env, policyString: string): seq<Event>
  {
    (if s.fileVault then FileVaultEvents(s, env) else [])
    + [Checkpoint]
    + (if s.firewall then FirewallEvents(env.shell) else [])
    + if s.admin.applyPolicy then PolicyEvents(s, policyString, s.admin.userName, env.shell) else []
  }

  // ---------------------------------------------------------------- cleanup

  /** The selected names: the distribution directory and the archive. */
  const FilesToRemove: set<string> := {DistDirectory, ZipFile}

  /** startCleanup: refuses inside the project directory, and otherwise hands the
      lowered working directory's listing to RemoveFiles. */
  function CleanupEvents(env: Env): seq<Event>
  {
    match env.workingDirectory
    case Failure(_) => []
    case Ok(cwd) =>
      var dir := Lower(cwd);
      if Contains(dir, ProjectName) then []
      else match env.listing(dir)
        case Failure(_) => []
        case Ok(files) => [RemoveFiles(FilesToRemove, files)]
  }

  /** Files are removed iff the working directory is known, its lowered form
      does not contain the project name, and it could be listed. */
  lemma CleanupGuard(env: Env)
    ensures (exists e :: e in CleanupEvents(env) && e.RemoveFiles?) <==>
      env.workingDirectory.Ok? && !Contains(Lower(env.workingDirectory.value), ProjectName)
      && env.listing(Lower(env.workingDirectory.value)).Ok?
  {
    if env.workingDirectory.Ok? && !Contains(Lower(env.workingDirectory.value), ProjectName)
       && env.listing(Lower(env.workingDirectory.value)).Ok? {
      assert CleanupEvents(env)[0].RemoveFiles?;
    }
  }

  /** The answer as the prompt reads it: lowered, then trimmed. */
  function Answer(line: string): string
  {
    TrimSpace(Lower(line))
  }

  /** What the prompt does with one answer. */
  datatype Reply = Proceed | Stop | AskAgain

  /** "y" goes on, "n" or a blank line stops, anything else asks again. */
  function ReplyTo(line: string): (r: Reply)
    ensures r == Proceed <==> Answer(line) == "y"
    ensures r == Stop <==> Answer(line) == "n" || Answer(line) == ""
  {
    var choice := Answer(line);
    if choice == "n" || choice == "" then Stop
    else if choice == "y" then Proceed
    else AskAgain
  }

  /** The prompt's validation: the lowered choice is "y" or "n". */
  predicate ValidChoice(choice: string)
  {
    Lower(choice) == "y" || Lower(choice) == "n"
  }

  /** Whether the y/n prompt lets cleanup go on, the answers being the lines
      read in turn; past the last line every read gives "". */
  function ConfirmProceeds(answers: seq<string>): bool
  {
    if answers == [] then false
    else match ReplyTo(answers[0])
      case Stop => false
      case Proceed => true
      case AskAgain => ConfirmProceeds(answers[1..])
  }

  /** The prompt over the answers is the prompt over their replies. */
  lemma {:induction false} ConfirmDecides(answers: seq<string>)
    ensures ConfirmProceeds(answers) == Decide(Replies(answers))
  {
    if answers != [] {
      var replies := Replies(answers);
      assert replies[0] == ReplyTo(answers[0]);
      assert replies[1..] == Replies(answers[1..]);
      ConfirmDecides(answers[1..]);
    }
  }

  /** The reply to each answer in turn. */
  function Replies(answers: seq<string>): (r: seq<Reply>)
    ensures |r| == |answers|
    ensures forall i :: 0 <= i < |answers| ==> r[i] == ReplyTo(answers[i])
  {
    if answers == [] then [] else [ReplyTo(answers[0])] + Replies(answers[1..])
  }

  /** The prompt's loop over the replies: the first that is not AskAgain decides. */
  function Decide(replies: seq<Reply>): bool
  {
    if replies == [] then false
    else match replies[0]
      case Stop => false
      case Proceed => true
      case AskAgain => Decide(replies[1..])
  }

  /** Reply `k` is the first that is not AskAgain, and it is Proceed. */
  predicate FirstProceed(replies: seq<Reply>, k: int)
  {
    0 <= k < |replies| && replies[k] == Proceed && forall j :: 0 <= j < k ==> replies[j] == AskAgain
  }

  /** Answer `k` is a "y" and every answer before it was neither "y", "n" nor blank. */
  predicate FirstYes(answers: seq<string>, k: int)
  {
    FirstProceed(Replies(answers), k)
  }

  lemma {:induction false} FirstProceedDecides(replies: seq<Reply>, k: int)
    requires FirstProceed(replies, k)
    ensures Decide(replies)
    decreases k
  {
    if k > 0 {
      assert FirstProceed(replies[1..], k - 1) by {
        assert replies[1..][k - 1] == replies[k];
        forall j | 0 <= j < k - 1
          ensures replies[1..][j] == AskAgain
        {
          assert replies[1..][j] == replies[j + 1];
        }
      }
      FirstProceedDecides(replies[1..], k - 1);
    }
  }

  lemma {:induction false} DecidesFirstProceed(replies: seq<Reply>) returns (k: int)
    requires Decide(replies)
    ensures FirstProceed(replies, k)
    decreases |replies|
  {
    if replies[0] == Proceed {
      return 0;
    }
    var rest := DecidesFirstProceed(replies[1..]);
    k := rest + 1;
    assert replies[1..][rest] == replies[k];
    forall j | 0 <= j < k
      ensures replies[j] == AskAgain
    {
      if j > 0 {
        assert replies[1..][j - 1] == replies[j];
      }
    }
  }

  /** Cleanup goes on iff some answer is "y" and every answer before it is
      neither "y", "n" nor blank. */
  lemma ConfirmFirstDecisive(answers: seq<string>)
    ensures ConfirmProceeds(answers) <==> exists k :: FirstYes(answers, k)
  {
    ConfirmDecides(answers);
    if ConfirmProceeds(answers) {
      var k := DecidesFirstProceed(Replies(answers));
      assert FirstYes(answers, k);
    }
    if k :| FirstYes(answers, k) {
      FirstProceedDecides(Replies(answers), k);
    }
  }

  /** The answer, once lowered and trimmed, reads the same when lowered again,
      so the prompt's validation accepts exactly "y" and "n". */
  lemma AnswerIsLower(line: string)
    ensures Lower(Answer(line)) == Answer(line)
    ensures ValidChoice(Answer(line)) <==> Answer(line) == "y" || Answer(line) == "n"
  {
    var a := Answer(line);
    TrimSpaceChars(Lower(line));
    LowerIsLower(line);
    forall i | 0 <= i < |a|
      ensures !IsUpper(a[i])
    {
      assert a[i] in a;
      var j :| 0 <= j < |Lower(line)| && Lower(line)[j] == a[i];
    }
    LowerOfLower(a);
  }

  /** PostRun's cleanup step. */
  function CleanupStageEvents(s: Settings, env: Env, serverFailed: bool, answers: seq<string>): seq<Event>
  {
    if !s.removeFiles then []
    else if serverFailed && !ConfirmProceeds(answers) then []
    else CleanupEvents(env)
  }

  /** Once the key failed to send, cleanup needs a "y" answer. */
  lemma ServerFailedNeedsYes(s: Settings, env: Env, answers: seq<string>)
    requires CleanupStageEvents(s, env, true, answers) != []
    ensures s.removeFiles
    ensures exists k :: (0 <= k < |answers| && Answer(answers[k]) == "y")
  {
    ConfirmFirstDecisive(answers);
  }

  // ---------------------------------------------------------------- nothing is posted before FileVault

  lemma PolicyPostsNothing(s: Settings, policyString: string, username: string, shell: Shell)
    ensures NoPosts(PolicyEvents(s, policyString, username, shell))
  {
    PolicyTargetsUser(s, policyString, username, shell);
  }

  lemma AccountPostsNothing(s: Settings, env: Env, key: string, policyString: string)
    requires key in s.accounts
    ensures NoPosts(AccountEvents(s, env, key, policyString))
  {
    var acc := s.accounts[key];
    var e := AccountEvents(s, env, key, policyString);
    var created := env.createAccount(acc, s.adminStatus);
    if created.Ok? {
      var name := created.value;
      var policy := if acc.applyPolicy then PolicyEvents(s, policyString, name, env.shell) else [];
      PolicyPostsNothing(s, policyString, name, env.shell);
      assert NoPosts(policy);
      if env.addSecureToken(name, acc.password) == Nil {
        assert e == [CreateAccount(key), AddSecureToken(name)] + policy;
      } else if env.deleteAccount(name) == Nil {
        assert e == [CreateAccount(key), AddSecureToken(name), Logged(Logs.Error, TokenFailed), DeleteAccount(name)] + policy;
      }
    }
  }

  lemma {:induction false} AccountsPostNothing(s: Settings, env: Env, order: seq<string>, p: Policies.PolicySettings)
    requires forall k :: 0 <= k < |order| ==> order[k] in s.accounts
    ensures NoPosts(AccountStageEvents(s, env, order, p))
    ensures NoPosts(AccountsEvents(s, env, order, p))
  {
    if order != [] {
      var front := order[..|order| - 1];
      AccountsPostNothing(s, env, front, p);
      AccountPostsNothing(s, env, Last(order), PolicyCommand(PolicyAfter(s, env, front, p)));
    }
  }

  lemma {:induction false} SearchPostsNothing(dirs: seq<string>, getFiles: string -> Result<seq<string>>)
    ensures NoPosts(SearchWarnings(dirs, getFiles))
  {
    if dirs != [] {
      SearchPostsNothing(dirs[..|dirs| - 1], getFiles);
    }
  }

  lemma MountPostsNothing(s: Settings, env: Env)
    ensures NoPosts(MountEvents(s, env))
  {
    if s.mount && Listing(env, ".dmg").Ok? {
      var dmgs := Dmg.DmgPaths(Listing(env, ".dmg").value);
      var volumes := Dmg.Mounted(dmgs, env.shell);
      RansPostNothing(Dmg.AttachCommands(dmgs));
      RansPostNothing(Dmg.CopyCommands(volumes, DistDirectory));
      RansPostNothing(Dmg.DetachCommands(volumes));
    }
  }

  lemma PackagesPostNothing(s: Settings, env: Env, m: Packages.PackageMap, order: seq<string>, search: seq<string>)
    requires forall k :: 0 <= k < |order| ==> order[k] in m
    ensures NoPosts(PackageEvents(s, env, m, order, search))
  {
    RansPostNothing(Packages.RosettaRan(env.goarch, env.shell));
    if Listing(env, ".pkg").Ok? {
      RansPostNothing(FileHandling.Attempts(m, order, Listing(env, ".pkg").value, search));
    }
  }

  lemma {:induction false} ScriptsPostNothing(cache: map<string, string>, names: seq<string>, paths: seq<string>,
                                              shell: Shell)
    ensures NoPosts(ScriptsEvents(cache, names, paths, shell))
    ensures forall phase, failed :: NoPosts(PhaseEvents(phase, names, failed, cache, paths, shell))
  {
    if names != [] {
      var front := names[..|names| - 1];
      ScriptsPostNothing(cache, front, paths, shell);
      RansPostNothing(ScriptLookup(CacheAfterScripts(cache, front, paths), Last(names), paths));
    }
  }

  // ---------------------------------------------------------------- the run

  /** The run's logger together with the calls the run makes: everything it
      did so far, oldest first. */
  class Journal {
    var events: seq<Event>

    constructor ()
      ensures events == []
    {
      events := [];
    }
  }

  /** The shared state of a run. */
  class RootData {
    const cfg: Settings
    const env: Env
    const handler: FileHandling.FileHandler
    const policies: Policies.Policies
    const log: Journal
    var serverFailed: bool
    var scriptsFailed: bool
    var scriptFiles: seq<string>

    /** The handler's invariant, and policies that are the configured ones or
        those clamped once. */
    ghost predicate Valid()
      reads this, handler, policies
    {
      && handler.Valid()
      && (policies.settings == cfg.policy || policies.settings == Policies.Clamped(cfg.policy))
    }

    constructor (cfg: Settings, env: Env)
      ensures Valid()
      ensures this.cfg == cfg && this.env == env
      ensures handler.packagesToInstall.Keys == set k | k in cfg.packages :: Lower(k)
      ensures handler.scriptsPathCache == map[]
      ensures policies.settings == cfg.policy
      ensures !serverFailed && !scriptsFailed && scriptFiles == [] && log.events == []
    {
      this.cfg := cfg;
      this.env := env;
      handler := new FileHandling.FileHandler(cfg.packages);
      policies := new Policies.Policies(cfg.policy);
      log := new Journal();
      serverFailed, scriptsFailed, scriptFiles := false, false, [];
    }

    method ApplyPasswordPolicy(policyString: string, username: string)
      modifies log
      ensures log.events == old(log.events) + PolicyEvents(cfg, policyString, username, env.shell)
    {
      ghost var start := log.events;
      var head: seq<Event>;
      var r: Result<string>;
      if cfg.plistPath == "" {
        head := [Logged(Logs.Debug, PolicyString(policyString, username)),
                 Ran(Policies.SetPolicyCommand(policyString, username))];
        log.events := log.events + head;
        r := Policies.SetPolicy(policyString, username, env.shell);
      } else {
        head := [Logged(Logs.Debug, PlistPath(cfg.plistPath, username)),
                 Ran(Policies.SetPolicyPlistCommand(cfg.plistPath, username))];
        log.events := log.events + head;
        r := Policies.SetPolicyPlist(cfg.plistPath, username, env.shell);
      }
      PolicyHead(cfg, policyString, username, env.shell, head, r);
      if r.Failure? {
        log.events := log.events + [Logged(Logs.Warn, PolicyFailed(username, r.msg))];
        Regroup(start, head, PolicyOutcome(cfg, username, r));
        return;
      }
      if !cfg.policy.changeOnLogin {
        log.events := log.events + [Logged(Logs.Warn, ChangeOnLoginUnset), Logged(Logs.Warn, ChangeOnLoginHint(username))];
      } else {
        log.events := log.events + [Logged(Logs.Info, PolicyApplied(r.value))];
      }
      Regroup(start, head, PolicyOutcome(cfg, username, r));
    }

    /** BuildCommand on the shared policies, then applyPasswordPolicy. */
    method BuildAndApplyPolicy(username: string)
      requires Valid()
      modifies log, policies
      ensures Valid()
      ensures policies.settings == Policies.Clamped(old(policies.settings))
      ensures log.events == old(log.events) + PolicyEvents(cfg, PolicyCommand(old(policies.settings)), username, env.shell)
    {
      var policyString := policies.BuildCommandAsWritten();
      Policies.CorrectedStable(cfg.policy);
      ApplyPasswordPolicy(policyString, username);
    }

    /** One pass of the account loop. */
    method AccountStep(key: string)
      requires Valid() && key in cfg.accounts
      modifies log, policies
      ensures Valid()
      ensures policies.settings
        == if AppliesPolicy(cfg, env, key) then Policies.Clamped(old(policies.settings)) else old(policies.settings)
      ensures log.events == old(log.events) + AccountEvents(cfg, env, key, PolicyCommand(old(policies.settings)))
    {
      var acc := cfg.accounts[key];
      var created := env.createAccount(acc, cfg.adminStatus);
      if created.Failure? {
        if Contains(created.msg, "skipped") {
          log.events := log.events + [CreateAccount(key)];
        } else {
          log.events := log.events + [CreateAccount(key), Logged(Logs.Error, MakeUserFailed(created.msg))];
        }
        return;
      }
      var accountName := created.value;
      var steps := [CreateAccount(key), AddSecureToken(accountName)];
      if env.addSecureToken(accountName, acc.password) != Nil {
        var err := env.deleteAccount(accountName);
        if err.Err? {
          log.events := log.events + [CreateAccount(key), AddSecureToken(accountName), Logged(Logs.Error, TokenFailed),
                                      DeleteAccount(accountName), Logged(Logs.Error, RemovalFailed(err.msg))];
          return;
        }
        steps := [CreateAccount(key), AddSecureToken(accountName), Logged(Logs.Error, TokenFailed), DeleteAccount(accountName)];
      }
      log.events := log.events + steps;
      if acc.applyPolicy {
        BuildAndApplyPolicy(accountName);
        Regroup(old(log.events), steps, PolicyEvents(cfg, PolicyCommand(old(policies.settings)), accountName, env.shell));
      }
    }

    /** startAccountCreation: every configured account once, in map order. */
    method StartAccountCreation() returns (order: seq<string>)
      requires Valid()
      modifies log, policies
      ensures Valid()
      ensures forall k :: k in order <==> k in cfg.accounts
      ensures forall i, j :: 0 <= i < j < |order| ==> order[i] != order[j]
      ensures policies.settings == PolicyAfter(cfg, env, order, old(policies.settings))
      ensures log.events == old(log.events) + AccountStageEvents(cfg, env, order, old(policies.settings))
    {
      if |cfg.accounts| < 1 {
        log.events := log.events + [Logged(Logs.Warn, NoAccounts)];
        return [];
      }
      order := MapOrder(cfg.accounts.Keys);
      CreateInOrder(order);
    }

    /** The account loop over the visit order. */
    method CreateInOrder(order: seq<string>)
      requires Valid()
      requires forall k :: 0 <= k < |order| ==> order[k] in cfg.accounts
      modifies log, policies
      ensures Valid()
      ensures policies.settings == PolicyAfter(cfg, env, order, old(policies.settings))
      ensures log.events == old(log.events) + AccountsEvents(cfg, env, order, old(policies.settings))
    {
      var i := 0;
      while i < |order|
        invariant 0 <= i <= |order|
        invariant Valid()
        invariant policies.settings == PolicyAfter(cfg, env, order[..i], old(policies.settings))
        invariant log.events == old(log.events) + AccountsEvents(cfg, env, order[..i], old(policies.settings))
      {
        ghost var before := log.events;
        AccountStep(order[i]);
        StepAppends(old(log.events), before, log.events, cfg, env, order, i, old(policies.settings));
        i := i + 1;
      }
      assert order[..|order|] == order;
    }

    /** The search-directory walk: missing directories are skipped. */
    method CollectSearchFiles() returns (files: seq<string>)
      modifies log
      ensures files == SearchFiles(cfg.searchDirectories, env.getFiles)
      ensures log.events == old(log.events) + SearchEvents(cfg, env)
    {
      var dirs := cfg.searchDirectories;
      files := [];
      var i := 0;
      while i < |dirs|
        invariant 0 <= i <= |dirs|
        invariant files == SearchFiles(dirs[..i], env.getFiles)
        invariant log.events == old(log.events) + SearchWarnings(dirs[..i], env.getFiles)
      {
        SearchSnoc(dirs, i, env.getFiles);
        var found := env.getFiles(dirs[i]);
        if found.Failure? {
          log.events := log.events + [Logged(Logs.Warn, PathMissing(dirs[i]))];
        } else {
          files := files + found.value;
        }
        i := i + 1;
      }
      assert dirs[..|dirs|] == dirs;
      var summary := [Logged(Logs.Debug, FileAmount(|files|, dirs))]
        + if |files| < 1 then [Logged(Logs.Warn, NoSearchFiles)] else [];
      log.events := log.events + summary;
      Regroup(old(log.events), SearchWarnings(dirs, env.getFiles), summary);
    }

    /** The --mount step. */
    method MountImages()
      modifies log
      ensures log.events == old(log.events) + MountEvents(cfg, env)
    {
      if !cfg.mount {
        return;
      }
      var dmgFiles := FileHandling.FileHandler.ReadDir(DistDirectory, ".dmg", env.walk(".dmg"));
      if dmgFiles.Failure? {
        log.events := log.events + [Logged(Logs.Info, SearchingImages), Logged(Logs.Error, SearchFailed(dmgFiles.msg))];
        return;
      }
      var volumeMounts, attached := Dmg.AttachDmgs(dmgFiles.value, env.shell);
      var events := [];
      if |volumeMounts| > 0 {
        var copied, copies := Dmg.AddDmgPackages(volumeMounts, DistDirectory, env.shell);
        var stillMounted, detaches := Dmg.DetachDmgs(volumeMounts, env.shell);
        events := Rans(copies) + Rans(detaches);
      }
      log.events := log.events + ([Logged(Logs.Info, SearchingImages)] + (Rans(attached) + events));
    }

    /** The steps of startPackageInstallation after a successful Rosetta step. */
    method InstallFound(searchFiles: seq<string>) returns (order: seq<string>)
      requires Valid()
      modifies log, handler
      ensures Valid()
      ensures handler.packagesToInstall == Desired(old(handler.packagesToInstall), cfg)
      ensures handler.scriptsPathCache == old(handler.scriptsPathCache)
      ensures forall k :: 0 <= k < |order| ==> order[k] in handler.packagesToInstall
      ensures log.events == old(log.events) + FoundEvents(env, handler.packagesToInstall, order, searchFiles)
    {
      handler.AddPackages(cfg.includePackages);
      handler.RemovePackagesAsWritten(cfg.excludePackages);
      order := InstallListed(searchFiles);
    }

    /** The package search and the installs over the settled package map. */
    method InstallListed(searchFiles: seq<string>) returns (order: seq<string>)
      modifies log
      ensures forall k :: 0 <= k < |order| ==> order[k] in handler.packagesToInstall
      ensures log.events == old(log.events) + FoundEvents(env, handler.packagesToInstall, order, searchFiles)
    {
      order := [];
      var packages := FileHandling.FileHandler.ReadDir(DistDirectory, ".pkg", env.walk(".pkg"));
      assert packages == Listing(env, ".pkg");
      if packages.Failure? {
        log.events := log.events + [Logged(Logs.Info, SearchingPackages), Logged(Logs.Error, PackageSearchFailed(DistDirectory, packages.msg))];
        return;
      }
      if |packages.value| < 1 {
        log.events := log.events + [Logged(Logs.Info, SearchingPackages), Logged(Logs.Warn, NoPackages)];
        return;
      }
      var status, ran;
      order, status, ran := handler.InstallPackages(packages.value, searchFiles, env.shell);
      log.events := log.events + ([Logged(Logs.Info, SearchingPackages)] + Rans(ran));
    }

    /** startPackageInstallation: a Rosetta failure stops it before the package
      map is touched. */
    method StartPackageInstallation(searchFiles: seq<string>) returns (order: seq<string>)
      requires Valid()
      modifies log, handler
      ensures Valid()
      ensures handler.packagesToInstall ==
        if RosettaFails(env) then old(handler.packagesToInstall) else Desired(old(handler.packagesToInstall), cfg)
      ensures handler.scriptsPathCache == old(handler.scriptsPathCache)
      ensures forall k :: 0 <= k < |order| ==> order[k] in handler.packagesToInstall
      ensures log.events == old(log.events) + PackageEvents(cfg, env, handler.packagesToInstall, order, searchFiles)
    {
      var err, ran := Packages.InstallRosetta(env.goarch, env.shell);
      log.events := log.events + Rans(ran);
      if err != Nil {
        log.events := log.events + [Logged(Logs.Error, RosettaFailed(err.msg))];
        return [];
      }
      order := InstallFound(searchFiles);
      Regroup(old(log.events), Rans(ran), FoundEvents(env, handler.packagesToInstall, order, searchFiles));
    }

    /** The .app step: found applications are copied into /Applications. */
    method CopyApps()
      modifies log
      ensures log.events == old(log.events) + AppEvents(env)
    {
      var appFiles := FileHandling.FileHandler.ReadDir(DistDirectory, ".app", env.walk(".app"));
      if appFiles.Failure? {
        log.events := log.events + [Logged(Logs.Error, SearchFailed(appFiles.msg))];
        return;
      }
      if |appFiles.value| > 0 {
        log.events := log.events + [CopyApplications(appFiles.value)];
      }
    }

    /** One name of executeScripts. */
    method ScriptStep(name: string)
      requires Valid()
      modifies log, handler
      ensures Valid()
      ensures handler.packagesToInstall == old(handler.packagesToInstall)
      ensures handler.scriptsPathCache == NameCache(old(handler.scriptsPathCache), name, scriptFiles)
      ensures log.events == old(log.events) + NameEvents(old(handler.scriptsPathCache), name, scriptFiles, env.shell)
    {
      if name == "" {
        return;
      }
      ghost var cache := handler.scriptsPathCache;
      var out, err, ran := handler.ExecuteScript(name, scriptFiles, env.shell);
      var line := if err.Err? then Logged(Logs.Error, ScriptFailed(err.msg, out)) else Logged(Logs.Info, ScriptOutput(out));
      ScriptLookupRan(cache, name, scriptFiles, handler.scriptsPathCache, ran);
      ScriptLineOf(ran, env.shell, out, err, line);
      log.events := log.events + (Rans(ran) + [line]);
    }

    /** executeScripts over the shared handler, whose cache carries over between names. */
    method ExecuteScripts(names: seq<string>)
      requires Valid()
      modifies log, handler
      ensures Valid()
      ensures handler.packagesToInstall == old(handler.packagesToInstall)
      ensures handler.scriptsPathCache == CacheAfterScripts(old(handler.scriptsPathCache), names, scriptFiles)
      ensures log.events == old(log.events) + ScriptsEvents(old(handler.scriptsPathCache), names, scriptFiles, env.shell)
    {
      var i := 0;
      while i < |names|
        invariant 0 <= i <= |names|
        invariant Valid()
        invariant handler.packagesToInstall == old(handler.packagesToInstall)
        invariant handler.scriptsPathCache == CacheAfterScripts(old(handler.scriptsPathCache), names[..i], scriptFiles)
        invariant log.events == old(log.events) + ScriptsEvents(old(handler.scriptsPathCache), names[..i], scriptFiles, env.shell)
      {
        ghost var before := log.events;
        ScriptStep(names[i]);
        ScriptsSnoc(old(log.events), before, log.events, old(handler.scriptsPathCache), names, i, scriptFiles, env.shell);
        i := i + 1;
      }
      assert names[..|names|] == names;
    }

    /** A script phase (pre, inter or post). */
    method ScriptPhase(phase: string, names: seq<string>)
      requires Valid()
      modifies log, handler
      ensures Valid()
      ensures handler.packagesToInstall == old(handler.packagesToInstall)
      ensures log.events == old(log.events)
        + PhaseEvents(phase, names, scriptsFailed, old(handler.scriptsPathCache), scriptFiles, env.shell)
    {
      if |names| > 0 && !scriptsFailed {
        log.events := log.events + [Logged(Logs.Debug, PhaseScripts(phase, names))];
        ExecuteScripts(names);
        Regroup(old(log.events), [Logged(Logs.Debug, PhaseScripts(phase, names))],
                ScriptsEvents(old(handler.scriptsPathCache), names, scriptFiles, env.shell));
      }
    }

    /** The end of PreRun: find the scripts, then the pre phase. */
    method PrepareScripts()
      requires Valid()
      modifies this, log, handler
      ensures Valid()
      ensures handler.packagesToInstall == old(handler.packagesToInstall)
      ensures scriptFiles == match Listing(env, ".sh") case Ok(files) => files case Failure(_) => []
      ensures scriptsFailed == (old(scriptsFailed) || Listing(env, ".sh").Failure?)
      ensures serverFailed == old(serverFailed)
      ensures log.events == old(log.events)
        + (match Listing(env, ".sh")
           case Ok(_) => []
           case Failure(msg) => [Logged(Logs.Error, ScriptSearchFailed(msg))])
        + PhaseEvents("Pre", cfg.preScripts, scriptsFailed, old(handler.scriptsPathCache), scriptFiles, env.shell)
    {
      FindScripts();
      ScriptPhase("Pre", cfg.preScripts);
    }

    /** The script search of PreRun: a failure is logged and marks the scripts failed. */
    method FindScripts()
      modifies `scriptFiles, `scriptsFailed, log
      ensures scriptFiles == match Listing(env, ".sh") case Ok(files) => files case Failure(_) => []
      ensures scriptsFailed == (old(scriptsFailed) || Listing(env, ".sh").Failure?)
      ensures log.events == old(log.events)
        + (match Listing(env, ".sh")
           case Ok(_) => []
           case Failure(msg) => [Logged(Logs.Error, ScriptSearchFailed(msg))])
    {
      var found := FileHandling.FileHandler.ReadDir(DistDirectory, ".sh", env.walk(".sh"));
      assert found == Listing(env, ".sh");
      if found.Failure? {
        log.events := log.events + [Logged(Logs.Error, ScriptSearchFailed(found.msg))];
        scriptsFailed := true;
        scriptFiles := [];
      } else {
        scriptFiles := found.value;
      }
    }

    method InitSudo()
      modifies log
      ensures log.events == old(log.events) + SudoEvents(env)
    {
      log.events := log.events + [InitializeSudo];
      if env.initializeSudo.Err? {
        log.events := log.events + [Logged(Logs.Warn, SudoFailed(env.initializeSudo.msg))];
      }
    }

    /** startFileVault. */
    method StartFileVault() returns (key: string)
      modifies log
      ensures key == FileVaultKey(cfg, env)
      ensures log.events == old(log.events) + FileVaultEvents(cfg, env)
    {
      key := "";
      log.events := log.events + [CheckFileVault];
      var reply := env.fileVaultBefore;
      if reply.err.Err? {
        log.events := log.events + [Logged(Logs.Warn, FileVaultCheckFailed(reply.err.msg))];
      }
      if !reply.status {
        log.events := log.events + [FileVaultEnable(cfg.admin.userName)];
        key := env.enableFileVault(cfg.admin.userName, cfg.admin.password);
      }
    }

    /** startFirewall. */
    method StartFirewall()
      modifies log
      ensures log.events == old(log.events) + FirewallEvents(env.shell)
    {
      log.events := log.events + [Ran(Firewall.StatusCommand)];
      var status := Firewall.Status(env.shell);
      var fwStatus := status.Ok? && status.value;
      if status.Failure? {
        log.events := log.events + [Logged(Logs.Error, FirewallScriptFailed(status.msg))];
      }
      log.events := log.events + [Logged(Logs.Debug, FirewallStatus(fwStatus))];
      if !fwStatus {
        log.events := log.events + [Ran(Firewall.EnableCommand)];
        var err := Firewall.Enable(env.shell);
        if err.Err? {
          log.events := log.events + [Logged(Logs.Error, FirewallFailed(err.msg))];
        }
      } else {
        log.events := log.events + [Logged(Logs.Info, FirewallAlreadyOn)];
      }
    }

    /** startRequest. */
    method StartRequest(payload: Payload, endpoint: string) returns (err: Error)
      modifies log
      ensures err == RequestError(cfg, env, payload, endpoint)
      ensures log.events == old(log.events) + RequestEvents(cfg, env, payload, endpoint)
    {
      var host := cfg.serverHost + endpoint;
      log.events := log.events + [VerifyConnection(cfg.serverHost)];
      var serverStatus := env.verifyConnection(cfg.serverHost);
      if serverStatus.Failure? {
        log.events := log.events + [Logged(Logs.Error, HostUnreachable(serverStatus.msg))];
        return Err(serverStatus.msg);
      }
      if serverStatus.value {
        log.events := log.events + [Post(host, payload)];
        var res := env.postData(host, payload);
        if res.Failure? {
          return Err(res.msg);
        }
        if !Contains(res.value.status, "success") {
          log.events := log.events + [Logged(Logs.Warn, PayloadRejected)];
          return Err("payload failed to send to server");
        }
        log.events := log.events + [Logged(Logs.Info, PayloadSent)];
      } else {
        log.events := log.events + [Logged(Logs.Warn, NoConnection)];
        return Err("unable to connect to host");
      }
      return Nil;
    }

    /** The key upload: a failure is logged with a flush. */
    method SendKey(key: string) returns (failed: bool)
      requires key != ""
      modifies log
      ensures failed == KeySendFails(cfg, env, key)
      ensures log.events == old(log.events) + KeyEvents(cfg, env, key)
    {
      log.events := log.events + [Logged(Logs.Info, SendingKey)];
      var err := StartRequest(KeyPayload(key, cfg.serialTag), "/api/fv");
      Regroup(old(log.events), [Logged(Logs.Info, SendingKey)],
              RequestEvents(cfg, env, KeyPayload(key, cfg.serialTag), "/api/fv"));
      ghost var upload := [Logged(Logs.Info, SendingKey)] + RequestEvents(cfg, env, KeyPayload(key, cfg.serialTag), "/api/fv");
      failed := err.Err?;
      if failed {
        log.events := log.events + [Logged(Logs.Error, SendFailed(err.msg)), Checkpoint];
        Regroup(old(log.events), upload, [Logged(Logs.Error, SendFailed(err.msg)), Checkpoint]);
      } else {
        assert upload + [] == upload;
      }
    }

    /** Without a key, FileVault is checked again. */
    method RecheckFileVault()
      modifies log
      ensures log.events == old(log.events) + KeyEvents(cfg, env, "")
    {
      var reply := env.fileVaultAfter;
      if reply.err.Err? {
        log.events := log.events + [CheckFileVault, Logged(Logs.Error, FileVaultRecheckFailed(reply.err.msg))];
      } else if !reply.status {
        log.events := log.events + [CheckFileVault, Logged(Logs.Warn, KeyNotGenerated)];
      } else {
        log.events := log.events + [CheckFileVault];
      }
    }

    /** The log upload, whose body is everything logged so far. */
    method SendLog()
      modifies log
      ensures log.events == old(log.events) + LogSendEvents(cfg, env, old(log.events))
    {
      if cfg.noSend {
        return;
      }
      log.events := log.events + SendingLog;
      var body := Logs.Render(LoggedOf(log.events));
      var payload := LogPayload(cfg.logFileName, body);
      assert payload == LogPayloadAfter(cfg, old(log.events));
      var err := StartRequest(payload, "/api/log");
      Regroup(old(log.events), SendingLog, RequestEvents(cfg, env, payload, "/api/log"));
      ghost var upload := SendingLog + RequestEvents(cfg, env, payload, "/api/log");
      if err.Err? {
        log.events := log.events + [Logged(Logs.Error, SendFailed(err.msg))];
        Regroup(old(log.events), upload, [Logged(Logs.Error, SendFailed(err.msg))]);
      } else {
        assert upload + [] == upload;
      }
    }

    /** The send phase of Run: a failed key upload flushes the log, sets
        ServerFailed and ends the run without sending the log. */
    method SendResults(key: string)
      modifies this, log
      ensures log.events == old(log.events) + SendEvents(cfg, env, key, old(log.events))
      ensures serverFailed == (old(serverFailed) || KeySendFails(cfg, env, key))
      ensures scriptsFailed == old(scriptsFailed) && scriptFiles == old(scriptFiles)
    {
      ghost var k := KeyEvents(cfg, env, key);
      if key != "" {
        var failed := SendKey(key);
        if failed {
          serverFailed := true;
          assert k + [] == k;
          return;
        }
      } else {
        RecheckFileVault();
      }
      ghost var prior := log.events;
      SendLog();
      Regroup(old(log.events), k, LogSendEvents(cfg, env, prior));
    }

    /** The stages of Run before FileVault; none of them posts anything. Only
        the accounts, visited in `order`, touch the policies. */
    method Provision() returns (ghost setup: seq<Event>, ghost order: seq<string>)
      requires Valid()
      modifies log, handler, policies
      ensures Valid()
      ensures log.events == old(log.events) + setup && NoPosts(setup)
      ensures forall k :: k in order <==> k in cfg.accounts
      ensures forall k :: 0 <= k < |order| ==> order[k] in cfg.accounts
      ensures policies.settings == PolicyAfter(cfg, env, order, old(policies.settings))
    {
      setup, order := ProvisionAccounts();
      ghost var step := ProvisionPackages();
      Grow(old(log.events), setup, step);
      setup := setup + step;
      step := ProvisionScripts();
      Grow(old(log.events), setup, step);
      setup := setup + step;
    }

    /** Sudo and the accounts, up to the first checkpoint. */
    method ProvisionAccounts() returns (ghost setup: seq<Event>, ghost order: seq<string>)
      requires Valid()
      modifies log, policies
      ensures Valid()
      ensures log.events == old(log.events) + setup && NoPosts(setup)
      ensures forall k :: k in order <==> k in cfg.accounts
      ensures forall k :: 0 <= k < |order| ==> order[k] in cfg.accounts
      ensures policies.settings == PolicyAfter(cfg, env, order, old(policies.settings))
    {
      InitSudo();
      setup := SudoEvents(env);
      var accounts := StartAccountCreation();
      order := accounts;
      ghost var step := AccountStageEvents(cfg, env, accounts, old(policies.settings));
      AccountsPostNothing(cfg, env, accounts, old(policies.settings));
      Grow(old(log.events), setup, step);
      setup := setup + step;
      log.events := log.events + [Checkpoint];
      Grow(old(log.events), setup, [Checkpoint]);
      setup := setup + [Checkpoint];
    }

    /** The search files, the disk images and the packages. */
    method ProvisionPackages() returns (ghost setup: seq<Event>)
      requires Valid()
      modifies log, handler
      ensures Valid()
      ensures log.events == old(log.events) + setup && NoPosts(setup)
    {
      var searchFiles := CollectSearchFiles();
      SearchPostsNothing(cfg.searchDirectories, env.getFiles);
      setup := SearchEvents(cfg, env);
      MountImages();
      MountPostsNothing(cfg, env);
      Grow(old(log.events), setup, MountEvents(cfg, env));
      setup := setup + MountEvents(cfg, env);
      var installed := StartPackageInstallation(searchFiles);
      PackagesPostNothing(cfg, env, handler.packagesToInstall, installed, searchFiles);
      Grow(old(log.events), setup, PackageEvents(cfg, env, handler.packagesToInstall, installed, searchFiles));
      setup := setup + PackageEvents(cfg, env, handler.packagesToInstall, installed, searchFiles);
    }

    /** The applications, the inter scripts, a checkpoint and sudo again. */
    method ProvisionScripts() returns (ghost setup: seq<Event>)
      requires Valid()
      modifies log, handler
      ensures Valid()
      ensures log.events == old(log.events) + setup && NoPosts(setup)
    {
      CopyApps();
      setup := AppEvents(env);
      ghost var cache := handler.scriptsPathCache;
      ScriptPhase("Inter", cfg.interScripts);
      ScriptsPostNothing(cache, cfg.interScripts, scriptFiles, env.shell);
      Grow(old(log.events), setup, PhaseEvents("Inter", cfg.interScripts, scriptsFailed, cache, scriptFiles, env.shell));
      setup := setup + PhaseEvents("Inter", cfg.interScripts, scriptsFailed, cache, scriptFiles, env.shell);
      log.events := log.events + [Checkpoint];
      Grow(old(log.events), setup, [Checkpoint]);
      setup := setup + [Checkpoint];
      InitSudo();
      Grow(old(log.events), setup, SudoEvents(env));
      setup := setup + SudoEvents(env);
    }

    /** The stages after the inter scripts, up to the send phase. */
    method FinishStages() returns (key: string)
      requires Valid()
      modifies log, policies
      ensures Valid()
      ensures key == if cfg.fileVault then FileVaultKey(cfg, env) else ""
      ensures log.events == old(log.events) + LateEvents(cfg, env, PolicyCommand(old(policies.settings)))
    {
      ghost var vault := if cfg.fileVault then FileVaultEvents(cfg, env) else [];
      ghost var wall := if cfg.firewall then FirewallEvents(env.shell) else [];
      ghost var policy := if cfg.admin.applyPolicy
        then PolicyEvents(cfg, PolicyCommand(old(policies.settings)), cfg.admin.userName, env.shell) else [];
      key := "";
      if cfg.fileVault {
        key := StartFileVault();
      } else {
        assert old(log.events) + vault == old(log.events);
      }
      log.events := log.events + [Checkpoint];
      Regroup(old(log.events), vault, [Checkpoint]);
      ghost var upToWall := log.events;
      if cfg.firewall {
        StartFirewall();
      } else {
        assert upToWall + wall == upToWall;
      }
      Regroup(old(log.events), vault + [Checkpoint], wall);
      ghost var upToPolicy := log.events;
      if cfg.admin.applyPolicy {
        BuildAndApplyPolicy(cfg.admin.userName);
      } else {
        assert upToPolicy + policy == upToPolicy;
      }
      Regroup(old(log.events), vault + [Checkpoint] + wall, policy);
    }

    /** Run: provisioning, then FileVault, the firewall and the admin policy,
        then the key upload and the log upload. */
    method Run() returns (key: string)
      requires Valid()
      modifies this, log, handler, policies
      ensures Valid()
      ensures key == if cfg.fileVault then FileVaultKey(cfg, env) else ""
      ensures exists setup, order :: ((forall k :: k in order <==> k in cfg.accounts)
        && (forall k :: 0 <= k < |order| ==> order[k] in cfg.accounts)
        && NoPosts(setup)
        && var late := LateEvents(cfg, env, PolicyCommand(PolicyAfter(cfg, env, order, old(policies.settings))));
           log.events == old(log.events) + setup + late + SendEvents(cfg, env, key, old(log.events) + setup + late))
      ensures serverFailed == (old(serverFailed) || KeySendFails(cfg, env, key))
      ensures scriptsFailed == old(scriptsFailed) && scriptFiles == old(scriptFiles)
    {
      ghost var setup, order := Provision();
      key := FinishStages();
      ghost var late := log.events;
      SendResults(key);
      ghost var stages := LateEvents(cfg, env, PolicyCommand(PolicyAfter(cfg, env, order, old(policies.settings))));
      assert log.events == old(log.events) + setup + stages + SendEvents(cfg, env, key, late);
    }

    /** The y/n prompt: reads answers until one is "y" (go on) or "n" or blank (stop). */
    method Confirm(answers: seq<string>) returns (proceed: bool)
      ensures proceed == ConfirmProceeds(answers)
    {
      var choice := "";
      var i := 0;
      while !ValidChoice(choice)
        invariant 0 <= i <= |answers|
        invariant !ValidChoice(choice)
        invariant ConfirmProceeds(answers[i..]) == ConfirmProceeds(answers)
        decreases |answers| - i
      {
        var line := if i < |answers| then answers[i] else "";
        choice := Answer(line);
        if choice == "n" || choice == "" {
          return false;
        } else if choice == "y" {
          break;
        }
        AnswerIsLower(line);
        assert answers[i..][1..] == answers[i + 1..];
        i := i + 1;
      }
      return true;
    }

    /** startCleanup. */
    method StartCleanup()
      modifies log
      ensures log.events == old(log.events) + CleanupEvents(env)
    {
      if env.workingDirectory.Failure? {
        return;
      }
      var currDir := Lower(env.workingDirectory.value);
      if Contains(currDir, ProjectName) {
        return;
      }
      var files := env.listing(currDir);
      if files.Failure? {
        return;
      }
      log.events := log.events + [RemoveFiles(FilesToRemove, files.value)];
    }

    /** PostRun: the post scripts, then cleanup if asked for, confirmed when the key upload failed. */
    method PostRun(answers: seq<string>)
      requires Valid()
      modifies log, handler
      ensures Valid()
      ensures log.events == old(log.events)
        + PhaseEvents("Post", cfg.postScripts, scriptsFailed, old(handler.scriptsPathCache), scriptFiles, env.shell)
        + CleanupStageEvents(cfg, env, serverFailed, answers)
    {
      ScriptPhase("Post", cfg.postScripts);
      if cfg.removeFiles {
        if serverFailed {
          var proceed := Confirm(answers);
          if !proceed {
            return;
          }
        }
        StartCleanup();
      }
    }
  }
}
