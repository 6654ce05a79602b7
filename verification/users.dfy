/** Account creation as the free function CreateAccount does it: checks on
    the configured entry, an optional name prompt, the existence check over
    /Users, then the create script, the secure token and the optional
    password-reset policy, each step only after the previous one succeeded. */
module Users {

  import opened Wrappers
  import opened Text
  import opened Commands
  import opened Config
  import Utils
  import FileVault

  const EmptyPassword: string := "empty password given for user, config file must be checked"
  const CreationSkipped: string := "user creation skipped"

  /** The name the account is created under: the configured one, or else the
      line read from standard input without its last character (the newline).
      Go slices `input[:len(input)-1]`, which panics when nothing was read. */
  function ChosenName(configured: string, stdin: string): (r: Run<string>)
    ensures r.Panics? <==> configured == "" && stdin == ""
    ensures configured != "" ==> r == Returns(configured)
    ensures configured == "" && stdin != "" ==> r.value + [stdin[|stdin| - 1]] == stdin
  {
    if configured != "" then Returns(configured)
    else if stdin == "" then Panics
    else Returns(stdin[..|stdin| - 1])
  }

  /** The name step of CreateAccount: the prompt runs only for an empty configured name. */
  method PromptName(configured: string, stdin: string) returns (r: Run<string>)
    ensures r == ChosenName(configured, stdin)
  {
    var username := configured;
    if username == "" {
      var input := stdin;
      if |input| == 0 {
        return Panics;
      }
      input := input[..|input| - 1];
      username := input;
    }
    return Returns(username);
  }

  /** The admin argument of the create script. */
  function AdminArg(isAdmin: bool, ignoreAdmin: bool): (r: string)
    ensures r == "true" || r == "false"
    ensures r == "true" <==> isAdmin && !ignoreAdmin
  {
    if isAdmin && !ignoreAdmin then "true" else "false"
  }

  /** Some /Users entry contains the name, case ignored. */
  predicate ExistsIn(dirs: seq<string>, username: string)
  {
    exists k :: 0 <= k < |dirs| && Contains(Lower(dirs[k]), Lower(username))
  }

  /** userExists: the listing of /Users is the parameter `usersDir`. */
  method UserExists(username: string, usersDir: Result<seq<string>>) returns (found: bool, err: Error)
    ensures usersDir.Failure? ==> !found && err == Err(usersDir.msg)
    ensures usersDir.Ok? ==> err == Nil && (found <==> ExistsIn(usersDir.value, username))
  {
    if usersDir.Failure? {
      return false, Err(usersDir.msg);
    }
    var dirs := usersDir.value;
    for i := 0 to |dirs|
      invariant forall k :: 0 <= k < i ==> !Contains(Lower(dirs[k]), Lower(username))
    {
      var dirName := Lower(dirs[i]);
      var lowerUsername := Lower(username);
      if Contains(dirName, lowerUsername) {
        return true, Nil;
      }
    }
    return false, Nil;
  }

  /** A name that formats to nothing matches every entry of a non-empty /Users. */
  lemma EmptyNameExists(dirs: seq<string>)
    ensures ExistsIn(dirs, "") <==> |dirs| > 0
  {
    if |dirs| > 0 {
      ContainsEmpty(Lower(dirs[0]));
    }
  }

  function CreateUserCommand(username: string, fullName: string, password: string, admin: string): Command
  {
    Embedded(CreateUser, true, [username, fullName, password, admin])
  }

  /** The policy forcing a new password at the next login. */
  function ResetPolicyCommand(fullName: string): Command
  {
    Bash("sudo pwpolicy -u '" + fullName + "' -setpolicy 'newPasswordRequired=1'")
  }

  /** Every step of CreateAccount succeeds. */
  predicate AccountCreated(user: User, adminInfo: User, isAdmin: bool, stdin: string,
                           usersDir: Result<seq<string>>, shell: Shell)
  {
    user.password != "" && ChosenName(user.userName, stdin).Returns?
    && var name := ChosenName(user.userName, stdin).value;
    var fullName := Utils.FullName(name);
    name != "" && usersDir.Ok? && !ExistsIn(usersDir.value, fullName)
    && shell(CreateUserCommand(name, fullName, user.password, AdminArg(isAdmin, user.ignoreAdmin))).ok
    && shell(FileVault.SecureTokenCommand(name, user.password, adminInfo.userName, adminInfo.password)).ok
    && (user.changePassword ==> shell(ResetPolicyCommand(fullName)).ok)
  }

  /** CreateAccount: `stdin` is what the prompt reads, `usersDir` the listing
      of /Users; `ran` is the commands run, in order. */
  method CreateAccount(user: User, adminInfo: User, isAdmin: bool, stdin: string,
                       usersDir: Result<seq<string>>, shell: Shell)
    returns (r: Run<Error>, ran: seq<Command>)
    ensures user.password == "" ==> r == Returns(Err(EmptyPassword)) && ran == []
    ensures user.password != "" ==> (r.Panics? <==> ChosenName(user.userName, stdin).Panics?)
    ensures user.password != "" && ChosenName(user.userName, stdin) == Returns("") ==>
      r == Returns(Err(CreationSkipped)) && ran == []
    ensures user.password != "" && ChosenName(user.userName, stdin).Returns? ==>
      var name := ChosenName(user.userName, stdin).value;
      name != "" && usersDir.Failure? ==>
        r == Returns(Err("error occurred reading user directory " + name + ": " + usersDir.msg)) && ran == []
    ensures user.password != "" && ChosenName(user.userName, stdin).Returns? ==>
      var name := ChosenName(user.userName, stdin).value;
      name != "" && usersDir.Ok? && ExistsIn(usersDir.value, Utils.FullName(name)) ==>
        r == Returns(Err("user " + name + " already exists in the system")) && ran == []
    ensures ran != [] ==>
      user.password != "" && ChosenName(user.userName, stdin).Returns?
      && var name := ChosenName(user.userName, stdin).value;
      name != "" && usersDir.Ok? && !ExistsIn(usersDir.value, Utils.FullName(name))
      && ran[0] == CreateUserCommand(name, Utils.FullName(name), user.password, AdminArg(isAdmin, user.ignoreAdmin))
    ensures |ran| <= 3
    ensures |ran| >= 2 ==>
      shell(ran[0]).ok
      && ran[1] == FileVault.SecureTokenCommand(ChosenName(user.userName, stdin).value, user.password,
                                                adminInfo.userName, adminInfo.password)
    ensures |ran| == 3 ==>
      shell(ran[1]).ok && user.changePassword
      && ran[2] == ResetPolicyCommand(Utils.FullName(ChosenName(user.userName, stdin).value))
    ensures r == Returns(Nil) <==> AccountCreated(user, adminInfo, isAdmin, stdin, usersDir, shell)
  {
    if user.password == "" {
      return Returns(Err(EmptyPassword)), [];
    }
    var chosen := PromptName(user.userName, stdin);
    if chosen.Panics? {
      return Panics, [];
    }
    var username := chosen.value;
    if username == "" {
      return Returns(Err(CreationSkipped)), [];
    }
    var e;
    e, ran := CreateNamed(user, adminInfo, isAdmin, username, usersDir, shell);
    return Returns(e), ran;
  }

  /** The steps of CreateAccount once a non-empty name is chosen: the full
      name, the admin argument, the existence check and the provisioning. */
  method CreateNamed(user: User, adminInfo: User, isAdmin: bool, username: string,
                     usersDir: Result<seq<string>>, shell: Shell)
    returns (r: Error, ran: seq<Command>)
    ensures usersDir.Failure? ==>
      r == Err("error occurred reading user directory " + username + ": " + usersDir.msg) && ran == []
    ensures usersDir.Ok? && ExistsIn(usersDir.value, Utils.FullName(username)) ==>
      r == Err("user " + username + " already exists in the system") && ran == []
    ensures ran != [] ==>
      usersDir.Ok? && !ExistsIn(usersDir.value, Utils.FullName(username))
      && ran[0] == CreateUserCommand(username, Utils.FullName(username), user.password, AdminArg(isAdmin, user.ignoreAdmin))
    ensures |ran| <= 3
    ensures |ran| >= 2 ==>
      shell(ran[0]).ok
      && ran[1] == FileVault.SecureTokenCommand(username, user.password, adminInfo.userName, adminInfo.password)
    ensures |ran| == 3 ==>
      shell(ran[1]).ok && user.changePassword && ran[2] == ResetPolicyCommand(Utils.FullName(username))
    ensures r == Nil <==>
      usersDir.Ok? && !ExistsIn(usersDir.value, Utils.FullName(username))
      && shell(CreateUserCommand(username, Utils.FullName(username), user.password, AdminArg(isAdmin, user.ignoreAdmin))).ok
      && shell(FileVault.SecureTokenCommand(username, user.password, adminInfo.userName, adminInfo.password)).ok
      && (user.changePassword ==> shell(ResetPolicyCommand(Utils.FullName(username))).ok)
  {
    var fullName := Utils.FormatFullName(username);
    var admin := "false";
    if isAdmin && !user.ignoreAdmin {
      admin := "true";
    }
    var userExists, err := UserExists(fullName, usersDir);
    if err != Nil {
      return Err("error occurred reading user directory " + username + ": " + err.msg), [];
    }
    if userExists {
      return Err("user " + username + " already exists in the system"), [];
    }
    r, ran := Provision(username, fullName, user.password, admin, adminInfo, user.changePassword, shell);
  }

  /** The commands of CreateAccount once the name is settled: create, then the
      secure token, then the optional reset policy, stopping at the first failure. */
  method Provision(username: string, fullName: string, password: string, admin: string, adminInfo: User,
                   changePassword: bool, shell: Shell)
    returns (err: Error, ran: seq<Command>)
    ensures 1 <= |ran| <= 3 && ran[0] == CreateUserCommand(username, fullName, password, admin)
    ensures !shell(ran[0]).ok ==> |ran| == 1
    ensures |ran| >= 2 ==>
      shell(ran[0]).ok && ran[1] == FileVault.SecureTokenCommand(username, password, adminInfo.userName, adminInfo.password)
    ensures |ran| == 3 ==> shell(ran[1]).ok && changePassword && ran[2] == ResetPolicyCommand(fullName)
    ensures err == Nil <==>
      shell(CreateUserCommand(username, fullName, password, admin)).ok
      && shell(FileVault.SecureTokenCommand(username, password, adminInfo.userName, adminInfo.password)).ok
      && (changePassword ==> shell(ResetPolicyCommand(fullName)).ok)
  {
    var cmd := CreateUserCommand(username, fullName, password, admin);
    ran := [cmd];
    var out := shell(cmd);
    if !out.ok {
      return Err("failed to create user " + username + ": " + out.err), ran;
    }
    var tokenErr, tokenRan := FileVault.AddSecureToken(username, password, adminInfo.userName,
                                                       adminInfo.password, shell);
    ran := ran + tokenRan;
    if tokenErr != Nil {
      return tokenErr, ran;
    }
    if changePassword {
      var policy := ResetPolicyCommand(fullName);
      ran := ran + [policy];
      var policyOut := shell(policy);
      if !policyOut.ok {
        return Err("failed to create user policy for " + username + ": " + policyOut.err), ran;
      }
    }
    return Nil, ran;
  }
}
