/** FileVault: the status check and enabling, which yields the recovery key,
    and granting a user a secure token. */
module FileVault {

  import opened Wrappers
  import opened Text
  import opened Commands

  /** `fdesetup isactive`, fed the admin password on standard input. */
  function StatusCommand(adminPassword: string): Command
  {
    Bash("sudo -S fdesetup isactive <<< '" + adminPassword + "'")
  }

  /** The embedded enable script, given the admin credentials. */
  function EnableCommand(adminUser: string, adminPassword: string): Command
  {
    Embedded(Commands.EnableFileVault, true, [adminUser, adminPassword])
  }

  /** The status text: trimmed and lower-cased, "unknown" when nothing is left. */
  function NormalizeStatus(out: string): string
  {
    var s := TrimSpace(Lower(out));
    if s == "" then "unknown" else s
  }

  /** A normalised status is never empty, has no upper-case letter and no
      surrounding white space; it is the trimmed lower-cased output, trimming
      and lowering in either order, and "unknown" when that is empty. */
  lemma NormalizedStatusShape(out: string)
    ensures var r := NormalizeStatus(out);
      r != "" && IsLower(r) && !IsSpace(r[0]) && !IsSpace(r[|r| - 1])
      && (TrimSpace(Lower(out)) == "" ==> r == "unknown")
      && (TrimSpace(Lower(out)) != "" ==> r == TrimSpace(Lower(out)) && r == Lower(TrimSpace(out)))
  {
    var s := TrimSpace(Lower(out));
    if s == "" {
      assert NormalizeStatus(out) == "unknown";
      assert IsLower("unknown");
    } else {
      assert NormalizeStatus(out) == s;
      TrimmedLowerIsLower(out);
      LowerTrimSpace(out);
    }
  }

  /** Trimming keeps a lower-cased text lower-cased. */
  lemma TrimmedLowerIsLower(out: string)
    ensures IsLower(TrimSpace(Lower(out)))
  {
    var s := TrimSpace(Lower(out));
    LowerIsLower(out);
    TrimSpaceChars(Lower(out));
    assert forall i :: 0 <= i < |s| ==> s[i] in Lower(out);
  }

  /** Lowering and trimming commute, so the status ignores the case of the output. */
  lemma LowerTrimSpace(out: string)
    ensures Lower(TrimSpace(out)) == TrimSpace(Lower(out))
  {
    LowerTrimLeft(out);
    LowerTrimRight(TrimLeft(out));
  }

  lemma {:induction false} LowerTrimLeft(s: string)
    ensures Lower(TrimLeft(s)) == TrimLeft(Lower(s))
  {
    if s != [] {
      var ls := Lower(s);
      LowerCharSpace(s[0]);
      assert ls[0] == LowerChar(s[0]);
      if IsSpace(s[0]) {
        LowerSlice(s, 1, |s|);
        assert s[1..|s|] == s[1..] && ls[1..|s|] == ls[1..];
        LowerTrimLeft(s[1..]);
        assert TrimLeft(s) == TrimLeft(s[1..]);
        assert TrimLeft(ls) == TrimLeft(ls[1..]);
      } else {
        assert TrimLeft(s) == s;
        assert TrimLeft(ls) == ls;
      }
    }
  }

  lemma {:induction false} LowerTrimRight(s: string)
    ensures Lower(TrimRight(s)) == TrimRight(Lower(s))
  {
    if s != [] {
      var n := |s| - 1;
      var ls := Lower(s);
      LowerCharSpace(s[n]);
      assert ls[n] == LowerChar(s[n]);
      if IsSpace(s[n]) {
        LowerSlice(s, 0, n);
        assert s[0..n] == s[..n] && ls[0..n] == ls[..n];
        LowerTrimRight(s[..n]);
        assert TrimRight(s) == TrimRight(s[..n]);
        assert TrimRight(ls) == TrimRight(ls[..n]);
      } else {
        assert TrimRight(s) == s;
        assert TrimRight(ls) == ls;
      }
    }
  }

  /** A normalised status is its own normal form. */
  lemma StatusIdempotent(out: string)
    ensures NormalizeStatus(NormalizeStatus(out)) == NormalizeStatus(out)
  {
    var r := NormalizeStatus(out);
    NormalizedStatusShape(out);
    LowerOfLower(r);
    TrimSpaceOfTrimmed(r);
  }

  /** The key: the text between the first and the second single quote; Go
      indexes out of range when the output holds no single quote. */
  function KeyOf(out: string): (r: Run<string>)
    ensures r.Panics? <==> '\'' !in out
    ensures r.Returns? ==> '\'' !in r.value
  {
    var outArr := Split(out, '\'');
    CountZero(out, '\'');
    if |outArr| < 2 then Panics else Returns(outArr[1])
  }

  /** Output of the form `<name> = '<key>'...` yields the key. */
  lemma KeyBetweenQuotes(prefix: string, key: string, suffix: string)
    requires '\'' !in prefix && '\'' !in key
    ensures KeyOf(prefix + "'" + key + "'" + suffix) == Returns(key)
  {
    var out := prefix + "'" + key + "'" + suffix;
    assert out == prefix + ['\''] + (key + ['\''] + suffix);
    SplitAtSeparator(prefix, '\'', key + ['\''] + suffix);
    SplitAtSeparator(key, '\'', suffix);
  }

  /** EnableFileVault: the status is read (its exit status ignored); the enable
      script runs only on "false", and its key is returned; a failed script,
      "true" or any other status yield "". */
  method EnableFileVault(adminUser: string, adminPassword: string, shell: Shell)
    returns (key: Run<string>, ran: seq<Command>)
    ensures var status := NormalizeStatus(shell(StatusCommand(adminPassword)).output);
      status != "false" ==> ran == [StatusCommand(adminPassword)] && key == Returns("")
    ensures var status := NormalizeStatus(shell(StatusCommand(adminPassword)).output);
      var enabled := shell(EnableCommand(adminUser, adminPassword));
      status == "false" ==>
        ran == [StatusCommand(adminPassword), EnableCommand(adminUser, adminPassword)]
        && key == (if enabled.ok then KeyOf(enabled.output) else Returns(""))
  {
    var out := shell(StatusCommand(adminPassword));
    ran := [StatusCommand(adminPassword)];
    var fileVaultStatus := NormalizeStatus(out.output);
    key := Returns("");
    if fileVaultStatus == "false" {
      var cmd := EnableCommand(adminUser, adminPassword);
      var enabled := shell(cmd);
      ran := ran + [cmd];
      if enabled.ok {
        key := KeyOf(enabled.output);
      }
    }
  }

  /** The sysadminctl command granting `username` a secure token with the admin's credentials. */
  function SecureTokenCommand(username: string, userPassword: string, adminName: string, adminPassword: string)
    : Command
  {
    Bash("sudo sysadminctl -secureTokenOn '" + username + "' -password '" + userPassword
      + "' -adminUser '" + adminName + "' -adminPassword '" + adminPassword + "'")
  }

  /** addSecureToken: nil exactly when the command succeeds; the error names the user. */
  method AddSecureToken(username: string, userPassword: string, adminName: string, adminPassword: string,
                        shell: Shell)
    returns (err: Error, ran: seq<Command>)
    ensures ran == [SecureTokenCommand(username, userPassword, adminName, adminPassword)]
    ensures err == Nil <==> shell(ran[0]).ok
    ensures err != Nil ==>
      err.msg == "failed to enable secure token for user " + username + ": " + shell(ran[0]).err
  {
    var cmd := SecureTokenCommand(username, userPassword, adminName, adminPassword);
    ran := [cmd];
    var o := shell(cmd);
    if !o.ok {
      return Err("failed to enable secure token for user " + username + ": " + o.err), ran;
    }
    return Nil, ran;
  }
}
