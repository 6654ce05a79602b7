/** The application firewall: reading its global state and enabling it.
    Neither operation keeps state of its own. */
module Firewall {

  import opened Wrappers
  import opened Text
  import opened Commands

  const StatusCommand: Command := Bash("sudo /usr/libexec/ApplicationFirewall/socketfilterfw --getglobalstate")

  const EnableCommand: Command := Embedded(Commands.EnableFirewall, true, [])

  /** Status: on failure the output is the error; otherwise enabled exactly when
      the output mentions "enabled" in any case. */
  function Status(shell: Shell): (r: Result<bool>)
    ensures r.Failure? <==> !shell(StatusCommand).ok
    ensures r.Failure? ==> r.msg == shell(StatusCommand).output
    ensures r.Ok? ==> (r.value <==> Contains(Lower(shell(StatusCommand).output), "enabled"))
  {
    var out := shell(StatusCommand);
    if !out.ok then Failure(out.output) else Ok(Contains(Lower(out.output), "enabled"))
  }

  /** An output naming the state as enabled, in whatever case, reads as enabled. */
  lemma StatusEnabled(shell: Shell, word: string)
    requires shell(StatusCommand).ok
    requires Contains(shell(StatusCommand).output, word) && Lower(word) == "enabled"
    ensures Status(shell) == Ok(true)
  {
    ContainsLower(shell(StatusCommand).output, word);
  }

  /** Two outputs equal up to case give the same status. */
  lemma StatusIgnoresCase(a: Shell, b: Shell)
    requires a(StatusCommand).ok && b(StatusCommand).ok
    requires Lower(a(StatusCommand).output) == Lower(b(StatusCommand).output)
    ensures Status(a) == Status(b)
  {
  }

  /** Enable: nil on success; otherwise an error carrying the script's output and the exit error. */
  function Enable(shell: Shell): (r: Error)
    ensures r == Nil <==> shell(EnableCommand).ok
    ensures r != Nil ==> Contains(r.msg, shell(EnableCommand).output) && Contains(r.msg, shell(EnableCommand).err)
    ensures r != Nil ==> IsPrefix("failed to enable Firewall: ", r.msg)
  {
    var out := shell(EnableCommand);
    if out.ok then Nil
    else
      var msg := "failed to enable Firewall: " + out.output + " | " + out.err;
      ContainsAt(msg, out.output, |"failed to enable Firewall: "|);
      ContainsAt(msg, out.err, |"failed to enable Firewall: " + out.output + " | "|);
      Err(msg)
  }
}
