/** External processes as the deployment client starts them with `exec.Command`.
    Every interaction with the operating system is one blocking command whose
    observable result is its output text and whether it exited with status zero;
    a `Shell` is the oracle that answers each command. */
module Commands {

  import opened Wrappers

  /** The bash scripts embedded in the binary, run with `bash -c <script> <args...>`. */
  datatype Script = CreateUser | EnableFileVault | EnableFirewall | FindFiles

  datatype Command =
      /** `bash -c <line>` */
    | Bash(line: string)
      /** `sudo bash -c <line>` */
    | SudoBash(line: string)
      /** `[sudo] bash -c <embedded script> <args...>` */
    | Embedded(script: Script, sudo: bool, args: seq<string>)
      /** a program started directly, `exec.Command(argv[0], argv[1:]...)` */
    | Program(argv: seq<string>)

  /** What a finished command reports: its output, whether it exited with
      status zero, and the text of the Go error when it did not. */
  datatype Outcome = Outcome(output: string, ok: bool, err: string)

  /** The operating system, as far as the client can observe it. */
  type Shell = Command -> Outcome

  /** The error value `exec.Command(...).Output()` returns with the outcome. */
  function ErrorOf(o: Outcome): (r: Error)
    ensures r == Nil <==> o.ok
  {
    if o.ok then Nil else Err(o.err)
  }
}
