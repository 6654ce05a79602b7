/** The parts of the YAML configuration the deployment stages read, and the
    check that the required admin account is present. */
module Config {

  import opened Wrappers

  /** An account entry: the admin account or one to create. `changePassword`
      and `applyPolicy` are the flags the account creation and the
      orchestration read from it. */
  datatype User = User(
    userName: string,
    password: string,
    ignoreAdmin: bool,
    changePassword: bool,
    applyPolicy: bool)

  const MissingUsername: string := "missing admin username or it cannot be empty"
  const MissingPassword: string := "missing admin password or it cannot be empty"

  /** validateYAML: the admin account needs a user name and a password; the
      user name is checked first. */
  function ValidateYAML(admin: User): (r: Error)
    ensures r == Nil <==> admin.userName != "" && admin.password != ""
    ensures admin.userName == "" ==> r == Err(MissingUsername)
    ensures admin.userName != "" && admin.password == "" ==> r == Err(MissingPassword)
  {
    if admin.userName == "" then Err(MissingUsername)
    else if admin.password == "" then Err(MissingPassword)
    else Nil
  }
}
