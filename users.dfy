/**
 * The user credential store of auth/users.go: a map from username to user,
 * seeded with the administrator at startup and queried at login. Password
 * hashing is bcrypt's and is supplied as a Bcrypt value.
 */
module Users {
  import opened Results

  datatype User = User(username: string, passwordHash: string)

  datatype UserError =
    | AdminUsernameRequired
    | AdminPasswordRequired
    | AdminPasswordTooShort
    | AdminPasswordHashFailed
      /** The one error `ValidateCredentials` gives, for unknown users and wrong passwords alike. */
    | InvalidCredentials
    | UserAlreadyExists
    | PasswordHashFailed

  /**
   * bcrypt's `GenerateFromPassword` (None is an error; the salt is the
   * function's business) and `CompareHashAndPassword` (true when they match).
   */
  datatype Bcrypt = Bcrypt(generate: string -> Option<string>, matches: (string, string) -> bool) {
    /** A hash bcrypt produced for a password matches that password. */
    ghost predicate Sound() {
      forall pw :: generate(pw).Some? ==> matches(generate(pw).value, pw)
    }
  }

  const MinPasswordBytes: nat := 8

  /** The number of bytes of the UTF-8 encoding of `s`: Go's `len` of a string. */
  function Utf8Length(s: string): (n: nat)
    ensures |s| <= n <= 4 * |s|
    ensures (forall i :: 0 <= i < |s| ==> s[i] as int < 0x80) ==> n == |s|
  {
    if s == [] then 0
    else
      var c := s[0] as int;
      (if c < 0x80 then 1 else if c < 0x800 then 2 else if c < 0x1_0000 then 3 else 4) + Utf8Length(s[1..])
  }

  /** The configuration checks of `InitializeUsers`, in the order the source makes them. */
  function CheckAdminConfig(adminUsername: string, adminPassword: string): (r: Outcome<UserError>)
    ensures r.Pass? <==> adminUsername != "" && adminPassword != "" && Utf8Length(adminPassword) >= MinPasswordBytes
    ensures adminUsername == "" ==> r == Fail(AdminUsernameRequired)
    ensures adminUsername != "" && adminPassword == "" ==> r == Fail(AdminPasswordRequired)
    ensures adminUsername != "" && adminPassword != "" && Utf8Length(adminPassword) < MinPasswordBytes ==>
      r == Fail(AdminPasswordTooShort)
  {
    if adminUsername == "" then Fail(AdminUsernameRequired)
    else if adminPassword == "" then Fail(AdminPasswordRequired)
    else if Utf8Length(adminPassword) < MinPasswordBytes then Fail(AdminPasswordTooShort)
    else Pass
  }

  /**
   * For an ASCII password and a non-empty username, the configuration passes
   * exactly when the password has at least eight characters.
   */
  lemma AsciiPasswordBoundary(adminUsername: string, adminPassword: string)
    requires adminUsername != ""
    requires forall i :: 0 <= i < |adminPassword| ==> adminPassword[i] as int < 0x80
    ensures CheckAdminConfig(adminUsername, adminPassword).Pass? <==> |adminPassword| >= MinPasswordBytes
  {
  }

  /** The registered accounts, keyed by username. */
  class UserStore {
    var users: map<string, User>

    /** Every user is filed under its own name. */
    ghost predicate Valid()
      reads this
    {
      forall u :: u in users ==> users[u].username == u
    }

    constructor ()
      ensures Valid() && users == map[]
    {
      users := map[];
    }

    /**
     * `InitializeUsers`, with the values of ADMIN_USERNAME and ADMIN_PASSWORD
     * (empty when unset).
     */
    method InitializeUsers(adminUsername: string, adminPassword: string, bcrypt: Bcrypt) returns (r: Outcome<UserError>)
      requires Valid()
      modifies this
      ensures Valid()
      ensures CheckAdminConfig(adminUsername, adminPassword).Fail? ==>
        r == CheckAdminConfig(adminUsername, adminPassword) && users == old(users)
      ensures CheckAdminConfig(adminUsername, adminPassword).Pass? && bcrypt.generate(adminPassword).None? ==>
        r == Fail(AdminPasswordHashFailed) && users == old(users)
      ensures r.Pass? <==> CheckAdminConfig(adminUsername, adminPassword).Pass? && bcrypt.generate(adminPassword).Some?
      ensures r.Pass? ==>
        users == old(users)[adminUsername := User(adminUsername, bcrypt.generate(adminPassword).value)]
      ensures r.Pass? && bcrypt.Sound() ==> ValidateCredentials(adminUsername, adminPassword, bcrypt) == Pass
    {
      if adminUsername == "" {
        return Fail(AdminUsernameRequired);
      }
      if adminPassword == "" {
        return Fail(AdminPasswordRequired);
      }
      if Utf8Length(adminPassword) < MinPasswordBytes {
        return Fail(AdminPasswordTooShort);
      }
      var hash := bcrypt.generate(adminPassword);
      if hash.None? {
        return Fail(AdminPasswordHashFailed);
      }
      users := users[adminUsername := User(adminUsername, hash.value)];
      r := Pass;
    }

    /**
     * `ValidateCredentials`: succeeds exactly for a known user whose stored hash
     * matches the password, and fails with one error otherwise.
     */
    function ValidateCredentials(username: string, password: string, bcrypt: Bcrypt): (r: Outcome<UserError>)
      reads this
      ensures r.Pass? <==> username in users && bcrypt.matches(users[username].passwordHash, password)
      ensures r.Fail? ==> r.error == InvalidCredentials
    {
      if username !in users then Fail(InvalidCredentials)
      else if !bcrypt.matches(users[username].passwordHash, password) then Fail(InvalidCredentials)
      else Pass
    }

    /** `AddUser`: registers a new user; an existing name is refused. */
    method AddUser(username: string, password: string, bcrypt: Bcrypt) returns (r: Outcome<UserError>)
      requires Valid()
      modifies this
      ensures Valid()
      ensures username in old(users) ==> r == Fail(UserAlreadyExists) && users == old(users)
      ensures username !in old(users) && bcrypt.generate(password).None? ==>
        r == Fail(PasswordHashFailed) && users == old(users)
      ensures r.Pass? <==> username !in old(users) && bcrypt.generate(password).Some?
      ensures r.Pass? ==>
        && users == old(users)[username := User(username, bcrypt.generate(password).value)]
        && GetUserCount() == old(GetUserCount()) + 1
      ensures r.Pass? && bcrypt.Sound() ==> ValidateCredentials(username, password, bcrypt) == Pass
    {
      if username in users {
        return Fail(UserAlreadyExists);
      }
      var hash := bcrypt.generate(password);
      if hash.None? {
        return Fail(PasswordHashFailed);
      }
      users := users[username := User(username, hash.value)];
      r := Pass;
    }

    /** `GetUserCount`: the number of registered users. */
    function GetUserCount(): (n: nat)
      reads this
      ensures n == |users.Keys|
    {
      |users|
    }

    /** `UserExists`: whether `username` is registered, in which case its record carries that name. */
    function UserExists(username: string): (b: bool)
      reads this
      ensures b <==> username in users.Keys
      ensures b && Valid() ==> users[username].username == username
    {
      username in users
    }
  }
}
