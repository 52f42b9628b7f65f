/**
 * FTPUserManager: username rules, account creation and deletion, password
 * changes, the credentials log and the listing of allowed users. The
 * system the script drives is a parameter: which command lines exit with
 * status 0, whether chpasswd accepts a `user:password` line, which paths
 * exist, and whether the two files the manager edits can be written. Those
 * files, the allowed-users list and the credentials CSV, are fields
 * holding their contents.
 */
module FtpUsers {
  import opened Wrappers
  import opened Text
  import UserList
  import Password
  import PosixPath

  // ---------------------------------------------------------------------
  // validate_username
  // ---------------------------------------------------------------------

  /** The names validate_username turns away. */
  const Reserved: seq<string> := ["root", "admin", "administrator", "ftp", "test"]

  /** `c.isalpha()` on ASCII characters. */
  predicate IsLetter(c: char) {
    'a' <= c <= 'z' || 'A' <= c <= 'Z'
  }

  /** `c.isalnum()` on ASCII characters. */
  predicate IsAlnum(c: char) {
    IsLetter(c) || '0' <= c <= '9'
  }

  /** `c.isalnum() or c in '-_'`. */
  predicate IsNameChar(c: char) {
    IsAlnum(c) || c == '-' || c == '_'
  }

  /** Every character is a letter, a digit, '-' or '_'. */
  predicate NameChars(s: string) {
    forall i :: 0 <= i < |s| ==> IsNameChar(s[i])
  }

  /** validate_username: the first failing check decides the message. */
  function ValidateUsername(username: string): (r: (bool, string))
    ensures r.0 <==> r.1 == []
    ensures username == [] ==> r == (false, "Username cannot be empty")
  {
    if username == [] then (false, "Username cannot be empty")
    else if |username| < 3 then (false, "Username must be at least 3 characters")
    else if |username| > 32 then (false, "Username must be 32 characters or less")
    else if !IsLetter(username[0]) then (false, "Username must start with a letter")
    else if !NameChars(username) then
      (false, "Username can only contain letters, numbers, hyphens, and underscores")
    else if username in Reserved then (false, "Username is reserved")
    else (true, "")
  }

  /** The checks of validate_username, in the order it runs them. */
  datatype Rule = NotEmpty | MinLength | MaxLength | LetterFirst | AllowedChars | NotReserved

  const Rules: seq<Rule> := [NotEmpty, MinLength, MaxLength, LetterFirst, AllowedChars, NotReserved]

  /** What each check demands of the name. */
  predicate Holds(rule: Rule, username: string) {
    match rule
    case NotEmpty => username != []
    case MinLength => |username| >= 3
    case MaxLength => |username| <= 32
    case LetterFirst => username != [] && IsLetter(username[0])
    case AllowedChars => NameChars(username)
    case NotReserved => username !in Reserved
  }

  /** The message each check reports when it fails. */
  function Message(rule: Rule): (m: string)
    ensures m != []
  {
    match rule
    case NotEmpty => "Username cannot be empty"
    case MinLength => "Username must be at least 3 characters"
    case MaxLength => "Username must be 32 characters or less"
    case LetterFirst => "Username must start with a letter"
    case AllowedChars => "Username can only contain letters, numbers, hyphens, and underscores"
    case NotReserved => "Username is reserved"
  }

  /** The first rule of `rules` the name breaks, if any. */
  function FirstFailing(rules: seq<Rule>, username: string): (r: Option<Rule>)
    ensures r.None? <==> forall k :: 0 <= k < |rules| ==> Holds(rules[k], username)
    ensures r.Some? ==> r.value in rules && !Holds(r.value, username)
  {
    if rules == [] then None
    else if !Holds(rules[0], username) then Some(rules[0])
    else FirstFailing(rules[1..], username)
  }

  /** Every rule before the reported one holds. */
  lemma {:induction false} FirstFailingIsFirst(rules: seq<Rule>, username: string)
    requires FirstFailing(rules, username).Some?
    ensures exists k :: 0 <= k < |rules| && rules[k] == FirstFailing(rules, username).value
                       && forall j :: 0 <= j < k ==> Holds(rules[j], username)
  {
    if Holds(rules[0], username) {
      FirstFailingIsFirst(rules[1..], username);
      var k :| 0 <= k < |rules[1..]| && rules[1..][k] == FirstFailing(rules, username).value
        && forall j :: 0 <= j < k ==> Holds(rules[1..][j], username);
      assert rules[k + 1] == FirstFailing(rules, username).value;
      forall j | 0 <= j < k + 1 ensures Holds(rules[j], username) {
        if j > 0 { assert rules[j] == rules[1..][j - 1]; }
      }
    } else {
      assert rules[0] == FirstFailing(rules, username).value;
    }
  }

  /** The first broken rule of a list is its head, or else the first broken rule of its tail. */
  lemma FirstFailingCons(rule: Rule, rest: seq<Rule>, username: string)
    ensures FirstFailing([rule] + rest, username) ==
      if !Holds(rule, username) then Some(rule) else FirstFailing(rest, username)
  {
    assert ([rule] + rest)[1..] == rest;
  }

  /** The first broken rule of the list validate_username checks, rule by rule. */
  lemma RulesFirstFailing(u: string)
    ensures FirstFailing(Rules, u) ==
      if !Holds(NotEmpty, u) then Some(NotEmpty)
      else if !Holds(MinLength, u) then Some(MinLength)
      else if !Holds(MaxLength, u) then Some(MaxLength)
      else if !Holds(LetterFirst, u) then Some(LetterFirst)
      else if !Holds(AllowedChars, u) then Some(AllowedChars)
      else if !Holds(NotReserved, u) then Some(NotReserved)
      else None
  {
    var r6: seq<Rule> := [NotReserved];
    var r5 := [AllowedChars] + r6;
    var r4 := [LetterFirst] + r5;
    var r3 := [MaxLength] + r4;
    var r2 := [MinLength] + r3;
    assert Rules == [NotEmpty] + r2;
    assert r6 == [NotReserved] + [];
    FirstFailingCons(NotReserved, [], u);
    FirstFailingCons(AllowedChars, r6, u);
    FirstFailingCons(LetterFirst, r5, u);
    FirstFailingCons(MaxLength, r4, u);
    FirstFailingCons(MinLength, r3, u);
    FirstFailingCons(NotEmpty, r2, u);
  }

  /** validate_username is "report the first broken rule, in order". */
  lemma ValidateIsFirstFailure(username: string)
    ensures ValidateUsername(username) ==
      match FirstFailing(Rules, username)
      case None => (true, "")
      case Some(rule) => (false, Message(rule))
  {
    RulesFirstFailing(username);
    var u := username;
    if u == [] {
      assert FirstFailing(Rules, u) == Some(NotEmpty);
      assert ValidateUsername(u) == (false, Message(NotEmpty));
    } else if |u| < 3 {
      assert FirstFailing(Rules, u) == Some(MinLength);
      assert ValidateUsername(u) == (false, Message(MinLength));
    } else if |u| > 32 {
      assert FirstFailing(Rules, u) == Some(MaxLength);
      assert ValidateUsername(u) == (false, Message(MaxLength));
    } else if !IsLetter(u[0]) {
      assert FirstFailing(Rules, u) == Some(LetterFirst);
      assert ValidateUsername(u) == (false, Message(LetterFirst));
    } else if !Holds(AllowedChars, u) {
      assert FirstFailing(Rules, u) == Some(AllowedChars);
      assert ValidateUsername(u) == (false, Message(AllowedChars));
    } else {
      if u in Reserved {
        assert FirstFailing(Rules, u) == Some(NotReserved);
        assert ValidateUsername(u) == (false, Message(NotReserved));
      } else {
        assert FirstFailing(Rules, u) == None;
      }
    }
  }

  /** The accepted names, stated rule by rule. */
  lemma ValidateAccepts(username: string)
    ensures ValidateUsername(username).0 <==>
      && 3 <= |username| <= 32
      && IsLetter(username[0])
      && (forall i :: 0 <= i < |username| ==> IsNameChar(username[i]))
      && username !in Reserved
  {
  }

  /**
   * An accepted name is one whitespace-free word, never a comment line,
   * and a single path component that pathlib appends as it is.
   */
  lemma AcceptedIsToken(username: string)
    requires ValidateUsername(username).0
    ensures IsToken(username) && username[0] != '#'
    ensures PosixPath.IsComponent(username)
  {
    forall i | 0 <= i < |username| ensures !IsSpace(username[i]) {
      assert IsNameChar(username[i]);
    }
  }

  // ---------------------------------------------------------------------
  // The system and the files
  // ---------------------------------------------------------------------

  /**
   * What the manager learns from the system: whether a command line exits
   * with status 0, whether chpasswd accepts a `user:password` line on its
   * input, whether a path exists, and whether opening the allowed-users
   * file or the credentials file for writing succeeds.
   */
  datatype System = System(
    runs: seq<string> -> bool,
    chpasswd: string -> bool,
    pathExists: string -> bool,
    userlistWritable: bool,
    credentialsWritable: bool)

  /** user_exists: `id <name>` succeeds. */
  predicate UserExists(sys: System, username: string) {
    sys.runs(["id", username])
  }

  /** The header _log_credentials writes to a new credentials file. */
  const Header: seq<string> := ["Timestamp", "Username", "Password", "Home Directory", "Files Directory"]

  /** How list_users reports a listed name. */
  datatype Status = Active | MissingDirectories | UserMissing

  /** One line of list_users' table. */
  datatype Row = Row(username: string, homeDir: string, status: Status)

  /**
   * How delete_user ends: it returns its flag, or the OSError from
   * reopening the allowed-users file for writing escapes it, since only
   * a failing command is caught.
   */
  datatype Deletion = Returned(success: bool) | RaisesOSError

  class FtpUserManager {
    const policy: Password.Policy
    const ftpRoot: string
    const shell: string
    const group: string
    const loggingEnabled: bool

    /** The allowed-users file as lines, None while it does not exist. */
    var allowedUsers: Option<seq<string>>

    /** The credentials CSV as rows, None while it does not exist. */
    var credentials: Option<seq<seq<string>>>

    /** The allowed-users file is a text file. */
    predicate Valid()
      reads this
    {
      allowedUsers.Some? ==> UserList.WellFormed(allowedUsers.value)
    }

    constructor (policy: Password.Policy, ftpRoot: string, shell: string, group: string, loggingEnabled: bool,
                 allowedUsers: Option<seq<string>>, credentials: Option<seq<seq<string>>>)
      requires allowedUsers.Some? ==> UserList.WellFormed(allowedUsers.value)
      ensures Valid()
      ensures this.policy == policy && this.ftpRoot == ftpRoot && this.shell == shell && this.group == group
      ensures this.loggingEnabled == loggingEnabled
      ensures this.allowedUsers == allowedUsers && this.credentials == credentials
    {
      this.policy := policy;
      this.ftpRoot := ftpRoot;
      this.shell := shell;
      this.group := group;
      this.loggingEnabled := loggingEnabled;
      this.allowedUsers := allowedUsers;
      this.credentials := credentials;
    }

    /**
     * The home the credentials log and list_users report: the f-string
     * `<ftp_root>/<name>`, with the root as configured.
     */
    function HomeDir(username: string): (d: string)
      reads this
      ensures |d| == |ftpRoot| + 1 + |username|
      ensures StartsWith(d, ftpRoot) && d[|ftpRoot|] == '/' && d[|ftpRoot| + 1..] == username
    {
      ftpRoot + "/" + username
    }

    /** The user's writable directory, `<ftp_root>/<name>/files`. */
    function FilesDir(username: string): (d: string)
      reads this
      ensures StartsWith(d, HomeDir(username)) && d[|HomeDir(username)|..] == "/files"
    {
      HomeDir(username) + "/files"
    }

    /**
     * The account create_user asks useradd for. Its home is
     * `str(Path(ftp_root) / name)`, which pathlib normalizes.
     */
    function UseraddArgv(username: string): (argv: seq<string>)
      requires PosixPath.IsComponent(username)
      reads this
      ensures |argv| == 9 && argv[0] == "useradd" && argv[1] == "-m" && argv[8] == username
      ensures argv[2] == "-d" && argv[3] == PosixPath.JoinName(ftpRoot, username)
      ensures argv[4] == "-s" && argv[5] == shell && argv[6] == "-G" && argv[7] == group
    {
      var home := PosixPath.JoinName(ftpRoot, username);
      ["useradd", "-m", "-d", home] + ["-s", shell, "-G", group] + [username]
    }

    /**
     * With a root already in pathlib's form, the home useradd creates is the
     * home the credentials log and list_users report.
     */
    lemma UseraddHomeMatchesLog(username: string)
      requires PosixPath.IsComponent(username)
      requires PosixPath.Normal(ftpRoot) && PosixPath.Parts(ftpRoot) != []
      ensures UseraddArgv(username)[3] == HomeDir(username)
    {
      PosixPath.JoinNameOfNormal(ftpRoot, username);
    }

    /** The row _log_credentials appends. */
    function CredentialRow(timestamp: string, username: string, password: string): (row: seq<string>)
      reads this
      ensures |row| == |Header|
      ensures row[1] == username && row[2] == password
      ensures row[3] == HomeDir(username) && row[4] == FilesDir(username)
    {
      [timestamp, username, password, HomeDir(username), FilesDir(username)]
    }

    /**
     * _log_credentials: with logging enabled, one row for the account, after
     * the header when the file is new. A file that cannot be opened for
     * writing raises IOError, which is caught: nothing is written and the
     * caller carries on.
     */
    method LogCredentials(sys: System, username: string, password: string, timestamp: string)
      modifies this
      ensures allowedUsers == old(allowedUsers)
      ensures !loggingEnabled || !sys.credentialsWritable ==> credentials == old(credentials)
      ensures loggingEnabled && sys.credentialsWritable ==>
        credentials == Some((if old(credentials).Some? then old(credentials).value else [Header])
                            + [CredentialRow(timestamp, username, password)])
    {
      if !loggingEnabled {
        return;
      }
      if !sys.credentialsWritable {
        return;
      }
      var rows := [];
      if credentials.Some? {
        rows := credentials.value;
      } else {
        rows := [Header];
      }
      rows := rows + [CredentialRow(timestamp, username, password)];
      credentials := Some(rows);
    }

    /** The allowed-users file exists and some line of it strips to the name. */
    predicate ListedAlready(username: string)
      reads this
    {
      allowedUsers.Some? && UserList.Listed(allowedUsers.value, username)
    }

    /**
     * The allowed-list step of create_user: create the file if missing,
     * collect the stripped lines, and append the name when none equals it.
     * The last line gets its terminator first, so the name starts a line.
     * Creating or appending to a file that cannot be written raises, and
     * the step fails with the file as it was.
     */
    method AddToAllowedUsers(sys: System, username: string) returns (ok: bool)
      requires Valid() && IsToken(username)
      modifies this
      ensures Valid()
      ensures credentials == old(credentials)
      ensures ok <==> sys.userlistWritable || old(ListedAlready(username))
      ensures ok ==>
        allowedUsers == Some(UserList.Add(if old(allowedUsers).Some? then old(allowedUsers).value else [], username))
      ensures !ok ==> allowedUsers == old(allowedUsers)
    {
      if allowedUsers.None? {
        if !sys.userlistWritable {
          return false;
        }
        allowedUsers := Some([]);
      }
      var lines := allowedUsers.value;
      ghost var before := lines;
      UserList.AddWellFormed(before, username);
      var existing := UserList.Stripped(lines);
      if username !in existing {
        if !sys.userlistWritable {
          return false;
        }
        if lines != [] && !UserList.Terminated(lines[|lines| - 1]) {
          lines := lines[|lines| - 1 := lines[|lines| - 1] + "\n"];
        }
        assert lines == UserList.Terminate(before);
        lines := lines + [username + "\n"];
        allowedUsers := Some(lines);
      }
      return true;
    }

    /**
     * create_user. An invalid or existing name returns at once with nothing
     * changed; so does a failing useradd or chpasswd, and so does an
     * allowed-users file that cannot take the name. Otherwise the name is
     * in the allowed list and, with logging enabled and a writable
     * credentials file, its credentials are logged. A missing password is
     * generated from the policy.
     */
    method CreateUser(sys: System, username: string, password: Option<string>, timestamp: string,
                      draw: nat -> nat, pick: nat -> nat)
      returns (success: bool, name: string, secret: string)
      requires Valid()
      requires ValidateUsername(username).0 && !UserExists(sys, username) && password.None? ==>
        Password.CanGenerate(policy)
      modifies this
      ensures Valid()
      ensures name == username
      ensures !ValidateUsername(username).0 || UserExists(sys, username) ==>
        !success && secret == [] && allowedUsers == old(allowedUsers) && credentials == old(credentials)
      ensures success <==>
        && ValidateUsername(username).0
        && !UserExists(sys, username)
        && sys.runs(UseraddArgv(username))
        && sys.chpasswd(username + ":" + NewSecret(password, draw, pick))
        && (sys.userlistWritable || old(ListedAlready(username)))
      ensures !success ==> secret == [] && allowedUsers == old(allowedUsers) && credentials == old(credentials)
      ensures success ==> secret == NewSecret(password, draw, pick)
      ensures success ==>
        allowedUsers == Some(UserList.Add(if old(allowedUsers).Some? then old(allowedUsers).value else [], username))
      ensures success && loggingEnabled && sys.credentialsWritable ==>
        credentials == Some((if old(credentials).Some? then old(credentials).value else [Header])
          + [CredentialRow(timestamp, username, secret)])
      ensures success && (!loggingEnabled || !sys.credentialsWritable) ==> credentials == old(credentials)
    {
      name := username;
      var valid, message := ValidateUsername(username).0, ValidateUsername(username).1;
      if !valid {
        return false, username, "";
      }
      if UserExists(sys, username) {
        return false, username, "";
      }
      var pw: string;
      if password.None? {
        pw := Password.Generate(policy, draw, pick);
      } else {
        pw := password.value;
      }
      AcceptedIsToken(username);
      if !sys.runs(UseraddArgv(username)) {
        return false, username, "";
      }
      if !sys.chpasswd(username + ":" + pw) {
        return false, username, "";
      }
      var listed := AddToAllowedUsers(sys, username);
      if !listed {
        return false, username, "";
      }
      LogCredentials(sys, username, pw, timestamp);
      return true, username, pw;
    }

    /** The password given, or else the one generated from the policy. */
    function NewSecret(password: Option<string>, draw: nat -> nat, pick: nat -> nat): (secret: string)
      requires password.None? ==> Password.CanGenerate(policy)
      reads this
      ensures password.Some? ==> secret == password.value
      ensures password.None? ==> multiset(secret) == multiset(Password.Drawn(policy, draw))
    {
      if password.Some? then password.value else Password.Generated(policy, draw, pick)
    }

    /** The command delete_user runs: `userdel [-r] <name>`. */
    function UserdelArgv(username: string, removeHome: bool): (argv: seq<string>)
      ensures |argv| >= 2 && argv[0] == "userdel" && argv[|argv| - 1] == username
      ensures "-r" in argv[..|argv| - 1] <==> removeHome
    {
      ["userdel"] + (if removeHome then ["-r"] else []) + [username]
    }

    /**
     * delete_user: an unknown user or a failing userdel changes nothing and
     * returns False. After userdel succeeds, an existing allowed-users file
     * that cannot be reopened for writing raises, leaving the file as it
     * was; otherwise the file, if there is one, keeps exactly the lines
     * that do not strip to the name, and the call returns True.
     */
    method DeleteUser(sys: System, username: string, removeHome: bool) returns (r: Deletion)
      requires Valid()
      modifies this
      ensures Valid()
      ensures credentials == old(credentials)
      ensures r == Returned(false) <==> !UserExists(sys, username) || !sys.runs(UserdelArgv(username, removeHome))
      ensures r == RaisesOSError <==>
        && UserExists(sys, username) && sys.runs(UserdelArgv(username, removeHome))
        && old(allowedUsers).Some? && !sys.userlistWritable
      ensures r == Returned(true) ==> old(allowedUsers).None? || sys.userlistWritable
      ensures r != Returned(true) ==> allowedUsers == old(allowedUsers)
      ensures r == Returned(true) ==>
        allowedUsers == if old(allowedUsers).Some? then Some(UserList.Without(old(allowedUsers).value, username)) else None
    {
      if !UserExists(sys, username) {
        return Returned(false);
      }
      var cmd := ["userdel"];
      if removeHome {
        cmd := cmd + ["-r"];
      }
      cmd := cmd + [username];
      assert cmd == UserdelArgv(username, removeHome);
      if !sys.runs(cmd) {
        return Returned(false);
      }
      if allowedUsers.Some? {
        var lines := allowedUsers.value;
        if !sys.userlistWritable {
          return RaisesOSError;
        }
        var kept: seq<string> := [];
        for i := 0 to |lines|
          invariant kept == UserList.Without(lines[..i], username)
          invariant allowedUsers == old(allowedUsers) && credentials == old(credentials)
        {
          if Strip(lines[i]) != username {
            kept := kept + [lines[i]];
          }
          UserList.WithoutConcat(lines[..i], [lines[i]], username);
          assert lines[..i + 1] == lines[..i] + [lines[i]];
        }
        assert lines[..|lines|] == lines;
        UserList.WithoutWellFormed(lines, username);
        allowedUsers := Some(kept);
      }
      return Returned(true);
    }

    /**
     * change_password: an unknown user or a refused password changes
     * nothing; otherwise the new password is logged when logging is enabled
     * and the credentials file can be written, and the change succeeds
     * either way. A missing password is generated from the policy.
     */
    method ChangePassword(sys: System, username: string, newPassword: Option<string>, timestamp: string,
                          draw: nat -> nat, pick: nat -> nat)
      returns (success: bool, secret: string)
      requires UserExists(sys, username) && newPassword.None? ==> Password.CanGenerate(policy)
      modifies this
      ensures allowedUsers == old(allowedUsers)
      ensures success <==> UserExists(sys, username) && sys.chpasswd(username + ":" + NewSecret(newPassword, draw, pick))
      ensures !success ==> secret == [] && credentials == old(credentials)
      ensures success ==> secret == NewSecret(newPassword, draw, pick)
      ensures success && loggingEnabled && sys.credentialsWritable ==>
        credentials == Some((if old(credentials).Some? then old(credentials).value else [Header])
          + [CredentialRow(timestamp, username, secret)])
      ensures success && (!loggingEnabled || !sys.credentialsWritable) ==> credentials == old(credentials)
    {
      if !UserExists(sys, username) {
        return false, "";
      }
      var pw: string;
      if newPassword.None? {
        pw := Password.Generate(policy, draw, pick);
      } else {
        pw := newPassword.value;
      }
      if !sys.chpasswd(username + ":" + pw) {
        return false, "";
      }
      LogCredentials(sys, username, pw, timestamp);
      return true, pw;
    }

    /** How list_users reports one listed name. */
    function RowFor(sys: System, username: string): (row: Row)
      reads this
      ensures row.username == username
      ensures row.status == UserMissing <==> !UserExists(sys, username)
      ensures row.status == UserMissing ==> row.homeDir == "N/A"
      ensures row.status != UserMissing ==> row.homeDir == HomeDir(username)
      ensures row.status == Active <==> UserExists(sys, username) && sys.pathExists(HomeDir(username))
    {
      if UserExists(sys, username) then
        Row(username, HomeDir(username), if sys.pathExists(HomeDir(username)) then Active else MissingDirectories)
      else
        Row(username, "N/A", UserMissing)
    }

    /**
     * list_users: nothing when the file is missing; otherwise one row per
     * non-blank, non-comment line, in file order.
     */
    method ListUsers(sys: System) returns (rows: Option<seq<Row>>)
      ensures rows.None? <==> allowedUsers.None?
      ensures rows.Some? ==> |rows.value| == |UserList.Entries(allowedUsers.value)|
      ensures rows.Some? ==> forall k :: 0 <= k < |rows.value| ==>
        rows.value[k] == RowFor(sys, UserList.Entries(allowedUsers.value)[k])
    {
      if allowedUsers.None? {
        return None;
      }
      var users := UserList.Entries(allowedUsers.value);
      var table: seq<Row> := [];
      for i := 0 to |users|
        invariant |table| == i
        invariant forall k :: 0 <= k < i ==> table[k] == RowFor(sys, users[k])
      {
        table := table + [RowFor(sys, users[i])];
      }
      return Some(table);
    }
  }
}
