# FTP user management, FTP diagnostics and Tailscale setup, in Dafny

This project models three Python scripts that administer a small FTP/SFTP
server and its Tailscale VPN link:

- `ftp/ftp_users.py` covers two things. `PasswordGenerator.generate` builds
  passwords from a policy. `FTPUserManager` validates usernames, creates and
  deletes accounts, changes passwords, keeps the vsftpd allowed-users list
  and the credentials CSV, and lists users.
- `tailscale/tailscale_setup.py` holds `TailscaleSetup`. It installs
  Tailscale, enables IP forwarding, logs in, sets an exit node, verifies the
  result and prints a summary.
- `ftp/ftp_debug.py` holds `FTPDebugger`. It runs a series of checks that
  file messages into three lists (passed checks, warnings and issues),
  counts them, and suggests fixes for the issues.

Modules:

- `Wrappers` defines `Option`.
- `Text` holds the Python string operations the scripts rely on: `strip`,
  `lower`, `split()`, `split(sep)`, `sep.join`, `startswith` and substring
  tests.
- `PosixPath` holds what pathlib does to `Path(root) / name`: it keeps the
  anchor and drops empty and `.` components.
- `UserList` treats the allowed-users file as the list of lines Python
  reads.
- `Password` is the generator.
- `FtpUsers` is the user manager. It is a class whose two files are fields.
- `TailscaleSetup` is the setup. It is a class that records every command
  it runs and the contents of the sysctl drop-in file it writes.
- `FtpDebug` is the debugger. It is a class holding the three result lists.
- `FtpFixes` holds the facts about the fixes the debugger suggests for its
  own issues.

The world outside the scripts is passed in as parameters:

- **Commands.** Whether a command exits with status 0, and what it prints.
  In `TailscaleSetup` this can depend on how many commands ran before it,
  and the host also says whether the command's program can be started at
  all. A `tailscale` that is not on the PATH, as a failed install leaves
  the host, raises FileNotFoundError. Where the code catches only
  CalledProcessError (`is_installed`, `configure_exit_node`, `show_ip`,
  `show_status`), that error escapes and ends `run`. Elsewhere it is caught
  and counts as a failure.
- **Files.** Whether a path exists, the file contents read, and whether the
  allowed-users file, the credentials file and the sysctl drop-in can be
  written.
- **Randomness.** Two streams: `draw(k)` picks the k-th `secrets.choice`
  as index `draw(k) % len(alphabet)`, and `pick(k)` gives the k-th swap
  partner of the shuffle.
- **Time.** The timestamp is a parameter.

State the scripts change in place becomes class fields:

- In `FtpUserManager`: the allowed-users file and the credentials file.
- In `Setup`: the commands run and the sysctl file.
- In `FTPDebugger`: the three lists.

Methods that change state are proved against specification functions of
the inputs and the old state. The properties are proved as lemmas about
those functions.

A generated password has the policy's `length` only when the class
minimums fit in it. Otherwise it has exactly as many characters as the
minimums require, as the code does (`Password.DrawnLength`).

## Model

| member | source | states |
|---|---|---|
| Text.Strip | ftp/ftp_users.py:233 | `strip()` never lengthens a line |
| Text.StripEnds | ftp/ftp_users.py:233 | what `strip()` leaves neither starts nor ends with whitespace |
| Text.StripBlank | ftp/ftp_users.py:389 | `line.strip()` is empty exactly when the line is all whitespace |
| Text.StripContained | ftp/ftp_users.py:233 | what `strip()` leaves occurs in the original line |
| Text.StripTrims | ftp/ftp_users.py:233 | `strip()` removes only whitespace: the result is the line between a blank prefix and a blank suffix |
| Text.StripTokenLine | ftp/ftp_users.py:233-237 | a name written with its newline strips back to the name |
| Text.Lower | ftp/ftp_debug.py:385 | `lower()` keeps the length and lowers each character in place (ASCII letters) |
| Text.ContainsMatch | ftp/ftp_debug.py:103 | `t in s` holds exactly when `t` occurs in `s` at some index |
| Text.Words | ftp/ftp_debug.py:386 | every word of `split()` is a non-empty run without whitespace |
| Text.WordsAppend | ftp/ftp_debug.py:386 | `split()` of two texts joined by a blank is the words of the first followed by the words of the second |
| Text.WordsNonEmpty | ftp/ftp_debug.py:386 | text holding a non-whitespace character has a first word, so `split()[0]` exists |
| Text.Split | ftp/ftp_debug.py:320 | `split('\n')` gives at least one piece, and no piece contains the separator |
| Text.JoinSplit | ftp/ftp_debug.py:320 | joining the pieces of a split with the separator gives the text back |
| Text.Join | tailscale/tailscale_setup.py:181 | `','.join` of a single route is that route |
| Text.SplitJoin | tailscale/tailscale_setup.py:181 | splitting a comma-join of comma-free routes gives the routes back |
| UserList.Stripped | ftp/ftp_users.py:233 | one stripped entry per line of the file, in order |
| UserList.Entries | ftp/ftp_users.py:389 | the listed names are non-empty, at most one per line |
| UserList.Without | ftp/ftp_users.py:325-328 | delete_user's rewrite never adds lines |
| UserList.EntriesMember | ftp/ftp_users.py:389 | a name is listed exactly when some non-blank line not starting with `#` strips to it |
| UserList.WithoutMember | ftp/ftp_users.py:325-328 | delete_user's rewrite keeps a line exactly when it was there and does not strip to the name |
| UserList.WithoutConcat | ftp/ftp_users.py:325-328 | the rewrite acts on each part of the file separately, so line order is kept |
| UserList.WithoutNotListed | ftp/ftp_users.py:325-328 | after the rewrite no line strips to the name |
| UserList.WithoutAbsent | ftp/ftp_users.py:325-328 | a file without the name is written back unchanged |
| UserList.WithoutIdempotent | ftp/ftp_users.py:325-328 | removing a name twice is the same as removing it once |
| UserList.WithoutWellFormed | ftp/ftp_users.py:322-328 | the rewritten file is still a well-formed text file |
| UserList.EntriesWithout | ftp/ftp_users.py:318-328 | after deletion, the listing is the old listing with every occurrence of the name dropped, in order |
| UserList.AddWellFormed | ftp/ftp_users.py:226-240 | adding a name keeps the file well formed, and the name is listed afterwards |
| UserList.Add | ftp/ftp_users.py:231-240 | one more line, the name with its newline, unless the name is already listed |
| UserList.AddAsWritten | ftp/ftp_users.py:231-237 | when the last line lacks its newline the line count stays the same, because the name is glued onto that line; otherwise one more line unless the name is listed |
| UserList.Terminate | ftp/ftp_users.py:235-237 | the correction behind `Add`: the same number of lines, all but the last unchanged, and the last ending with a newline |
| UserList.AddIdempotent | ftp/ftp_users.py:231-240 | adding a name a second time leaves the file as it was after the first time |
| UserList.AddEntries | ftp/ftp_users.py:231-240 | after adding, the listing is the old listing followed by the name, unless the name was already listed |
| UserList.AddAsWrittenMergesLines | ftp/ftp_users.py:235-237 | the append as written turns `alice` without a newline plus `bob` into the single line `alicebob`, so `bob` is not listed, and adding it again changes the file again |
| Password.Run | ftp/ftp_users.py:39 | the ASCII alphabets are exactly the characters of their ranges |
| Password.RemoveChar | ftp/ftp_users.py:41 | `replace(c, '')` removes `c` and keeps every other character |
| Password.LowerRange | ftp/ftp_users.py:38-42 | the lower-case class is a-z, less `l` and `o` when ambiguous characters are excluded |
| Password.UpperRange | ftp/ftp_users.py:47-51 | the upper-case class is A-Z, less `I` and `O` when ambiguous characters are excluded |
| Password.DigitRange | ftp/ftp_users.py:56-60 | the digit class is 0-9, less `0` and `1` when ambiguous characters are excluded |
| Password.ClassesNonEmpty | ftp/ftp_users.py:38-63 | the letter and digit classes are never empty, so their `secrets.choice` calls cannot fail |
| Password.Choose | ftp/ftp_users.py:45 | `secrets.choice` returns a member of the alphabet |
| Password.Picks | ftp/ftp_users.py:44-45 | a loop of `count` choices yields `count` characters |
| Password.PicksIn | ftp/ftp_users.py:44-45 | choices from an alphabet stay in it |
| Password.CountPicks | ftp/ftp_users.py:44-45 | every choice from an alphabet counts towards that alphabet |
| Password.Charset | ftp/ftp_users.py:37-64 | the character set is the enabled classes concatenated in the order lower, upper, digits, special |
| Password.PicksFrom | ftp/ftp_users.py:43-69 | the class blocks draw one character per guaranteed minimum, the sum of the segment counts |
| Password.Minimums | ftp/ftp_users.py:43-69 | the minimum draws number exactly the sum of the enabled classes' minimums |
| Password.AddClass | ftp/ftp_users.py:37-69 | one `if include_...:` block extends the character set by the class and the draws by its minimum, so both equal those of the classes so far plus this one |
| Password.AppendPicks | ftp/ftp_users.py:72-74 | the append loop adds exactly the next `count` choices, and none when `count` is negative |
| Password.DrawMinimums | ftp/ftp_users.py:37-69 | the four class blocks build the character set class by class and draw each enabled class's minimum |
| Password.DrawCharacters | ftp/ftp_users.py:34-74 | the minimums, then padding from the whole character set up to the length |
| Password.Drawn | ftp/ftp_users.py:34-74 | the characters drawn number at least `length` and at least the sum of the class minimums |
| Password.Swap | ftp/ftp_users.py:77 | a swap exchanges two positions and leaves the rest alone |
| Password.ShuffleFrom | ftp/ftp_users.py:77 | the Fisher-Yates passes from position `i` down keep the length |
| Password.Shuffled | ftp/ftp_users.py:77 | `shuffle` keeps the number of characters |
| Password.SwapPermutes | ftp/ftp_users.py:77 | a swap only reorders |
| Password.ShuffleFromPermutes | ftp/ftp_users.py:77 | the Fisher-Yates passes only reorder |
| Password.ShuffledPermutes | ftp/ftp_users.py:77 | the shuffle is a permutation of its input |
| Password.Shuffle | ftp/ftp_users.py:77 | in-place Fisher-Yates on an array gives the shuffle of the old contents |
| Password.Generated | ftp/ftp_users.py:32-79 | the password is a permutation of the drawn characters |
| Password.Generate | ftp/ftp_users.py:32-79 | generate returns the drawn characters, shuffled by the pick stream |
| Password.DrawnLength | ftp/ftp_users.py:71-74 | the password length is `length`, or the sum of the minimums when that is larger |
| Password.DrawnInCharset | ftp/ftp_users.py:34-74 | every character comes from the assembled character set |
| Password.DrawnMinimums | ftp/ftp_users.py:43-69 | each enabled class contributes at least its minimum |
| Password.CountPermutation | ftp/ftp_users.py:77 | a permutation has as many characters of each class as the original |
| Password.CharsetUnambiguous | ftp/ftp_users.py:40-60 | with exclude_ambiguous, an ambiguous character can enter the set only as a special character |
| Password.ClassesUnambiguous | ftp/ftp_users.py:40-59 | with exclude_ambiguous, no letter or digit class holds `l`, `o`, `I`, `O`, `0` or `1` |
| Password.ShuffledProperties | ftp/ftp_users.py:71-79 | any permutation of the drawn characters keeps the length, the set membership, the class minimums and the ambiguity rule |
| Password.GeneratedMeetsPolicy | ftp/ftp_users.py:32-79 | the generated password meets the policy: length, charset, every enabled class's minimum, no ambiguous letter or digit |
| FtpUsers.ValidateUsername | ftp/ftp_users.py:127-147 | a name is accepted exactly when the message is empty, and an empty name gets "Username cannot be empty" |
| FtpUsers.Message | ftp/ftp_users.py:129-147 | every rule has a non-empty message |
| FtpUsers.FirstFailing | ftp/ftp_users.py:129-147 | no rule is reported exactly when all hold, and a reported rule is broken |
| FtpUsers.FirstFailingIsFirst | ftp/ftp_users.py:129-147 | every rule before the reported one holds |
| FtpUsers.ValidateIsFirstFailure | ftp/ftp_users.py:127-147 | validate_username reports the message of the first broken rule, in the code's order |
| FtpUsers.ValidateAccepts | ftp/ftp_users.py:127-147 | the accepted names: 3 to 32 characters, a letter first, only letters, digits, `-` and `_`, not reserved |
| FtpUsers.AcceptedIsToken | ftp/ftp_users.py:138-142 | an accepted name is one whitespace-free word that cannot be a comment line, and a single path component |
| PosixPath.Anchor | ftp/ftp_users.py:171 | the anchor `Path` keeps is empty exactly for a relative path, and the path starts with it |
| PosixPath.Kept | ftp/ftp_users.py:171 | the components kept are among the pieces between slashes, and none is empty or `.` |
| PosixPath.Parts | ftp/ftp_users.py:171 | every component `Path` keeps is non-empty, slash-free and not `.` |
| PosixPath.KeptConcat | ftp/ftp_users.py:171 | the components of two runs of pieces are kept run by run |
| PosixPath.JoinNameNormal | ftp/ftp_users.py:171-172 | after its anchor, `Path(root) / name` splits into the root's components and then the name, so it has no empty or `.` component, and it ends with the name |
| PosixPath.JoinNameOfNormal | ftp/ftp_users.py:171-172 | on a root already in pathlib's form with at least one component, the join is `root + "/" + name` |
| PosixPath.JoinNameEmptyRoot | ftp/ftp_users.py:171-172 | an empty root gives the bare name |
| PosixPath.JoinNameTrailingSlash | ftp/ftp_users.py:171-172 | a trailing slash on the root does not change the joined path |
| FtpUsers.FtpUserManager.constructor | ftp/ftp_users.py:85-91 | the manager starts with the configured settings and the current files |
| FtpUsers.FtpUserManager.HomeDir | ftp/ftp_users.py:286-287 | the home the credentials log and list_users report is the configured root, a slash and the name, not normalized |
| FtpUsers.FtpUserManager.FilesDir | ftp/ftp_users.py:288 | the files directory logged is that home followed by `/files` |
| FtpUsers.FtpUserManager.UseraddArgv | ftp/ftp_users.py:171-186 | useradd gets `-m`, then `-d` with `str(Path(ftp_root) / name)`, the shell, the group, and the name last |
| FtpUsers.FtpUserManager.UseraddHomeMatchesLog | ftp/ftp_users.py:171-172 | with a root already in pathlib's form, the home useradd creates is the home the log and the listing report |
| FtpUsers.FtpUserManager.CredentialRow | ftp/ftp_users.py:285-290 | the logged row has one field per header column: name, password, home and files directory |
| FtpUsers.FtpUserManager.LogCredentials | ftp/ftp_users.py:265-297 | with logging on and a writable file, one row is appended, after the header when the file is new; otherwise nothing changes, also when the write raises IOError |
| FtpUsers.FtpUserManager.AddToAllowedUsers | ftp/ftp_users.py:223-240 | succeeds exactly when the file can be written or already lists the name; then the list exists and holds the name on a line of its own; on failure the file is as it was |
| FtpUsers.FtpUserManager.CreateUser | ftp/ftp_users.py:149-263 | succeeds exactly when the name is valid and new, useradd and chpasswd succeed, and the allowed list takes the name; on failure neither file changes and no password is returned; on success the name is listed, and the credentials are logged when logging is on and the file is writable |
| FtpUsers.FtpUserManager.NewSecret | ftp/ftp_users.py:167-169 | the given password, or a permutation of the characters drawn for the policy |
| FtpUsers.FtpUserManager.UserdelArgv | ftp/ftp_users.py:309-313 | `userdel`, then `-r` exactly when the home is to be removed, then the name |
| FtpUsers.FtpUserManager.DeleteUser | ftp/ftp_users.py:300-337 | returns False exactly when the user is unknown or userdel fails; raises exactly when userdel succeeded but an existing allowed-users file cannot be reopened for writing; otherwise returns True, and only then is the list rewritten without the name |
| FtpUsers.FtpUserManager.ChangePassword | ftp/ftp_users.py:339-373 | succeeds exactly when the user exists and chpasswd accepts the password, and then returns it; it is logged when logging is on and the file is writable, and a failed log does not undo the success |
| FtpUsers.FtpUserManager.RowFor | ftp/ftp_users.py:398-412 | a missing user shows "N/A"; otherwise the home, and Active exactly when it exists |
| FtpUsers.FtpUserManager.ListUsers | ftp/ftp_users.py:375-414 | nothing without the file; otherwise one row per listed name, in file order |
| TailscaleSetup.ReadFlagsOf | tailscale/tailscale_setup.py:155-169 | reading back the boolean options that were added gives back the switches |
| TailscaleSetup.Flags | tailscale/tailscale_setup.py:155-169 | with every switch on, all the boolean options in order; with every switch off, none |
| TailscaleSetup.FlagsReadBack | tailscale/tailscale_setup.py:155-169 | the boolean options of a configuration read back as its five switches |
| TailscaleSetup.ReadOptions | tailscale/tailscale_setup.py:155-182 | the options login_tailscale adds read back as the configuration's request |
| TailscaleSetup.UpArgvReadsBack | tailscale/tailscale_setup.py:153-182 | the `tailscale up` command determines the switches, hostname, operator and routes it was built from |
| TailscaleSetup.ArgvTail | tailscale/tailscale_setup.py:153-182 | the command is `tailscale up` followed by the options |
| TailscaleSetup.UpArgvArgsLast | tailscale/tailscale_setup.py:184-186 | the caller's arguments come last, unchanged |
| TailscaleSetup.UpArgv | tailscale/tailscale_setup.py:153-186 | the command starts with `tailscale up` and holds the caller's arguments |
| TailscaleSetup.SetArgv | tailscale/tailscale_setup.py:220-223 | `tailscale set --exit-node <node>`, and the LAN flag exactly when it is asked for |
| TailscaleSetup.ForwardingLines | tailscale/tailscale_setup.py:263-267 | the drop-in holds the IPv4 line exactly when IPv4 is on (first) and the IPv6 line exactly when IPv6 is on |
| TailscaleSetup.WarningsOfFailures | tailscale/tailscale_setup.py:392-402 | only failing steps are reported, at most one warning per step |
| TailscaleSetup.EndsWithVerify | tailscale/tailscale_setup.py:384-402 | with verification as the last step and no step raising, the run ends with its three probes |
| TailscaleSetup.Setup.constructor | tailscale/tailscale_setup.py:19-22 | a setup starts with no command run and no sysctl file written |
| TailscaleSetup.Setup.InstallOutcome | tailscale/tailscale_setup.py:60-125 | installing starts with `which`, writes no file, and raises exactly when it runs only that one command |
| TailscaleSetup.Setup.ForwardingOutcome | tailscale/tailscale_setup.py:233-277 | at most two sysctl calls; it never raises, since a missing sysctl is an IOError it catches; when the drop-in file is written the step succeeds and the file holds the forwarding lines |
| TailscaleSetup.Setup.LoginOutcome | tailscale/tailscale_setup.py:127-209 | logging in runs the status probe and at most `tailscale up`, writes no file and never raises |
| TailscaleSetup.Setup.ExitNodeOutcome | tailscale/tailscale_setup.py:211-231 | the exit-node step runs at most one command and writes no file; when it raises it has run its command and does not succeed |
| TailscaleSetup.Setup.StepOutcome | tailscale/tailscale_setup.py:384-390 | only the IP forwarding step can write the drop-in file; only install, exit node and verification can raise, and a step that raises does not succeed |
| TailscaleSetup.Setup.InstallCases | tailscale/tailscale_setup.py:48-125 | install raises exactly when `which` cannot start; otherwise it succeeds when already installed or when both download and installer succeed; an installed Tailscale is never downloaded, and a failed download is never run |
| TailscaleSetup.Setup.ForwardingCases | tailscale/tailscale_setup.py:233-277 | nothing runs without an advertised exit node or routes; otherwise it succeeds exactly when the file gets written, after one sysctl per enabled family, IPv4 first; the forwarding lines are written exactly when it gets that far |
| TailscaleSetup.Setup.LoginCases | tailscale/tailscale_setup.py:144-209 | already logged in means success and no `tailscale up`; otherwise the configured command runs after the probe and decides |
| TailscaleSetup.Setup.ExitNodeCases | tailscale/tailscale_setup.py:211-231 | nothing runs without an exit node; otherwise `tailscale set` runs once, raises exactly when it cannot start (only CalledProcessError is caught), and otherwise decides |
| TailscaleSetup.Setup.VerifyChecks | tailscale/tailscale_setup.py:337-371 | verification collects exactly three checks |
| TailscaleSetup.Setup.VerifyAll | tailscale/tailscale_setup.py:333-373 | verification raises exactly when `which` cannot start; otherwise all three probes run, and it succeeds exactly when every check passed |
| TailscaleSetup.Setup.SummaryCmds | tailscale/tailscale_setup.py:279-331 | the summary starts with `tailscale ip -4` and stops there exactly when it cannot start; when nothing raises, `-6` runs only when `-4` worked, and the status comes last |
| TailscaleSetup.Setup.RunEndsWithVerify | tailscale/tailscale_setup.py:384-402 | unless a step raises, the steps of run end with verification's probes |
| TailscaleSetup.Setup.RunWarnings | tailscale/tailscale_setup.py:384-402 | run warns only about failing steps, each at most once |
| TailscaleSetup.Setup.IsInstalled | tailscale/tailscale_setup.py:48-58 | runs `which tailscale`, reports whether it succeeded, and raises exactly when `which` cannot start |
| TailscaleSetup.Setup.IsLoggedIn | tailscale/tailscale_setup.py:127-142 | logged in exactly when `tailscale status` succeeds without saying "not logged in" |
| TailscaleSetup.Setup.InstallTailscale | tailscale/tailscale_setup.py:60-125 | runs exactly the commands of the install account and returns its result, or raises as the account says |
| TailscaleSetup.Setup.EnableIpForwarding | tailscale/tailscale_setup.py:233-277 | runs the sysctl calls of the forwarding account and writes the drop-in exactly when all of them and the write succeed |
| TailscaleSetup.Setup.UpCommand | tailscale/tailscale_setup.py:153-186 | builds the `tailscale up` command option by option |
| TailscaleSetup.Setup.FlagOptions | tailscale/tailscale_setup.py:155-169 | appends the switched-on boolean options in their fixed order |
| TailscaleSetup.Setup.LoginTailscale | tailscale/tailscale_setup.py:144-209 | runs exactly the commands of the login account and returns its result |
| TailscaleSetup.Setup.ConfigureExitNode | tailscale/tailscale_setup.py:211-231 | runs exactly the commands of the exit-node account and returns its result, or raises when `tailscale` cannot start |
| TailscaleSetup.Setup.VerifyInstallation | tailscale/tailscale_setup.py:333-373 | runs the three probes and returns `all(checks)`, or raises at `which` |
| TailscaleSetup.Setup.PrintSummary | tailscale/tailscale_setup.py:279-415 | runs the summary commands, writes nothing, and raises exactly when one of them cannot start |
| TailscaleSetup.Setup.RunSteps | tailscale/tailscale_setup.py:392-402 | the steps run in order, each after the commands of the previous one; a failure only adds a warning; a step that raises is the last to run; the drop-in file ends as the steps that wrote it left it |
| TailscaleSetup.Setup.RunStep | tailscale/tailscale_setup.py:392-393 | one step runs exactly the commands of its account, reports its result or raises, and leaves the drop-in file as the account says |
| TailscaleSetup.Setup.RunNext | tailscale/tailscale_setup.py:392-402 | one pass of the loop keeps the account of commands, warnings, raising and the drop-in file |
| TailscaleSetup.Setup.OnlyForwardingWrites | tailscale/tailscale_setup.py:233-277 | of run's steps, only IP forwarding writes the drop-in file |
| TailscaleSetup.Setup.WithoutTailscale | tailscale/tailscale_setup.py:211-331 | with no `tailscale` program, the steps raise exactly when an exit node is configured, and the summary raises at `tailscale ip -4`: run never returns |
| TailscaleSetup.OnlyExitNodeRaises | tailscale/tailscale_setup.py:384-402 | when only configure_exit_node can raise, and always or never does, the steps raise exactly when it is among them and does |
| TailscaleSetup.Setup.RunConf | tailscale/tailscale_setup.py:384-394 | after run's steps the drop-in file holds the forwarding lines exactly when install did not raise and the forwarding step wrote them, and otherwise what it held before |
| TailscaleSetup.ConfAfterNoWrite | tailscale/tailscale_setup.py:392-394 | steps that never write the drop-in file leave it as it was |
| TailscaleSetup.SecondWrites | tailscale/tailscale_setup.py:384-394 | when only the second of the steps may write the drop-in file, it ends as that step leaves it, or unchanged when the first step raises |
| TailscaleSetup.Setup.Run | tailscale/tailscale_setup.py:375-415 | without root nothing runs, the drop-in file is untouched and it fails; with root the steps run in order with one warning per failed step until one raises, then the summary unless a step raised; it succeeds exactly when nothing raised; the drop-in file then holds the forwarding lines exactly when the forwarding step wrote them |
| FtpDebug.Filed | ftp/ftp_debug.py:22-24 | a list holds no more messages than there were verdicts, each from a verdict filed in that list |
| FtpDebug.OneListEach | ftp/ftp_debug.py:435 | every verdict lands in exactly one list, so the total counts every verdict |
| FtpDebug.ServiceVerdicts | ftp/ftp_debug.py:70-81 | one verdict per service: a pass exactly when the unit reads `active`, a warning only for fail2ban, and "<description> is not running" otherwise |
| FtpDebug.ServiceOutcome | ftp/ftp_debug.py:60-85 | three verdicts; only fail2ban can become a warning; no issue exactly when vsftpd and ssh both run |
| FtpDebug.PortVerdicts | ftp/ftp_debug.py:101-112 | one verdict per port, in order: a pass exactly when `:port` occurs in the listing, a warning exactly when the silent port is 20, otherwise the issue "Port <port> is not listening" |
| FtpDebug.PortFiled | ftp/ftp_debug.py:102-112 | one port's verdict passes exactly when `:port` is listed; otherwise it is a warning for port 20 and an issue for the others |
| FtpDebug.ThreePorts | ftp/ftp_debug.py:101-112 | three ports with the data port last: three verdicts, as many passes as listening ports, a warning only for the last port and issues only for the first two |
| FtpDebug.PortsOutcome | ftp/ftp_debug.py:87-112 | three verdicts for 21, 22 and 20; a port passes exactly when `:port` is listed; the only possible warning is port 20's, filed exactly when it is not listed; the issues are 21 and 22 when not listed |
| FtpDebug.RuleVerdicts | ftp/ftp_debug.py:137-145 | one verdict per required port, never a warning: a pass exactly when the port occurs in the ufw status, otherwise "Firewall does not allow port <port>" |
| FtpDebug.FirewallVerdicts | ftp/ftp_debug.py:119-145 | a missing or inactive ufw gives one verdict, a warning; an active one gives one verdict per required port, none of them a warning |
| FtpDebug.RuleVerdictsFiled | ftp/ftp_debug.py:137-145 | with ufw active, exactly the mentioned ports pass and the others are issues, never warnings |
| FtpDebug.FirewallOutcome | ftp/ftp_debug.py:114-145 | a missing or inactive ufw files one warning and no port verdict; an active one files one pass or issue per required port |
| FtpDebug.SettingVerdicts | ftp/ftp_debug.py:173-179 | one verdict per setting, never a warning: a pass exactly when the setting's line occurs in the file |
| FtpDebug.ConfigVerdicts | ftp/ftp_debug.py:151-188 | a missing file gives one issue; a present one gives the six setting verdicts first |
| FtpDebug.SettingsFiled | ftp/ftp_debug.py:173-179 | setting checks never warn, and their issues start with "Config" |
| FtpDebug.ConfigOutcome | ftp/ftp_debug.py:160-188 | the six settings come first; the conflict issue is filed exactly when both listen modes are on; the chroot warning is the only possible warning and is filed exactly when chroot is on |
| FtpDebug.UsersNeverPass | ftp/ftp_debug.py:213-251 | the user check never passes anything, and files nothing for healthy accounts |
| FtpDebug.UserVerdict | ftp/ftp_debug.py:213-251 | at most one verdict per listed user, never a pass; none exactly for an account in the system with its directory and no ownership mismatch; a warning only for the ownership mismatch |
| FtpDebug.UserVerdicts | ftp/ftp_debug.py:212-251 | at most one verdict per listed user, and never a pass |
| FtpDebug.UserListVerdicts | ftp/ftp_debug.py:190-251 | a missing or empty list gives one warning; otherwise at most one verdict per listed name; never a pass |
| FtpDebug.RootVerdicts | ftp/ftp_debug.py:261-279 | one verdict: an issue exactly when the root is missing, a pass exactly when it exists and uid 0 owns it, a warning otherwise |
| FtpDebug.NetworkVerdicts | ftp/ftp_debug.py:345-356 | one verdict, never a warning: a pass exactly when nc exits 0 or either of its outputs says "succeeded" |
| FtpDebug.LogCount | ftp/ftp_debug.py:305-326 | a count exists exactly when grep printed something, and it is at most 20 |
| FtpDebug.ErrorLines | ftp/ftp_debug.py:322-326 | the counted lines are among the recent lines, each mentioning error, fail, denied or refused |
| FtpDebug.ErrorLinesMember | ftp/ftp_debug.py:324-326 | a line counts exactly when it is present and mentions error, fail, denied or refused |
| FtpDebug.Recent | ftp/ftp_debug.py:321 | the last 20 lines, or all of them when there are fewer |
| FtpDebug.UnitOf | ftp/ftp_debug.py:64-68 | a unit found for an issue is one of the checked services |
| FtpDebug.TwoWordPatterns | ftp/ftp_debug.py:398-406 | an issue matching "directory missing" or "ownership mismatch" has a second word, so `split()[1]` exists |
| FtpDebug.SuggestAsWritten | ftp/ftp_debug.py:385-408 | as written, an issue gets no fix exactly when none of the five substring tests holds, and a not-running issue always gets a service start |
| FtpDebug.Suggest | ftp/ftp_debug.py:385-408 | corrected, the same five tests decide whether an issue gets a fix, and a not-running issue always gets a service start |
| FtpDebug.Suggestions | ftp/ftp_debug.py:381-408 | one suggestion per issue, in order, numbered from 1, each carrying its issue and the fix `Suggest` gives it |
| FtpDebug.AllVerdicts | ftp/ftp_debug.py:418-427 | a run files at least ten verdicts: the services' first, then the ports', and the root's and the network's last |
| FtpDebug.FtpDebugger.constructor | ftp/ftp_debug.py:22-24 | the three lists start empty |
| FtpDebug.FtpDebugger.Record | ftp/ftp_debug.py:75-81 | a verdict is appended to its own list and the others stay unchanged |
| FtpDebug.FtpDebugger.CheckServices | ftp/ftp_debug.py:60-85 | the lists grow by exactly the services' verdicts, in order |
| FtpDebug.FtpDebugger.CheckPorts | ftp/ftp_debug.py:87-112 | the lists grow by exactly the ports' verdicts on netstat's listing, or on ss's when netstat fails |
| FtpDebug.FtpDebugger.CheckFirewall | ftp/ftp_debug.py:114-145 | the lists grow by exactly the firewall verdicts |
| FtpDebug.FtpDebugger.CheckConfiguration | ftp/ftp_debug.py:147-188 | the lists grow by exactly the configuration verdicts |
| FtpDebug.FtpDebugger.CheckUserList | ftp/ftp_debug.py:190-253 | the lists grow by exactly the user-list verdicts, user by user in list order |
| FtpDebug.FtpDebugger.CheckUser | ftp/ftp_debug.py:212-251 | the lists grow by exactly one listed user's verdict, if any |
| FtpDebug.FtpDebugger.CheckPermissions | ftp/ftp_debug.py:255-293 | files the root verdict, and inspects at most the first five listed users |
| FtpDebug.FtpDebugger.CheckNetwork | ftp/ftp_debug.py:334-356 | passes exactly when nc succeeds or either of its outputs says "succeeded" |
| FtpDebug.FtpDebugger.CountRecentErrors | ftp/ftp_debug.py:320-326 | counts the error lines among the last 20, so never more than 20 |
| FtpDebug.FtpDebugger.CheckLogs | ftp/ftp_debug.py:295-332 | one result per log file: none when absent or without FTP lines, else the recent error count |
| FtpDebug.FtpDebugger.GenerateFixes | ftp/ftp_debug.py:374-410 | one fix per issue, numbered from 1, in the order the issues were found |
| FtpDebug.FtpDebugger.RunChecks | ftp/ftp_debug.py:420-426 | the seven checks that file verdicts, in order, file exactly their concatenated verdicts |
| FtpDebug.FtpDebugger.RunDiagnostics | ftp/ftp_debug.py:412-462 | the total equals the number of verdicts filed, and the fixes cover exactly the issues |
| FtpFixes.SuggestAgrees | ftp/ftp_debug.py:385-408 | the corrected classification differs from the code only on known services, firewall issues and the missing FTP root |
| FtpFixes.FirewallFixAsWritten | ftp/ftp_debug.py:394-396 | as written, a blocked port's fix is `ufw allow allow`, whatever the port |
| FtpFixes.FirewallFix | ftp/ftp_debug.py:394-396 | corrected, a blocked port's fix allows that port |
| FtpFixes.ServiceFixAsWritten | ftp/ftp_debug.py:385-387 | as written, the SSH server's fix starts a unit named `ssh/sftp` |
| FtpFixes.ServiceFix | ftp/ftp_debug.py:385-387 | corrected, a service that is not running gets a fix that starts its own unit |
| FtpFixes.UnitOfNotRunning | ftp/ftp_debug.py:64-81 | each service's not-running issue leads back to its own unit |
| FtpFixes.RootFixAsWritten | ftp/ftp_debug.py:398-403 | as written, a missing FTP root's fix creates a user directory named `root` inside it |
| FtpFixes.RootFix | ftp/ftp_debug.py:398-403 | corrected, a missing FTP root's fix creates the root itself |

## Left out

- Interactive parts are not modelled: command-line menus, `main` functions, `print` output, section headers, and the text of the printed fixes. Each check's filed messages, counts and fixes are modelled as values.
- Loading the JSON settings (`_load_config`) is not modelled. The settings sections are constructor parameters, and `Password.DefaultPolicy` and `TailscaleSetup.DefaultNetwork` give the defaults the code falls back on. JSON values of unexpected types are not modelled.
- `check_root` in ftp/ftp_users.py and `check_root` in tailscale/tailscale_setup.py are reduced to a flag: `Host.isRoot` in the setup, and left out of the user manager, which never calls it outside `main`.
- `show_user_info` in ftp/ftp_users.py is not modelled. It is indented one level deeper than the methods around it, so the file as given does not parse.
- In `create_user`, the directory creation, `chown`/`chmod` and `pwd.getpwnam` steps assume success. The cleanup `userdel -r` after a failed command is a system effect the fixed system parameter does not record. Nor does it record that the account stays when the allowed-users step fails afterwards.
- FtpUsers.FtpUserManager.DeleteUser: when the OSError escapes, the account userdel removed is a system effect the fixed system parameter does not record; the model states only that the allowed-users list and the credentials are unchanged.
- Whether a file can be written is one flag per file: the allowed-users file, the credentials file and the sysctl drop-in. `_log_credentials` creates the credentials file's parent directory outside its `try`; the model assumes that succeeds.
- File modes (`chmod 600`, `644`, `755`) and CSV quoting are not modelled. Credentials are kept as rows of fields.
- `time.sleep(2)` after login, `datetime.now()` (a timestamp parameter) and subprocess timeouts are not modelled.
- In ftp/ftp_users.py, `id`, `userdel` and `chpasswd` are assumed to be installed. The model gives them only an exit status, although a missing one would raise FileNotFoundError past handlers that catch only CalledProcessError.
- In install_tailscale, the script's contents piped into `sh` are not modelled; only whether `sh` succeeds is.
- `show_ip` and `show_status` are modelled by the commands they run; what they print is not.
- In `check_network`, the `hostname -I` address listing is only printed and is not modelled. In `check_services`, the `systemctl status` output printed for a stopped service is not modelled. `test_ftp_connection` only prints instructions and is not modelled.
- In `check_permissions`, the modes and owners printed for the first five users are not modelled; the model returns which users are inspected.
- `check_logs` only prints its counts. The model returns them, and a missing log file and empty grep output both give no count.
- `str.lower`, `str.isalpha` and `str.isalnum` are modelled on ASCII only. Python's Unicode behaviour for other characters is not. `str.isspace` covers Python's whole whitespace set.
- tailscale/tailscale_debug.py, tailscale/tailscale_logs.py and ftp/ftp_logs.py are not part of this model.
- TailscaleSetup.UpArgvReadsBack: proved only for routes without commas, because a comma inside a route makes the joined `--advertise-routes` value ambiguous.
- Password.Generate: requires `CanGenerate`. When the special characters are empty but have a minimum, or padding is needed from an empty character set, `secrets.choice` raises IndexError in the code. The model excludes those policies instead of modelling the exception.
- FtpUsers.FtpUserManager.CreateUser: requires `CanGenerate` for the policy when it must generate a password, for the same reason as `Password.Generate`.
- FtpUsers.FtpUserManager.ChangePassword: requires `CanGenerate` for the policy when it must generate a password, for the same reason as `Password.Generate`.
- FtpDebug.FtpDebugger.GenerateFixes: returns each fix as a `Fix` value rather than the shell commands it prints. It uses the corrected classification `FtpDebug.Suggest`; the code's own is `FtpDebug.SuggestAsWritten` (see Findings).
- FtpUsers.FtpUserManager.AddToAllowedUsers: uses the corrected append `UserList.Add`; the code's own is `UserList.AddAsWritten` (see Findings).

## Findings

| source | as written | input that shows it | evidently intended | confidence | as-written member | corrected member |
|---|---|---|---|---|---|---|
| ftp/ftp_users.py:235-237 | appends `name + "\n"` to the allowed list without checking that the last line ends with a newline | a list holding `alice` with no trailing newline, then creating `bob`: the file becomes `alicebob`, and `bob` is not allowed | the name goes on a line of its own | not executed | UserList.AddAsWrittenMergesLines | UserList.AddEntries |
| ftp/ftp_debug.py:394-396 | takes the port from `issue.split()[3]` | the issue "Firewall does not allow port 21": the fourth word is `allow`, so the fix reads `sudo ufw allow allow` | the port, the last word of the issue | not executed | FtpFixes.FirewallFixAsWritten | FtpFixes.FirewallFix |
| ftp/ftp_debug.py:385-387 | takes the service to start from the first word of the issue, lowered | the issue "SSH/SFTP Server is not running": the fix starts `ssh/sftp`, which is not a unit | the unit that was checked, `ssh` | not executed | FtpFixes.ServiceFixAsWritten | FtpFixes.ServiceFix |
| ftp/ftp_debug.py:398-403 | treats every issue mentioning "directory missing" as a user's directory named by the second word | the issue "FTP root directory missing" (line 263): the fix creates and chowns `<ftp_root>/root` for a user named `root` | create the FTP root itself | not executed | FtpFixes.RootFixAsWritten | FtpFixes.RootFix |
