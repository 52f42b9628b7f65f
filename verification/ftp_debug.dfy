/**
 * The FTP server debugger (FTPDebugger in ftp/ftp_debug.py): a series of
 * checks over captured command output and file contents, each filing its
 * results into one of three lists kept on the object — passed checks,
 * warnings and issues — followed by a summary count and fix suggestions
 * for the issues.
 *
 * Every command the debugger runs (systemctl, netstat/ss, ufw, nc, id,
 * grep) and every file it reads or stats is replaced by the text or flag
 * it would have produced, passed in as a parameter.
 */
module FtpDebug {
  import opened Wrappers
  import opened Text
  import UserList

  /** The three lists the debugger keeps: passed checks, warnings and issues found. */
  datatype List = Passed | Warning | Issue

  /** One check result: the message and the list it is filed in. */
  datatype Verdict = Verdict(list: List, msg: string)

  /** The messages of the verdicts filed in `l`, in order. */
  function Filed(vs: seq<Verdict>, l: List): (r: seq<string>)
    ensures |r| <= |vs|
    ensures forall i :: 0 <= i < |r| ==> Verdict(l, r[i]) in vs
  {
    if vs == [] then [] else (if vs[0].list == l then [vs[0].msg] else []) + Filed(vs[1..], l)
  }

  /** Every verdict lands in exactly one of the three lists. */
  lemma {:induction false} OneListEach(vs: seq<Verdict>)
    ensures |Filed(vs, Passed)| + |Filed(vs, Warning)| + |Filed(vs, Issue)| == |vs|
  {
    if vs != [] {
      OneListEach(vs[1..]);
    }
  }

  /** Filing two runs of verdicts one after the other files their concatenation. */
  lemma {:induction false} FiledConcat(a: seq<Verdict>, b: seq<Verdict>, l: List)
    ensures Filed(a + b, l) == Filed(a, l) + Filed(b, l)
  {
    if a == [] {
      assert a + b == b;
    } else {
      FiledConcat(a[1..], b, l);
      var head := if a[0].list == l then [a[0].msg] else [];
      assert (a + b)[0] == a[0];
      assert (a + b)[1..] == a[1..] + b;
      assert Filed(a + b, l) == head + (Filed(a[1..], l) + Filed(b, l));
      Regroup(head, Filed(a[1..], l), Filed(b, l));
    }
  }

  /** Filing one more verdict appends its message to its own list and leaves the others alone. */
  lemma FiledSnoc(vs: seq<Verdict>, v: Verdict)
    ensures Filed(vs + [v], Passed) == Filed(vs, Passed) + (if v.list == Passed then [v.msg] else [])
    ensures Filed(vs + [v], Warning) == Filed(vs, Warning) + (if v.list == Warning then [v.msg] else [])
    ensures Filed(vs + [v], Issue) == Filed(vs, Issue) + (if v.list == Issue then [v.msg] else [])
  {
    FiledConcat(vs, [v], Passed);
    FiledConcat(vs, [v], Warning);
    FiledConcat(vs, [v], Issue);
    FiledOne(v, Passed);
    FiledOne(v, Warning);
    FiledOne(v, Issue);
  }

  /** Three verdicts are filed one by one. */
  lemma FiledThree(a: Verdict, b: Verdict, c: Verdict, l: List)
    ensures Filed([a] + [b] + [c], l) == Filed([a], l) + Filed([b], l) + Filed([c], l)
  {
    FiledConcat([a] + [b], [c], l);
    FiledConcat([a], [b], l);
  }

  /** A single verdict is filed in its own list and nowhere else. */
  lemma FiledOne(v: Verdict, l: List)
    ensures Filed([v], l) == if v.list == l then [v.msg] else []
  {
    assert [v][1..] == [];
  }

  // ---------------------------------------------------------------- services

  /** A systemd unit and the name the report gives it. */
  datatype Service = Service(unit: string, description: string)

  /** The services check_services asks systemd about, in order. */
  const Services: seq<Service> := [Vsftpd, Ssh, Fail2ban]

  const Vsftpd := Service("vsftpd", "vsftpd (FTP Server)")
  const Ssh := Service("ssh", "SSH/SFTP Server")
  const Fail2ban := Service("fail2ban", "fail2ban (optional)")

  /** The passed check filed for a running service. */
  function Running(s: Service): string {
    s.description + " is running"
  }

  /** The warning or issue filed for a service that is down. */
  function NotRunning(s: Service): string {
    s.description + " is not running"
  }

  /** `systemctl is-active` printed `active`. */
  predicate Active(status: string) {
    Strip(status) == "active"
  }

  /**
   * The verdict on one service from the output of `systemctl is-active`:
   * running when it reads `active`, otherwise a warning for the optional
   * fail2ban and an issue for the others.
   */
  function ServiceVerdict(s: Service, status: string): Verdict {
    if Active(status) then Verdict(Passed, Running(s))
    else if s.unit == "fail2ban" then Verdict(Warning, NotRunning(s))
    else Verdict(Issue, NotRunning(s))
  }

  /** One verdict per service, in order; `statusOf` gives each unit's is-active output. */
  function ServiceVerdicts(services: seq<Service>, statusOf: string -> string): (vs: seq<Verdict>)
    ensures |vs| == |services|
    ensures forall k :: 0 <= k < |vs| ==>
      && (vs[k].list == Passed <==> Active(statusOf(services[k].unit)))
      && (vs[k].list == Warning ==> services[k].unit == "fail2ban")
      && (vs[k].list != Passed ==> vs[k].msg == NotRunning(services[k]))
  {
    seq(|services|, k requires 0 <= k < |services| => ServiceVerdict(services[k], statusOf(services[k].unit)))
  }

  /** Three services, the last of them optional: one verdict each, a warning only for the last. */
  lemma ThreeServices(a: Service, b: Service, c: Service, statusOf: string -> string)
    requires a.unit != "fail2ban" && b.unit != "fail2ban" && c.unit == "fail2ban"
    ensures var vs := ServiceVerdicts([a, b, c], statusOf);
      && |Filed(vs, Passed)| + |Filed(vs, Warning)| + |Filed(vs, Issue)| == 3
      && Filed(vs, Warning) == (if Active(statusOf(c.unit)) then [] else [NotRunning(c)])
      && (Filed(vs, Issue) == [] <==> Active(statusOf(a.unit)) && Active(statusOf(b.unit)))
  {
    var vs := ServiceVerdicts([a, b, c], statusOf);
    OneListEach(vs);
    assert vs == [vs[0]] + [vs[1]] + [vs[2]];
    ServiceFiled(a, statusOf(a.unit));
    ServiceFiled(b, statusOf(b.unit));
    ServiceFiled(c, statusOf(c.unit));
    FiledThree(vs[0], vs[1], vs[2], Warning);
    FiledThree(vs[0], vs[1], vs[2], Issue);
  }

  /** Where one service's verdict is filed. */
  lemma ServiceFiled(s: Service, status: string)
    ensures Filed([ServiceVerdict(s, status)], Warning) == (if !Active(status) && s.unit == "fail2ban" then [NotRunning(s)] else [])
    ensures Filed([ServiceVerdict(s, status)], Issue) == (if !Active(status) && s.unit != "fail2ban" then [NotRunning(s)] else [])
  {
    FiledOne(ServiceVerdict(s, status), Warning);
    FiledOne(ServiceVerdict(s, status), Issue);
  }

  /**
   * The services check files three verdicts; fail2ban is the only one
   * that can become a warning, and no issue is filed exactly when vsftpd
   * and ssh both run.
   */
  lemma ServiceOutcome(statusOf: string -> string)
    ensures var vs := ServiceVerdicts(Services, statusOf);
      && |Filed(vs, Passed)| + |Filed(vs, Warning)| + |Filed(vs, Issue)| == 3
      && Filed(vs, Warning) == (if Active(statusOf(Fail2ban.unit)) then [] else [NotRunning(Fail2ban)])
      && (Filed(vs, Issue) == [] <==> Active(statusOf(Vsftpd.unit)) && Active(statusOf(Ssh.unit)))
  {
    ThreeServices(Vsftpd, Ssh, Fail2ban, statusOf);
  }

  // ------------------------------------------------------------------- ports

  /** The ports check_ports looks for in the listening sockets, in order. */
  const ListeningPorts: seq<string> := ["21", "22", "20"]

  /**
   * The verdict on one port from the socket listing: listening when
   * `:port` occurs in it, otherwise a warning for the data port 20 and an
   * issue for the others.
   */
  function PortVerdict(port: string, listing: string): Verdict {
    if Listens(listing, port) then Verdict(Passed, PortUp(port))
    else if port == "20" then Verdict(Warning, PortQuiet(port))
    else Verdict(Issue, PortDown(port))
  }

  /** `:port` occurs in the socket listing. */
  predicate Listens(listing: string, port: string) {
    Contains(listing, ":" + port)
  }

  /** The passed check filed for a port that is listening. */
  function PortUp(port: string): string {
    "Port " + port + " is listening"
  }

  /** The warning filed for the data port when nobody listens on it. */
  function PortQuiet(port: string): string {
    "Port " + port + " not listening"
  }

  /** The issue filed for a required port nobody listens on. */
  function PortDown(port: string): string {
    "Port " + port + " is not listening"
  }

  /**
   * One verdict per port, in order: a pass exactly when the port listens,
   * a warning exactly when the silent port is the data port, and an issue
   * naming the port otherwise.
   */
  function PortVerdicts(ports: seq<string>, listing: string): (vs: seq<Verdict>)
    ensures |vs| == |ports|
    ensures forall k :: 0 <= k < |vs| ==>
      && (vs[k].list == Passed <==> Listens(listing, ports[k]))
      && (vs[k].list == Warning <==> !Listens(listing, ports[k]) && ports[k] == "20")
      && (vs[k].list == Issue ==> vs[k].msg == PortDown(ports[k]))
  {
    seq(|ports|, k requires 0 <= k < |ports| => PortVerdict(ports[k], listing))
  }

  /** The listing check_ports reads: netstat's output, or ss's when netstat fails. */
  function SocketListing(netstatOk: bool, netstatOut: string, ssOut: string): string {
    if netstatOk then netstatOut else ssOut
  }

  /** Three ports, the last of them the data port: one verdict each, a warning only for the last. */
  lemma ThreePorts(a: string, b: string, c: string, listing: string)
    requires a != "20" && b != "20" && c == "20"
    ensures var vs := PortVerdicts([a, b, c], listing);
      && |Filed(vs, Passed)| + |Filed(vs, Warning)| + |Filed(vs, Issue)| == 3
      && |Filed(vs, Passed)| == (if Listens(listing, a) then 1 else 0) + (if Listens(listing, b) then 1 else 0)
                                + (if Listens(listing, c) then 1 else 0)
      && Filed(vs, Warning) == (if Listens(listing, c) then [] else [PortQuiet(c)])
      && Filed(vs, Issue) == (if Listens(listing, a) then [] else [PortDown(a)])
                           + (if Listens(listing, b) then [] else [PortDown(b)])
  {
    var vs := PortVerdicts([a, b, c], listing);
    OneListEach(vs);
    assert vs == [vs[0]] + [vs[1]] + [vs[2]];
    PortFiled(a, listing);
    PortFiled(b, listing);
    PortFiled(c, listing);
    FiledThree(vs[0], vs[1], vs[2], Passed);
    FiledThree(vs[0], vs[1], vs[2], Warning);
    FiledThree(vs[0], vs[1], vs[2], Issue);
  }

  /** Where one port's verdict is filed. */
  lemma PortFiled(port: string, listing: string)
    ensures |Filed([PortVerdict(port, listing)], Passed)| == if Listens(listing, port) then 1 else 0
    ensures Filed([PortVerdict(port, listing)], Warning)
            == (if !Listens(listing, port) && port == "20" then [PortQuiet(port)] else [])
    ensures Filed([PortVerdict(port, listing)], Issue)
            == (if !Listens(listing, port) && port != "20" then [PortDown(port)] else [])
  {
    FiledOne(PortVerdict(port, listing), Passed);
    FiledOne(PortVerdict(port, listing), Warning);
    FiledOne(PortVerdict(port, listing), Issue);
  }

  /**
   * The ports check files three verdicts, for 21, 22 and 20: a port
   * passes exactly when `:port` occurs in the listing; otherwise 21 and 22
   * are issues and the data port 20 only a warning.
   */
  lemma PortsOutcome(listing: string)
    ensures var vs := PortVerdicts(ListeningPorts, listing);
      && |Filed(vs, Passed)| + |Filed(vs, Warning)| + |Filed(vs, Issue)| == 3
      && |Filed(vs, Passed)| == (if Listens(listing, "21") then 1 else 0) + (if Listens(listing, "22") then 1 else 0)
                                + (if Listens(listing, "20") then 1 else 0)
      && (Filed(vs, Warning) == [] <==> Listens(listing, "20"))
      && Filed(vs, Issue) == (if Listens(listing, "21") then [] else [PortDown("21")])
                           + (if Listens(listing, "22") then [] else [PortDown("22")])
  {
    ThreePorts("21", "22", "20", listing);
  }

  // ---------------------------------------------------------------- firewall

  /** The ports check_firewall expects ufw to allow, in order. */
  const RequiredPorts: seq<string> := ["21", "22", "40000:40100"]

  /** The warning filed when ufw is not installed. */
  const UfwMissing := "UFW firewall not installed"

  /** The warning filed when ufw is inactive. */
  const UfwInactive := "UFW firewall is inactive"

  /** The passed check filed for a port ufw allows. */
  function FirewallAllows(port: string): string {
    "Firewall allows port " + port
  }

  /** The issue filed for a port ufw does not allow. */
  function FirewallIssue(port: string): string {
    "Firewall does not allow port " + port
  }

  /** One verdict per required port: allowed when the port occurs in the ufw status text. */
  function RuleVerdicts(ports: seq<string>, status: string): (vs: seq<Verdict>)
    ensures |vs| == |ports|
    ensures forall k :: 0 <= k < |vs| ==>
      && vs[k].list != Warning
      && (vs[k].list == Passed <==> Contains(status, ports[k]))
      && (vs[k].list == Issue ==> vs[k].msg == FirewallIssue(ports[k]))
  {
    seq(|ports|, k requires 0 <= k < |ports| =>
      if Contains(status, ports[k]) then Verdict(Passed, FirewallAllows(ports[k]))
      else Verdict(Issue, FirewallIssue(ports[k])))
  }

  /** ufw is reported inactive. */
  predicate Inactive(status: string) {
    Contains(Lower(status), "inactive")
  }

  /**
   * The verdicts of check_firewall: a warning and nothing else when ufw
   * is missing or inactive, otherwise one verdict per required port.
   */
  function FirewallVerdicts(installed: bool, status: string): (vs: seq<Verdict>)
    ensures |vs| == if !installed || Inactive(status) then 1 else |RequiredPorts|
    ensures forall k :: 0 <= k < |vs| ==> (vs[k].list == Warning <==> !installed || Inactive(status))
  {
    if !installed then [Verdict(Warning, UfwMissing)]
    else if Inactive(status) then [Verdict(Warning, UfwInactive)]
    else RuleVerdicts(RequiredPorts, status)
  }

  /** The ports among `ports` that the status text does not mention, as issues. */
  function Disallowed(ports: seq<string>, status: string): (r: seq<string>)
    ensures |r| <= |ports|
  {
    if ports == [] then []
    else (if Contains(status, ports[0]) then [] else [FirewallIssue(ports[0])]) + Disallowed(ports[1..], status)
  }

  /** The ports among `ports` that the status text mentions, as passed checks. */
  function Allowed(ports: seq<string>, status: string): (r: seq<string>)
    ensures |r| <= |ports|
  {
    if ports == [] then []
    else (if Contains(status, ports[0]) then [FirewallAllows(ports[0])] else []) + Allowed(ports[1..], status)
  }

  /** Per-port verdicts file exactly the allowed ports as passes and the others as issues. */
  lemma {:induction false} RuleVerdictsFiled(ports: seq<string>, status: string)
    ensures Filed(RuleVerdicts(ports, status), Passed) == Allowed(ports, status)
    ensures Filed(RuleVerdicts(ports, status), Issue) == Disallowed(ports, status)
    ensures Filed(RuleVerdicts(ports, status), Warning) == []
  {
    var vs := RuleVerdicts(ports, status);
    if ports != [] {
      RuleVerdictsFiled(ports[1..], status);
      assert vs == [vs[0]] + RuleVerdicts(ports[1..], status);
      forall l { FiledConcat([vs[0]], RuleVerdicts(ports[1..], status), l); }
    }
  }

  /**
   * A missing or inactive ufw files one warning and no port verdicts; an
   * active one files a pass or an issue for every required port and no
   * warning.
   */
  lemma FirewallOutcome(installed: bool, status: string)
    ensures var vs := FirewallVerdicts(installed, status);
      && (!installed || Inactive(status) ==> |Filed(vs, Warning)| == 1 && Filed(vs, Passed) == [] && Filed(vs, Issue) == [])
      && (installed && !Inactive(status) ==>
            && Filed(vs, Warning) == []
            && Filed(vs, Passed) == Allowed(RequiredPorts, status)
            && Filed(vs, Issue) == Disallowed(RequiredPorts, status)
            && |Filed(vs, Passed)| + |Filed(vs, Issue)| == |RequiredPorts|)
  {
    var vs := FirewallVerdicts(installed, status);
    OneListEach(vs);
    if installed && !Inactive(status) {
      RuleVerdictsFiled(RequiredPorts, status);
    }
  }

  // ----------------------------------------------------------- configuration

  /** A vsftpd.conf line the setup needs, and what it means. */
  datatype Setting = Setting(line: string, description: string)

  /** The settings check_configuration requires, in order. */
  const CriticalSettings: seq<Setting> := [
    Setting("listen=YES", "IPv4 listening"),
    Setting("local_enable=YES", "Local users enabled"),
    Setting("write_enable=YES", "Write permissions"),
    Setting("pasv_enable=YES", "Passive mode"),
    Setting("userlist_enable=YES", "User list enabled"),
    Setting("chroot_local_user=NO", "Chroot disabled (correct for this setup)")
  ]

  /** The passed check filed for a setting the file has. */
  function ConfigHas(setting: Setting): string {
    "Config has " + setting.description
  }

  /** The issue filed for a setting the file lacks. */
  function ConfigMissing(setting: Setting): string {
    "Config missing " + setting.description
  }

  /** The issue filed when /etc/vsftpd.conf is absent. */
  const ConfMissing := "vsftpd.conf file missing"

  /** One verdict per setting: present when its line occurs anywhere in the file text. */
  function SettingVerdicts(settings: seq<Setting>, content: string): (vs: seq<Verdict>)
    ensures |vs| == |settings|
    ensures forall k :: 0 <= k < |vs| ==>
      && vs[k].list != Warning
      && (vs[k].list == Passed <==> Contains(content, settings[k].line))
  {
    seq(|settings|, k requires 0 <= k < |settings| =>
      if Contains(content, settings[k].line) then Verdict(Passed, ConfigHas(settings[k]))
      else Verdict(Issue, ConfigMissing(settings[k])))
  }

  /** The issue filed when IPv4 and IPv6 listening are both switched on. */
  const Conflict := "IPv4 and IPv6 both enabled"

  /** The warning filed when chroot is switched on. */
  const ChrootOn := "Chroot enabled (should be disabled)"

  /** Both listen modes are switched on. */
  predicate Conflicting(content: string) {
    Contains(content, "listen_ipv6=YES") && Contains(content, "listen=YES")
  }

  /** The verdicts on the text of a present configuration file. */
  function ContentVerdicts(settings: seq<Setting>, content: string): seq<Verdict> {
    SettingVerdicts(settings, content)
    + (if Conflicting(content) then [Verdict(Issue, Conflict)] else [])
    + (if Contains(content, "chroot_local_user=YES") then [Verdict(Warning, ChrootOn)] else [])
  }

  /** The verdicts of check_configuration; `None` is a missing /etc/vsftpd.conf. */
  function ConfigVerdicts(conf: Option<string>): (vs: seq<Verdict>)
    ensures conf.None? ==> |vs| == 1 && vs[0].list == Issue
    ensures conf.Some? ==> |vs| >= |CriticalSettings| && vs[..|CriticalSettings|] == SettingVerdicts(CriticalSettings, conf.value)
  {
    match conf
    case None => [Verdict(Issue, ConfMissing)]
    case Some(content) => ContentVerdicts(CriticalSettings, content)
  }

  /** Setting verdicts are never warnings, and every message starts with "Config ". */
  lemma {:induction false} SettingsFiled(settings: seq<Setting>, content: string)
    ensures Filed(SettingVerdicts(settings, content), Warning) == []
    ensures forall m :: m in Filed(SettingVerdicts(settings, content), Issue) ==> |m| > 0 && m[0] == 'C'
  {
    var vs := SettingVerdicts(settings, content);
    if settings != [] {
      var rest := SettingVerdicts(settings[1..], content);
      SettingsFiled(settings[1..], content);
      assert vs[1..] == rest;
      assert vs[0].list == Issue ==> vs[0].msg[0] == 'C';
    }
  }

  /**
   * With the file present: the six settings each file exactly one
   * verdict ahead of the rest; the conflict issue is filed exactly when
   * both listen modes are on; the chroot warning is filed exactly when
   * chroot_local_user=YES occurs, and it is the only possible warning.
   */
  lemma ConfigOutcome(settings: seq<Setting>, content: string)
    ensures var vs := ContentVerdicts(settings, content);
      && vs[..|settings|] == SettingVerdicts(settings, content)
      && (Conflict in Filed(vs, Issue) <==> Conflicting(content))
      && Filed(vs, Warning) == (if Contains(content, "chroot_local_user=YES") then [ChrootOn] else [])
  {
    var vs := ContentVerdicts(settings, content);
    var checked := SettingVerdicts(settings, content);
    var conflict := if Conflicting(content) then [Verdict(Issue, Conflict)] else [];
    var chroot := if Contains(content, "chroot_local_user=YES") then [Verdict(Warning, ChrootOn)] else [];
    assert vs == checked + conflict + chroot;
    FiledConcat(checked + conflict, chroot, Issue);
    FiledConcat(checked, conflict, Issue);
    FiledConcat(checked + conflict, chroot, Warning);
    FiledConcat(checked, conflict, Warning);
    if conflict != [] {
      FiledOne(conflict[0], Issue);
      FiledOne(conflict[0], Warning);
    }
    if chroot != [] {
      FiledOne(chroot[0], Issue);
      FiledOne(chroot[0], Warning);
    }
    SettingsFiled(settings, content);
    assert Conflict[0] == 'I';
  }

  // --------------------------------------------------------------- user list

  /** What the system says about one listed user. */
  datatype Account = Account(
    inSystem: bool,
    hasDirectory: bool,
    /** Some(owned) when the owner could be compared, None when the lookup failed. */
    ownedByUser: Option<bool>)

  /** The issue filed for a listed name without an account. */
  function NotInSystem(user: string): string {
    "User " + user + " in list but not in system"
  }

  /** The issue filed for a listed user without a directory under the FTP root. */
  function DirectoryMissing(user: string): string {
    "User " + user + " directory missing"
  }

  /** The warning filed for a user directory owned by someone else. */
  function OwnershipMismatch(user: string): string {
    "User " + user + " directory ownership mismatch"
  }

  /** The warning filed when the allowed-users file is absent. */
  const ListMissing := "User list file does not exist"

  /** The warning filed when the allowed-users file lists nobody. */
  const ListEmpty := "User list is empty"

  /** The verdicts on one listed user: at most one. */
  function UserVerdict(user: string, a: Account): (vs: seq<Verdict>)
    ensures |vs| <= 1
    ensures vs == [] <==> a.inSystem && a.hasDirectory && a.ownedByUser != Some(false)
    ensures vs != [] ==> vs[0].list != Passed && (vs[0].list == Warning <==> a.inSystem && a.hasDirectory)
  {
    if !a.inSystem then [Verdict(Issue, NotInSystem(user))]
    else if !a.hasDirectory then [Verdict(Issue, DirectoryMissing(user))]
    else if a.ownedByUser == Some(false) then [Verdict(Warning, OwnershipMismatch(user))]
    else []
  }

  /** The verdicts on the listed users, in list order. */
  function UserVerdicts(users: seq<string>, accountOf: string -> Account): (vs: seq<Verdict>)
    ensures |vs| <= |users|
    ensures forall k :: 0 <= k < |vs| ==> vs[k].list != Passed
  {
    if users == [] then []
    else
      var last := users[|users| - 1];
      UserVerdicts(users[..|users| - 1], accountOf) + UserVerdict(last, accountOf(last))
  }

  /** Checking one more user appends that user's verdicts. */
  lemma UserVerdictsSnoc(users: seq<string>, i: nat, accountOf: string -> Account)
    requires i < |users|
    ensures UserVerdicts(users[..i + 1], accountOf)
         == UserVerdicts(users[..i], accountOf) + UserVerdict(users[i], accountOf(users[i]))
  {
    assert users[..i + 1][..i] == users[..i];
  }

  /**
   * The verdicts of check_user_list: a warning when the list file is
   * missing (`None`) or lists nobody, otherwise the verdicts on its users.
   */
  function UserListVerdicts(file: Option<seq<string>>, accountOf: string -> Account): (vs: seq<Verdict>)
    ensures file.None? || UserList.Entries(file.value) == [] ==> |vs| == 1 && vs[0].list == Warning
    ensures file.Some? && UserList.Entries(file.value) != [] ==> |vs| <= |UserList.Entries(file.value)|
    ensures forall k :: 0 <= k < |vs| ==> vs[k].list != Passed
  {
    match file
    case None => [Verdict(Warning, ListMissing)]
    case Some(lines) =>
      var users := UserList.Entries(lines);
      if users == [] then [Verdict(Warning, ListEmpty)] else UserVerdicts(users, accountOf)
  }

  /** A user check never passes anything, and files nothing for a healthy account. */
  lemma {:induction false} UsersNeverPass(users: seq<string>, accountOf: string -> Account)
    ensures Filed(UserVerdicts(users, accountOf), Passed) == []
    ensures (forall k :: 0 <= k < |users| ==> accountOf(users[k]) == Account(true, true, Some(true)))
      ==> UserVerdicts(users, accountOf) == []
  {
    if users != [] {
      var front, last := users[..|users| - 1], users[|users| - 1];
      UsersNeverPass(front, accountOf);
      FiledConcat(UserVerdicts(front, accountOf), UserVerdict(last, accountOf(last)), Passed);
      if forall k :: 0 <= k < |users| ==> accountOf(users[k]) == Account(true, true, Some(true)) {
        assert forall k :: 0 <= k < |front| ==> front[k] == users[k];
      }
    }
  }

  // ------------------------------------------------------------- permissions

  /** The issue filed when the FTP root is absent. */
  const RootMissing := "FTP root directory missing"

  /** The passed check filed for an FTP root owned by root. */
  const RootOwned := "FTP root owned by root"

  /** The warning filed for an FTP root owned by someone else. */
  const RootNotOwned := "FTP root not owned by root"

  /** The verdict of check_permissions on the FTP root; `owner` is its uid. */
  function RootVerdicts(rootExists: bool, owner: nat): (vs: seq<Verdict>)
    ensures |vs| == 1
    ensures vs[0].list == Issue <==> !rootExists
    ensures vs[0].list == Passed <==> rootExists && owner == 0
  {
    if !rootExists then [Verdict(Issue, RootMissing)]
    else if owner == 0 then [Verdict(Passed, RootOwned)]
    else [Verdict(Warning, RootNotOwned)]
  }

  /** How many listed users check_permissions looks at. */
  const InspectedUsers := 5

  // ----------------------------------------------------------------- network

  /** The passed check filed when the FTP port answers on localhost. */
  const Reachable := "Port 21 reachable on localhost"

  /** The issue filed when it does not. */
  const Unreachable := "Port 21 not reachable"

  /** The verdict of check_network on `nc -zv localhost 21`. */
  function NetworkVerdicts(ncOk: bool, ncOut: string, ncErr: string): (vs: seq<Verdict>)
    ensures |vs| == 1 && vs[0].list != Warning
    ensures ncOk ==> vs[0].list == Passed
    ensures vs[0].list == Passed <==> ncOk || Contains(Lower(ncOut), "succeeded") || Contains(Lower(ncErr), "succeeded")
  {
    if ncOk || Contains(Lower(ncOut), "succeeded") || Contains(Lower(ncErr), "succeeded")
    then [Verdict(Passed, Reachable)]
    else [Verdict(Issue, Unreachable)]
  }

  // -------------------------------------------------------------------- logs

  /** The log files check_logs greps, in order. */
  const LogFiles: seq<string> := ["/var/log/vsftpd.log", "/var/log/syslog", "/var/log/auth.log"]

  /** How many of the last matching lines check_logs reads. */
  const Window := 20

  /** A log line mentioning an error, a failure, a denial or a refusal, in any case. */
  predicate IsErrorLine(line: string) {
    var l := Lower(line);
    Contains(l, "error") || Contains(l, "fail") || Contains(l, "denied") || Contains(l, "refused")
  }

  /** The error lines among `lines`, in order. */
  function ErrorLines(lines: seq<string>): (r: seq<string>)
    ensures |r| <= |lines|
    ensures forall i :: 0 <= i < |r| ==> r[i] in lines && IsErrorLine(r[i])
  {
    if lines == [] then [] else (if IsErrorLine(lines[0]) then [lines[0]] else []) + ErrorLines(lines[1..])
  }

  /** A line is counted exactly when it occurs and is an error line. */
  lemma {:induction false} ErrorLinesMember(lines: seq<string>, l: string)
    ensures l in ErrorLines(lines) <==> l in lines && IsErrorLine(l)
  {
    if lines != [] {
      ErrorLinesMember(lines[1..], l);
      assert lines == [lines[0]] + lines[1..];
    }
  }

  /** A line in front adds one to the count exactly when it is an error line. */
  lemma ErrorLinesCons(line: string, rest: seq<string>)
    ensures |ErrorLines([line] + rest)| == (if IsErrorLine(line) then 1 else 0) + |ErrorLines(rest)|
  {
    assert ([line] + rest)[1..] == rest;
  }

  /** The last `Window` lines, or all of them when there are no more. */
  function Recent(lines: seq<string>): (r: seq<string>)
    ensures |r| == if |lines| > Window then Window else |lines|
    ensures r == lines[|lines| - |r|..]
  {
    if |lines| > Window then lines[|lines| - Window..] else lines
  }

  /** The lines of grep's output: `stdout.strip().split('\n')`. */
  function OutputLines(out: string): seq<string> {
    Split(Strip(out), '\n')
  }

  // ------------------------------------------------------------------- fixes

  /** A fix suggested for one issue. */
  datatype Fix =
    | StartService(unit: string)
    | CheckListening
    | AllowPort(port: string)
    | CreateDirectory(user: string, root: string)
    | CreateRoot(root: string)
    | ChownDirectory(user: string, root: string)
    | NoFix

  /** An issue with its number in the list of fixes. */
  datatype Suggestion = Suggestion(number: nat, issue: string, fix: Fix)

  /** A lowered text containing a pattern with a non-blank character has at least one word. */
  lemma WordsOfMatch(s: string, t: string, j: nat)
    requires j < |t| && !IsSpace(t[j])
    requires Contains(Lower(s), t)
    ensures |Words(s)| >= 1
  {
    ContainsMatch(Lower(s), t);
    var i :| 0 <= i <= |Lower(s)| - |t| && MatchAt(Lower(s), t, i);
    assert Lower(s)[i + j] == t[j];
    WordsNonEmpty(s, i + j);
  }

  /** A lowered text containing "x y" (two non-blanks around a blank) has at least two words. */
  lemma WordsOfPairMatch(s: string, t: string, j: nat)
    requires 0 < j < |t| - 1 && !IsSpace(t[j - 1]) && IsSpace(t[j]) && !IsSpace(t[j + 1])
    requires Contains(Lower(s), t)
    ensures |Words(s)| >= 2
  {
    var l := Lower(s);
    ContainsMatch(l, t);
    var i :| 0 <= i <= |l| - |t| && MatchAt(l, t, i);
    var before, blank, after := i + j - 1, i + j, i + j + 1;
    assert l[i..i + |t|] == t;
    assert l[before] == t[j - 1] && l[blank] == t[j] && l[after] == t[j + 1];
    LowerCharSpace(s[before]);
    LowerCharSpace(s[blank]);
    LowerCharSpace(s[after]);
    WordsAtLeastTwo(s, before, blank, after);
  }

  /** An issue mentioning "not running" has a first word. */
  lemma NotRunningWords(issue: string)
    requires Contains(Lower(issue), "not running")
    ensures |Words(issue)| >= 1
  {
    WordsOfMatch(issue, "not running", 0);
  }

  /** An issue mentioning "directory missing" or "ownership mismatch" has a second word. */
  lemma TwoWordPatterns(issue: string)
    ensures Contains(Lower(issue), "directory missing") ==> |Words(issue)| >= 2
    ensures Contains(Lower(issue), "ownership mismatch") ==> |Words(issue)| >= 2
  {
    if Contains(Lower(issue), "directory missing") {
      WordsOfPairMatch(issue, "directory missing", 9);
    }
    if Contains(Lower(issue), "ownership mismatch") {
      WordsOfPairMatch(issue, "ownership mismatch", 9);
    }
  }

  /**
   * generate_fixes' classification of one issue AS WRITTEN: the first of
   * its five substring tests on the lowered text that holds picks the fix,
   * and the fix's argument is a word of the issue taken by position.
   */
  function SuggestAsWritten(issue: string, root: string): (f: Fix)
    ensures f == NoFix <==>
      && !Contains(Lower(issue), "not running")
      && !(Contains(Lower(issue), "port") && Contains(Lower(issue), "listening"))
      && !Contains(Lower(issue), "firewall")
      && !Contains(Lower(issue), "directory missing")
      && !Contains(Lower(issue), "ownership mismatch")
    ensures Contains(Lower(issue), "not running") ==> f.StartService?
  {
    var l := Lower(issue);
    if Contains(l, "not running") then
      NotRunningWords(issue);
      StartService(Lower(Words(issue)[0]))
    else if Contains(l, "port") && Contains(l, "listening") then CheckListening
    else if Contains(l, "firewall") then
      AllowPort(if |Words(issue)| > 3 then Words(issue)[3] else "PORT")
    else if Contains(l, "directory missing") then
      TwoWordPatterns(issue);
      CreateDirectory(Words(issue)[1], root)
    else if Contains(l, "ownership mismatch") then
      TwoWordPatterns(issue);
      ChownDirectory(Words(issue)[1], root)
    else NoFix
  }

  /** The unit of the service whose not-running issue this is, if any. */
  function UnitOf(services: seq<Service>, issue: string): (r: Option<string>)
    ensures r.Some? ==> exists k :: 0 <= k < |services| && services[k].unit == r.value
  {
    if services == [] then None
    else if issue == NotRunning(services[0]) then Some(services[0].unit)
    else UnitOf(services[1..], issue)
  }

  /**
   * The classification generate_fixes evidently intends: the same tests
   * in the same order, but the service to start is the unit behind the
   * issue, the port to allow is the last word of the firewall issue, and
   * a missing FTP root is created itself rather than as a user directory
   * named "root".
   */
  function Suggest(issue: string, root: string): (f: Fix)
    ensures f == NoFix <==>
      && !Contains(Lower(issue), "not running")
      && !(Contains(Lower(issue), "port") && Contains(Lower(issue), "listening"))
      && !Contains(Lower(issue), "firewall")
      && !Contains(Lower(issue), "directory missing")
      && !Contains(Lower(issue), "ownership mismatch")
    ensures Contains(Lower(issue), "not running") ==> f.StartService?
  {
    var l := Lower(issue);
    if Contains(l, "not running") then
      match UnitOf(Services, issue)
      case Some(unit) => StartService(unit)
      case None =>
        NotRunningWords(issue);
        StartService(Lower(Words(issue)[0]))
    else if Contains(l, "port") && Contains(l, "listening") then CheckListening
    else if Contains(l, "firewall") then
      AllowPort(if |Words(issue)| > 3 then Words(issue)[|Words(issue)| - 1] else "PORT")
    else if Contains(l, "directory missing") then
      if issue == RootMissing then CreateRoot(root)
      else
        TwoWordPatterns(issue);
        CreateDirectory(Words(issue)[1], root)
    else if Contains(l, "ownership mismatch") then
      TwoWordPatterns(issue);
      ChownDirectory(Words(issue)[1], root)
    else NoFix
  }

  /** The issues numbered from 1, each with its fix. */
  function Suggestions(issues: seq<string>, root: string): (r: seq<Suggestion>)
    ensures |r| == |issues|
    ensures forall k :: 0 <= k < |r| ==>
      r[k].number == k + 1 && r[k].issue == issues[k] && r[k].fix == Suggest(issues[k], root)
  {
    seq(|issues|, k requires 0 <= k < |issues| => Suggestion(k + 1, issues[k], Suggest(issues[k], root)))
  }

  // ---------------------------------------------------------------- debugger

  /** Lists `p`, `w` and `i` are `p0`, `w0` and `i0` with the verdicts `vs` filed. */
  ghost predicate Grown(p0: seq<string>, w0: seq<string>, i0: seq<string>,
                        p: seq<string>, w: seq<string>, i: seq<string>, vs: seq<Verdict>)
  {
    && p == p0 + Filed(vs, Passed)
    && w == w0 + Filed(vs, Warning)
    && i == i0 + Filed(vs, Issue)
  }

  /** Filing one more verdict keeps the lists in step with the verdicts. */
  lemma GrownSnoc(p0: seq<string>, w0: seq<string>, i0: seq<string>,
                  p: seq<string>, w: seq<string>, i: seq<string>, vs: seq<Verdict>, v: Verdict)
    requires Grown(p0, w0, i0, p, w, i, vs)
    ensures Grown(p0, w0, i0,
                  p + (if v.list == Passed then [v.msg] else []),
                  w + (if v.list == Warning then [v.msg] else []),
                  i + (if v.list == Issue then [v.msg] else []),
                  vs + [v])
  {
    FiledSnoc(vs, v);
    Regroup(p0, Filed(vs, Passed), if v.list == Passed then [v.msg] else []);
    Regroup(w0, Filed(vs, Warning), if v.list == Warning then [v.msg] else []);
    Regroup(i0, Filed(vs, Issue), if v.list == Issue then [v.msg] else []);
  }

  /** Two checks run one after the other file the concatenation of their verdicts. */
  lemma GrownConcat(p0: seq<string>, w0: seq<string>, i0: seq<string>,
                    p1: seq<string>, w1: seq<string>, i1: seq<string>,
                    p: seq<string>, w: seq<string>, i: seq<string>, a: seq<Verdict>, b: seq<Verdict>)
    requires Grown(p0, w0, i0, p1, w1, i1, a)
    requires Grown(p1, w1, i1, p, w, i, b)
    ensures Grown(p0, w0, i0, p, w, i, a + b)
  {
    FiledConcat(a, b, Passed);
    FiledConcat(a, b, Warning);
    FiledConcat(a, b, Issue);
    Regroup(p0, Filed(a, Passed), Filed(b, Passed));
    Regroup(w0, Filed(a, Warning), Filed(b, Warning));
    Regroup(i0, Filed(a, Issue), Filed(b, Issue));
  }

  /** A prefix one longer ends with the next element. */
  lemma TakeOneMore<T>(s: seq<T>, i: nat)
    requires i < |s|
    ensures s[..i + 1] == s[..i] + [s[i]]
  {
  }

  /** Everything the checks observe on the host, as captured text and flags. */
  datatype Observations = Observations(
    /** Output of `systemctl is-active` for a unit. */
    statusOf: string -> string,
    netstatOk: bool,
    netstat: string,
    ss: string,
    ufwInstalled: bool,
    ufwStatus: string,
    /** /etc/vsftpd.conf, when present. */
    vsftpdConf: Option<string>,
    /** The lines of the allowed-users file, when present. */
    userList: Option<seq<string>>,
    accountOf: string -> Account,
    rootExists: bool,
    rootOwner: nat,
    ncOk: bool,
    ncOut: string,
    ncErr: string,
    /** Output of grepping a log file for FTP lines, None when the file is absent. */
    grep: string -> Option<string>)

  /** All verdicts of one diagnostic run, in the order the checks run. */
  function AllVerdicts(obs: Observations): (vs: seq<Verdict>)
    ensures |vs| >= |Services| + |ListeningPorts| + 4
    ensures vs[..|Services|] == ServiceVerdicts(Services, obs.statusOf)
    ensures vs[|Services|..|Services| + |ListeningPorts|]
         == PortVerdicts(ListeningPorts, SocketListing(obs.netstatOk, obs.netstat, obs.ss))
    ensures vs[|vs| - 2..] == RootVerdicts(obs.rootExists, obs.rootOwner) + NetworkVerdicts(obs.ncOk, obs.ncOut, obs.ncErr)
  {
    ServiceVerdicts(Services, obs.statusOf)
    + PortVerdicts(ListeningPorts, SocketListing(obs.netstatOk, obs.netstat, obs.ss))
    + FirewallVerdicts(obs.ufwInstalled, obs.ufwStatus)
    + ConfigVerdicts(obs.vsftpdConf)
    + UserListVerdicts(obs.userList, obs.accountOf)
    + RootVerdicts(obs.rootExists, obs.rootOwner)
    + NetworkVerdicts(obs.ncOk, obs.ncOut, obs.ncErr)
  }

  /** What check_logs reports for one log file: nothing, or its recent error count. */
  function LogCount(output: Option<string>): (r: Option<nat>)
    ensures r.Some? ==> output.Some? && output.value != "" && r.value <= 20
    ensures output.Some? && output.value != "" ==> r.Some?
  {
    match output
    case None => None
    case Some(out) => if out == "" then None else Some(|ErrorLines(Recent(OutputLines(out)))|)
  }

  /** The debugger's state: the three result lists every check appends to. */
  class FtpDebugger {
    var passed: seq<string>
    var warnings: seq<string>
    var issues: seq<string>

    constructor()
      ensures passed == [] && warnings == [] && issues == []
    {
      passed, warnings, issues := [], [], [];
    }

    /** Since the lists read `p0`, `w0` and `i0`, exactly the verdicts `vs` were filed. */
    ghost predicate FiledSince(p0: seq<string>, w0: seq<string>, i0: seq<string>, vs: seq<Verdict>)
      reads this
    {
      Grown(p0, w0, i0, passed, warnings, issues, vs)
    }

    /** Files one verdict in its list. */
    method Record(v: Verdict)
      modifies this
      ensures passed == old(passed) + (if v.list == Passed then [v.msg] else [])
      ensures warnings == old(warnings) + (if v.list == Warning then [v.msg] else [])
      ensures issues == old(issues) + (if v.list == Issue then [v.msg] else [])
    {
      match v.list
      case Passed => passed := passed + [v.msg];
      case Warning => warnings := warnings + [v.msg];
      case Issue => issues := issues + [v.msg];
    }

    /** check_services: one verdict per service, from `systemctl is-active`. */
    method CheckServices(statusOf: string -> string)
      modifies this
      ensures FiledSince(old(passed), old(warnings), old(issues), ServiceVerdicts(Services, statusOf))
    {
      ghost var vs := ServiceVerdicts(Services, statusOf);
      for i := 0 to |Services|
        invariant FiledSince(old(passed), old(warnings), old(issues), vs[..i])
      {
        var s := Services[i];
        var v;
        if Active(statusOf(s.unit)) {
          v := Verdict(Passed, Running(s));
        } else if s.unit == "fail2ban" {
          v := Verdict(Warning, NotRunning(s));
        } else {
          v := Verdict(Issue, NotRunning(s));
        }
        GrownSnoc(old(passed), old(warnings), old(issues), passed, warnings, issues, vs[..i], v);
        Record(v);
        assert v == vs[i];
        TakeOneMore(vs, i);
      }
      assert vs[..|Services|] == vs;
    }
  
    /** check_ports: one verdict per port, from netstat's listing or, when netstat fails, ss's. */
    method CheckPorts(netstatOk: bool, netstat: string, ss: string)
      modifies this
      ensures FiledSince(old(passed), old(warnings), old(issues),
                         PortVerdicts(ListeningPorts, SocketListing(netstatOk, netstat, ss)))
    {
      var listing := netstat;
      if !netstatOk {
        listing := ss;
      }
      ghost var vs := PortVerdicts(ListeningPorts, listing);
      for i := 0 to |ListeningPorts|
        invariant FiledSince(old(passed), old(warnings), old(issues), vs[..i])
      {
        var port := ListeningPorts[i];
        var v;
        if Listens(listing, port) {
          v := Verdict(Passed, PortUp(port));
        } else if port == "20" {
          v := Verdict(Warning, PortQuiet(port));
        } else {
          v := Verdict(Issue, PortDown(port));
        }
        GrownSnoc(old(passed), old(warnings), old(issues), passed, warnings, issues, vs[..i], v);
        Record(v);
        assert v == vs[i];
        TakeOneMore(vs, i);
      }
      assert vs[..|ListeningPorts|] == vs;
    }

    /**
     * check_firewall: a warning when ufw is missing or inactive, otherwise
     * one verdict per required port.
     */
    method CheckFirewall(installed: bool, status: string)
      modifies this
      ensures FiledSince(old(passed), old(warnings), old(issues), FirewallVerdicts(installed, status))
    {
      if !installed {
        GrownSnoc(passed, warnings, issues, passed, warnings, issues, [], Verdict(Warning, UfwMissing));
        Record(Verdict(Warning, UfwMissing));
        return;
      }
      if Contains(Lower(status), "inactive") {
        GrownSnoc(passed, warnings, issues, passed, warnings, issues, [], Verdict(Warning, UfwInactive));
        Record(Verdict(Warning, UfwInactive));
        return;
      }
      ghost var vs := RuleVerdicts(RequiredPorts, status);
      for i := 0 to |RequiredPorts|
        invariant FiledSince(old(passed), old(warnings), old(issues), vs[..i])
      {
        var port := RequiredPorts[i];
        var v;
        if Contains(status, port) {
          v := Verdict(Passed, FirewallAllows(port));
        } else {
          v := Verdict(Issue, FirewallIssue(port));
        }
        GrownSnoc(old(passed), old(warnings), old(issues), passed, warnings, issues, vs[..i], v);
        Record(v);
        assert v == vs[i];
        TakeOneMore(vs, i);
      }
      assert vs[..|RequiredPorts|] == vs;
    }

    /**
     * check_configuration: an issue when the file is missing; otherwise one
     * verdict per critical setting, then the conflict issue and the chroot
     * warning when they apply.
     */
    method CheckConfiguration(conf: Option<string>)
      modifies this
      ensures FiledSince(old(passed), old(warnings), old(issues), ConfigVerdicts(conf))
    {
      if conf.None? {
        GrownSnoc(passed, warnings, issues, passed, warnings, issues, [], Verdict(Issue, ConfMissing));
        Record(Verdict(Issue, ConfMissing));
        return;
      }
      var content := conf.value;
      ghost var checked := SettingVerdicts(CriticalSettings, content);
      for i := 0 to |CriticalSettings|
        invariant FiledSince(old(passed), old(warnings), old(issues), checked[..i])
      {
        var setting := CriticalSettings[i];
        var v;
        if Contains(content, setting.line) {
          v := Verdict(Passed, ConfigHas(setting));
        } else {
          v := Verdict(Issue, ConfigMissing(setting));
        }
        GrownSnoc(old(passed), old(warnings), old(issues), passed, warnings, issues, checked[..i], v);
        Record(v);
        assert v == checked[i];
        TakeOneMore(checked, i);
      }
      assert checked[..|CriticalSettings|] == checked;
      ghost var vs := checked;
      if Contains(content, "listen_ipv6=YES") && Contains(content, "listen=YES") {
        GrownSnoc(old(passed), old(warnings), old(issues), passed, warnings, issues, vs, Verdict(Issue, Conflict));
        Record(Verdict(Issue, Conflict));
        vs := vs + [Verdict(Issue, Conflict)];
      }
      if Contains(content, "chroot_local_user=YES") {
        GrownSnoc(old(passed), old(warnings), old(issues), passed, warnings, issues, vs, Verdict(Warning, ChrootOn));
        Record(Verdict(Warning, ChrootOn));
        vs := vs + [Verdict(Warning, ChrootOn)];
      }
      assert vs == ContentVerdicts(CriticalSettings, content);
    }

    /**
     * check_user_list: a warning when the list is missing or lists nobody,
     * otherwise the verdicts on each listed user in turn.
     */
    method CheckUserList(file: Option<seq<string>>, accountOf: string -> Account)
      modifies this
      ensures FiledSince(old(passed), old(warnings), old(issues), UserListVerdicts(file, accountOf))
    {
      if file.None? {
        GrownSnoc(passed, warnings, issues, passed, warnings, issues, [], Verdict(Warning, ListMissing));
        Record(Verdict(Warning, ListMissing));
        return;
      }
      var users := UserList.Entries(file.value);
      if users == [] {
        GrownSnoc(passed, warnings, issues, passed, warnings, issues, [], Verdict(Warning, ListEmpty));
        Record(Verdict(Warning, ListEmpty));
        return;
      }
      for i := 0 to |users|
        invariant FiledSince(old(passed), old(warnings), old(issues), UserVerdicts(users[..i], accountOf))
      {
        var user := users[i];
        ghost var p1, w1, i1 := passed, warnings, issues;
        CheckUser(user, accountOf(user));
        GrownConcat(old(passed), old(warnings), old(issues), p1, w1, i1, passed, warnings, issues,
                    UserVerdicts(users[..i], accountOf), UserVerdict(user, accountOf(user)));
        UserVerdictsSnoc(users, i, accountOf);
      }
      assert users[..|users|] == users;
    }

    /** The body of check_user_list's loop: the verdict on one listed user, if any. */
    method CheckUser(user: string, account: Account)
      modifies this
      ensures FiledSince(old(passed), old(warnings), old(issues), UserVerdict(user, account))
    {
      var none: seq<Verdict> := [];
      if !account.inSystem {
        var v := Verdict(Issue, NotInSystem(user));
        GrownSnoc(passed, warnings, issues, passed, warnings, issues, none, v);
        Record(v);
      } else if !account.hasDirectory {
        var v := Verdict(Issue, DirectoryMissing(user));
        GrownSnoc(passed, warnings, issues, passed, warnings, issues, none, v);
        Record(v);
      } else if account.ownedByUser == Some(false) {
        var v := Verdict(Warning, OwnershipMismatch(user));
        GrownSnoc(passed, warnings, issues, passed, warnings, issues, none, v);
        Record(v);
      } else {
        assert Grown(passed, warnings, issues, passed, warnings, issues, none);
      }
    }

    /**
     * check_permissions: an issue when the FTP root is missing, otherwise a
     * verdict on its owner; it then looks at the directories of at most the
     * first five listed users, which it only reports, and returns them.
     */
    method CheckPermissions(rootExists: bool, owner: nat, file: Option<seq<string>>)
      returns (inspected: seq<string>)
      modifies this
      ensures FiledSince(old(passed), old(warnings), old(issues), RootVerdicts(rootExists, owner))
      ensures !rootExists || file.None? ==> inspected == []
      ensures rootExists && file.Some? ==>
        var users := UserList.Entries(file.value);
        && |inspected| == (if |users| < InspectedUsers then |users| else InspectedUsers)
        && inspected == users[..|inspected|]
    {
      inspected := [];
      if !rootExists {
        GrownSnoc(passed, warnings, issues, passed, warnings, issues, [], Verdict(Issue, RootMissing));
        Record(Verdict(Issue, RootMissing));
        return;
      }
      var v;
      if owner == 0 {
        v := Verdict(Passed, RootOwned);
      } else {
        v := Verdict(Warning, RootNotOwned);
      }
      GrownSnoc(passed, warnings, issues, passed, warnings, issues, [], v);
      Record(v);
      if file.Some? {
        var users := UserList.Entries(file.value);
        var first := if |users| < InspectedUsers then users else users[..InspectedUsers];
        for i := 0 to |first|
          invariant inspected == first[..i]
          invariant FiledSince(old(passed), old(warnings), old(issues), RootVerdicts(rootExists, owner))
        {
          TakeOneMore(first, i);
          inspected := inspected + [first[i]];
        }
        assert first[..|first|] == first;
      }
    }

    /** check_network: whether `nc -zv localhost 21` got through. */
    method CheckNetwork(ncOk: bool, ncOut: string, ncErr: string)
      modifies this
      ensures FiledSince(old(passed), old(warnings), old(issues), NetworkVerdicts(ncOk, ncOut, ncErr))
    {
      var v;
      if ncOk || Contains(Lower(ncOut), "succeeded") || Contains(Lower(ncErr), "succeeded") {
        v := Verdict(Passed, Reachable);
      } else {
        v := Verdict(Issue, Unreachable);
      }
      GrownSnoc(passed, warnings, issues, passed, warnings, issues, [], v);
      Record(v);
    }

    /**
     * The error count check_logs prints for one file from the lines of
     * grep's output: among the last `Window` lines, those that mention an
     * error.
     */
    method CountRecentErrors(lines: seq<string>) returns (count: nat)
      ensures count == |ErrorLines(Recent(lines))|
      ensures count <= Window
    {
      var recent := if |lines| > Window then lines[|lines| - Window..] else lines;
      assert recent == Recent(lines);
      count := 0;
      for i := 0 to |recent|
        invariant count + |ErrorLines(recent[i..])| == |ErrorLines(recent)|
      {
        var line := recent[i];
        assert recent[i..] == [line] + recent[i + 1..];
        ErrorLinesCons(line, recent[i + 1..]);
        if IsErrorLine(line) {
          count := count + 1;
        }
      }
    }

    /**
     * check_logs: for each log file, nothing when it is absent or grep
     * finds no FTP line, otherwise the count of recent error lines. It
     * files nothing in the three lists.
     */
    method CheckLogs(grep: string -> Option<string>) returns (counts: seq<Option<nat>>)
      ensures |counts| == |LogFiles|
      ensures forall k :: 0 <= k < |LogFiles| ==> counts[k] == LogCount(grep(LogFiles[k]))
    {
      counts := [];
      for i := 0 to |LogFiles|
        invariant |counts| == i
        invariant forall k :: 0 <= k < i ==> counts[k] == LogCount(grep(LogFiles[k]))
      {
        var found := grep(LogFiles[i]);
        var c: Option<nat> := None;
        if found.Some? && found.value != "" {
          var n := CountRecentErrors(Split(Strip(found.value), '\n'));
          c := Some(n);
        }
        counts := counts + [c];
      }
    }

    /**
     * generate_fixes: the issues numbered from 1 in the order they were
     * found, each with the fix its text calls for.
     */
    method GenerateFixes(root: string) returns (fixes: seq<Suggestion>)
      ensures |fixes| == |issues|
      ensures forall k :: 0 <= k < |fixes| ==> fixes[k] == Suggestion(k + 1, issues[k], Suggest(issues[k], root))
      ensures fixes == Suggestions(issues, root)
    {
      fixes := [];
      if issues == [] {
        return;
      }
      ghost var all := Suggestions(issues, root);
      var number := 1;
      for i := 0 to |issues|
        invariant number == i + 1
        invariant fixes == all[..i]
      {
        fixes := fixes + [Suggestion(number, issues[i], Suggest(issues[i], root))];
        number := number + 1;
      }
      assert all[..|issues|] == all;
    }

    /** The seven checks of run_diagnostics that file verdicts, in their order. */
    method RunChecks(obs: Observations)
      modifies this
      ensures FiledSince(old(passed), old(warnings), old(issues), AllVerdicts(obs))
    {
      ghost var p0, w0, i0 := passed, warnings, issues;
      CheckServices(obs.statusOf);
      ghost var vs := ServiceVerdicts(Services, obs.statusOf);
      ghost var p1, w1, i1 := passed, warnings, issues;
      CheckPorts(obs.netstatOk, obs.netstat, obs.ss);
      GrownConcat(p0, w0, i0, p1, w1, i1, passed, warnings, issues, vs,
                  PortVerdicts(ListeningPorts, SocketListing(obs.netstatOk, obs.netstat, obs.ss)));
      vs := vs + PortVerdicts(ListeningPorts, SocketListing(obs.netstatOk, obs.netstat, obs.ss));
      p1, w1, i1 := passed, warnings, issues;
      CheckFirewall(obs.ufwInstalled, obs.ufwStatus);
      GrownConcat(p0, w0, i0, p1, w1, i1, passed, warnings, issues, vs, FirewallVerdicts(obs.ufwInstalled, obs.ufwStatus));
      vs := vs + FirewallVerdicts(obs.ufwInstalled, obs.ufwStatus);
      p1, w1, i1 := passed, warnings, issues;
      CheckConfiguration(obs.vsftpdConf);
      GrownConcat(p0, w0, i0, p1, w1, i1, passed, warnings, issues, vs, ConfigVerdicts(obs.vsftpdConf));
      vs := vs + ConfigVerdicts(obs.vsftpdConf);
      p1, w1, i1 := passed, warnings, issues;
      CheckUserList(obs.userList, obs.accountOf);
      GrownConcat(p0, w0, i0, p1, w1, i1, passed, warnings, issues, vs, UserListVerdicts(obs.userList, obs.accountOf));
      vs := vs + UserListVerdicts(obs.userList, obs.accountOf);
      p1, w1, i1 := passed, warnings, issues;
      var inspected := CheckPermissions(obs.rootExists, obs.rootOwner, obs.userList);
      GrownConcat(p0, w0, i0, p1, w1, i1, passed, warnings, issues, vs, RootVerdicts(obs.rootExists, obs.rootOwner));
      vs := vs + RootVerdicts(obs.rootExists, obs.rootOwner);
      p1, w1, i1 := passed, warnings, issues;
      CheckNetwork(obs.ncOk, obs.ncOut, obs.ncErr);
      GrownConcat(p0, w0, i0, p1, w1, i1, passed, warnings, issues, vs, NetworkVerdicts(obs.ncOk, obs.ncOut, obs.ncErr));
      vs := vs + NetworkVerdicts(obs.ncOk, obs.ncOut, obs.ncErr);
      assert vs == AllVerdicts(obs);
    }

    /**
     * run_diagnostics: every check in order, then the summary total and,
     * when there are issues, the suggested fixes. `root` is the configured
     * FTP root named in the fixes.
     */
    method RunDiagnostics(obs: Observations, root: string) returns (total: nat, fixes: seq<Suggestion>)
      modifies this
      ensures FiledSince(old(passed), old(warnings), old(issues), AllVerdicts(obs))
      ensures total == |old(passed)| + |old(warnings)| + |old(issues)| + |AllVerdicts(obs)|
      ensures fixes == Suggestions(issues, root)
    {
      RunChecks(obs);
      var counts := CheckLogs(obs.grep);
      total := |passed| + |warnings| + |issues|;
      OneListEach(AllVerdicts(obs));
      fixes := GenerateFixes(root);
    }
  }
}
