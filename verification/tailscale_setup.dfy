/**
 * TailscaleSetup: installing Tailscale, enabling IP forwarding, logging in,
 * choosing an exit node and verifying the result. Every command the script
 * runs goes to the host, which decides, for the k-th command run, whether
 * it exits with status 0 and what it prints; the model keeps the commands
 * run so far and the lines written to the sysctl drop-in file.
 */
module TailscaleSetup {
  import opened Wrappers
  import opened Text

  /** The `tailscale_config` section of the settings. */
  datatype TailscaleConfig = TailscaleConfig(
    acceptRoutes: bool,
    acceptDns: bool,
    shieldsUp: bool,
    advertiseExitNode: bool,
    sshEnabled: bool,
    hostname: string,
    operator: string,
    advertiseRoutes: seq<string>)

  /** The `network_config` section of the settings. */
  datatype NetworkConfig = NetworkConfig(
    exitNode: string,
    exitNodeAllowLanAccess: bool,
    ipv4Enabled: bool,
    ipv6Enabled: bool)

  /** A missing `network_config`: IPv4 forwarding on, IPv6 off, no exit node. */
  const DefaultNetwork := NetworkConfig("", false, true, false)

  /**
   * The machine the script runs on: whether it runs as root, whether the
   * program of the k-th command run can be started at all (it is on the
   * PATH), how that command ends and what it prints, and whether the
   * sysctl drop-in file can be written.
   */
  datatype Host = Host(
    isRoot: bool,
    starts: (nat, seq<string>) -> bool,
    exitsZero: (nat, seq<string>) -> bool,
    stdout: (nat, seq<string>) -> string,
    confWritable: bool)

  /**
   * What a step reports, the commands it ran, in order, the lines it
   * wrote to the sysctl drop-in file, if it wrote the file, and whether
   * FileNotFoundError escaped it instead: a program that could not be
   * started where only CalledProcessError is caught.
   */
  datatype Outcome = Outcome(ok: bool, cmds: seq<seq<string>>, conf: Option<seq<string>>, raised: bool)

  // ---------------------------------------------------------------------
  // Command lines
  // ---------------------------------------------------------------------

  const Which: seq<string> := ["which", "tailscale"]
  const Version: seq<string> := ["tailscale", "version"]
  const Curl: seq<string> := ["curl", "-fsSL", "https://tailscale.com/install.sh"]
  const Sh: seq<string> := ["sh"]
  const Status: seq<string> := ["tailscale", "status"]
  const IsActive: seq<string> := ["systemctl", "is-active", "tailscaled"]
  const Sysctl4: seq<string> := ["sysctl", "-w", "net.ipv4.ip_forward=1"]
  const Sysctl6: seq<string> := ["sysctl", "-w", "net.ipv6.conf.all.forwarding=1"]
  const Ip4: seq<string> := ["tailscale", "ip", "-4"]
  const Ip6: seq<string> := ["tailscale", "ip", "-6"]

  /** The lines enable_ip_forwarding persists. */
  const Ipv4Line := "net.ipv4.ip_forward = 1\n"
  const Ipv6Line := "net.ipv6.conf.all.forwarding = 1\n"

  /** The boolean options of `tailscale up`, in the order login_tailscale adds them. */
  const FlagNames: seq<string> := ["--accept-routes", "--accept-dns", "--shields-up", "--advertise-exit-node", "--ssh"]

  /** The boolean options a configuration switches on, in the same order. */
  function Enabled(c: TailscaleConfig): seq<bool> {
    [c.acceptRoutes, c.acceptDns, c.shieldsUp, c.advertiseExitNode, c.sshEnabled]
  }

  /** The options among `names` whose switch is on, `from` onwards, in order. */
  function Flags(names: seq<string>, enabled: seq<bool>, from: nat): (r: seq<string>)
    requires |enabled| == |names| && from <= |names|
    ensures |r| <= |names| - from
    ensures (forall j :: from <= j < |names| ==> enabled[j]) ==> r == names[from..]
    ensures (forall j :: from <= j < |names| ==> !enabled[j]) ==> r == []
    decreases |names| - from
  {
    if from == |names| then []
    else (if enabled[from] then [names[from]] else []) + Flags(names, enabled, from + 1)
  }

  /** An option followed by its value, present only for a non-empty value. */
  function Pair(option: string, value: string): seq<string> {
    if value != [] then [option, value] else []
  }

  /** The routes as the single comma-joined value of `--advertise-routes`. */
  function RoutesOption(routes: seq<string>): seq<string> {
    if routes != [] then ["--advertise-routes", Join(',', routes)] else []
  }

  /** The hostname, operator and route options of a configuration, in that order. */
  function ValueOptions(c: TailscaleConfig): seq<string> {
    Pair("--hostname", c.hostname) + Pair("--operator", c.operator) + RoutesOption(c.advertiseRoutes)
  }

  /** The options login_tailscale adds: the switched-on booleans, then hostname, operator and routes. */
  function Options(c: TailscaleConfig): seq<string> {
    Flags(FlagNames, Enabled(c), 0) + ValueOptions(c)
  }

  /** The command login_tailscale runs: `tailscale up`, the options, then the caller's arguments. */
  function UpArgv(c: TailscaleConfig, args: seq<string>): (argv: seq<string>)
    ensures |argv| >= 2 + |args| && argv[..2] == ["tailscale", "up"]
  {
    ["tailscale", "up"] + Options(c) + args
  }

  /** The command configure_exit_node runs. */
  function SetArgv(n: NetworkConfig): (argv: seq<string>)
    ensures |argv| >= 4 && argv[..4] == ["tailscale", "set", "--exit-node", n.exitNode]
    ensures |argv| == 5 <==> n.exitNodeAllowLanAccess
    ensures |argv| == 5 ==> argv[4] == "--exit-node-allow-lan-access"
  {
    ["tailscale", "set", "--exit-node", n.exitNode]
    + (if n.exitNodeAllowLanAccess then ["--exit-node-allow-lan-access"] else [])
  }

  // ---------------------------------------------------------------------
  // Reading a `tailscale up` command back
  // ---------------------------------------------------------------------

  /** What a `tailscale up` command asks for. */
  datatype UpRequest = UpRequest(enabled: seq<bool>, hostname: string, operator: string, routes: seq<string>)

  /** The request a configuration makes. */
  function RequestOf(c: TailscaleConfig): UpRequest {
    UpRequest(Enabled(c), c.hostname, c.operator, c.advertiseRoutes)
  }

  /**
   * Reads the options among `names`, each at most once and only in their
   * order, from `from` onwards; returns the switches and the unread tokens.
   */
  function ReadFlags(names: seq<string>, ts: seq<string>, from: nat): (r: (seq<bool>, seq<string>))
    requires from <= |names|
    ensures |r.0| == |names| - from
    ensures |r.1| <= |ts|
    decreases |names| - from
  {
    if from == |names| then ([], ts)
    else if ts != [] && ts[0] == names[from] then
      var rest := ReadFlags(names, ts[1..], from + 1);
      ([true] + rest.0, rest.1)
    else
      var rest := ReadFlags(names, ts, from + 1);
      ([false] + rest.0, rest.1)
  }

  /** Reads `option value` if the tokens start with the option; "" otherwise. */
  function ReadPair(ts: seq<string>, option: string): (r: (string, seq<string>))
    ensures |r.1| <= |ts|
  {
    if |ts| >= 2 && ts[0] == option then (ts[1], ts[2..]) else ([], ts)
  }

  /** Reads `--advertise-routes a,b,...` into the routes, if present. */
  function ReadRoutes(ts: seq<string>): (r: (seq<string>, seq<string>))
    ensures |r.1| <= |ts|
  {
    if |ts| >= 2 && ts[0] == "--advertise-routes" then (Split(ts[1], ','), ts[2..]) else ([], ts)
  }

  /**
   * Reads a `tailscale up` command with no extra arguments: the prefix, the
   * boolean options in their order, then hostname, operator and routes.
   * Anything out of order or left over makes it unreadable.
   */
  function ParseUp(argv: seq<string>): Option<UpRequest> {
    if |argv| < 2 || argv[0] != "tailscale" || argv[1] != "up" then None
    else ParseOptions(argv[2..])
  }

  /** Reads the options of a `tailscale up` command. */
  function ParseOptions(ts0: seq<string>): Option<UpRequest> {
    var (enabled, ts1) := ReadFlags(FlagNames, ts0, 0);
    var (hostname, ts2) := ReadPair(ts1, "--hostname");
    var (operator, ts3) := ReadPair(ts2, "--operator");
    var (routes, ts4) := ReadRoutes(ts3);
    if ts4 == [] then Some(UpRequest(enabled, hostname, operator, routes)) else None
  }

  /** No option name is another's, and no boolean option is a value option. */
  lemma OptionNamesDistinct()
    ensures Distinct(FlagNames)
    ensures forall i :: 0 <= i < |FlagNames| ==>
      FlagNames[i] != "--hostname" && FlagNames[i] != "--operator" && FlagNames[i] != "--advertise-routes"
    ensures "--hostname" != "--operator" && "--hostname" != "--advertise-routes" && "--operator" != "--advertise-routes"
  {
    assert FlagNames[0][3] == 'c' && FlagNames[1][3] == 'c' && FlagNames[2][3] == 'h';
    assert FlagNames[3][3] == 'd' && FlagNames[4][3] == 's';
    assert FlagNames[0][9] == 'r' && FlagNames[1][9] == 'd';
    assert "--hostname"[3] == 'o' && "--operator"[3] == 'p' && "--advertise-routes"[3] == 'd';
    assert |FlagNames[3]| == 21 && |"--advertise-routes"| == 18;
  }

  /** No two of the names are equal. */
  predicate Distinct(names: seq<string>) {
    forall i, j :: 0 <= i < j < |names| ==> names[i] != names[j]
  }

  /** Reading the options a switch vector produces gives back the switches. */
  lemma {:induction false} ReadFlagsOf(names: seq<string>, enabled: seq<bool>, from: nat, rest: seq<string>)
    requires |enabled| == |names| && from <= |names| && Distinct(names)
    requires rest == [] || rest[0] !in names
    ensures ReadFlags(names, Flags(names, enabled, from) + rest, from) == (enabled[from..], rest)
    decreases |names| - from
  {
    if from < |names| {
      var later := Flags(names, enabled, from + 1);
      var tail := later + rest;
      ReadFlagsOf(names, enabled, from + 1, rest);
      assert enabled[from..] == [enabled[from]] + enabled[from + 1..];
      if enabled[from] {
        assert Flags(names, enabled, from) == [names[from]] + later;
        Regroup([names[from]], later, rest);
        var ts := [names[from]] + tail;
        assert ts[0] == names[from] && ts[1..] == tail;
      } else {
        assert Flags(names, enabled, from) == later;
        LaterFlagsDiffer(names, enabled, from, rest);
      }
    } else {
      assert Flags(names, enabled, from) == [] && enabled[from..] == [];
      assert Flags(names, enabled, from) + rest == rest;
    }
  }

  /** The options after position `from` never start with the option at `from`. */
  lemma LaterFlagsDiffer(names: seq<string>, enabled: seq<bool>, from: nat, rest: seq<string>)
    requires |enabled| == |names| && from < |names| && Distinct(names)
    requires rest == [] || rest[0] !in names
    ensures var t := Flags(names, enabled, from + 1) + rest; t == [] || t[0] != names[from]
  {
    var f := Flags(names, enabled, from + 1);
    FlagsHead(names, enabled, from + 1);
    if f != [] {
      var j :| from + 1 <= j < |names| && f[0] == names[j];
    }
  }

  /** The first option produced from position `from` on is one of the names there. */
  lemma {:induction false} FlagsHead(names: seq<string>, enabled: seq<bool>, from: nat)
    requires |enabled| == |names| && from <= |names|
    ensures var f := Flags(names, enabled, from);
      f == [] || exists j :: from <= j < |names| && f[0] == names[j]
    decreases |names| - from
  {
    if from < |names| && !enabled[from] {
      FlagsHead(names, enabled, from + 1);
    }
  }

  /**
   * The `tailscale up` command reads back as the configuration's request:
   * every boolean option present exactly when switched on and in the fixed
   * order, then hostname, operator and routes, each only when non-empty.
   */
  lemma UpArgvReadsBack(c: TailscaleConfig)
    requires forall k :: 0 <= k < |c.advertiseRoutes| ==> ',' !in c.advertiseRoutes[k]
    ensures ParseUp(UpArgv(c, [])) == Some(RequestOf(c))
  {
    ArgvTail(c);
    ReadOptions(c);
  }

  /** The options of a configuration read back as its request. */
  lemma ReadOptions(c: TailscaleConfig)
    requires forall k :: 0 <= k < |c.advertiseRoutes| ==> ',' !in c.advertiseRoutes[k]
    ensures ParseOptions(Options(c)) == Some(RequestOf(c))
  {
    var routes := RoutesOption(c.advertiseRoutes);
    var operator := Pair("--operator", c.operator) + routes;
    FlagsReadBack(c);
    Regroup(Pair("--hostname", c.hostname), Pair("--operator", c.operator), routes);
    assert ReadFlags(FlagNames, Options(c), 0) == (Enabled(c), Pair("--hostname", c.hostname) + operator);
    ReadHostname(c);
    ReadOperatorRoutes(c);
  }

  /** The boolean options read back as the switches, leaving the value options. */
  lemma FlagsReadBack(c: TailscaleConfig)
    ensures ReadFlags(FlagNames, Options(c), 0) == (Enabled(c), ValueOptions(c))
  {
    OptionNamesDistinct();
    ValueOptionsStart(c);
    ReadFlagsOf(FlagNames, Enabled(c), 0, ValueOptions(c));
    assert Enabled(c)[0..] == Enabled(c);
  }



  /** The value options never start with a boolean option. */
  lemma ValueOptionsStart(c: TailscaleConfig)
    ensures var v := ValueOptions(c); v == [] || v[0] !in FlagNames
  {
    OptionNamesDistinct();
    var routes := RoutesOption(c.advertiseRoutes);
    var operator := Pair("--operator", c.operator) + routes;
    var hostname := Pair("--hostname", c.hostname) + operator;
    assert hostname == ValueOptions(c);
    assert routes == [] || routes[0] == "--advertise-routes";
    assert operator == [] || operator[0] == "--operator" || operator[0] == "--advertise-routes";
    assert hostname == [] || hostname[0] == "--hostname" || hostname[0] == "--operator"
      || hostname[0] == "--advertise-routes";
  }

  /** After `tailscale up` come the boolean options, then the value options. */
  lemma ArgvTail(c: TailscaleConfig)
    ensures |UpArgv(c, [])| >= 2 && UpArgv(c, [])[0] == "tailscale" && UpArgv(c, [])[1] == "up"
    ensures UpArgv(c, [])[2..] == Options(c)
  {
    assert UpArgv(c, []) == ["tailscale", "up"] + Options(c);
  }


  /** The hostname option reads back as the configuration's hostname. */
  lemma ReadHostname(c: TailscaleConfig)
    ensures var operator := Pair("--operator", c.operator) + RoutesOption(c.advertiseRoutes);
      ReadPair(Pair("--hostname", c.hostname) + operator, "--hostname") == (c.hostname, operator)
  {
    OptionNamesDistinct();
    var operator := Pair("--operator", c.operator) + RoutesOption(c.advertiseRoutes);
    var hostname := Pair("--hostname", c.hostname) + operator;
    if c.hostname != [] {
      assert hostname == ["--hostname", c.hostname] + operator;
      assert hostname[2..] == operator;
    } else {
      assert hostname == operator;
      assert operator == [] || operator[0] == "--operator" || operator[0] == "--advertise-routes";
    }
  }

  /** The operator and route options read back as the configuration's values. */
  lemma ReadOperatorRoutes(c: TailscaleConfig)
    requires forall k :: 0 <= k < |c.advertiseRoutes| ==> ',' !in c.advertiseRoutes[k]
    ensures var routes := RoutesOption(c.advertiseRoutes);
      && ReadPair(Pair("--operator", c.operator) + routes, "--operator") == (c.operator, routes)
      && ReadRoutes(routes) == (c.advertiseRoutes, [])
  {
    OptionNamesDistinct();
    var routes := RoutesOption(c.advertiseRoutes);
    var operator := Pair("--operator", c.operator) + routes;
    if c.operator != [] {
      assert operator[2..] == routes;
    } else {
      assert operator == routes;
    }
    if c.advertiseRoutes != [] {
      SplitJoin(c.advertiseRoutes, ',');
      assert routes[2..] == [];
    }
  }

  /** The caller's arguments come last, unchanged. */
  lemma UpArgvArgsLast(c: TailscaleConfig, args: seq<string>)
    ensures UpArgv(c, args) == UpArgv(c, []) + args
    ensures UpArgv(c, args)[..2] == ["tailscale", "up"]
  {
  }

  /** The lines enable_ip_forwarding writes: IPv4 first, each only when enabled. */
  function ForwardingLines(n: NetworkConfig): (lines: seq<string>)
    ensures Ipv4Line in lines <==> n.ipv4Enabled
    ensures Ipv6Line in lines <==> n.ipv6Enabled
    ensures n.ipv4Enabled ==> lines[0] == Ipv4Line
    ensures |lines| <= 2
  {
    assert Ipv4Line != Ipv6Line by { assert |Ipv4Line| != |Ipv6Line|; }
    (if n.ipv4Enabled then [Ipv4Line] else []) + (if n.ipv6Enabled then [Ipv6Line] else [])
  }

  /** The steps of run, in order. */
  datatype Step = Install | IpForwarding | Login | ExitNode | Verify

  const Steps: seq<Step> := [Install, IpForwarding, Login, ExitNode, Verify]

  /** The step names run reports in its warnings. */
  function Description(s: Step): string {
    match s
    case Install => "Installing Tailscale"
    case IpForwarding => "Enabling IP forwarding"
    case Login => "Authenticating Tailscale"
    case ExitNode => "Configuring exit node"
    case Verify => "Verifying installation"
  }

  /**
   * The commands of the steps, each step starting where the previous one
   * stopped; a step that raises is the last to run.
   */
  function Trace(outcome: (Step, nat) -> Outcome, steps: seq<Step>, k: nat): seq<seq<string>>
  {
    if steps == [] then []
    else
      var o := outcome(steps[0], k);
      o.cmds + (if o.raised then [] else Trace(outcome, steps[1..], k + |o.cmds|))
  }

  /** Whether one of the steps raises, ending the loop and run with it. */
  predicate Raises(outcome: (Step, nat) -> Outcome, steps: seq<Step>, k: nat)
  {
    if steps == [] then false
    else
      var o := outcome(steps[0], k);
      o.raised || Raises(outcome, steps[1..], k + |o.cmds|)
  }

  /** The descriptions of the steps that reported failure, in order; a step that raises reports nothing. */
  function Warnings(outcome: (Step, nat) -> Outcome, steps: seq<Step>, k: nat): seq<string>
  {
    if steps == [] then []
    else
      var o := outcome(steps[0], k);
      if o.raised then []
      else (if o.ok then [] else [Description(steps[0])]) + Warnings(outcome, steps[1..], k + |o.cmds|)
  }

  /** The drop-in file after the steps: each step that writes it replaces what was there. */
  function ConfAfter(outcome: (Step, nat) -> Outcome, steps: seq<Step>, k: nat, conf: Option<seq<string>>): Option<seq<string>>
  {
    if steps == [] then conf
    else
      var o := outcome(steps[0], k);
      var written := if o.conf.Some? then o.conf else conf;
      if o.raised then written else ConfAfter(outcome, steps[1..], k + |o.cmds|, written)
  }

  /** Steps that never write the drop-in file leave it as it was. */
  lemma {:induction false} ConfAfterNoWrite(outcome: (Step, nat) -> Outcome, steps: seq<Step>, k: nat, conf: Option<seq<string>>)
    requires forall i, n :: 0 <= i < |steps| ==> outcome(steps[i], n).conf.None?
    ensures ConfAfter(outcome, steps, k, conf) == conf
  {
    if steps != [] {
      var o := outcome(steps[0], k);
      assert o.conf.None?;
      if !o.raised {
        ConfAfterNoWrite(outcome, steps[1..], k + |o.cmds|, conf);
      }
    }
  }

  /**
   * When only the second of the steps may write the drop-in file, the file
   * ends up as that step leaves it, or as it was when the first step raises.
   */
  lemma SecondWrites(outcome: (Step, nat) -> Outcome, first: Step, second: Step, tail: seq<Step>,
                     k: nat, conf: Option<seq<string>>)
    requires outcome(first, k).conf.None?
    requires forall i, n :: 0 <= i < |tail| ==> outcome(tail[i], n).conf.None?
    ensures var o := outcome(second, k + |outcome(first, k).cmds|);
      ConfAfter(outcome, [first, second] + tail, k, conf)
        == if outcome(first, k).raised then conf else if o.conf.Some? then o.conf else conf
  {
    var k1 := k + |outcome(first, k).cmds|;
    var o := outcome(second, k1);
    var after := if o.conf.Some? then o.conf else conf;
    ConfCons(outcome, first, [second] + tail, k, conf);
    assert [first, second] + tail == [first] + ([second] + tail);
    if !outcome(first, k).raised {
      ConfCons(outcome, second, tail, k1, conf);
      if !o.raised {
        ConfAfterNoWrite(outcome, tail, k1 + |o.cmds|, after);
      }
    }
  }

  /**
   * One more step of run keeps the loop's account: the commands run so
   * far followed by what the remaining steps run is the whole run, and
   * likewise for the warnings.
   */
  lemma Advance(step: Step, o: Outcome, done: bool,
                ran: seq<seq<string>>, ran': seq<seq<string>>, rest: seq<seq<string>>, allCmds: seq<seq<string>>,
                warned: seq<string>, warned': seq<string>, restWarnings: seq<string>, allWarnings: seq<string>)
    requires ran + (o.cmds + rest) == allCmds
    requires warned + ((if o.ok then [] else [Description(step)]) + restWarnings) == allWarnings
    requires ran' == ran + o.cmds && done == o.ok
    requires warned' == warned + (if done then [] else [Description(step)])
    ensures ran' + rest == allCmds
    ensures warned' + restWarnings == allWarnings
  {
  }

  /**
   * A step followed by the rest: the step runs at the offset, and unless it
   * raises, the rest runs after its commands.
   */
  lemma UnfoldCons(outcome: (Step, nat) -> Outcome, step: Step, rest: seq<Step>, n: nat)
    ensures var o := outcome(step, n);
      && Trace(outcome, [step] + rest, n) == o.cmds + (if o.raised then [] else Trace(outcome, rest, n + |o.cmds|))
      && Raises(outcome, [step] + rest, n) == (o.raised || Raises(outcome, rest, n + |o.cmds|))
      && Warnings(outcome, [step] + rest, n)
         == (if o.raised then [] else (if o.ok then [] else [Description(step)]) + Warnings(outcome, rest, n + |o.cmds|))
      && forall conf :: ConfAfter(outcome, [step] + rest, n, conf)
                        == (if o.raised then (if o.conf.Some? then o.conf else conf)
                            else ConfAfter(outcome, rest, n + |o.cmds|, if o.conf.Some? then o.conf else conf))
  {
    assert ([step] + rest)[0] == step && ([step] + rest)[1..] == rest;
  }

  /** A step followed by the rest raises when the step does or, after its commands, the rest does. */
  lemma RaisesCons(outcome: (Step, nat) -> Outcome, step: Step, rest: seq<Step>, n: nat)
    ensures Raises(outcome, [step] + rest, n)
            == (outcome(step, n).raised || Raises(outcome, rest, n + |outcome(step, n).cmds|))
  {
    assert ([step] + rest)[0] == step && ([step] + rest)[1..] == rest;
  }

  /** A step followed by the rest leaves the drop-in file as the step, and unless it raises then the rest, leave it. */
  lemma ConfCons(outcome: (Step, nat) -> Outcome, step: Step, rest: seq<Step>, n: nat, conf: Option<seq<string>>)
    ensures var o := outcome(step, n); var written := if o.conf.Some? then o.conf else conf;
      ConfAfter(outcome, [step] + rest, n, conf)
        == if o.raised then written else ConfAfter(outcome, rest, n + |o.cmds|, written)
  {
    assert ([step] + rest)[0] == step && ([step] + rest)[1..] == rest;
  }

  /**
   * When only configure_exit_node can raise, and it either always raises
   * or never does, steps raise exactly when they include it and it does.
   */
  lemma {:induction false} OnlyExitNodeRaises(outcome: (Step, nat) -> Outcome, steps: seq<Step>, k: nat, b: bool)
    requires forall s, n :: outcome(s, n).raised == (s == ExitNode && b)
    ensures Raises(outcome, steps, k) == (b && ExitNode in steps)
  {
    if steps != [] {
      assert steps == [steps[0]] + steps[1..];
      RaisesCons(outcome, steps[0], steps[1..], k);
      OnlyExitNodeRaises(outcome, steps[1..], k + |outcome(steps[0], k).cmds|, b);
    }
  }

  /** The last three commands are verify_installation's probes. */
  predicate EndsWithProbes(t: seq<seq<string>>) {
    |t| >= 3 && t[|t| - 3] == Which && t[|t| - 2] == IsActive && t[|t| - 1] == Status
  }

  /** Putting commands in front leaves the last three alone. */
  lemma SameEnd(a: seq<seq<string>>, b: seq<seq<string>>)
    requires EndsWithProbes(b)
    ensures EndsWithProbes(a + b)
  {
    var n := |a + b|;
    assert (a + b)[n - 3] == b[|b| - 3] && (a + b)[n - 2] == b[|b| - 2] && (a + b)[n - 1] == b[|b| - 1];
  }

  /**
   * When verification that does not raise ends with its probes, whatever
   * happened before it, a run whose last step is verification and in which
   * no step raises ends with them too.
   */
  lemma {:induction false} EndsWithVerify(outcome: (Step, nat) -> Outcome, steps: seq<Step>, k: nat)
    requires steps != [] && steps[|steps| - 1] == Verify
    requires forall n :: !outcome(Verify, n).raised ==> EndsWithProbes(outcome(Verify, n).cmds)
    requires !Raises(outcome, steps, k)
    ensures EndsWithProbes(Trace(outcome, steps, k))
  {
    var rest := steps[1..];
    var o := outcome(steps[0], k);
    assert !o.raised && !Raises(outcome, rest, k + |o.cmds|);
    var later := Trace(outcome, rest, k + |o.cmds|);
    assert Trace(outcome, steps, k) == o.cmds + later;
    if rest == [] {
      assert o.cmds + later == o.cmds;
    } else {
      assert rest[|rest| - 1] == Verify;
      EndsWithVerify(outcome, rest, k + |o.cmds|);
      SameEnd(o.cmds, later);
    }
  }

  /** Only failing steps are reported, at most one warning each. */
  lemma {:induction false} WarningsOfFailures(outcome: (Step, nat) -> Outcome, steps: seq<Step>, k: nat)
    ensures |Warnings(outcome, steps, k)| <= |steps|
    ensures forall w :: w in Warnings(outcome, steps, k) ==> exists s :: s in steps && w == Description(s)
  {
    if steps != [] && !outcome(steps[0], k).raised {
      var o := outcome(steps[0], k);
      var m := k + |o.cmds|;
      var rest := steps[1..];
      WarningsOfFailures(outcome, rest, m);
      var head := if o.ok then [] else [Description(steps[0])];
      assert Warnings(outcome, steps, k) == head + Warnings(outcome, rest, m);
      forall w | w in Warnings(outcome, steps, k) ensures exists s :: s in steps && w == Description(s) {
        if w in Warnings(outcome, rest, m) {
          var s :| s in rest && w == Description(s);
          assert s in steps;
        } else {
          assert w in head;
        }
      }
    }
  }

  class Setup {
    const config: TailscaleConfig
    const network: NetworkConfig
    const host: Host

    /** Every command run so far, in order. */
    var commands: seq<seq<string>>

    /** The lines of /etc/sysctl.d/99-tailscale.conf, once written. */
    var sysctlConf: Option<seq<string>>

    constructor (config: TailscaleConfig, network: NetworkConfig, host: Host)
      ensures this.config == config && this.network == network && this.host == host
      ensures commands == [] && sysctlConf == None
    {
      this.config := config;
      this.network := network;
      this.host := host;
      commands := [];
      sysctlConf := None;
    }

    // -------------------------------------------------------------------
    // What each step does, given the number k of commands run before it
    // -------------------------------------------------------------------

    /**
     * The k-th command starts and exits with status 0. Where the code
     * catches every exception, a program that cannot be started is a
     * failure like any other.
     */
    predicate Succeeds(k: nat, cmd: seq<string>)
    {
      host.starts(k, cmd) && host.exitsZero(k, cmd)
    }

    /** is_logged_in: `tailscale status` succeeds and does not say "not logged in". */
    predicate LoggedInAt(k: nat)
    {
      Succeeds(k, Status) && !Contains(Lower(host.stdout(k, Status)), "not logged in")
    }

    /**
     * install_tailscale: `which` first, outside any handler but
     * is_installed's CalledProcessError, so a `which` that cannot start
     * raises; nothing more to install when it finds Tailscale; else curl,
     * then sh.
     */
    function InstallOutcome(k: nat): (o: Outcome)
      ensures 1 <= |o.cmds| <= 3 && o.cmds[0] == Which && o.conf.None?
      ensures o.raised <==> |o.cmds| == 1
    {
      if !host.starts(k, Which) then Outcome(false, [Which], None, true)
      else if host.exitsZero(k, Which) then Outcome(true, [Which, Version], None, false)
      else if !Succeeds(k + 1, Curl) then Outcome(false, [Which, Curl], None, false)
      else Outcome(Succeeds(k + 2, Sh), [Which, Curl, Sh], None, false)
    }

    /**
     * Installing raises exactly when `which` cannot start. Otherwise it
     * succeeds when Tailscale is already there or both the download and
     * the installer succeed; an installed Tailscale is never downloaded
     * again, and a failed download is never run.
     */
    lemma InstallCases(k: nat)
      ensures var o := InstallOutcome(k);
        && (o.raised <==> !host.starts(k, Which))
        && (o.ok <==> Succeeds(k, Which) || (host.starts(k, Which) && Succeeds(k + 1, Curl) && Succeeds(k + 2, Sh)))
        && (Succeeds(k, Which) ==> Curl !in o.cmds && Sh !in o.cmds)
        && (!Succeeds(k + 1, Curl) ==> Sh !in o.cmds)
    {
      assert Which[0] != Curl[0] && Version[0] != Curl[0];
      assert |Sh| != |Which| && |Sh| != |Version| && |Sh| != |Curl|;
    }

    /** Whether enable_ip_forwarding has anything to do. */
    predicate ForwardingNeeded()
    {
      config.advertiseExitNode || config.advertiseRoutes != []
    }

    /**
     * The sysctl calls enable_ip_forwarding makes, stopping at the first
     * failure. A sysctl that cannot start raises FileNotFoundError, an
     * IOError, which the step catches: it never raises.
     */
    function ForwardingOutcome(k: nat): (o: Outcome)
      ensures |o.cmds| <= 2 && !o.raised
      ensures o.conf.Some? ==> o.ok && o.conf.value == ForwardingLines(network)
    {
      if !ForwardingNeeded() then Outcome(true, [], None, false)
      else if network.ipv4Enabled && !Succeeds(k, Sysctl4) then Outcome(false, [Sysctl4], None, false)
      else
        var first := if network.ipv4Enabled then [Sysctl4] else [];
        if network.ipv6Enabled && !Succeeds(k + |first|, Sysctl6) then Outcome(false, first + [Sysctl6], None, false)
        else Outcome(host.confWritable, first + (if network.ipv6Enabled then [Sysctl6] else []),
                     if host.confWritable then Some(ForwardingLines(network)) else None, false)
    }

    /** Whether enable_ip_forwarding gets as far as writing the file. */
    predicate ForwardingWrites(k: nat)
    {
      && ForwardingNeeded()
      && (network.ipv4Enabled ==> Succeeds(k, Sysctl4))
      && (network.ipv6Enabled ==> Succeeds(k + (if network.ipv4Enabled then 1 else 0), Sysctl6))
      && host.confWritable
    }

    /**
     * Without an advertised exit node or routes nothing runs and it
     * succeeds; otherwise it succeeds exactly when the file gets written,
     * after one sysctl call per enabled address family, IPv4 first.
     */
    lemma ForwardingCases(k: nat)
      ensures var o := ForwardingOutcome(k);
        && (!ForwardingNeeded() ==> o == Outcome(true, [], None, false))
        && (ForwardingNeeded() ==> (o.ok <==> ForwardingWrites(k)))
        && o.conf == (if ForwardingWrites(k) then Some(ForwardingLines(network)) else None)
        && (o.ok ==> o.cmds == (if ForwardingNeeded() && network.ipv4Enabled then [Sysctl4] else [])
                               + (if ForwardingNeeded() && network.ipv6Enabled then [Sysctl6] else []))
    {
    }

    /**
     * login_tailscale's status probe, then `tailscale up` unless already
     * logged in; both catch every exception, so the step never raises.
     */
    function LoginOutcome(args: seq<string>, k: nat): (o: Outcome)
      ensures 1 <= |o.cmds| <= 2 && o.conf.None? && !o.raised
    {
      if LoggedInAt(k) then Outcome(true, [Status], None, false)
      else Outcome(Succeeds(k + 1, UpArgv(config, args)), [Status, UpArgv(config, args)], None, false)
    }

    /**
     * Already logged in: success, and no `tailscale up` is built or run.
     * Otherwise the configured command runs after the probe and decides.
     */
    lemma LoginCases(args: seq<string>, k: nat)
      ensures var o := LoginOutcome(args, k);
        && o.cmds[0] == Status
        && (LoggedInAt(k) ==> o.ok && UpArgv(config, args) !in o.cmds)
        && (!LoggedInAt(k) ==> o.cmds == [Status, UpArgv(config, args)]
                               && (o.ok <==> Succeeds(k + 1, UpArgv(config, args))))
    {
      assert UpArgv(config, args)[1] == "up";
      assert Status[1] == "status";
    }

    /**
     * configure_exit_node's command, if any. Only CalledProcessError is
     * caught, so a `tailscale` that cannot be started raises.
     */
    function ExitNodeOutcome(k: nat): (o: Outcome)
      ensures |o.cmds| <= 1 && o.conf.None?
      ensures o.raised ==> !o.ok && o.cmds != []
    {
      if network.exitNode == [] then Outcome(true, [], None, false)
      else if !host.starts(k, SetArgv(network)) then Outcome(false, [SetArgv(network)], None, true)
      else Outcome(host.exitsZero(k, SetArgv(network)), [SetArgv(network)], None, false)
    }

    /**
     * Nothing runs without an exit node; otherwise `tailscale set` runs
     * once, raises exactly when it cannot start, and otherwise decides.
     */
    lemma ExitNodeCases(k: nat)
      ensures var o := ExitNodeOutcome(k);
        && (network.exitNode == [] <==> o.cmds == [])
        && (network.exitNode == [] ==> o.ok && !o.raised)
        && (network.exitNode != [] ==> o.cmds == [SetArgv(network)]
                                       && (o.raised <==> !host.starts(k, SetArgv(network)))
                                       && (o.ok <==> Succeeds(k, SetArgv(network))))
    {
    }

    /**
     * The three results verify_installation collects once `which` has
     * started; `systemctl` is read under a bare except, so a systemctl that
     * cannot start is a failed check.
     */
    function VerifyChecks(k: nat): (checks: seq<bool>)
      ensures |checks| == 3
    {
      [host.exitsZero(k, Which), host.starts(k + 1, IsActive) && Strip(host.stdout(k + 1, IsActive)) == "active", LoggedInAt(k + 2)]
    }

    /** verify_installation: the three probes and `all(checks)`, unless `which` raises. */
    function VerifyOutcome(k: nat): Outcome
    {
      if !host.starts(k, Which) then Outcome(false, [Which], None, true)
      else
        var checks := VerifyChecks(k);
        Outcome(checks[0] && checks[1] && checks[2], [Which, IsActive, Status], None, false)
    }

    /**
     * Verification raises exactly when `which` cannot start; otherwise all
     * three probes run, and it succeeds exactly when every check passed.
     */
    lemma VerifyAll(k: nat)
      ensures var o := VerifyOutcome(k);
        && (o.raised <==> !host.starts(k, Which))
        && (o.raised ==> o.cmds == [Which] && !o.ok)
        && (!o.raised ==> o.cmds == [Which, IsActive, Status]
                          && (o.ok <==> forall i :: 0 <= i < |VerifyChecks(k)| ==> VerifyChecks(k)[i]))
    {
    }

    /** Each step's account; only forwarding writes the file, and only three steps can raise. */
    function StepOutcome(s: Step, k: nat): (o: Outcome)
      ensures o.conf.Some? ==> s == IpForwarding
      ensures o.raised ==> !o.ok && (s == Install || s == ExitNode || s == Verify)
    {
      match s
      case Install => InstallOutcome(k)
      case IpForwarding => ForwardingOutcome(k)
      case Login => LoginOutcome([], k)
      case ExitNode => ExitNodeOutcome(k)
      case Verify => VerifyOutcome(k)
    }

    /**
     * The commands the closing summary runs: `tailscale ip -4`, `-6` only
     * when `-4` worked, then the status. show_ip and show_status catch only
     * CalledProcessError, so the first of them that cannot start ends it.
     */
    function SummaryCmds(k: nat): (cmds: seq<seq<string>>)
      ensures 1 <= |cmds| <= 3 && cmds[0] == Ip4
      ensures |cmds| == 1 <==> !host.starts(k, Ip4)
      ensures !SummaryRaises(k) ==> cmds[|cmds| - 1] == Status && (|cmds| == 3 <==> host.exitsZero(k, Ip4))
    {
      if !host.starts(k, Ip4) then [Ip4]
      else if host.exitsZero(k, Ip4) then (if host.starts(k + 1, Ip6) then [Ip4, Ip6, Status] else [Ip4, Ip6])
      else [Ip4, Status]
    }

    /** Whether one of the summary's commands cannot start, so that FileNotFoundError escapes it. */
    predicate SummaryRaises(k: nat)
    {
      if !host.starts(k, Ip4) then true
      else if host.exitsZero(k, Ip4) then !host.starts(k + 1, Ip6) || !host.starts(k + 2, Status)
      else !host.starts(k + 1, Status)
    }

    /** The probes of verification, whenever it runs without raising. */
    lemma VerifyProbes()
      ensures forall n :: !StepOutcome(Verify, n).raised ==> EndsWithProbes(StepOutcome(Verify, n).cmds)
    {
    }

    /** In run, verification is the last step: unless a step raises, the steps end with its probes. */
    lemma RunEndsWithVerify(k: nat)
      ensures !Raises(StepOutcome, Steps, k) ==> EndsWithProbes(Trace(StepOutcome, Steps, k))
    {
      VerifyProbes();
      if !Raises(StepOutcome, Steps, k) {
        EndsWithVerify(StepOutcome, Steps, k);
      }
    }

    /** In run, only failing steps are reported, at most one warning each. */
    lemma RunWarnings(k: nat)
      ensures |Warnings(StepOutcome, Steps, k)| <= |Steps|
      ensures forall w :: w in Warnings(StepOutcome, Steps, k) ==> exists s :: s in Steps && w == Description(s)
    {
      WarningsOfFailures(StepOutcome, Steps, k);
    }

    /**
     * In run, only the forwarding step writes the drop-in file; it starts
     * after the install step's commands, and never runs when that step raises.
     */
    lemma RunConf(k: nat, conf: Option<seq<string>>)
      ensures var i := InstallOutcome(k);
        ConfAfter(StepOutcome, Steps, k, conf)
          == if !i.raised && ForwardingWrites(k + |i.cmds|) then Some(ForwardingLines(network)) else conf
    {
      var tail := [Login, ExitNode, Verify];
      var k1 := k + |StepOutcome(Install, k).cmds|;
      OnlyForwardingWrites();
      ForwardingCases(k1);
      assert Steps == [Install, IpForwarding] + tail;
      SecondWrites(StepOutcome, Install, IpForwarding, tail, k, conf);
    }

    /** Of the steps of run, only IP forwarding ever writes the drop-in file. */
    lemma OnlyForwardingWrites()
      ensures forall s, n {:trigger StepOutcome(s, n)} :: s != IpForwarding ==> StepOutcome(s, n).conf.None?
    {
    }

    /**
     * Without a `tailscale` program, as a failed install leaves the host,
     * the steps raise exactly when an exit node is configured, at
     * configure_exit_node and before verification; and the summary, when
     * it is reached, raises at `tailscale ip -4`. Either way run does not
     * return.
     */
    lemma WithoutTailscale(k: nat)
      requires forall n :: host.starts(n, Which)
      requires forall n, cmd :: |cmd| > 0 && cmd[0] == "tailscale" ==> !host.starts(n, cmd)
      ensures Raises(StepOutcome, Steps, k) <==> network.exitNode != []
      ensures SummaryRaises(k + |Trace(StepOutcome, Steps, k)|)
    {
      forall s, n
        ensures StepOutcome(s, n).raised == (s == ExitNode && network.exitNode != [])
      {
        if s == ExitNode && network.exitNode != [] {
          assert SetArgv(network)[0] == "tailscale";
        }
      }
      OnlyExitNodeRaises(StepOutcome, Steps, k, network.exitNode != []);
      assert Ip4[0] == "tailscale";
    }

    // -------------------------------------------------------------------
    // The operations
    // -------------------------------------------------------------------

    /**
     * Runs one command on the host and records it: whether its program
     * started, whether it then exited with status 0, and what it printed.
     */
    method Exec(cmd: seq<string>) returns (started: bool, ok: bool, out: string)
      modifies this
      ensures commands == old(commands) + [cmd] && sysctlConf == old(sysctlConf)
      ensures started == host.starts(|old(commands)|, cmd)
      ensures ok == Succeeds(|old(commands)|, cmd)
      ensures out == host.stdout(|old(commands)|, cmd)
    {
      started := host.starts(|commands|, cmd);
      ok := started && host.exitsZero(|commands|, cmd);
      out := host.stdout(|commands|, cmd);
      commands := commands + [cmd];
    }

    /** is_installed: only CalledProcessError is caught, so a `which` that cannot start raises. */
    method IsInstalled() returns (installed: bool, raised: bool)
      modifies this
      ensures commands == old(commands) + [Which] && sysctlConf == old(sysctlConf)
      ensures raised == !host.starts(|old(commands)|, Which)
      ensures installed == Succeeds(|old(commands)|, Which)
    {
      var started, out;
      started, installed, out := Exec(Which);
      raised := !started;
    }

    /** is_logged_in. */
    method IsLoggedIn() returns (loggedIn: bool)
      modifies this
      ensures commands == old(commands) + [Status] && sysctlConf == old(sysctlConf)
      ensures loggedIn == LoggedInAt(|old(commands)|)
    {
      var started, ok, out := Exec(Status);
      loggedIn := ok && !Contains(Lower(out), "not logged in");
    }

    /** install_tailscale. */
    method InstallTailscale() returns (ok: bool, raised: bool)
      modifies this
      ensures var o := InstallOutcome(|old(commands)|);
        ok == o.ok && raised == o.raised && commands == old(commands) + o.cmds && sysctlConf == old(sysctlConf)
    {
      var installed;
      installed, raised := IsInstalled();
      if raised {
        return false, true;
      }
      if installed {
        var versionStarted, versionOk, version := Exec(Version);
        return true, false;
      }
      var curlStarted, curlOk, script := Exec(Curl);
      if !curlOk {
        return false, false;
      }
      var shStarted, shOk, output := Exec(Sh);
      return shOk, false;
    }

    /**
     * enable_ip_forwarding: nothing unless an exit node or routes are
     * advertised; otherwise the sysctl calls, then the drop-in file.
     */
    method EnableIpForwarding() returns (ok: bool)
      modifies this
      ensures var k := |old(commands)|; var o := ForwardingOutcome(k);
        && ok == o.ok && commands == old(commands) + o.cmds
        && sysctlConf == if ForwardingWrites(k) then Some(ForwardingLines(network)) else old(sysctlConf)
    {
      if !(config.advertiseExitNode || config.advertiseRoutes != []) {
        return true;
      }
      ghost var k := |commands|;
      if network.ipv4Enabled {
        var started, done, out := Exec(Sysctl4);
        if !done {
          return false;
        }
      }
      ghost var first := if network.ipv4Enabled then [Sysctl4] else [];
      assert commands == old(commands) + first;
      if network.ipv6Enabled {
        var started, done, out := Exec(Sysctl6);
        if !done {
          return false;
        }
      }
      assert commands == old(commands) + first + (if network.ipv6Enabled then [Sysctl6] else []);
      assert ForwardingOutcome(k).cmds == first + (if network.ipv6Enabled then [Sysctl6] else []);
      if !host.confWritable {
        return false;
      }
      var lines: seq<string> := [];
      if network.ipv4Enabled {
        lines := lines + [Ipv4Line];
      }
      if network.ipv6Enabled {
        lines := lines + [Ipv6Line];
      }
      assert lines == ForwardingLines(network);
      assert ForwardingWrites(k);
      sysctlConf := Some(lines);
      return true;
    }

    /** The `tailscale up` command, built option by option as login_tailscale does. */
    method UpCommand(args: seq<string>) returns (cmd: seq<string>)
      ensures cmd == UpArgv(config, args)
    {
      cmd := ["tailscale", "up"];
      var flags := FlagOptions(FlagNames, Enabled(config));
      cmd := cmd + flags;
      ghost var base := cmd;
      if config.hostname != [] {
        cmd := cmd + ["--hostname", config.hostname];
      }
      ghost var withHostname := cmd;
      assert withHostname == base + Pair("--hostname", config.hostname);
      if config.operator != [] {
        cmd := cmd + ["--operator", config.operator];
      }
      ghost var withOperator := cmd;
      assert withOperator == withHostname + Pair("--operator", config.operator);
      if config.advertiseRoutes != [] {
        var routes := Join(',', config.advertiseRoutes);
        cmd := cmd + ["--advertise-routes", routes];
      }
      ghost var hostname, operator := Pair("--hostname", config.hostname), Pair("--operator", config.operator);
      assert cmd == withOperator + RoutesOption(config.advertiseRoutes);
      Regroup(base, hostname, operator);
      Regroup(base, hostname + operator, RoutesOption(config.advertiseRoutes));
      assert cmd == base + ValueOptions(config);
      Regroup(["tailscale", "up"], Flags(FlagNames, Enabled(config), 0), ValueOptions(config));
      if args != [] {
        cmd := cmd + args;
      }
    }

    /** The boolean options, appended one by one in their fixed order. */
    static method FlagOptions(names: seq<string>, enabled: seq<bool>) returns (flags: seq<string>)
      requires |enabled| == |names|
      ensures flags == Flags(names, enabled, 0)
    {
      flags := [];
      for i := 0 to |names|
        invariant flags + Flags(names, enabled, i) == Flags(names, enabled, 0)
      {
        if enabled[i] {
          flags := flags + [names[i]];
        }
      }
    }

    /** login_tailscale: unless already logged in, runs the `tailscale up` command. */
    method LoginTailscale(args: seq<string>) returns (ok: bool)
      modifies this
      ensures var o := LoginOutcome(args, |old(commands)|);
        ok == o.ok && commands == old(commands) + o.cmds && sysctlConf == old(sysctlConf)
    {
      var loggedIn := IsLoggedIn();
      if loggedIn {
        return true;
      }
      var cmd := UpCommand(args);
      var started, out;
      started, ok, out := Exec(cmd);
    }

    /** configure_exit_node: only a failing `tailscale set` is caught; one that cannot start raises. */
    method ConfigureExitNode() returns (ok: bool, raised: bool)
      modifies this
      ensures var o := ExitNodeOutcome(|old(commands)|);
        ok == o.ok && raised == o.raised && commands == old(commands) + o.cmds && sysctlConf == old(sysctlConf)
    {
      if network.exitNode == [] {
        return true, false;
      }
      var cmd := ["tailscale", "set", "--exit-node", network.exitNode];
      if network.exitNodeAllowLanAccess {
        cmd := cmd + ["--exit-node-allow-lan-access"];
      }
      assert cmd == SetArgv(network);
      var started, out;
      started, ok, out := Exec(cmd);
      raised := !started;
    }

    /** verify_installation: every check runs, and the result is `all(checks)`, unless `which` raises. */
    method VerifyInstallation() returns (ok: bool, raised: bool)
      modifies this
      ensures var o := VerifyOutcome(|old(commands)|);
        ok == o.ok && raised == o.raised && commands == old(commands) + o.cmds && sysctlConf == old(sysctlConf)
    {
      ghost var k := |commands|;
      var checks: seq<bool> := [];
      var installed;
      installed, raised := IsInstalled();
      if raised {
        return false, true;
      }
      checks := checks + [installed];
      var started, done, out := Exec(IsActive);
      checks := checks + [started && Strip(out) == "active"];
      var loggedIn := IsLoggedIn();
      checks := checks + [loggedIn];
      assert checks == VerifyChecks(k);
      assert commands == old(commands) + [Which, IsActive, Status];
      ok := true;
      for i := 0 to |checks|
        invariant ok <==> forall j :: 0 <= j < i ==> checks[j]
      {
        ok := ok && checks[i];
      }
      assert ok <==> checks[0] && checks[1] && checks[2];
    }

    /** _print_summary: show_ip, then show_status; a command that cannot start raises out of both. */
    method PrintSummary() returns (raised: bool)
      modifies this
      ensures commands == old(commands) + SummaryCmds(|old(commands)|) && sysctlConf == old(sysctlConf)
      ensures raised == SummaryRaises(|old(commands)|)
    {
      var ip4Started, ip4Ok, ip4 := Exec(Ip4);
      if !ip4Started {
        return true;
      }
      if ip4Ok {
        var ip6Started, ip6Ok, ip6 := Exec(Ip6);
        if !ip6Started {
          return true;
        }
      }
      var statusStarted, statusOk, status := Exec(Status);
      raised := !statusStarted;
    }

    /** One step of run, whose account `outcome`, agreeing with StepOutcome, gives. */
    method RunStep(s: Step, ghost n: nat, ghost outcome: (Step, nat) -> Outcome) returns (ok: bool, raised: bool)
      requires n == |commands|
      requires forall s, k {:trigger StepOutcome(s, k)} :: outcome(s, k) == StepOutcome(s, k)
      modifies this
      ensures var o := outcome(s, n);
        && ok == o.ok && raised == o.raised && commands == old(commands) + o.cmds
        && sysctlConf == if o.conf.Some? then o.conf else old(sysctlConf)
    {
      assert outcome(s, n) == StepOutcome(s, n);
      match s {
        case Install => ok, raised := InstallTailscale();
        case IpForwarding => ok := EnableIpForwarding(); raised := false;
        case Login => ok := LoginTailscale([]); raised := false;
        case ExitNode => ok, raised := ConfigureExitNode();
        case Verify => ok, raised := VerifyInstallation();
      }
    }

    /**
     * run: without root nothing happens and it fails. With root the steps
     * run in order and a failing step only adds a warning, until a step
     * raises: then nothing more runs and the error escapes run. Otherwise
     * the summary runs, which can raise the same way, and run succeeds.
     * The drop-in file is written only by the forwarding step, which runs
     * right after the install step's commands unless that step raised.
     */
    method Run() returns (ok: bool, warnings: seq<string>, raised: bool)
      modifies this
      ensures !host.isRoot ==> !ok && !raised && warnings == [] && commands == old(commands) && sysctlConf == old(sysctlConf)
      ensures host.isRoot ==> (ok <==> !raised)
      ensures host.isRoot ==> var k := |old(commands)|; var t := Trace(StepOutcome, Steps, k);
        && (raised <==> Raises(StepOutcome, Steps, k) || SummaryRaises(k + |t|))
        && commands == old(commands) + t + (if Raises(StepOutcome, Steps, k) then [] else SummaryCmds(k + |t|))
      ensures host.isRoot ==> warnings == Warnings(StepOutcome, Steps, |old(commands)|)
      ensures host.isRoot ==> var k := |old(commands)|; var i := InstallOutcome(k);
        sysctlConf == if !i.raised && ForwardingWrites(k + |i.cmds|) then Some(ForwardingLines(network)) else old(sysctlConf)
    {
      if !host.isRoot {
        return false, [], false;
      }
      ghost var k0, conf0 := |commands|, sysctlConf;
      warnings, raised := RunSteps(Steps, StepOutcome);
      RunConf(k0, conf0);
      if raised {
        return false, warnings, true;
      }
      raised := PrintSummary();
      ok := !raised;
    }

    /**
     * The step loop of run: the steps run in order, a failure only adds its
     * warning, and a step that raises ends the loop. The account is kept
     * with `outcome`, which agrees with StepOutcome.
     */
    method RunSteps(steps: seq<Step>, ghost outcome: (Step, nat) -> Outcome) returns (warnings: seq<string>, raised: bool)
      requires forall s, k {:trigger StepOutcome(s, k)} :: outcome(s, k) == StepOutcome(s, k)
      modifies this
      ensures commands == old(commands) + Trace(outcome, steps, |old(commands)|)
      ensures warnings == Warnings(outcome, steps, |old(commands)|)
      ensures raised == Raises(outcome, steps, |old(commands)|)
      ensures sysctlConf == ConfAfter(outcome, steps, |old(commands)|, old(sysctlConf))
    {
      ghost var allCmds := commands + Trace(outcome, steps, |commands|);
      ghost var allWarnings := Warnings(outcome, steps, |commands|);
      ghost var allRaised := Raises(outcome, steps, |commands|);
      ghost var allConf := ConfAfter(outcome, steps, |commands|, sysctlConf);
      warnings, raised := [], false;
      var i := 0;
      while i < |steps| && !raised
        invariant 0 <= i <= |steps|
        invariant !raised ==> commands + Trace(outcome, steps[i..], |commands|) == allCmds
        invariant !raised ==> warnings + Warnings(outcome, steps[i..], |commands|) == allWarnings
        invariant !raised ==> Raises(outcome, steps[i..], |commands|) == allRaised
        invariant !raised ==> ConfAfter(outcome, steps[i..], |commands|, sysctlConf) == allConf
        invariant raised ==> commands == allCmds && warnings == allWarnings && allRaised && sysctlConf == allConf
      {
        assert steps[i..] == [steps[i]] + steps[i + 1..];
        warnings, raised := RunNext(steps[i], steps[i + 1..], warnings, outcome, allCmds, allWarnings, allRaised, allConf);
        i := i + 1;
      }
      if !raised {
        assert steps[i..] == [];
      }
    }

    /**
     * One pass of run's loop: the step runs, and only a failure adds its
     * warning; a step that raises leaves nothing more to run.
     */
    method RunNext(step: Step, rest: seq<Step>, warnings: seq<string>, ghost outcome: (Step, nat) -> Outcome,
                   ghost allCmds: seq<seq<string>>, ghost allWarnings: seq<string>, ghost allRaised: bool,
                   ghost allConf: Option<seq<string>>)
      returns (warnings': seq<string>, raised: bool)
      requires forall s, k {:trigger StepOutcome(s, k)} :: outcome(s, k) == StepOutcome(s, k)
      requires commands + Trace(outcome, [step] + rest, |commands|) == allCmds
      requires warnings + Warnings(outcome, [step] + rest, |commands|) == allWarnings
      requires Raises(outcome, [step] + rest, |commands|) == allRaised
      requires ConfAfter(outcome, [step] + rest, |commands|, sysctlConf) == allConf
      modifies this
      ensures !raised ==> commands + Trace(outcome, rest, |commands|) == allCmds
      ensures !raised ==> warnings' + Warnings(outcome, rest, |commands|) == allWarnings
      ensures !raised ==> Raises(outcome, rest, |commands|) == allRaised
      ensures !raised ==> ConfAfter(outcome, rest, |commands|, sysctlConf) == allConf
      ensures raised ==> commands == allCmds && warnings' == allWarnings && allRaised && sysctlConf == allConf
    {
      ghost var ran := commands;
      ghost var n := |commands|;
      ghost var o := outcome(step, n);
      UnfoldCons(outcome, step, rest, n);
      var done;
      done, raised := RunStep(step, n, outcome);
      if raised {
        assert o.cmds + [] == o.cmds;
        return warnings, true;
      }
      ghost var later := Trace(outcome, rest, n + |o.cmds|);
      ghost var laterWarnings := Warnings(outcome, rest, n + |o.cmds|);
      warnings' := if done then warnings else warnings + [Description(step)];
      Advance(step, o, done, ran, commands, later, allCmds, warnings, warnings', laterWarnings, allWarnings);
    }
  }
}
