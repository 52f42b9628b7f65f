/**
 * What generate_fixes in ftp/ftp_debug.py suggests for the issues the
 * checks themselves raise: as written, and as corrected.
 */
module FtpFixes {
  import opened Wrappers
  import opened Text
  import opened FtpDebug

  /** The two classifications differ only on a known service, a firewall issue and the missing FTP root. */
  lemma SuggestAgrees(issue: string, root: string)
    ensures Suggest(issue, root) != SuggestAsWritten(issue, root) ==>
      UnitOf(Services, issue).Some? || Suggest(issue, root).AllowPort? || issue == RootMissing
  {
  }

  /** A port as the firewall rules name it: digits and colons. */
  predicate PortText(p: string) {
    p != [] && forall i :: 0 <= i < |p| ==> '0' <= p[i] <= '9' || p[i] == ':'
  }

  /** The firewall issue of a port has six words: the fourth is "allow", the last the port. */
  lemma FirewallIssueWords(p: string)
    requires PortText(p)
    ensures |Words(FirewallIssue(p))| == 6
    ensures Words(FirewallIssue(p))[3] == "allow" && Words(FirewallIssue(p))[5] == p
  {
    FirewallIssueSplit(p);
    FirewallTokens();
    WordsSix("Firewall", "does", "not", "allow", "port", p);
  }

  lemma FirewallIssueSplit(p: string)
    ensures FirewallIssue(p) == "Firewall" + [' '] + "does" + [' '] + "not" + [' '] + "allow" + [' '] + "port" + [' '] + p
  {
  }

  lemma FirewallTokens()
    ensures IsToken("Firewall") && IsToken("does") && IsToken("not") && IsToken("allow") && IsToken("port")
  {
  }

  /** A firewall issue mentions "firewall" once lowered. */
  lemma FirewallMentioned(p: string)
    ensures Contains(Lower(FirewallIssue(p)), "firewall")
  {
    FirewallLowered();
    assert FirewallIssue(p) == [] + "Firewall" + (" does not allow port " + p);
    ContainsLowered([], "Firewall", " does not allow port " + p, "firewall");
  }

  lemma FirewallLowered()
    ensures Lowered("Firewall", "firewall")
  {
  }

  /** A firewall issue passes the first two tests of generate_fixes and meets the third. */
  lemma FirewallBranch(p: string)
    requires PortText(p)
    ensures var l := Lower(FirewallIssue(p));
      !Contains(l, "not running") && !Contains(l, "listening") && Contains(l, "firewall")
  {
    FirewallLacks(p);
    LacksLowered(FirewallIssue(p), "not running", 5);
    LacksLowered(FirewallIssue(p), "listening", 8);
    FirewallMentioned(p);
  }

  /** A firewall issue has no letter u and no letter g, in either case. */
  lemma FirewallLacks(p: string)
    requires PortText(p)
    ensures 'u' !in FirewallIssue(p) && 'U' !in FirewallIssue(p)
    ensures 'g' !in FirewallIssue(p) && 'G' !in FirewallIssue(p)
  {
    var t := "Firewall does not allow port ";
    assert Avoids(t, "uUgG");
    assert Avoids(p, "uUgG");
    AvoidsConcat(t, p, "uUgG");
    AvoidsNotIn(FirewallIssue(p), "uUgG", 'u');
    AvoidsNotIn(FirewallIssue(p), "uUgG", 'U');
    AvoidsNotIn(FirewallIssue(p), "uUgG", 'g');
    AvoidsNotIn(FirewallIssue(p), "uUgG", 'G');
  }

  /** As written, the fix for a blocked port allows the word "allow", whatever the port. */
  lemma FirewallFixAsWritten(p: string, root: string)
    requires PortText(p)
    ensures SuggestAsWritten(FirewallIssue(p), root) == AllowPort("allow")
  {
    FirewallBranch(p);
    FirewallIssueWords(p);
  }

  /** The corrected fix for a blocked port allows that port. */
  lemma FirewallFix(p: string, root: string)
    requires PortText(p)
    ensures Suggest(FirewallIssue(p), root) == AllowPort(p)
  {
    FirewallBranch(p);
    FirewallIssueWords(p);
  }

  /** Every not-running issue meets the first test of generate_fixes. */
  lemma NotRunningBranch(s: Service)
    ensures Contains(Lower(NotRunning(s)), "not running")
  {
    assert Lowered("not running", "not running");
    assert NotRunning(s) == s.description + " is " + "not running" + [];
    ContainsLowered(s.description + " is ", "not running", [], "not running");
  }

  /** The not-running issues of the three services are told apart. */
  lemma NotRunningDistinct()
    ensures forall i, j :: 0 <= i < j < |Services| ==> NotRunning(Services[i]) != NotRunning(Services[j])
  {
    assert NotRunning(Vsftpd)[0] == 'v' && NotRunning(Ssh)[0] == 'S' && NotRunning(Fail2ban)[0] == 'f';
  }

  /** The SSH server's not-running issue starts with the word "SSH/SFTP". */
  lemma SshWords()
    ensures |Words(NotRunning(Ssh))| >= 1 && Words(NotRunning(Ssh))[0] == "SSH/SFTP"
  {
    assert NotRunning(Ssh) == "SSH/SFTP" + [' '] + "Server is not running";
    assert IsToken("SSH/SFTP");
    WordsFirst("SSH/SFTP", "Server is not running");
  }

  /** As written, the fix for the SSH server starts a unit named by the description's first word. */
  lemma ServiceFixAsWritten(root: string)
    ensures SuggestAsWritten(NotRunning(Ssh), root) == StartService("ssh/sftp")
  {
    NotRunningBranch(Ssh);
    SshWords();
    assert Lowered("SSH/SFTP", "ssh/sftp");
    LowerOfLowered("SSH/SFTP", "ssh/sftp");
  }

  /** The corrected fix for a service that is not running starts that service's unit. */
  lemma ServiceFix(s: Service, root: string)
    requires s in Services
    ensures Suggest(NotRunning(s), root) == StartService(s.unit)
  {
    NotRunningBranch(s);
    NotRunningDistinct();
    var k :| 0 <= k < |Services| && Services[k] == s;
    UnitOfNotRunning(Services, k);
  }

  /** Among services with distinct not-running issues, an issue names its own service's unit. */
  lemma {:induction false} UnitOfNotRunning(services: seq<Service>, k: nat)
    requires k < |services|
    requires forall i, j :: 0 <= i < j < |services| ==> NotRunning(services[i]) != NotRunning(services[j])
    ensures UnitOf(services, NotRunning(services[k])) == Some(services[k].unit)
  {
    if k > 0 {
      assert NotRunning(services[0]) != NotRunning(services[k]);
      UnitOfNotRunning(services[1..], k - 1);
    }
  }

  /** The missing FTP root has no letter u, l or w, in either case. */
  lemma RootMissingLacks()
    ensures 'u' !in RootMissing && 'U' !in RootMissing
    ensures 'l' !in RootMissing && 'L' !in RootMissing
    ensures 'w' !in RootMissing && 'W' !in RootMissing
  {
    assert Avoids(RootMissing, "uUlLwW");
    AvoidsNotIn(RootMissing, "uUlLwW", 'u');
    AvoidsNotIn(RootMissing, "uUlLwW", 'U');
    AvoidsNotIn(RootMissing, "uUlLwW", 'l');
    AvoidsNotIn(RootMissing, "uUlLwW", 'L');
    AvoidsNotIn(RootMissing, "uUlLwW", 'w');
    AvoidsNotIn(RootMissing, "uUlLwW", 'W');
  }

  /** The missing FTP root passes the first three tests of generate_fixes. */
  lemma RootMissingPasses()
    ensures var l := Lower(RootMissing);
      !Contains(l, "not running") && !Contains(l, "listening") && !Contains(l, "firewall")
  {
    RootMissingRuns();
    RootMissingListens();
    RootMissingFirewall();
  }

  lemma RootMissingRuns()
    ensures !Contains(Lower(RootMissing), "not running")
  {
    RootMissingLacks();
    LacksLowered(RootMissing, "not running", 5);
  }

  lemma RootMissingListens()
    ensures !Contains(Lower(RootMissing), "listening")
  {
    RootMissingLacks();
    LacksLowered(RootMissing, "listening", 0);
  }

  lemma RootMissingFirewall()
    ensures !Contains(Lower(RootMissing), "firewall")
  {
    RootMissingLacks();
    LacksLowered(RootMissing, "firewall", 4);
  }

  /** The missing FTP root mentions "directory missing". */
  lemma RootMissingDirectory()
    ensures Contains(Lower(RootMissing), "directory missing")
  {
    DirectoryMissingLowered();
    RootMissingSplit();
    ContainsLowered("FTP root ", "directory missing", [], "directory missing");
  }

  lemma DirectoryMissingLowered()
    ensures Lowered("directory missing", "directory missing")
  {
  }

  lemma RootMissingSplit()
    ensures RootMissing == "FTP root " + "directory missing" + []
    ensures RootMissing == "FTP" + [' '] + "root" + [' '] + "directory missing"
  {
  }

  /** The missing FTP root has "root" as its second word. */
  lemma RootMissingWords()
    ensures |Words(RootMissing)| >= 2 && Words(RootMissing)[1] == "root"
  {
    RootMissingSplit();
    RootTokens();
    WordsSecond("FTP", "root", "directory missing");
  }

  lemma RootTokens()
    ensures IsToken("FTP") && IsToken("root")
  {
  }

  /** As written, the fix for a missing FTP root creates a user directory named "root" inside it. */
  lemma RootFixAsWritten(root: string)
    ensures SuggestAsWritten(RootMissing, root) == CreateDirectory("root", root)
  {
    RootMissingPasses();
    RootMissingDirectory();
    RootMissingWords();
  }

  /** The corrected fix for a missing FTP root creates the root. */
  lemma RootFix(root: string)
    ensures Suggest(RootMissing, root) == CreateRoot(root)
  {
    RootMissingPasses();
    RootMissingDirectory();
  }
}
