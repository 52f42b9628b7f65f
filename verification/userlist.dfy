/**
 * The vsftpd allowed-users file (`/etc/vsftpd.userlist` by default) seen
 * as the sequence of lines Python's text-mode reader yields: every line
 * but possibly the last ends with '\n', and '\n' occurs nowhere else.
 * create_user appends to it, delete_user rewrites it and list_users (and
 * the debugger's user checks) parse it.
 */
module UserList {
  import opened Text

  /** A line as Python's reader yields it: non-empty, '\n' only at its end. */
  predicate IsLine(l: string) {
    l != [] && forall i :: 0 <= i < |l| - 1 ==> l[i] != '\n'
  }

  /** The line ends with its terminator. */
  predicate Terminated(l: string) {
    l != [] && l[|l| - 1] == '\n'
  }

  /** The lines of a text file: each a line, all but the last terminated. */
  predicate WellFormed(lines: seq<string>) {
    && (forall k :: 0 <= k < |lines| ==> IsLine(lines[k]))
    && (forall k :: 0 <= k < |lines| - 1 ==> Terminated(lines[k]))
  }

  /** `[line.strip() for line in f]`: the names create_user compares against. */
  function Stripped(lines: seq<string>): (r: seq<string>)
    ensures |r| == |lines|
    ensures forall k :: 0 <= k < |lines| ==> r[k] == Strip(lines[k])
  {
    if lines == [] then [] else [Strip(lines[0])] + Stripped(lines[1..])
  }

  /** Some line of the file strips to `name`. */
  predicate Listed(lines: seq<string>, name: string) {
    name in Stripped(lines)
  }

  /** A line that list_users reports: not blank and not starting with '#'. */
  predicate IsEntryLine(l: string) {
    Strip(l) != [] && !StartsWith(l, "#")
  }

  /**
   * `[line.strip() for line in f if line.strip() and not line.startswith('#')]`:
   * the user names list_users, check_user_list and check_permissions read.
   */
  function Entries(lines: seq<string>): (r: seq<string>)
    ensures |r| <= |lines|
    ensures forall k :: 0 <= k < |r| ==> r[k] != []
  {
    if lines == [] then []
    else (if IsEntryLine(lines[0]) then [Strip(lines[0])] else []) + Entries(lines[1..])
  }

  /** A name is listed exactly when some non-blank, non-comment line strips to it. */
  lemma {:induction false} EntriesMember(lines: seq<string>, name: string)
    ensures name in Entries(lines) <==>
      exists k :: 0 <= k < |lines| && IsEntryLine(lines[k]) && Strip(lines[k]) == name
  {
    if lines != [] {
      EntriesMember(lines[1..], name);
      if name in Entries(lines[1..]) {
        var k :| 0 <= k < |lines[1..]| && IsEntryLine(lines[1..][k]) && Strip(lines[1..][k]) == name;
        assert IsEntryLine(lines[k + 1]) && Strip(lines[k + 1]) == name;
      }
      if exists k :: 0 <= k < |lines| && IsEntryLine(lines[k]) && Strip(lines[k]) == name {
        var k :| 0 <= k < |lines| && IsEntryLine(lines[k]) && Strip(lines[k]) == name;
        if k > 0 {
          assert IsEntryLine(lines[1..][k - 1]) && Strip(lines[1..][k - 1]) == name;
        }
      }
    }
  }

  /** Listing distributes over the two halves of a file. */
  lemma {:induction false} EntriesConcat(a: seq<string>, b: seq<string>)
    ensures Entries(a + b) == Entries(a) + Entries(b)
  {
    if a != [] {
      assert (a + b)[1..] == a[1..] + b;
      EntriesConcat(a[1..], b);
      Regroup(if IsEntryLine(a[0]) then [Strip(a[0])] else [], Entries(a[1..]), Entries(b));
    } else {
      assert a + b == b;
    }
  }

  /** delete_user's rewrite: the lines whose stripped text is not `name`, in order. */
  function Without(lines: seq<string>, name: string): (r: seq<string>)
    ensures |r| <= |lines|
  {
    if lines == [] then []
    else (if Strip(lines[0]) != name then [lines[0]] else []) + Without(lines[1..], name)
  }

  /** A line survives the rewrite exactly when it was there and does not strip to `name`. */
  lemma {:induction false} WithoutMember(lines: seq<string>, name: string, l: string)
    ensures l in Without(lines, name) <==> l in lines && Strip(l) != name
  {
    if lines != [] {
      WithoutMember(lines[1..], name, l);
      assert lines == [lines[0]] + lines[1..];
    }
  }

  /** The rewrite keeps the original order: it acts on each part of the file separately. */
  lemma {:induction false} WithoutConcat(a: seq<string>, b: seq<string>, name: string)
    ensures Without(a + b, name) == Without(a, name) + Without(b, name)
  {
    if a == [] {
      assert a + b == b;
    } else {
      var head := if Strip(a[0]) != name then [a[0]] else [];
      assert (a + b)[0] == a[0];
      assert (a + b)[1..] == a[1..] + b;
      assert Without(a + b, name) == head + Without(a[1..] + b, name);
      WithoutConcat(a[1..], b, name);
      Regroup(head, Without(a[1..], name), Without(b, name));
    }
  }

  /** A file without the name is written back unchanged. */
  lemma {:induction false} WithoutAbsent(lines: seq<string>, name: string)
    requires !Listed(lines, name)
    ensures Without(lines, name) == lines
  {
    if lines != [] {
      assert Stripped(lines) == [Strip(lines[0])] + Stripped(lines[1..]);
      WithoutAbsent(lines[1..], name);
      assert [lines[0]] + lines[1..] == lines;
    }
  }

  /** Stripping acts on each part of the file separately. */
  lemma {:induction false} StrippedConcat(a: seq<string>, b: seq<string>)
    ensures Stripped(a + b) == Stripped(a) + Stripped(b)
  {
    var r := Stripped(a + b);
    assert forall k :: 0 <= k < |a| ==> r[k] == Strip(a[k]);
    assert forall k :: |a| <= k < |a| + |b| ==> r[k] == Strip(b[k - |a|]);
  }

  /** After the rewrite no line strips to the name. */
  lemma {:induction false} WithoutNotListed(lines: seq<string>, name: string)
    ensures !Listed(Without(lines, name), name)
  {
    if lines != [] {
      WithoutNotListed(lines[1..], name);
      var head := if Strip(lines[0]) != name then [lines[0]] else [];
      var r := Without(lines, name);
      assert r == head + Without(lines[1..], name);
      StrippedConcat(head, Without(lines[1..], name));
    }
  }

  /** Removing twice is removing once. */
  lemma WithoutIdempotent(lines: seq<string>, name: string)
    ensures Without(Without(lines, name), name) == Without(lines, name)
  {
    WithoutNotListed(lines, name);
    WithoutAbsent(Without(lines, name), name);
  }

  /** The rewritten file is still a well-formed text file. */
  lemma {:induction false} WithoutWellFormed(lines: seq<string>, name: string)
    requires WellFormed(lines)
    ensures WellFormed(Without(lines, name))
  {
    if lines != [] {
      WithoutWellFormed(lines[1..], name);
      var rest := Without(lines[1..], name);
      if Strip(lines[0]) != name && rest != [] {
        assert |lines| >= 2;
        assert Terminated(lines[0]);
        var r := [lines[0]] + rest;
        forall k | 0 <= k < |r| - 1 ensures Terminated(r[k]) {
          if k > 0 { assert r[k] == rest[k - 1]; }
        }
      }
    }
  }

  /** `names` with every occurrence of `name` dropped, in order. */
  function Drop(names: seq<string>, name: string): (r: seq<string>)
    ensures name !in r
  {
    if names == [] then []
    else (if names[0] != name then [names[0]] else []) + Drop(names[1..], name)
  }

  /** After delete_user's rewrite, listing shows every other entry, in order, and not the name. */
  lemma {:induction false} EntriesWithout(lines: seq<string>, name: string)
    ensures Entries(Without(lines, name)) == Drop(Entries(lines), name)
  {
    if lines != [] {
      EntriesWithout(lines[1..], name);
      var head := if Strip(lines[0]) != name then [lines[0]] else [];
      EntriesConcat(head, Without(lines[1..], name));
      var e := if IsEntryLine(lines[0]) then [Strip(lines[0])] else [];
      DropConcat(e, Entries(lines[1..]), name);
    }
  }

  /** Dropping a name acts on each part separately. */
  lemma {:induction false} DropConcat(a: seq<string>, b: seq<string>, name: string)
    ensures Drop(a + b, name) == Drop(a, name) + Drop(b, name)
  {
    if a != [] {
      assert (a + b)[1..] == a[1..] + b;
      DropConcat(a[1..], b, name);
      Regroup(if a[0] != name then [a[0]] else [], Drop(a[1..], name), Drop(b, name));
    } else {
      assert a + b == b;
    }
  }

  /** The last line gets its missing terminator; nothing else changes. */
  function Terminate(lines: seq<string>): (r: seq<string>)
    ensures |r| == |lines|
    ensures lines != [] ==> r[..|r| - 1] == lines[..|lines| - 1] && Terminated(r[|r| - 1])
  {
    if lines != [] && !Terminated(lines[|lines| - 1])
    then lines[|lines| - 1 := lines[|lines| - 1] + "\n"]
    else lines
  }

  /**
   * create_user's update of the allowed list, with the file's last line
   * terminated before the name is appended: the name goes in on a line of
   * its own unless some line already strips to it.
   */
  function Add(lines: seq<string>, name: string): (r: seq<string>)
    ensures |r| == if Listed(lines, name) then |lines| else |lines| + 1
    ensures !Listed(lines, name) ==> r[|lines|] == name + "\n"
  {
    if Listed(lines, name) then lines else Terminate(lines) + [name + "\n"]
  }

  /**
   * create_user's update of the allowed list as the code does it: it
   * opens the file for appending and writes `name + "\n"`, which continues
   * an unterminated last line instead of starting a new one.
   */
  function AddAsWritten(lines: seq<string>, name: string): (r: seq<string>)
    ensures lines != [] && !Terminated(lines[|lines| - 1]) ==> |r| == |lines|
    ensures (lines == [] || Terminated(lines[|lines| - 1])) ==> |r| == if Listed(lines, name) then |lines| else |lines| + 1
  {
    if Listed(lines, name) then lines
    else if lines != [] && !Terminated(lines[|lines| - 1])
    then lines[..|lines| - 1] + [lines[|lines| - 1] + name + "\n"]
    else lines + [name + "\n"]
  }

  /** A one-line file lists that line's entry, if it has one. */
  lemma EntriesSingle(l: string)
    ensures Entries([l]) == if IsEntryLine(l) then [Strip(l)] else []
  {
    assert [l][1..] == [];
  }

  /** Terminating the last line keeps every line's stripped text. */
  lemma TerminateStripped(lines: seq<string>)
    ensures Stripped(Terminate(lines)) == Stripped(lines)
  {
    if lines != [] && !Terminated(lines[|lines| - 1]) {
      var n := |lines| - 1;
      StripAppendSpace(lines[n], '\n');
      StrippedPointwise(Terminate(lines), lines);
    }
  }

  /** Lines that strip alike, one by one, strip alike as a whole. */
  lemma StrippedPointwise(a: seq<string>, b: seq<string>)
    requires |a| == |b| && forall k :: 0 <= k < |a| ==> Strip(a[k]) == Strip(b[k])
    ensures Stripped(a) == Stripped(b)
  {
  }

  /** Terminating the last line keeps the listing. */
  lemma TerminateEntries(lines: seq<string>)
    ensures Entries(Terminate(lines)) == Entries(lines)
  {
    if lines != [] && !Terminated(lines[|lines| - 1]) {
      var n := |lines| - 1;
      var last := lines[n];
      StripAppendSpace(last, '\n');
      assert StartsWith(last + "\n", "#") == StartsWith(last, "#");
      EntriesSingle(last);
      EntriesSingle(last + "\n");
      EntriesConcat(lines[..n], [last]);
      EntriesConcat(lines[..n], [last + "\n"]);
      assert lines == lines[..n] + [last];
      assert Terminate(lines) == lines[..n] + [last + "\n"];
    }
  }

  /** Terminating the last line leaves a well-formed file whose lines all end with '\n'. */
  lemma TerminateWellFormed(lines: seq<string>)
    requires WellFormed(lines)
    ensures WellFormed(Terminate(lines))
    ensures forall k :: 0 <= k < |lines| ==> Terminated(Terminate(lines)[k])
  {
    if lines != [] && !Terminated(lines[|lines| - 1]) {
      var n := |lines| - 1;
      var last := lines[n];
      assert forall i :: 0 <= i < |last| ==> last[i] != '\n';
      assert IsLine(last + "\n");
      var r := Terminate(lines);
      assert forall k :: 0 <= k < n ==> r[k] == lines[k];
    }
  }

  /** A token with its terminator is a terminated, non-comment line. */
  lemma TokenLine(name: string)
    requires IsToken(name)
    ensures IsLine(name + "\n") && Terminated(name + "\n")
    ensures name[0] != '#' ==> !StartsWith(name + "\n", "#")
  {
    assert forall i :: 0 <= i < |name| ==> (name + "\n")[i] == name[i] && !IsSpace(name[i]);
  }

  /** A well-formed file stays well formed, and afterwards the name is listed. */
  lemma AddWellFormed(lines: seq<string>, name: string)
    requires WellFormed(lines) && IsToken(name)
    ensures WellFormed(Add(lines, name))
    ensures Listed(Add(lines, name), name)
  {
    if !Listed(lines, name) {
      var t := Terminate(lines);
      TerminateWellFormed(lines);
      TokenLine(name);
      var r := t + [name + "\n"];
      assert forall k :: 0 <= k < |t| ==> r[k] == t[k];
      assert WellFormed(r);
      StripTokenLine(name);
      StrippedConcat(t, [name + "\n"]);
      assert Stripped(r)[|t|] == name;
    }
  }

  /** Adding a name twice leaves the file as adding it once. */
  lemma AddIdempotent(lines: seq<string>, name: string)
    requires WellFormed(lines) && IsToken(name)
    ensures Add(Add(lines, name), name) == Add(lines, name)
  {
    AddWellFormed(lines, name);
  }

  /**
   * Listing after create_user's update shows the old entries, in order,
   * followed by the new name when it was not there before.
   */
  lemma AddEntries(lines: seq<string>, name: string)
    requires WellFormed(lines) && IsToken(name) && name[0] != '#'
    ensures Entries(Add(lines, name)) ==
      Entries(lines) + (if Listed(lines, name) then [] else [name])
  {
    if !Listed(lines, name) {
      TerminateEntries(lines);
      StripTokenLine(name);
      TokenLine(name);
      EntriesConcat(Terminate(lines), [name + "\n"]);
      EntriesSingle(name + "\n");
    }
  }

  /** "alice" on an unterminated line: "bob" is not listed and the line lacks its terminator. */
  lemma AliceUnterminated()
    ensures !Listed(["alice"], "bob") && !Terminated("alice")
  {
    StripToken("alice");
    assert Stripped(["alice"]) == ["alice"];
  }

  /** The single line "alicebob\n" strips to "alicebob" and lists it. */
  lemma MergedLine()
    ensures Stripped(["alicebob\n"]) == ["alicebob"]
    ensures Entries(["alicebob\n"]) == ["alicebob"]
  {
    assert IsToken("alicebob");
    StripTokenLine("alicebob");
    assert "alicebob" + "\n" == "alicebob\n";
    assert !StartsWith("alicebob\n", "#");
    EntriesSingle("alicebob\n");
  }

  /**
   * The as-written append merges a name into an unterminated last line:
   * "bob" added to a file holding "alice" without a newline yields the
   * single line "alicebob\n"; "bob" is then not listed, and adding "bob"
   * again changes the file a second time.
   */
  lemma AddAsWrittenMergesLines()
    ensures AddAsWritten(["alice"], "bob") == ["alicebob\n"]
    ensures "bob" !in Entries(AddAsWritten(["alice"], "bob"))
    ensures AddAsWritten(AddAsWritten(["alice"], "bob"), "bob") != AddAsWritten(["alice"], "bob")
  {
    AliceUnterminated();
    assert ["alice"][..0] == [];
    assert "alice" + "bob" + "\n" == "alicebob\n";
    var once := AddAsWritten(["alice"], "bob");
    assert once == ["alicebob\n"];
    MergedLine();
    assert !Listed(once, "bob");
    assert Terminated(once[0]);
    assert |AddAsWritten(once, "bob")| == 2;
  }
}
