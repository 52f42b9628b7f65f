/**
 * The part of Python's pathlib that create_user relies on: the string of
 * `Path(root) / name` for a name that is a single path component. pathlib
 * keeps the anchor (`/`, or `//` for exactly two leading slashes), drops
 * empty components and `.` components, and joins what is left with `/`.
 */
module PosixPath {
  import opened Text

  /** One relative path component: non-empty, without a slash, and not `.`. */
  predicate IsComponent(name: string) {
    name != [] && name != "." && '/' !in name
  }

  /**
   * The anchor pathlib keeps: nothing for a relative path, `//` for exactly
   * two leading slashes, and `/` for one or for three and more.
   */
  function Anchor(path: string): (a: string)
    ensures a == [] <==> path == [] || path[0] != '/'
    ensures StartsWith(path, a)
  {
    if path == [] || path[0] != '/' then []
    else if |path| >= 2 && path[1] == '/' && (|path| == 2 || path[2] != '/') then "//"
    else "/"
  }

  /** The pieces between slashes that pathlib keeps: not the empty ones and not `.`. */
  function Kept(pieces: seq<string>): (parts: seq<string>)
    ensures |parts| <= |pieces|
    ensures forall k :: 0 <= k < |parts| ==> parts[k] in pieces && parts[k] != [] && parts[k] != "."
  {
    if pieces == [] then []
    else (if pieces[0] == [] || pieces[0] == "." then [] else [pieces[0]]) + Kept(pieces[1..])
  }

  /** The components of a path as pathlib parses them, without the anchor. */
  function Parts(path: string): (parts: seq<string>)
    ensures forall k :: 0 <= k < |parts| ==> IsComponent(parts[k])
  {
    Kept(Split(path, '/'))
  }

  /** `str(Path(root) / name)`, for a single component `name`. */
  function JoinName(root: string, name: string): (p: string)
    requires IsComponent(name)
  {
    Anchor(root) + Join('/', Parts(root) + [name])
  }

  /** A path is normal when pathlib would print it as it is. */
  predicate Normal(path: string) {
    path == Anchor(path) + Join('/', Parts(path))
  }

  /**
   * The joined path is normal: after the anchor it reads back as the
   * root's components followed by the name, so it holds no empty or `.`
   * component, and it ends with the name.
   */
  lemma JoinNameNormal(root: string, name: string)
    requires IsComponent(name)
    ensures StartsWith(JoinName(root, name), Anchor(root))
    ensures Split(JoinName(root, name)[|Anchor(root)|..], '/') == Parts(root) + [name]
    ensures |name| <= |JoinName(root, name)|
    ensures JoinName(root, name)[|JoinName(root, name)| - |name|..] == name
  {
    var anchor, kept := Anchor(root), Parts(root);
    var parts := kept + [name];
    var joined := Join('/', parts);
    var p := JoinName(root, name);
    assert p == anchor + joined;
    assert p[|anchor|..] == joined;
    forall k | 0 <= k < |parts|
      ensures '/' !in parts[k]
    {
      if k < |kept| {
        assert parts[k] == kept[k];
      }
    }
    SplitJoin(parts, '/');
    if kept != [] {
      JoinSnoc('/', kept, name);
      Regroup(anchor, Join('/', kept) + ['/'], name);
    } else {
      assert parts == [name];
    }
  }

  /** Joining onto a normal root with at least one component is the plain `root + "/" + name`. */
  lemma JoinNameOfNormal(root: string, name: string)
    requires IsComponent(name) && Normal(root) && Parts(root) != []
    ensures JoinName(root, name) == root + "/" + name
  {
    JoinSnoc('/', Parts(root), name);
  }

  /** An empty root contributes nothing: the result is the name alone. */
  lemma JoinNameEmptyRoot(name: string)
    requires IsComponent(name)
    ensures JoinName("", name) == name
  {
    assert Split("", '/') == [[]];
    assert Kept([[]]) == [];
  }

  /** The components kept from two runs of pieces are those of each run, in order. */
  lemma {:induction false} KeptConcat(a: seq<string>, b: seq<string>)
    ensures Kept(a + b) == Kept(a) + Kept(b)
  {
    if a != [] {
      assert (a + b)[1..] == a[1..] + b;
      KeptConcat(a[1..], b);
      var head := if a[0] == [] || a[0] == "." then [] else [a[0]];
      Regroup(head, Kept(a[1..]), Kept(b));
    } else {
      assert a + b == b;
    }
  }

  /** A trailing slash on the root changes nothing in the joined path. */
  lemma JoinNameTrailingSlash(root: string, name: string)
    requires IsComponent(name) && root != [] && root[|root| - 1] != '/'
    ensures JoinName(root + "/", name) == JoinName(root, name)
  {
    var r := root + "/";
    if root[0] == '/' {
      assert |root| >= 2;
      assert r[1] == root[1];
      if |root| >= 3 {
        assert r[2] == root[2];
      } else {
        assert root[1] != '/';
      }
    }
    assert Anchor(r) == Anchor(root);
    SplitSnocSep(root, '/');
    KeptConcat(Split(root, '/'), [[]]);
    assert Kept([[]]) == [];
    assert Parts(r) == Parts(root);
  }
}
