/**
 Path lookup in a graph of files whose "." and ".." entries make it cyclic.
 */
module Paths {
  import opened Common

  /**
   A file: its name and, if it can be opened as a folder, its children in order. A link lists its target's children.
   */
  datatype File = File(name: string, children: Option<seq<int>>)

  datatype Fs = Fs(files: seq<File>, root: int)

  const SLASH: char := '/'

  predicate SlashFree(s: string) { forall i :: 0 <= i < |s| ==> s[i] != SLASH }

  /** Child references point to files; names are non-empty and have no slash. */
  ghost predicate FsOk(fs: Fs) {
    && 0 <= fs.root < |fs.files|
    && (forall f :: 0 <= f < |fs.files| && fs.files[f].children.Some? ==>
          forall i :: 0 <= i < |fs.files[f].children.value| ==> Named(fs, fs.files[f].children.value[i]))
  }

  ghost predicate Named(fs: Fs, c: int) {
    0 <= c < |fs.files| && fs.files[c].name != "" && SlashFree(fs.files[c].name)
  }

  // ---------------------------------------------------------------- the meaning of a path

  /** How many characters before the first slash. */
  function Word(p: string): (n: nat)
    ensures n <= |p| && SlashFree(p[..n]) && (n < |p| ==> p[n] == SLASH)
  {
    if p == "" || p[0] == SLASH then 0 else
      var n := Word(p[1..]);
      assert p[..n + 1] == [p[0]] + p[1..][..n];
      n + 1
  }

  /** The names in a path; slashes only separate. */
  function Components(p: string): seq<string>
    decreases |p|
  {
    if p == "" then [] else if p[0] == SLASH then Components(p[1..])
    else [p[..Word(p)]] + Components(p[Word(p)..])
  }

  /** The first child from the `n`-th on with this name. */
  function FirstNamed(fs: Fs, children: seq<int>, name: string, n: nat): Option<int>
    requires n <= |children| && forall i :: 0 <= i < |children| ==> 0 <= children[i] < |fs.files|
    decreases |children| - n
  {
    if n == |children| then None
    else if fs.files[children[n]].name == name then Some(children[n])
    else FirstNamed(fs, children, name, n + 1)
  }

  function Child(fs: Fs, f: int, name: string): (c: Option<int>)
    requires FsOk(fs) && 0 <= f < |fs.files|
    ensures c.Some? ==> 0 <= c.value < |fs.files|
  {
    match fs.files[f].children
    case None => None
    case Some(children) =>
      assert forall i :: 0 <= i < |children| ==> Named(fs, children[i]);
      FirstNamedInRange(fs, children, name, 0);
      FirstNamed(fs, children, name, 0)
  }

  lemma {:induction false} FirstNamedInRange(fs: Fs, children: seq<int>, name: string, n: nat)
    requires n <= |children| && forall i :: 0 <= i < |children| ==> 0 <= children[i] < |fs.files|
    ensures var c := FirstNamed(fs, children, name, n); c.Some? ==> 0 <= c.value < |fs.files|
    decreases |children| - n
  {
    if n < |children| { FirstNamedInRange(fs, children, name, n + 1); }
  }

  /** Following names one after the other. */
  function Follow(fs: Fs, f: int, names: seq<string>): (r: Option<int>)
    requires FsOk(fs) && 0 <= f < |fs.files|
    ensures r.Some? ==> 0 <= r.value < |fs.files|
    decreases |names|
  {
    if names == [] then Some(f)
    else
      var c := Child(fs, f, names[0]);
      if c.None? then None else Follow(fs, c.value, names[1..])
  }

  /** What lookup means: every path is followed name by name, except that the empty path names nothing. */
  function Lookup(fs: Fs, f: int, path: string): (r: Option<int>)
    requires FsOk(fs) && 0 <= f < |fs.files|
    ensures r.Some? ==> 0 <= r.value < |fs.files|
  {
    if path == "" then None else Follow(fs, f, Components(path))
  }

  // ---------------------------------------------------------------- laws

  lemma {:induction false} FollowAppend(fs: Fs, f: int, a: seq<string>, b: seq<string>)
    requires FsOk(fs) && 0 <= f < |fs.files|
    ensures Follow(fs, f, a + b) == (var r := Follow(fs, f, a); if r.None? then None else Follow(fs, r.value, b))
    decreases |a|
  {
    if a == [] {
      assert a + b == b;
    } else {
      var c := Child(fs, f, a[0]);
      assert (a + b)[0] == a[0] && (a + b)[1..] == a[1..] + b;
      if c.Some? { FollowAppend(fs, c.value, a[1..], b); }
    }
  }

  lemma {:induction false} WordJoin(p: string, q: string)
    ensures Word(p + "/" + q) == Word(p)
    decreases |p|
  {
    var r := p + "/" + q;
    if p != "" && p[0] != SLASH {
      WordJoin(p[1..], q);
      assert r[1..] == p[1..] + "/" + q;
    }
  }

  lemma {:induction false} ComponentsJoin(p: string, q: string)
    ensures Components(p + "/" + q) == Components(p) + Components(q)
    decreases |p|
  {
    var r := p + "/" + q;
    if p == "" {
      assert r[1..] == q;
    } else if p[0] == SLASH {
      ComponentsJoin(p[1..], q);
      assert r[1..] == p[1..] + "/" + q;
    } else {
      WordJoin(p, q);
      var n := Word(p);
      ComponentsJoin(p[n..], q);
      assert r[n..] == p[n..] + "/" + q && r[..n] == p[..n];
      assert [p[..n]] + (Components(p[n..]) + Components(q)) == [p[..n]] + Components(p[n..]) + Components(q);
    }
  }

  /** Looking up "p/q" is looking up "/q" from where p leads, for a non-empty p. */
  lemma LookupJoin(fs: Fs, f: int, p: string, q: string)
    requires FsOk(fs) && 0 <= f < |fs.files| && p != ""
    ensures Lookup(fs, f, p + "/" + q)
         == (var r := Lookup(fs, f, p); if r.None? then None else Lookup(fs, r.value, "/" + q))
  {
    ComponentsJoin(p, q);
    FollowAppend(fs, f, Components(p), Components(q));
    assert ("/" + q)[1..] == q;
    assert p + "/" + q != "" && "/" + q != "";
  }

  /**
   The law holds exactly for a non-empty p, whenever "/q" leads somewhere: the empty path is not the folder itself.
   */
  lemma LookupJoinIff(fs: Fs, f: int, p: string, q: string)
    requires FsOk(fs) && 0 <= f < |fs.files| && Lookup(fs, f, "/" + q).Some?
    ensures (Lookup(fs, f, p + "/" + q)
             == (var r := Lookup(fs, f, p); if r.None? then None else Lookup(fs, r.value, "/" + q)))
            <==> p != ""
  {
    if p == "" {
      assert p + "/" + q == "/" + q;
    } else {
      LookupJoin(fs, f, p, q);
    }
  }

  // ---------------------------------------------------------------- what a name finds

  lemma {:induction false} WordWhole(p: string)
    requires SlashFree(p)
    ensures Word(p) == |p|
  {
    if p != "" {
      forall i | 0 <= i < |p| - 1 ensures p[1..][i] != SLASH { assert p[1..][i] == p[i + 1]; }
      WordWhole(p[1..]);
    }
  }

  /** A path without a slash is one name. */
  lemma {:induction false} OneName(p: string)
    requires SlashFree(p) && p != ""
    ensures Components(p) == [p]
  {
    WordWhole(p);
    assert p[0] != SLASH && p[..|p|] == p && p[|p|..] == "";
  }

  /** `c` is the first child of folder `f` that has this name. */
  ghost predicate FirstChild(fs: Fs, f: int, name: string, c: int)
    requires FsOk(fs) && 0 <= f < |fs.files|
  {
    fs.files[f].children.Some? &&
    var cs := fs.files[f].children.value;
    exists i :: NameAt(fs, cs, i, name) && cs[i] == c && (forall j :: 0 <= j < i ==> !NameAt(fs, cs, j, name))
  }

  predicate NameAt(fs: Fs, cs: seq<int>, i: int, name: string) {
    0 <= i < |cs| && 0 <= cs[i] < |fs.files| && fs.files[cs[i]].name == name
  }

  lemma {:induction false} FirstNamedFrom(fs: Fs, cs: seq<int>, name: string, n: nat)
    requires n <= |cs| && forall i :: 0 <= i < |cs| ==> 0 <= cs[i] < |fs.files|
    ensures var c := FirstNamed(fs, cs, name, n);
      && (c.None? ==> forall i :: n <= i < |cs| ==> !NameAt(fs, cs, i, name))
      && (c.Some? ==> exists i :: n <= i < |cs| && cs[i] == c.value && NameAt(fs, cs, i, name)
                                  && (forall j :: n <= j < i ==> !NameAt(fs, cs, j, name)))
    decreases |cs| - n
  {
    if n < |cs| {
      if fs.files[cs[n]].name == name {
        assert NameAt(fs, cs, n, name);
      } else {
        FirstNamedFrom(fs, cs, name, n + 1);
      }
    }
  }

  /**
   Looking up a single name finds a file exactly if it is the first child of that name, and finds nothing exactly if
   there is no folder to look in or no child of that name.
   */
  lemma LookupName(fs: Fs, f: int, name: string, c: int)
    requires FsOk(fs) && 0 <= f < |fs.files| && name != "" && SlashFree(name)
    ensures Lookup(fs, f, name) == Some(c) <==> FirstChild(fs, f, name, c)
    ensures Lookup(fs, f, name).None? <==>
      fs.files[f].children.None? || forall i :: !NameAt(fs, fs.files[f].children.value, i, name)
  {
    OneName(name);
    assert [name][1..] == [];
    if fs.files[f].children.Some? {
      var cs := fs.files[f].children.value;
      forall i | 0 <= i < |cs| ensures 0 <= cs[i] < |fs.files| { assert Named(fs, cs[i]); }
      FirstNamedFrom(fs, cs, name, 0);
      var found := Child(fs, f, name);
      assert found == FirstNamed(fs, cs, name, 0);
      assert found.Some? ==> Follow(fs, found.value, [name][1..]) == found;
      assert Lookup(fs, f, name) == Follow(fs, f, [name]) == found;
    }
  }

  /** A path of slashes only leads where it starts. */
  lemma {:induction false} LookupSlashes(fs: Fs, f: int, p: string)
    requires FsOk(fs) && 0 <= f < |fs.files| && p != "" && forall i :: 0 <= i < |p| ==> p[i] == SLASH
    ensures Lookup(fs, f, p) == Some(f)
    decreases |p|
  {
    assert Components(p) == Components(p[1..]);
    if |p| > 1 {
      LookupSlashes(fs, f, p[1..]);
    } else {
      assert p[1..] == "" && Components("") == [];
    }
  }

  // ---------------------------------------------------------------- the code

  lemma {:induction false} WordOf(name: string, p: string)
    requires SlashFree(name) && |name| <= |p| && p[..|name|] == name && (|name| < |p| ==> p[|name|] == SLASH)
    ensures Word(p) == |name|
    decreases |name|
  {
    if name != "" {
      assert p[0] == name[0] && p[1..][..|name| - 1] == name[1..];
      WordOf(name[1..], p[1..]);
    }
  }

  /** Compares a child's name with the front of the path: how far the path goes with it, or -1. */
  method MatchName(name: string, path: string) returns (i: int)
    requires SlashFree(name) && name != "" && path != "" && path[0] != SLASH
    ensures i == if name == path[..Word(path)] then Word(path) else -1
  {
    i := 0;
    while i < |name|
      invariant 0 <= i <= |name| && i <= |path| && name[..i] == path[..i]
    {
      if i >= |path| || path[i] != name[i] {
        assert name != path[..Word(path)];
        return -1;
      }
      i := i + 1;
    }
    assert name[..i] == name;
    if i == |path| || path[i] == SLASH {
      WordOf(name, path);
    } else {
      assert name == path[..Word(path)] ==> Word(path) == i;
      i := -1;
    }
  }

  /** The path without its leading slashes; all of it may be slashes. */
  method SkipSlashes(path: string) returns (rest: string)
    ensures |rest| <= |path| && Components(rest) == Components(path)
    ensures rest == "" || rest[0] != SLASH
  {
    rest := path;
    while rest != "" && rest[0] == SLASH
      invariant |rest| <= |path| && Components(rest) == Components(path)
      decreases |rest|
    {
      rest := rest[1..];
    }
  }

  /** The recursion goes to the rest of the path, so cycles among the files do not matter. */
  method Get(fs: Fs, f: int, path: string) returns (r: Option<int>)
    requires FsOk(fs) && 0 <= f < |fs.files|
    ensures r == Lookup(fs, f, path)
    decreases |path|
  {
    if path == "" {
      return None;
    }
    var sub := SkipSlashes(path);
    if sub == "" {
      return Some(f);
    }
    var n := Word(sub);
    ghost var names := Components(sub);
    assert n > 0 && names == [sub[..n]] + Components(sub[n..]);
    assert names[0] == sub[..n] && names[1..] == Components(sub[n..]);
    match fs.files[f].children {
      case None => r := None;
      case Some(children) =>
        assert forall i :: 0 <= i < |children| ==> Named(fs, children[i]);
        var i := 0;
        while i < |children|
          invariant 0 <= i <= |children|
          invariant FirstNamed(fs, children, sub[..n], 0) == FirstNamed(fs, children, sub[..n], i)
        {
          var c := children[i];
          var k := MatchName(fs.files[c].name, sub);
          if k >= 0 {
            assert FirstNamed(fs, children, sub[..n], i) == Some(c) && Child(fs, f, sub[..n]) == Some(c);
            assert Lookup(fs, f, path) == Follow(fs, c, Components(sub[n..]));
            if k == |sub| {
              assert sub[n..] == "";
              r := Some(c);
            } else {
              r := Get(fs, c, sub[k..]);
            }
            return;
          }
          i := i + 1;
        }
        r := None;
    }
  }

  /** An absolute path starts at the root. */
  method GetFrom(fs: Fs, f: int, path: string) returns (r: Option<int>)
    requires FsOk(fs) && 0 <= f < |fs.files|
    ensures r == Lookup(fs, if path != "" && path[0] == SLASH then fs.root else f, path)
  {
    if path != "" && path[0] == SLASH && f != fs.root {
      r := Get(fs, fs.root, path);
    } else {
      r := Get(fs, f, path);
    }
  }
}
