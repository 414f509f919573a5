/** Removal of what an owner has in a directory tree. */
module RemoveTree {
  type Name = nat
  type Path = seq<Name>

  datatype Meta = Meta(isDir: bool, uid: int, gid: int)

  type Entries = map<Path, Meta>

  predicate Owns(m: Meta, owner: int) {
    m.uid == owner || m.gid == owner
  }

  /** Every entry lies in a chain of directories. */
  ghost predicate WellFormed(e: Entries) {
    forall p: Path, k: nat :: p in e && k < |p| ==> p[..k] in e && e[p[..k]].isDir
  }

  /** Some entry on the way from length `low` to `p` is owned. */
  ghost predicate OwnedFrom(e: Entries, p: Path, low: nat, owner: int) {
    exists k: nat :: low <= k <= |p| && p[..k] in e && Owns(e[p[..k]], owner)
  }

  predicate Under(dir: Path, p: Path) {
    |dir| < |p| && p[..|dir|] == dir
  }

  /** The entries below `dir` that a removal is meant to take. */
  ghost function Contents(e: Entries, dir: Path, owner: int, force: bool): set<Path> {
    set p | p in e && Under(dir, p) && (force || OwnedFrom(e, p, |dir|, owner))
  }

  /** The same, of the children named in `names`, when the directory itself does not count. */
  ghost function Part(e: Entries, dir: Path, names: set<Name>, owner: int, all: bool): set<Path> {
    set p | p in e && Under(dir, p) && p[|dir|] in names && (all || OwnedFrom(e, p, |dir| + 1, owner))
  }

  /** What removing `dir` takes: everything with an owned ancestor-or-self in it, or everything when forced. */
  ghost function Gone(e: Entries, dir: Path, owner: int, force: bool): set<Path> {
    set p | p in e && (p == dir || Under(dir, p)) && (force || OwnedFrom(e, p, |dir|, owner))
  }

  ghost function Below(e: Entries, dir: Path): set<Path> {
    set p | p in e && Under(dir, p)
  }

  function Children(e: Entries, dir: Path): set<Name> {
    set p | p in e && Under(dir, p) && |p| == |dir| + 1 :: p[|dir|]
  }

  function Without(e: Entries, gone: set<Path>): Entries {
    e - gone
  }

  lemma UnderChild(dir: Path, name: Name, p: Path)
    ensures Under(dir + [name], p) ==> Under(dir, p) && p[|dir|] == name
    ensures Under(dir, p) && p[|dir|] == name ==> p[..|dir| + 1] == dir + [name]
  {
  }

  /** Whatever lies below a removed entry is removed too, so every directory to be removed is empty by then. */
  lemma GoneIsClosed(e: Entries, dir: Path, owner: int, force: bool, p: Path, q: Path)
    requires q in e && Under(p, q)
    ensures p in Gone(e, dir, owner, force) ==> q in Gone(e, dir, owner, force)
  {
    if p in Gone(e, dir, owner, force) {
      assert q[..|dir|] == q[..|p|][..|dir|];
      if !force {
        var k: nat :| |dir| <= k <= |p| && p[..k] in e && Owns(e[p[..k]], owner);
        assert q[..k] == q[..|p|][..k] == p[..k];
      }
    }
  }

  /** Removed and surviving entries are all the entries, and the survivors are again a tree. */
  lemma Conservation(e: Entries, dir: Path, owner: int, force: bool)
    requires WellFormed(e)
    ensures |Without(e, Gone(e, dir, owner, force))| + |Gone(e, dir, owner, force)| == |e|
    ensures WellFormed(Without(e, Gone(e, dir, owner, force)))
  {
    var gone := Gone(e, dir, owner, force);
    var rest := Without(e, gone);
    assert rest.Keys + gone == e.Keys;
    forall p: Path, k: nat | p in rest && k < |p|
      ensures p[..k] in rest && rest[p[..k]].isDir
    {
      GoneIsClosed(e, dir, owner, force, p[..k], p);
    }
  }

  /** What is taken of one child: below it what its own removal takes, and the child itself if it is to go. */
  lemma ChildPart(e: Entries, now: Entries, dir: Path, name: Name, done: set<Name>, owner: int, all: bool)
    requires WellFormed(e) && dir + [name] in e && name !in done
    requires now == Without(e, Part(e, dir, done, owner, all))
    ensures dir + [name] in now && now[dir + [name]] == e[dir + [name]]
    ensures forall p :: Under(dir + [name], p) ==> (p in now <==> p in e)
    ensures var c := dir + [name];
            var own := Contents(now, c, owner, all) + (if all || Owns(e[c], owner) then {c} else {});
            && Part(e, dir, {name}, owner, all) == own
            && c !in Contents(now, c, owner, all)
            && Part(e, dir, done + {name}, owner, all) == Part(e, dir, done, owner, all) + own
            && Part(e, dir, done, owner, all) !! own
  {
    var c := dir + [name];
    assert Under(dir, c) && c[|dir|] == name;
    forall p | Under(c, p)
      ensures p in now <==> p in e
    {
      UnderChild(dir, name, p);
    }
    forall p | p in e && Under(c, p)
      ensures OwnedFrom(now, p, |c|, owner) <==> OwnedFrom(e, p, |c|, owner)
    {
      forall k: nat | |c| <= k <= |p|
        ensures p[..k] in now <==> p[..k] in e
      {
        if k == |c| {
          assert p[..k] == c;
        } else {
          assert p[..k][..|c|] == p[..|c|] == c;
          assert Under(c, p[..k]);
        }
      }
    }
    var own := Contents(now, c, owner, all) + (if all || Owns(e[c], owner) then {c} else {});
    forall p
      ensures p in Part(e, dir, {name}, owner, all) <==> p in own
    {
      UnderChild(dir, name, p);
      if p == c {
        assert p[..|c|] == c;
      } else if p in e && Under(dir, p) && p[|dir|] == name {
        assert p[..|p|] == p;
        assert Under(c, p);
      }
    }
    assert Part(e, dir, done + {name}, owner, all) == Part(e, dir, done, owner, all) + Part(e, dir, {name}, owner, all);
  }

  /** What a call for `dir` takes: nothing unless `dir` is a directory other than the root. */
  ghost function Taken(e: Entries, dir: Path, owner: int, force: bool): set<Path> {
    if dir == [] || dir !in e || !e[dir].isDir then {} else Gone(e, dir, owner, force)
  }

  lemma SecondRemoval(e: Entries, first: set<Path>, last: Path)
    ensures Without(Without(e, first), {last}) == Without(e, first + {last})
  {
  }

  lemma NothingTaken(e: Entries)
    ensures Without(e, {}) == e
  {
  }

  lemma NothingDone(e: Entries, dir: Path, owner: int, all: bool)
    ensures Part(e, dir, {}, owner, all) == {} && Without(e, {}) == e
  {
  }

  /** Once every child had its turn, all that is to go has gone. */
  lemma AllDone(e: Entries, dir: Path, owner: int, force: bool)
    requires WellFormed(e) && dir in e
    ensures Contents(e, dir, owner, force)
         == Part(e, dir, Children(e, dir), owner, force || Owns(e[dir], owner))
  {
    var all := force || Owns(e[dir], owner);
    forall p | p in e && Under(dir, p)
      ensures p[|dir|] in Children(e, dir)
      ensures force || OwnedFrom(e, p, |dir|, owner) <==> all || OwnedFrom(e, p, |dir| + 1, owner)
    {
      ChildOnPath(e, dir, p);
      if Owns(e[dir], owner) {
        assert p[..|dir|] in e;
      }
    }
  }

  lemma ChildOnPath(e: Entries, dir: Path, p: Path)
    requires WellFormed(e) && p in e && Under(dir, p)
    ensures dir + [p[|dir|]] in e && p[|dir|] in Children(e, dir)
  {
    var c := p[..|dir| + 1];
    assert c == p[..|dir|] + [p[|dir|]];
    assert |c| < |p| ==> c in e;
    assert |c| == |p| ==> c == p;
    assert Under(dir, c);
  }

  lemma ChildExists(e: Entries, dir: Path, name: Name)
    requires name in Children(e, dir)
    ensures dir + [name] in e
  {
    var p :| p in e && Under(dir, p) && |p| == |dir| + 1 && p[|dir|] == name;
    assert p == dir + [name];
  }

  /** A directory all of whose contents are to go is empty afterwards. */
  lemma EmptyAfter(e: Entries, c: Path, owner: int, all: bool)
    requires c in e && (all || Owns(e[c], owner))
    ensures Children(Without(e, Contents(e, c, owner, all)), c) == {}
  {
  }

  lemma FileHasNothing(e: Entries, now: Entries, dir: Path, name: Name, owner: int, all: bool)
    requires WellFormed(e) && dir + [name] in e && !e[dir + [name]].isDir
    requires forall p :: Under(dir + [name], p) ==> (p in now <==> p in e)
    ensures Contents(now, dir + [name], owner, all) == {}
  {
  }

  lemma SmallerBelow(e: Entries, now: Entries, dir: Path, name: Name)
    requires dir + [name] in e
    requires forall p :: Under(dir + [name], p) ==> (p in now <==> p in e)
    ensures Below(now, dir + [name]) < Below(e, dir)
  {
    var c := dir + [name];
    assert c in Below(e, dir) && c !in Below(now, c);
    forall p | p in Below(now, c)
      ensures p in Below(e, dir)
    {
      UnderChild(dir, name, p);
    }
  }

  lemma PartIsClosed(e: Entries, dir: Path, done: set<Name>, owner: int, all: bool, p: Path, q: Path)
    requires q in e && Under(p, q)
    ensures p in Part(e, dir, done, owner, all) ==> q in Part(e, dir, done, owner, all)
  {
    if p in Part(e, dir, done, owner, all) {
      assert q[..|dir|] == q[..|p|][..|dir|];
      assert q[|dir|] == q[..|p|][|dir|];
      if !all {
        var k: nat :| |dir| + 1 <= k <= |p| && p[..k] in e && Owns(e[p[..k]], owner);
        assert q[..k] == q[..|p|][..k] == p[..k];
      }
    }
  }

  /** What is left part-way is still a tree. */
  lemma StillTree(e: Entries, dir: Path, done: set<Name>, owner: int, all: bool)
    requires WellFormed(e)
    ensures WellFormed(Without(e, Part(e, dir, done, owner, all)))
  {
    var rest := Without(e, Part(e, dir, done, owner, all));
    forall p: Path, k: nat | p in rest && k < |p|
      ensures p[..k] in rest && rest[p[..k]].isDir
    {
      PartIsClosed(e, dir, done, owner, all, p[..k], p);
    }
  }

  /** The directory itself and its contents. */
  lemma WholeTree(e: Entries, dir: Path, owner: int, force: bool)
    requires WellFormed(e) && dir in e
    ensures var all := force || Owns(e[dir], owner);
            && Gone(e, dir, owner, force) == Contents(e, dir, owner, all) + (if all then {dir} else {})
            && dir !in Contents(e, dir, owner, all)
  {
    var all := force || Owns(e[dir], owner);
    assert dir[..|dir|] == dir;
    forall p | p in e && (p == dir || Under(dir, p))
      ensures p != dir ==> (force || OwnedFrom(e, p, |dir|, owner) <==> all || OwnedFrom(e, p, |dir|, owner))
      ensures p == dir ==> (force || OwnedFrom(e, p, |dir|, owner) <==> all)
    {
      assert p[..|dir|] == dir;
    }
  }

  /** A file system tree below the trusted root, changed by system calls that succeed when they can. */
  class FileSystem {
    var entries: Entries

    constructor (e: Entries)
      ensures entries == e
    {
      entries := e;
    }

    /** Removal of an entry that is not a directory. */
    method Unlink(p: Path) returns (ok: bool)
      modifies this
      ensures ok <==> p in old(entries) && !old(entries)[p].isDir
      ensures entries == if ok then Without(old(entries), {p}) else old(entries)
    {
      ok := p in entries && !entries[p].isDir;
      if ok {
        entries := entries - {p};
      }
    }

    /** Removal of a directory, which must be empty. */
    method RemoveEmpty(p: Path) returns (ok: bool)
      modifies this
      ensures ok <==> p in old(entries) && old(entries)[p].isDir && Children(old(entries), p) == {}
      ensures entries == if ok then Without(old(entries), {p}) else old(entries)
    {
      ok := p in entries && entries[p].isDir && Children(entries, p) == {};
      if ok {
        entries := entries - {p};
      }
    }

    /** Removes the contents of an open directory and says how many entries went. */
    method RemoveDirContents(dir: Path, owner: int, force: bool) returns (removed: nat)
      requires WellFormed(entries) && dir in entries && entries[dir].isDir
      modifies this
      ensures entries == Without(old(entries), Contents(old(entries), dir, owner, force))
      ensures removed == |Contents(old(entries), dir, owner, force)|
      decreases Below(entries, dir)
    {
      hide Contents, Part, WellFormed, Owns;
      ghost var e := entries;
      var removeAll := force || Owns(entries[dir], owner);
      removed := 0;
      var names := Children(entries, dir);
      ghost var done: set<Name> := {};
      NothingDone(e, dir, owner, removeAll);
      while names != {}
        invariant done + names == Children(e, dir) && done !! names
        invariant entries == Without(e, Part(e, dir, done, owner, removeAll))
        invariant removed == |Part(e, dir, done, owner, removeAll)|
        decreases names
      {
        var name :| name in names;
        assert name in Children(e, dir);
        ChildExists(e, dir, name);
        removed := RemoveChild(dir, name, owner, removeAll, removed, e, done);
        names := names - {name};
        done := done + {name};
      }
      assert done == Children(e, dir);
      AllDone(e, dir, owner, force);
    }

    /** The turn of one child in the loop over a directory. */
    method RemoveChild(dir: Path, name: Name, owner: int, removeAll: bool, count: nat,
                       ghost e: Entries, ghost done: set<Name>)
      returns (removed: nat)
      requires WellFormed(e) && dir + [name] in e && name !in done
      requires entries == Without(e, Part(e, dir, done, owner, removeAll))
      requires count == |Part(e, dir, done, owner, removeAll)|
      modifies this
      ensures entries == Without(e, Part(e, dir, done + {name}, owner, removeAll))
      ensures removed == |Part(e, dir, done + {name}, owner, removeAll)|
      decreases Below(e, dir), 0
    {
      hide Contents, Part;
      var c := dir + [name];
      ghost var was := entries;
      ghost var inside := Contents(was, c, owner, removeAll);
      ChildPart(e, was, dir, name, done, owner, removeAll);
      removed := count;
      var childStat := entries[c];
      var removeIt := removeAll || Owns(childStat, owner);
      if childStat.isDir {
        SmallerBelow(e, was, dir, name);
        StillTree(e, dir, done, owner, removeAll);
        var n := RemoveDirContents(c, owner, removeAll);
        removed := removed + n;
        if removeIt {
          EmptyAfter(was, c, owner, removeAll);
          var ok := RemoveEmpty(c);
          if ok {
            removed := removed + 1;
          }
        }
      } else {
        FileHasNothing(e, was, dir, name, owner, removeAll);
        if removeIt {
          var ok := Unlink(c);
          if ok {
            removed := removed + 1;
          }
        }
      }
    }

    /** Removes a directory with what the owner has in it, or all of it when forced. */
    method RemoveDir(dir: Path, owner: int, force: bool) returns (nunlinks: nat)
      requires WellFormed(entries)
      modifies this
      ensures WellFormed(entries)
      ensures entries == Without(old(entries), Taken(old(entries), dir, owner, force))
      ensures nunlinks == |Taken(old(entries), dir, owner, force)|
      ensures nunlinks + |entries| == |old(entries)|
    {
      hide Gone, Contents, WellFormed;
      ghost var e := entries;
      Conservation(e, dir, owner, force);
      if dir == [] || dir !in entries || !entries[dir].isDir {
        NothingTaken(e);
        return 0;
      }
      var removeAll := force || Owns(entries[dir], owner);
      nunlinks := RemoveDirContents(dir, owner, removeAll);
      WholeTree(e, dir, owner, force);
      if removeAll {
        EmptyAfter(e, dir, owner, true);
        var ok := RemoveEmpty(dir);
        assert ok;
        nunlinks := nunlinks + 1;
        SecondRemoval(e, Contents(e, dir, owner, true), dir);
      }
    }
  }
}
