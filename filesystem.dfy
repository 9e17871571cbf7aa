/**
 * The part of the file system `initialize_directories` works on: the tree
 * under the data root (`android_data_dir`), as a map from paths to nodes.
 *
 * Every primitive takes a `fail` flag saying whether the kernel call fails
 * for a reason the model does not track (permissions, I/O, quota); it also
 * fails where POSIX makes it fail on this tree (missing parent, existing
 * target, ...). A failing primitive leaves the tree unchanged.
 */
module FileSystem {
  import opened CString

  type Name = Str

  /** A path as its components below the data root; [] is the data root itself. */
  type Path = seq<Name>

  datatype Kind = Dir | File(data: Str) | Link(target: Path)

  datatype Node = Node(kind: Kind, uid: nat, gid: nat, mode: nat)

  type Nodes = map<Path, Node>

  /** The permission bits written in octal as `0ugo`. */
  function Mode(u: nat, g: nat, o: nat): nat
    requires u < 8 && g < 8 && o < 8
  {
    u * 64 + g * 8 + o
  }

  /** `p` is `root` or lies below it. */
  predicate Within(p: Path, root: Path)
  {
    |root| <= |p| && p[..|root|] == root
  }

  predicate IsDir(fs: Nodes, p: Path)
  {
    p in fs && fs[p].kind.Dir?
  }

  function Parent(p: Path): Path
    requires p != []
  {
    p[..|p| - 1]
  }

  /** The tree agrees with `fs` at `p`. */
  predicate Keeps(fs: Nodes, fs': Nodes, p: Path)
  {
    (p in fs' <==> p in fs) && (p in fs ==> fs'[p] == fs[p])
  }

  /** `access(p, F_OK)`: something is at `p` (a symbolic link counts itself). */
  predicate Exists(fs: Nodes, p: Path)
  {
    p in fs
  }

  /**
   * `access(p, R_OK)`: something is at `p` and, when it is a symbolic
   * link, at its target (one level of links; permission bits are not
   * modelled).
   */
  predicate Reachable(fs: Nodes, p: Path)
  {
    p in fs && (fs[p].kind.Link? ==> fs[p].kind.target in fs)
  }

  /** `mkdir(p, mode)`: a new directory owned by root; the parent must be a directory. */
  function Mkdir(fs: Nodes, p: Path, mode: nat, fail: bool): (r: Option<Nodes>)
    ensures r.Some? ==> IsDir(r.value, p) && !Exists(fs, p)
    ensures r.Some? ==> r.value[p] == Node(Dir, 0, 0, mode)
    ensures r.Some? ==> forall q :: q != p ==> Keeps(fs, r.value, q)
    ensures r.Some? <==> !fail && p != [] && p !in fs && IsDir(fs, Parent(p))
  {
    if fail || p == [] || p in fs || !IsDir(fs, Parent(p)) then None
    else Some(fs[p := Node(Dir, 0, 0, mode)])
  }

  /** `chown(p, uid, gid)`. */
  function Chown(fs: Nodes, p: Path, uid: nat, gid: nat, fail: bool): (r: Option<Nodes>)
    ensures r.Some? ==> p in r.value && r.value[p].uid == uid && r.value[p].gid == gid
    ensures r.Some? ==> p in fs && r.value[p].kind == fs[p].kind && r.value[p].mode == fs[p].mode
    ensures r.Some? ==> forall q :: q != p ==> Keeps(fs, r.value, q)
    ensures r.Some? <==> !fail && p in fs
  {
    if fail || p !in fs then None
    else Some(fs[p := fs[p].(uid := uid, gid := gid)])
  }

  /** `chmod(p, mode)`. */
  function Chmod(fs: Nodes, p: Path, mode: nat, fail: bool): (r: Option<Nodes>)
    ensures r.Some? ==> p in fs && p in r.value && r.value[p] == fs[p].(mode := mode)
    ensures r.Some? ==> forall q :: q != p ==> Keeps(fs, r.value, q)
    ensures r.Some? <==> !fail && p in fs
  {
    if fail || p !in fs then None
    else Some(fs[p := fs[p].(mode := mode)])
  }

  /** `symlink(target, p)`: nothing may be at `p` yet. */
  function Symlink(fs: Nodes, target: Path, p: Path, fail: bool): (r: Option<Nodes>)
    ensures r.Some? ==> !Exists(fs, p) && p in r.value && r.value[p].kind == Link(target)
    ensures r.Some? ==> r.value[p] == Node(Link(target), 0, 0, Mode(7, 7, 7))
    ensures r.Some? ==> forall q :: q != p ==> Keeps(fs, r.value, q)
    ensures r.Some? <==> !fail && p != [] && p !in fs && IsDir(fs, Parent(p))
  {
    if fail || p == [] || p in fs || !IsDir(fs, Parent(p)) then None
    else Some(fs[p := Node(Link(target), 0, 0, Mode(7, 7, 7))])
  }

  /**
   * `fs_prepare_dir(p, mode, uid, gid)`: make sure a directory with this
   * owner and mode is at `p`, creating it when absent (its parent must be
   * a directory) and fixing owner and mode when present; fails when
   * something other than a directory is there.
   */
  function PrepareDir(fs: Nodes, p: Path, mode: nat, uid: nat, gid: nat, fail: bool): (r: Option<Nodes>)
    ensures r.Some? ==> p in r.value && r.value[p] == Node(Dir, uid, gid, mode)
    ensures r.Some? ==> forall q :: q != p ==> Keeps(fs, r.value, q)
    ensures !fail && IsDir(fs, p) ==> r.Some?
    ensures p in fs && !fs[p].kind.Dir? ==> r.None?
    ensures fail ==> r.None?
    ensures !fail && p !in fs && p != [] && IsDir(fs, Parent(p)) ==> r.Some?
    ensures p != [] && p !in fs && !IsDir(fs, Parent(p)) ==> r.None?
  {
    if fail then None
    else if p in fs then
      if fs[p].kind.Dir? then Some(fs[p := Node(Dir, uid, gid, mode)]) else None
    else if p != [] && IsDir(fs, Parent(p)) then Some(fs[p := Node(Dir, uid, gid, mode)])
    else None
  }

  /** Preparing a directory a second time changes nothing. */
  lemma PrepareDirIdempotent(fs: Nodes, p: Path, mode: nat, uid: nat, gid: nat)
    requires PrepareDir(fs, p, mode, uid, gid, false).Some?
    ensures var fs' := PrepareDir(fs, p, mode, uid, gid, false).value;
            PrepareDir(fs', p, mode, uid, gid, false) == Some(fs')
  {
    var fs' := PrepareDir(fs, p, mode, uid, gid, false).value;
    assert fs'[p := Node(Dir, uid, gid, mode)] == fs';
  }

  /** Preparing a directory that already has the owner and mode asked for changes nothing. */
  lemma PrepareDirSettled(fs: Nodes, p: Path, mode: nat, uid: nat, gid: nat)
    requires p in fs && fs[p] == Node(Dir, uid, gid, mode)
    ensures PrepareDir(fs, p, mode, uid, gid, false) == Some(fs)
  {
    assert fs[p := Node(Dir, uid, gid, mode)] == fs;
  }

  lemma MoveInjective(src: Path, dst: Path)
    ensures forall p1, p2 :: Within(p1, src) && Within(p2, src) && dst + p1[|src|..] == dst + p2[|src|..] ==> p1 == p2
  {
    forall p1, p2 | Within(p1, src) && Within(p2, src) && dst + p1[|src|..] == dst + p2[|src|..]
      ensures p1 == p2
    {
      assert p1[|src|..] == (dst + p1[|src|..])[|dst|..];
      assert p2[|src|..] == (dst + p2[|src|..])[|dst|..];
      assert p1 == p1[..|src|] + p1[|src|..];
      assert p2 == p2[..|src|] + p2[|src|..];
    }
  }

  /** The tree after the subtree at `src` has been moved to `dst` (replacing what was at `dst`). */
  function Move(fs: Nodes, src: Path, dst: Path): (m: Nodes)
    ensures forall q :: !Within(q, src) && !Within(q, dst) ==> Keeps(fs, m, q)
    ensures forall q :: q in fs && Within(q, src) ==> dst + q[|src|..] in m && m[dst + q[|src|..]] == fs[q]
    ensures forall q :: q in m ==> !Within(q, src) || Within(q, dst)
    ensures forall q :: q in m && Within(q, dst) ==> src + q[|dst|..] in fs
  {
    MoveInjective(src, dst);
    assert forall p :: Within(p, src) ==> Within(dst + p[|src|..], dst) && src + (dst + p[|src|..])[|dst|..] == p by {
      forall p | Within(p, src)
        ensures Within(dst + p[|src|..], dst) && src + (dst + p[|src|..])[|dst|..] == p
      {
        assert (dst + p[|src|..])[..|dst|] == dst;
        assert (dst + p[|src|..])[|dst|..] == p[|src|..];
        assert p == p[..|src|] + p[|src|..];
      }
    }
    var rest := map p | p in fs && !Within(p, src) && !Within(p, dst) :: fs[p];
    var moved := map p | p in fs && Within(p, src) :: dst + p[|src|..] := fs[p];
    rest + moved
  }

  /** Nothing is below `p` in `fs`. */
  predicate Childless(fs: Nodes, p: Path)
  {
    forall q :: q in fs && Within(q, p) ==> q == p
  }

  /** Nothing in `fs` lies at or below the top-level `[a]`. */
  lemma OutsideTop(fs: Nodes, a: Name)
    requires forall q :: q in fs && q != [] ==> q[0] != a
    ensures forall q :: q in fs ==> !Within(q, [a])
  {
    forall q | q in fs
      ensures !Within(q, [a])
    {
      if q != [] {
        assert q[..1][0] == q[0];
      }
    }
  }

  /** Nothing in `fs` lies below the top-level `[a]`. */
  lemma ChildlessTop(fs: Nodes, a: Name)
    requires forall q :: q in fs && q != [] && q[0] == a ==> q == [a]
    ensures Childless(fs, [a])
  {
    forall q | q in fs && Within(q, [a])
      ensures q == [a]
    {
      assert q[..1][0] == q[0];
    }
  }

  /** When nothing lies below the top-level `[a]`, nothing lies at or below `[a, b]`. */
  lemma OutsideSecond(fs: Nodes, a: Name, b: Name)
    requires forall q :: q in fs && q != [] && q[0] == a ==> |q| == 1
    ensures forall q :: q in fs ==> !Within(q, [a, b])
  {
    forall q | q in fs
      ensures !Within(q, [a, b])
    {
      if |q| >= 2 {
        assert q[..2][0] == q[0];
      }
    }
  }

  /** The conditions under which `rename` moves the subtree. */
  lemma RenameMoves(fs: Nodes, src: Path, dst: Path)
    requires src in fs && src != [] && dst != [] && src != dst && !Within(dst, src)
    requires IsDir(fs, Parent(dst)) && dst !in fs
    ensures Rename(fs, src, dst, false) == Some(Move(fs, src, dst))
  {
  }

  /** Adding a fresh entry and removing it again gives back the tree. */
  lemma AddRemove(fs: Nodes, p: Path, n: Node)
    requires p !in fs
    ensures fs[p := n] - {p} == fs
  {
  }

  /** Moving a node with nothing below it to a place where nothing is just relabels it. */
  lemma MoveLeaf(fs: Nodes, src: Path, dst: Path)
    requires src in fs && Childless(fs, src) && src != dst
    requires forall q :: q in fs ==> !Within(q, dst)
    ensures Move(fs, src, dst) == (fs - {src})[dst := fs[src]]
  {
    var m := Move(fs, src, dst);
    var e := (fs - {src})[dst := fs[src]];
    assert dst + src[|src|..] == dst;
    forall q | q in m
      ensures q in e && m[q] == e[q]
    {
      if Within(q, dst) {
        var p := src + q[|dst|..];
        assert p in fs && Within(p, src) by {
          assert p[..|src|] == src;
        }
        assert q == dst by {
          assert |q[|dst|..]| == 0;
          assert q == q[..|dst|] + q[|dst|..];
        }
      } else {
        assert !Within(q, src);
        assert q != src;
      }
    }
  }

  /**
   * `rename(src, dst)`: moves the whole subtree. Fails when nothing is at
   * `src`, when `dst` lies strictly inside `src`, when the parent of `dst`
   * is not a directory, or when something at `dst` cannot be replaced (a
   * directory only by a directory and only when empty; a non-directory
   * only by a non-directory). Renaming a path to itself changes nothing.
   */
  function Rename(fs: Nodes, src: Path, dst: Path, fail: bool): (r: Option<Nodes>)
    ensures r.Some? ==> Exists(fs, src)
    ensures r.Some? && src != dst ==> forall q :: !Within(q, src) && !Within(q, dst) ==> Keeps(fs, r.value, q)
    ensures r.Some? && src != dst ==> forall q :: q in fs && Within(q, src) ==>
              dst + q[|src|..] in r.value && r.value[dst + q[|src|..]] == fs[q]
    ensures r.Some? ==> forall q :: q in r.value ==> !Within(q, src) || Within(q, dst)
    ensures r.Some? && src != dst ==> forall q :: q in r.value && Within(q, dst) ==> src + q[|dst|..] in fs
  {
    if fail || src !in fs || src == [] || dst == [] then None
    else if src == dst then Some(fs)
    else if Within(dst, src) || !IsDir(fs, Parent(dst)) then None
    else if dst in fs && (fs[dst].kind.Dir? != fs[src].kind.Dir? || !Childless(fs, dst)) then None
    else Some(Move(fs, src, dst))
  }

  /** Distinct children of `src` map to distinct children of `dst`. */
  lemma ChildInjective(src: Path, dst: Path)
    ensures forall p1, p2 :: (Within(p1, src) && |p1| == |src| + 1 && Within(p2, src) && |p2| == |src| + 1 &&
              dst + [p1[|src|]] == dst + [p2[|src|]]) ==> p1 == p2
  {
    forall p1, p2 | Within(p1, src) && |p1| == |src| + 1 && Within(p2, src) && |p2| == |src| + 1 &&
        dst + [p1[|src|]] == dst + [p2[|src|]]
      ensures p1 == p2
    {
      assert (dst + [p1[|src|]])[|dst|] == p1[|src|];
      assert (dst + [p2[|src|]])[|dst|] == p2[|src|];
      assert p1 == p1[..|src|] + [p1[|src|]];
      assert p2 == p2[..|src|] + [p2[|src|]];
    }
  }

  /** `p` is a regular file directly inside `src`. */
  predicate FileIn(fs: Nodes, p: Path, src: Path)
  {
    p in fs && Within(p, src) && |p| == |src| + 1 && fs[p].kind.File?
  }

  /** A copy, owned by `uid:gid`, of each regular file directly inside `src`, placed directly inside `dst`. */
  function Copies(fs: Nodes, src: Path, dst: Path, uid: nat, gid: nat): (c: Nodes)
    ensures forall p :: FileIn(fs, p, src) ==> dst + [p[|src|]] in c && c[dst + [p[|src|]]] == fs[p].(uid := uid, gid := gid)
    ensures forall q :: q in c ==> Within(q, dst) && q != dst
  {
    ChildInjective(src, dst);
    var c := map p | p in fs && FileIn(fs, p, src) :: dst + [p[|src|]] := fs[p].(uid := uid, gid := gid);
    assert forall q :: q in c ==> Within(q, dst) && q != dst by {
      forall q | q in c
        ensures Within(q, dst) && q != dst
      {
        var p :| FileIn(fs, p, src) && q == dst + [p[|src|]];
        assert q[..|dst|] == dst;
      }
    }
    c
  }

  /**
   * `copy_dir_files(src, dst, uid, gid)`: a directory at `dst` (created
   * when absent) holding a copy of every regular file directly inside
   * `src`, each owned by `uid:gid`. Fails when `src` is not a directory or
   * no directory can be at `dst`.
   */
  function CopyDirFiles(fs: Nodes, src: Path, dst: Path, uid: nat, gid: nat, fail: bool): (r: Option<Nodes>)
    ensures r.Some? ==> IsDir(r.value, dst)
    ensures r.Some? ==> forall p :: FileIn(fs, p, src) ==>
              dst + [p[|src|]] in r.value && r.value[dst + [p[|src|]]] == fs[p].(uid := uid, gid := gid)
    ensures r.Some? ==> forall q :: !Within(q, dst) ==> Keeps(fs, r.value, q)
    ensures !fail && IsDir(fs, src) && dst != [] && IsDir(fs, Parent(dst)) && !Exists(fs, dst) ==>
              r.Some? && r.value[dst] == Node(Dir, uid, gid, Mode(7, 0, 0))
  {
    if fail || !IsDir(fs, src) || dst == [] || !IsDir(fs, Parent(dst)) || (dst in fs && !fs[dst].kind.Dir?) then None
    else
      var dir := if dst in fs then fs[dst] else Node(Dir, uid, gid, Mode(7, 0, 0));
      Some((fs + Copies(fs, src, dst, uid, gid))[dst := dir])
  }

  /**
   * `delete_dir_contents(p, also_delete_dir, NULL)`: removes everything
   * below `p`, and `p` itself when `alsoDir` is set. A failure is reported
   * with the tree unchanged.
   */
  function DeleteDirContents(fs: Nodes, p: Path, alsoDir: bool, fail: bool): (r: Option<Nodes>)
    ensures r.Some? ==> forall q :: q in r.value ==> !Within(q, p) || (q == p && !alsoDir)
    ensures r.Some? ==> forall q :: !Within(q, p) ==> Keeps(fs, r.value, q)
    ensures r.Some? && !alsoDir ==> Keeps(fs, r.value, p)
  {
    if fail then None
    else Some(map q | q in fs && (!Within(q, p) || (q == p && !alsoDir)) :: fs[q])
  }
}
