/** Moving a legacy home into a new one (`_merge_tree` of lib/provider_profiles/materializer.py): what the
    target lacks is moved over, what it has stays, and directories present in both are merged. */
module MergeTree {
  import opened Wrappers

  datatype Node = File(content: string) | Link(target: string) | Dir(entries: map<string, Node>)

  type Path = seq<string>

  /** What is at a path below a node; symbolic links are not followed. */
  function At(n: Option<Node>, p: Path): Option<Node>
    decreases |p|
  {
    if p == [] || n.None? then n
    else if n.value.Dir? && p[0] in n.value.entries then At(Some(n.value.entries[p[0]]), p[1..])
    else None
  }

  function Get(m: map<string, Node>, name: string): Option<Node> { if name in m then Some(m[name]) else None }

  /** What is left of a merged source, and the target afterwards. */
  datatype Merged = Merged(left: Option<Node>, target: Node)

  /** The same for one child of the source; no target means that the target's child is untouched. */
  datatype MergedChild = MergedChild(left: Option<Node>, target: Option<Node>)

  function MergeDir(src: Node, dst: Node): (m: Merged)
    requires src.Dir? && dst.Dir?
    ensures m.target.Dir? && (m.left.Some? ==> m.left.value.Dir?)
    decreases src, 2
  {
    var left := LeftEntries(src, dst);
    Merged(if left == map[] then None else Some(Dir(left)), Dir(dst.entries + MovedEntries(src, dst)))
  }

  function LeftEntries(src: Node, dst: Node): map<string, Node>
    requires src.Dir? && dst.Dir?
    decreases src, 1
  {
    map n | n in src.entries && MergeChild(src, dst, n).left.Some? :: MergeChild(src, dst, n).left.value
  }

  function MovedEntries(src: Node, dst: Node): map<string, Node>
    requires src.Dir? && dst.Dir?
    decreases src, 1
  {
    map n | n in src.entries && MergeChild(src, dst, n).target.Some? :: MergeChild(src, dst, n).target.value
  }

  function MergeChild(src: Node, dst: Node, name: string): MergedChild
    requires src.Dir? && dst.Dir? && name in src.entries
    decreases src, 0
  {
    var c := src.entries[name];
    if c.Link? then MergedChild(Some(c), None)
    else if name !in dst.entries then MergedChild(None, Some(c))
    else if c.Dir? && dst.entries[name].Dir? then
      var m := MergeDir(c, dst.entries[name]);
      MergedChild(m.left, Some(m.target))
    else MergedChild(Some(c), None)
  }

  /** `None` in `target` is a directory that does not exist yet; a target path that is a symbolic link stands
      for what it leads to, and is a `Link` when that is nothing.  `Raised` is the error of creating a
      directory where something else is. */
  datatype Result = Done(left: Option<Node>, target: Option<Node>) | Raised

  method Merge(source: Node, target: Option<Node>) returns (r: Result)
    ensures !source.Dir? ==> r == Done(Some(source), target)
    ensures source.Dir? && target.Some? && !target.value.Dir? ==> r == Raised
    ensures source.Dir? && (target.Some? ==> target.value.Dir?) ==>
              var m := MergeDir(source, if target.Some? then target.value else Dir(map[]));
              r == Done(m.left, Some(m.target))
    decreases source, 1
  {
    if !source.Dir? { return Done(Some(source), target); }
    if target.Some? && !target.value.Dir? { return Raised; }
    var dst := if target.Some? then target.value else Dir(map[]);
    var left, merged := source.entries, dst.entries;
    var todo := source.entries.Keys;
    while todo != {}
      invariant todo <= source.entries.Keys
      invariant Progress(source, dst, source.entries.Keys - todo, left, merged)
      decreases todo
    {
      var name :| name in todo;
      var c := MoveChild(source, dst, name);
      ProgressStep(source, dst, source.entries.Keys - todo, left, merged, name);
      todo := todo - {name};
      merged := if c.target.Some? then merged[name := c.target.value] else merged;
      left := if c.left.Some? then left[name := c.left.value] else left - {name};
      assert source.entries.Keys - todo == source.entries.Keys - (todo + {name}) + {name};
    }
    assert source.entries.Keys - todo == source.entries.Keys;
    ProgressEnd(source, dst, left, merged);
    r := Done(if left == map[] then None else Some(Dir(left)), Some(Dir(merged)));
  }

  /** The two directories after the children `done` have been handled. */
  ghost predicate Progress(src: Node, dst: Node, done: set<string>, left: map<string, Node>, merged: map<string, Node>)
    requires src.Dir? && dst.Dir? && done <= src.entries.Keys
  {
    && (forall n :: Get(left, n) == if n in done then MergeChild(src, dst, n).left else Get(src.entries, n))
    && (forall n :: Get(merged, n) == if n in done && MergeChild(src, dst, n).target.Some?
                                      then MergeChild(src, dst, n).target else Get(dst.entries, n))
  }

  lemma ProgressStep(src: Node, dst: Node, done: set<string>, left: map<string, Node>, merged: map<string, Node>, name: string)
    requires src.Dir? && dst.Dir? && done <= src.entries.Keys && name in src.entries && name !in done
    requires Progress(src, dst, done, left, merged)
    ensures var c := MergeChild(src, dst, name);
            Progress(src, dst, done + {name},
                     if c.left.Some? then left[name := c.left.value] else left - {name},
                     if c.target.Some? then merged[name := c.target.value] else merged)
  {
    assert Get(merged, name) == Get(dst.entries, name);
  }

  lemma ProgressEnd(src: Node, dst: Node, left: map<string, Node>, merged: map<string, Node>)
    requires src.Dir? && dst.Dir? && Progress(src, dst, src.entries.Keys, left, merged)
    ensures left == LeftEntries(src, dst) && merged == dst.entries + MovedEntries(src, dst)
  {
    forall n ensures Get(left, n) == Get(LeftEntries(src, dst), n) {
    }
    forall n ensures Get(merged, n) == Get(dst.entries + MovedEntries(src, dst), n) {
    }
    EqualMaps(left, LeftEntries(src, dst));
    EqualMaps(merged, dst.entries + MovedEntries(src, dst));
  }

  /** One turn of the loop: the child is skipped, moved, or merged into the target's directory. */
  method MoveChild(source: Node, dst: Node, name: string) returns (c: MergedChild)
    requires source.Dir? && dst.Dir? && name in source.entries
    ensures c == MergeChild(source, dst, name)
    decreases source, 0
  {
    var child := source.entries[name];
    if child.Link? { return MergedChild(Some(child), None); }
    if name !in dst.entries { return MergedChild(None, Some(child)); }
    if child.Dir? && dst.entries[name].Dir? {
      var below := Merge(child, Some(dst.entries[name]));
      return MergedChild(below.left, below.target);
    }
    return MergedChild(Some(child), None);
  }

  lemma EqualMaps(a: map<string, Node>, b: map<string, Node>)
    requires forall n :: Get(a, n) == Get(b, n)
    ensures a == b
  {
    assert forall n :: n in a <==> Get(a, n).Some?;
    assert forall n :: n in b <==> Get(b, n).Some?;
    assert forall n :: n in a ==> Get(a, n) == Some(a[n]);
    assert forall n :: n in b ==> Get(b, n) == Some(b[n]);
  }

  // ----- what happens at each path ------------------------------------------------------------

  predicate IsDir(n: Option<Node>) { n.Some? && n.value.Dir? }

  predicate IsLink(n: Option<Node>) { n.Some? && n.value.Link? }

  /** The move of `p[..i]` takes the path `p` along: the target has nothing there, has directories above,
      and the source has something that is not a symbolic link. */
  ghost predicate MovedAt(src: Node, dst: Node, p: Path, i: nat) {
    && 0 < i <= |p|
    && At(Some(src), p[..i]).Some? && !IsLink(At(Some(src), p[..i]))
    && At(Some(dst), p[..i]).None?
    && (forall j :: 0 <= j < i ==> IsDir(At(Some(dst), p[..j])))
    && (forall j :: 0 <= j < i ==> IsDir(At(Some(src), p[..j])))
  }

  ghost predicate Moves(src: Node, dst: Node, p: Path) {
    exists i: nat :: MovedAt(src, dst, p, i)
  }

  /** The same, following the recursion of the merge. */
  predicate MovesBelow(src: Node, dst: Node, p: Path)
    requires src.Dir? && dst.Dir?
    decreases |p|
  {
    p != [] && p[0] in src.entries &&
    var c := src.entries[p[0]];
    !c.Link? && (p[0] !in dst.entries || (c.Dir? && dst.entries[p[0]].Dir? && MovesBelow(c, dst.entries[p[0]], p[1..])))
  }

  lemma AtStep(n: Node, p: Path, i: nat)
    requires n.Dir? && 0 < i <= |p|
    ensures At(Some(n), p[..i]) == if p[0] in n.entries then At(Some(n.entries[p[0]]), p[1..][..i - 1]) else None
  {
    assert p[..i][1..] == p[1..][..i - 1] && p[..i][0] == p[0];
  }

  lemma MovedAtBelow(src: Node, dst: Node, p: Path, i: nat)
    requires src.Dir? && dst.Dir? && p != [] && i > 0
    requires p[0] in src.entries && p[0] in dst.entries && src.entries[p[0]].Dir? && dst.entries[p[0]].Dir?
    ensures MovedAt(src.entries[p[0]], dst.entries[p[0]], p[1..], i) <==> MovedAt(src, dst, p, i + 1)
  {
    var c, d := src.entries[p[0]], dst.entries[p[0]];
    forall j: nat | j < |p|
      ensures At(Some(c), p[1..][..j]) == At(Some(src), p[..j + 1])
      ensures At(Some(d), p[1..][..j]) == At(Some(dst), p[..j + 1])
    {
      AtStep(src, p, j + 1);
      AtStep(dst, p, j + 1);
    }
    assert p[..0] == [] && p[1..][..0] == [];
    if MovedAt(c, d, p[1..], i) {
      forall j | 0 <= j < i + 1 ensures IsDir(At(Some(dst), p[..j])) && IsDir(At(Some(src), p[..j])) {
        if j > 0 {
          assert IsDir(At(Some(d), p[1..][..j - 1])) && IsDir(At(Some(c), p[1..][..j - 1]));
        }
      }
    }
    if MovedAt(src, dst, p, i + 1) {
      forall j | 0 <= j < i ensures IsDir(At(Some(d), p[1..][..j])) && IsDir(At(Some(c), p[1..][..j])) {
        assert IsDir(At(Some(dst), p[..j + 1])) && IsDir(At(Some(src), p[..j + 1]));
      }
    }
  }

  lemma {:induction false} MovesIsMovesBelow(src: Node, dst: Node, p: Path)
    requires src.Dir? && dst.Dir?
    ensures Moves(src, dst, p) <==> MovesBelow(src, dst, p)
    decreases |p|
  {
    if p != [] {
      AtStep(src, p, 1);
      AtStep(dst, p, 1);
      assert p[1..][..0] == [] && p[..0] == [];
      if p[0] in src.entries && p[0] in dst.entries && src.entries[p[0]].Dir? && dst.entries[p[0]].Dir? {
        var c, d := src.entries[p[0]], dst.entries[p[0]];
        MovesIsMovesBelow(c, d, p[1..]);
        if i: nat :| MovedAt(c, d, p[1..], i) {
          MovedAtBelow(src, dst, p, i);
        }
        if i: nat :| MovedAt(src, dst, p, i) {
          assert i > 1;
          MovedAtBelow(src, dst, p, i - 1);
        }
      } else if p[0] in src.entries && p[0] !in dst.entries && !src.entries[p[0]].Link? {
        assert MovedAt(src, dst, p, 1);
      } else {
        forall i: nat ensures !MovedAt(src, dst, p, i) {
          assert !(IsDir(At(Some(dst), p[..1])) && IsDir(At(Some(src), p[..1])));
        }
      }
    }
  }

  lemma LeftGet(src: Node, dst: Node, name: string)
    requires src.Dir? && dst.Dir?
    ensures var m := MergeDir(src, dst);
            (if m.left.Some? then Get(m.left.value.entries, name) else None)
            == if name in src.entries then MergeChild(src, dst, name).left else None
  {
    assert name in LeftEntries(src, dst) <==> name in src.entries && MergeChild(src, dst, name).left.Some?;
  }

  lemma AtGet(n: Option<Node>, p: Path)
    requires p != [] && (n.Some? ==> n.value.Dir?)
    ensures At(n, p) == At(if n.Some? then Get(n.value.entries, p[0]) else None, p[1..])
  {
  }

  /** One path during the merge: before and after, on both sides. */
  ghost predicate Kept(src: Option<Node>, dst: Option<Node>, left: Option<Node>, target: Option<Node>) {
    && (if IsDir(dst) then IsDir(target) else target == dst)
    && (if IsDir(src) then left.None? || IsDir(left) else left == src)
  }

  lemma TargetGet(src: Node, dst: Node, name: string)
    requires src.Dir? && dst.Dir?
    ensures Get(MergeDir(src, dst).target.entries, name)
         == if name in src.entries && MergeChild(src, dst, name).target.Some? then MergeChild(src, dst, name).target
            else Get(dst.entries, name)
  {
    assert name in MovedEntries(src, dst) <==> name in src.entries && MergeChild(src, dst, name).target.Some?;
  }

  /** The target side and the source side of a path, one directory level further down. */
  lemma TargetBelow(src: Node, dst: Node, p: Path)
    requires src.Dir? && dst.Dir? && p != []
    ensures At(Some(MergeDir(src, dst).target), p)
         == At(if p[0] in src.entries && MergeChild(src, dst, p[0]).target.Some? then MergeChild(src, dst, p[0]).target
               else Get(dst.entries, p[0]), p[1..])
  {
    var target := MergeDir(src, dst).target;
    assert At(Some(target), p) == At(Get(target.entries, p[0]), p[1..]) by { AtGet(Some(target), p); }
    TargetGet(src, dst, p[0]);
  }

  lemma LeftBelow(src: Node, dst: Node, p: Path)
    requires src.Dir? && dst.Dir? && p != []
    ensures At(MergeDir(src, dst).left, p)
         == At(if p[0] in src.entries then MergeChild(src, dst, p[0]).left else None, p[1..])
  {
    LeftGet(src, dst, p[0]);
    AtGet(MergeDir(src, dst).left, p);
  }

  /** At every path, the merge either moves what the source has there or leaves both sides as they are;
      only directories may appear or disappear in the latter case. */
  lemma {:induction false} MergeAt(src: Node, dst: Node, p: Path)
    requires src.Dir? && dst.Dir? && p != []
    ensures var m := MergeDir(src, dst);
            if MovesBelow(src, dst, p)
            then At(Some(m.target), p) == At(Some(src), p) && At(m.left, p).None?
            else Kept(At(Some(src), p), At(Some(dst), p), At(m.left, p), At(Some(m.target), p))
    decreases |p|
  {
    TargetBelow(src, dst, p);
    LeftBelow(src, dst, p);
    AtGet(Some(src), p);
    AtGet(Some(dst), p);
    var name, q := p[0], p[1..];
    if name in src.entries && name in dst.entries && src.entries[name].Dir? && dst.entries[name].Dir? {
      var c, d := src.entries[name], dst.entries[name];
      assert MergeChild(src, dst, name) == MergedChild(MergeDir(c, d).left, Some(MergeDir(c, d).target));
      assert MovesBelow(src, dst, p) == MovesBelow(c, d, q);
      if q != [] {
        MergeAt(c, d, q);
      }
    } else if name in src.entries && !src.entries[name].Dir? {
      NothingBelow(src.entries[name], q);
    }
  }

  lemma NothingBelow(n: Node, q: Path)
    requires !n.Dir?
    ensures At(Some(n), q) == if q == [] then Some(n) else None
  {
  }

  lemma {:induction false} PrefixesAreDirs(n: Node, p: Path, i: nat)
    requires n.Dir? && At(Some(n), p).Some? && i < |p|
    ensures IsDir(At(Some(n), p[..i]))
    decreases |p|
  {
    if i > 0 {
      AtStep(n, p, i);
      var c := n.entries[p[0]];
      assert At(Some(n), p) == At(Some(c), p[1..]);
      if c.Dir? {
        PrefixesAreDirs(c, p[1..], i - 1);
      }
    }
  }

  /** No symbolic link anywhere below: what the guard before the migration checks. */
  ghost predicate SymlinkFree(n: Node) {
    forall p :: !IsLink(At(Some(n), p))
  }

  /** The target holds nothing at `p` and no file or link above it. */
  ghost predicate Vacant(dst: Node, p: Path) {
    && At(Some(dst), p).None?
    && forall j :: 0 < j < |p| ==> At(Some(dst), p[..j]).None? || IsDir(At(Some(dst), p[..j]))
  }

  /** For a source without symbolic links: something at `p` is moved exactly when the target is vacant. */
  lemma MovesIffVacant(src: Node, dst: Node, p: Path)
    requires src.Dir? && dst.Dir? && SymlinkFree(src) && p != [] && At(Some(src), p).Some?
    ensures Moves(src, dst, p) <==> Vacant(dst, p)
  {
    assert p[..|p|] == p && p[..0] == [];
    forall i: nat | i < |p| ensures IsDir(At(Some(src), p[..i])) {
      PrefixesAreDirs(src, p, i);
    }
    if i: nat :| MovedAt(src, dst, p, i) {
      forall j: nat | i <= j <= |p| ensures At(Some(dst), p[..j]).None? {
        AbsentBelow(dst, p, i, j);
      }
    }
    if Vacant(dst, p) {
      var i := 1;
      while At(Some(dst), p[..i]).Some?
        invariant 0 < i <= |p|
        decreases |p| - i
        invariant forall j :: 0 <= j < i ==> IsDir(At(Some(dst), p[..j]))
      {
        i := i + 1;
      }
      assert MovedAt(src, dst, p, i);
    }
  }

  lemma AbsentBelow(n: Node, p: Path, i: nat, j: nat)
    requires n.Dir? && i <= j <= |p| && At(Some(n), p[..i]).None?
    ensures At(Some(n), p[..j]).None?
  {
    assert p[..j][..i] == p[..i];
    if At(Some(n), p[..j]).Some? && i < j {
      PrefixesAreDirs(n, p[..j], i);
    }
  }

  /** A file or link of the target is never changed. */
  lemma TargetIsKept(src: Node, dst: Node, p: Path)
    requires src.Dir? && dst.Dir? && p != [] && At(Some(dst), p).Some?
    ensures var m := MergeDir(src, dst);
            if IsDir(At(Some(dst), p)) then IsDir(At(Some(m.target), p)) else At(Some(m.target), p) == At(Some(dst), p)
  {
    MovesIsMovesBelow(src, dst, p);
    assert p[..|p|] == p;
    forall i: nat | i < |p| ensures At(Some(dst), p[..i]).Some? {
      PrefixesAreDirs(dst, p, i);
    }
    MergeAt(src, dst, p);
  }

  /** No file is lost or duplicated: a file of the source ends up at the same path, in the target if the
      target is vacant there and in the source otherwise, and never in both. */
  lemma FilesAreConserved(src: Node, dst: Node, p: Path)
    requires src.Dir? && dst.Dir? && SymlinkFree(src) && p != []
    requires At(Some(src), p).Some? && At(Some(src), p).value.File?
    ensures var m := MergeDir(src, dst);
            if Vacant(dst, p)
            then At(Some(m.target), p) == At(Some(src), p) && At(m.left, p).None?
            else At(m.left, p) == At(Some(src), p)
                 && (IsDir(At(Some(dst), p)) || At(Some(m.target), p) == At(Some(dst), p))
  {
    MovesIffVacant(src, dst, p);
    MovesIsMovesBelow(src, dst, p);
    MergeAt(src, dst, p);
  }

  /** Nothing is invented: a file found after the merge was at the same path before it. */
  lemma NoNewFiles(src: Node, dst: Node, p: Path)
    requires src.Dir? && dst.Dir? && p != []
    ensures var m := MergeDir(src, dst);
            && (At(Some(m.target), p).Some? && !IsDir(At(Some(m.target), p)) ==>
                  At(Some(m.target), p) == At(Some(dst), p) || At(Some(m.target), p) == At(Some(src), p))
            && (At(m.left, p).Some? && !IsDir(At(m.left, p)) ==> At(m.left, p) == At(Some(src), p))
  {
    MergeAt(src, dst, p);
  }
}
