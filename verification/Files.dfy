/** File systems as finite maps from paths to nodes. */
module Files {
  import opened Octets
  import opened Options

  type Name = string
  type Path = seq<Name>

  datatype Node = Dir | File(data: Bytes)

  type Fs = map<Path, Node>

  /** A name that can stand in a directory. */
  predicate IsName(n: Name) {
    n != "" && n != "." && n != ".." && '/' !in n
  }

  function Parent(p: Path): Path
    requires p != []
  {
    p[..|p| - 1]
  }

  predicate IsDir(fs: Fs, p: Path) {
    p in fs && fs[p].Dir?
  }

  /** Everything but the root stands in a directory, under a proper name. */
  ghost predicate Tree(fs: Fs) {
    && IsDir(fs, [])
    && forall p {:trigger Parent(p)} :: p in fs && p != [] ==> IsDir(fs, Parent(p)) && IsName(p[|p| - 1])
  }

  function At(fs: Fs, p: Path): Option<Node> {
    if p in fs then Some(fs[p]) else None
  }

  /** Everything strictly below a path. */
  function Under(fs: Fs, p: Path): set<Path> {
    set q | q in fs && p < q
  }

  lemma UnderShrinks(fs: Fs, p: Path, n: Name)
    requires p + [n] in fs
    ensures Under(fs, p + [n]) < Under(fs, p)
  {
    assert p < p + [n];
    assert p + [n] in Under(fs, p);
    assert p + [n] !in Under(fs, p + [n]);
    forall q | q in Under(fs, p + [n]) ensures q in Under(fs, p) {
      assert (p + [n])[..|p|] == p;
      assert q[..|p|] == q[..|p| + 1][..|p|];
    }
  }

  /** Every prefix of a path that exists is a directory. */
  lemma {:induction false} PrefixIsDir(fs: Fs, p: Path, q: Path)
    requires Tree(fs) && p in fs && q < p
    ensures IsDir(fs, q)
    decreases |p|
  {
    if q != Parent(p) {
      assert q == Parent(p)[..|q|];
      PrefixIsDir(fs, Parent(p), q);
    }
  }

  lemma {:induction false} NamesAreProper(fs: Fs, p: Path)
    requires Tree(fs) && p in fs
    ensures forall k :: 0 <= k < |p| ==> IsName(p[k])
    decreases |p|
  {
    if p != [] {
      NamesAreProper(fs, Parent(p));
      forall k | 0 <= k < |p| ensures IsName(p[k]) {
        if k < |p| - 1 { assert p[k] == Parent(p)[k]; }
      }
    }
  }

  lemma EntryIsName(fs: Fs, p: Path, n: Name)
    requires Tree(fs) && p + [n] in fs
    ensures IsName(n)
  {
    assert Parent(p + [n]) == p;
    assert (p + [n])[|p + [n]| - 1] == n;
  }

  // ----- Making directories -----

  /** Starting in a directory, each missing directory of the chain is made; it fails where
      the chain meets a file. */
  function MkdirFrom(fs: Fs, at: Path, names: seq<Name>): (Fs, bool)
    decreases |names|
  {
    if names == [] then (fs, true)
    else
      var p := at + [names[0]];
      if p in fs then MkdirFrom(fs, p, names[1..])
      else if IsDir(fs, at) then MkdirFrom(fs[p := Dir], p, names[1..])
      else (fs, false)
  }

  /** No file stands on the way to a path. */
  ghost predicate OpenWay(fs: Fs, p: Path) {
    forall q :: q < p && q in fs ==> fs[q].Dir?
  }

  ghost predicate ProperNames(names: seq<Name>) {
    forall k :: 0 <= k < |names| ==> IsName(names[k])
  }

  /** What making a chain of directories leaves behind. */
  ghost predicate Made(fs: Fs, fs': Fs, p: Path) {
    forall q :: At(fs', q) == if q <= p && q !in fs then Some(Dir) else At(fs, q)
  }

  lemma {:induction false} MkdirKeepsTree(fs: Fs, at: Path, names: seq<Name>)
    requires Tree(fs) && at in fs && ProperNames(names)
    ensures Tree(MkdirFrom(fs, at, names).0)
    decreases |names|
  {
    if names != [] {
      var p := at + [names[0]];
      assert Parent(p) == at;
      if p in fs {
        MkdirKeepsTree(fs, p, names[1..]);
      } else if IsDir(fs, at) {
        AddKeepsTree(fs, p, Dir);
        MkdirKeepsTree(fs[p := Dir], p, names[1..]);
      }
    }
  }

  lemma AddKeepsTree(fs: Fs, p: Path, node: Node)
    requires Tree(fs) && p != [] && IsDir(fs, Parent(p)) && IsName(p[|p| - 1])
    requires p in fs && fs[p].Dir? ==> node.Dir?
    ensures Tree(fs[p := node])
  {
    var fs' := fs[p := node];
    forall q | q in fs' && q != [] ensures IsDir(fs', Parent(q)) && IsName(q[|q| - 1]) {
      if q != p { assert q in fs; }
      assert IsDir(fs, Parent(q));
    }
  }

  lemma StandingWay(fs: Fs, p: Path)
    requires Tree(fs) && p in fs
    ensures OpenWay(fs, p) && Made(fs, fs, p)
  {
    hide Tree;
    forall q | q <= p ensures q in fs && (q < p ==> fs[q].Dir?) {
      if |q| == |p| {
        assert q == p[..|q|] == p;
      } else {
        PrefixIsDir(fs, p, q);
      }
    }
  }

  /** The chain can be made exactly when no file is in its way, and then nothing else
      changes. */
  lemma {:induction false} MkdirMakes(fs: Fs, at: Path, names: seq<Name>)
    requires Tree(fs) && at in fs && ProperNames(names)
    ensures var (fs', ok) := MkdirFrom(fs, at, names);
            && (ok <==> OpenWay(fs, at + names))
            && (ok ==> Made(fs, fs', at + names))
    decreases |names|
  {
    hide Tree, OpenWay, Made, ProperNames;
    if names == [] {
      assert at + names == at;
      StandingWay(fs, at);
    } else {
      var p, rest := at + [names[0]], names[1..];
      assert p + rest == at + names;
      assert Parent(p) == at;
      ProperTail(names);
      if p in fs {
        MkdirMakes(fs, p, rest);
      } else if IsDir(fs, at) {
        AddKeepsTree(fs, p, Dir);
        MkdirMakes(fs[p := Dir], p, rest);
        MadeAfterOne(fs, p, p + rest, MkdirFrom(fs[p := Dir], p, rest).0);
      } else {
        BlockedWay(fs, at, names);
      }
    }
  }

  lemma ProperTail(names: seq<Name>)
    requires ProperNames(names) && names != []
    ensures IsName(names[0]) && ProperNames(names[1..])
  {
  }

  lemma BlockedWay(fs: Fs, at: Path, names: seq<Name>)
    requires at in fs && !IsDir(fs, at) && names != []
    ensures !OpenWay(fs, at + names)
  {
    assert at < at + names;
  }

  lemma MadeAfterOne(fs: Fs, p: Path, q: Path, fs': Fs)
    requires p !in fs && p <= q
    ensures OpenWay(fs[p := Dir], q) <==> OpenWay(fs, q)
    ensures Made(fs[p := Dir], fs', q) ==> Made(fs, fs', q)
  {
    forall r | OpenWay(fs[p := Dir], q) && r < q && r in fs ensures fs[r].Dir? {
      assert fs[p := Dir][r].Dir?;
    }
    if Made(fs[p := Dir], fs', q) {
      forall r ensures At(fs', r) == if r <= q && r !in fs then Some(Dir) else At(fs, r) {
        assert At(fs', r) == if r <= q && r !in fs[p := Dir] then Some(Dir) else At(fs[p := Dir], r);
      }
    }
  }

  /** Directories of the chain to `p` were added, if anything. */
  ghost predicate Grown(fs: Fs, fs': Fs, p: Path) {
    forall q :: At(fs', q) == At(fs, q) || (q <= p && q !in fs && At(fs', q) == Some(Dir))
  }

  /** Even where it fails, making a chain of directories only adds directories of the chain. */
  lemma {:induction false} MkdirGrows(fs: Fs, at: Path, names: seq<Name>)
    ensures Grown(fs, MkdirFrom(fs, at, names).0, at + names)
    decreases |names|
  {
    if names != [] {
      var p, rest := at + [names[0]], names[1..];
      assert p + rest == at + names;
      MkdirGrows(fs, p, rest);
      MkdirGrows(fs[p := Dir], p, rest);
    }
  }

  lemma TreeHasRoot(fs: Fs)
    requires Tree(fs)
    ensures IsDir(fs, [])
  {
  }

  lemma MadeElsewhere(fs: Fs, fs1: Fs, dst: Path, q: Path)
    requires Made(fs, fs1, dst) && dst < q
    ensures At(fs1, q) == At(fs, q)
  {
    assert !(q <= dst);
  }

  lemma MadeThere(fs: Fs, fs1: Fs, dst: Path)
    requires Made(fs, fs1, dst)
    ensures At(fs1, dst) == if dst in fs then At(fs, dst) else Some(Dir)
  {
    assert dst <= dst;
  }

  // ----- Prefixes -----

  lemma BelowParentIff(p: Path, q: Path)
    requires p != []
    ensures q < p <==> q <= Parent(p)
    ensures q <= Parent(p) <==> q == Parent(p) || q < Parent(p)
  {
    if q < p { assert q == Parent(p)[..|q|]; }
    if q <= Parent(p) { assert q == p[..|q|]; }
  }

  lemma OpenWayParent(fs: Fs, p: Path)
    requires p != []
    ensures OpenWay(fs, p) <==> OpenWay(fs, Parent(p)) && (Parent(p) in fs ==> fs[Parent(p)].Dir?)
  {
    BelowParentIff(p, Parent(p));
    forall q | q in fs ensures q < p <==> q == Parent(p) || q < Parent(p) {
      BelowParentIff(p, q);
    }
  }

  lemma {:induction false} NothingUnderFile(fs: Fs, p: Path, r: Path)
    requires Tree(fs) && p in fs && fs[p].File? && p + r in fs
    ensures r == []
  {
    if r != [] {
      assert p < p + r;
      PrefixIsDir(fs, p + r, p);
    }
  }

  lemma PrefixCases(p: Path, q: Path)
    ensures p <= q <==> p < q || q == p
  {
    if p <= q && |p| == |q| {
      assert q == q[..|p|];
    }
  }

  lemma {:induction false} ChildIsThere(fs: Fs, p: Path, r: Path)
    requires Tree(fs) && p + r in fs && r != []
    ensures p + [r[0]] in fs
  {
    if |r| > 1 {
      assert (p + r)[..|p| + 1] == p + [r[0]];
      PrefixIsDir(fs, p + r, p + [r[0]]);
    } else {
      assert r == [r[0]];
    }
  }

  /** The path `q` lies at or below `dst + [n]`. */
  lemma Branch(src: Path, dst: Path, n: Name, q: Path)
    ensures dst + [n] <= q <==> dst < q && q[|dst|] == n
    ensures dst + [n] <= q ==> src + [n] + q[|dst| + 1..] == src + q[|dst|..]
    ensures q < dst + [n] <==> q <= dst
    ensures dst < q ==> q[..|dst|] == dst
  {
    if dst + [n] <= q {
      assert q[..|dst| + 1] == dst + [n];
      assert q[..|dst|] == q[..|dst| + 1][..|dst|] == dst;
      assert q[|dst|] == q[..|dst| + 1][|dst|];
      assert q[|dst|..] == [n] + q[|dst| + 1..];
    }
    if dst < q && q[|dst|] == n {
      assert q[..|dst| + 1] == q[..|dst|] + [q[|dst|]] == dst + [n];
    }
    BelowParentIff(dst + [n], q);
    assert Parent(dst + [n]) == dst;
  }

  lemma GrownMore(fs: Fs, fs': Fs, p: Path)
    requires p != [] && Grown(fs, fs', Parent(p))
    ensures Grown(fs, fs', p)
  {
    forall q | q <= Parent(p) && q !in fs ensures q <= p {
      BelowParentIff(p, q);
    }
  }

  lemma NothingGrown(fs: Fs, p: Path)
    ensures Grown(fs, fs, p)
  {
  }
}
