/** Copying local files and directories to the remote host over SFTP: `copy_file`,
    `_copy_dir` and `mkdir` of the native client. */
module Upload {
  import opened Files
  import opened Octets
  import opened Options
  import opened Paths
  import Writes

  datatype Outcome = Ok | ValueError | SftpError | SftpIoError | LocalError

  /** What `os.listdir` returns: each entry once, in any order. */
  type Listing = Path -> seq<Name>

  ghost predicate Lists(fs: Fs, ls: Listing) {
    forall p :: IsDir(fs, p) ==> ListsAt(fs, ls, p)
  }

  ghost predicate ListsAt(fs: Fs, ls: Listing, p: Path) {
    && (forall n :: n in ls(p) <==> p + [n] in fs)
    && (forall j, k :: 0 <= j < k < |ls(p)| ==> ls(p)[j] != ls(p)[k])
  }

  // ----- The server -----

  /** Making one directory, whose parent has to be there. */
  predicate CanMkdir(fs: Fs, p: Path) {
    p != [] && p !in fs && IsDir(fs, Parent(p))
  }

  // ----- What the calls do -----

  /** The loop of `mkdir` over the names still to be created. */
  function MkdirLoop(fs: Fs, home: Path, cwd: string, names: seq<string>): (r: (Fs, Outcome))
    ensures r.1 == Ok || r.1 == SftpIoError
    decreases |names|
  {
    if names == [] then (fs, Ok)
    else
      var path := SlashJoin(cwd, names[0]);
      if Stat(fs, home, path) then MkdirLoop(fs, home, path, names[1..])
      else if CanMkdir(fs, Resolve(home, path)) then
        MkdirLoop(fs[Resolve(home, path) := Dir], home, path, names[1..])
      else (fs, SftpIoError)
  }

  function Mkdir(fs: Fs, home: Path, directory: string): (Fs, Outcome) {
    MkdirLoop(fs, home, if IsAbsolute(directory) then "" else ".", NonEmpty(Pieces(directory)))
  }

  function CopyFile(local: Fs, ls: Listing, src: Path, fs: Fs, home: Path, remote: string, recurse: bool): (Fs, Outcome)
    requires Lists(local, ls)
    decreases Under(local, src), 1, 0
  {
    if IsDir(local, src) then
      if !recurse then (fs, ValueError)
      else
        var (fs1, outcome) := Mkdir(fs, home, remote);
        if outcome != Ok then (fs1, outcome)
        else
          assert ListsAt(local, ls, src);
          CopyNames(local, ls, src, ls(src), fs1, home, remote)
    else PutFile(local, src, fs, home, remote)
  }

  function PutFile(local: Fs, src: Path, fs: Fs, home: Path, remote: string): (Fs, Outcome) {
    var (fs1, outcome) := MakeDestination(fs, home, remote);
    if outcome != Ok then (fs1, outcome)
    else if !CanOpen(fs1, home, remote) then (fs1, SftpError)
    else
      // The remote file is opened, and so emptied or created, before the local one.
      var p := Resolve(home, remote);
      if src in local && local[src].File? then (fs1[p := local[src]], Ok) else (fs1[p := File([])], LocalError)
  }

  function MakeDestination(fs: Fs, home: Path, remote: string): (Fs, Outcome) {
    match RemotePathsSplit(remote)
    case Some(d) => if Stat(fs, home, d) then (fs, Ok) else Mkdir(fs, home, d)
    case None => (fs, Ok)
  }

  function CopyNames(local: Fs, ls: Listing, src: Path, names: seq<Name>, fs: Fs, home: Path, remote: string)
    : (Fs, Outcome)
    requires Lists(local, ls) && forall n :: n in names ==> src + [n] in local
    decreases Under(local, src), 0, |names|
  {
    if names == [] then (fs, Ok)
    else
      UnderShrinks(local, src, names[0]);
      var (fs1, outcome) := CopyFile(local, ls, src + [names[0]], fs, home, SlashJoin(remote, names[0]), true);
      if outcome != Ok then (fs1, outcome)
      else CopyNames(local, ls, src, names[1..], fs1, home, remote)
  }

  // ----- The client -----

  /** The remote end of an SFTP session, which starts in `home`.  `answers` is how it answers
      the writes to each file: how much it takes at a time, and when it reports EAGAIN. */
  class Sftp {
    const home: Path
    const answers: Path -> seq<Writes.Answer>
    var fs: Fs

    constructor (home: Path, answers: Path -> seq<Writes.Answer>, fs: Fs)
      ensures this.home == home && this.answers == answers && this.fs == fs
    {
      this.home, this.answers, this.fs := home, answers, fs;
    }

    method MkdirOne(path: string) returns (outcome: Outcome)
      modifies this
      ensures var p := Resolve(home, path);
              if CanMkdir(old(fs), p) then fs == old(fs)[p := Dir] && outcome == Ok
              else fs == old(fs) && outcome == SftpIoError
    {
      var p := Resolve(home, path);
      if CanMkdir(fs, p) {
        fs := fs[p := Dir];
        return Ok;
      }
      return SftpIoError;
    }

    method MakeDirs(directory: string) returns (outcome: Outcome)
      modifies this
      ensures (fs, outcome) == Mkdir(old(fs), home, directory)
    {
      var pathsToCreate := NonEmpty(Pieces(directory));
      var cwd := if IsAbsolute(directory) then "" else ".";
      while pathsToCreate != []
        invariant MkdirLoop(fs, home, cwd, pathsToCreate) == Mkdir(old(fs), home, directory)
        decreases |pathsToCreate|
      {
        var curDir := pathsToCreate[0];
        pathsToCreate := pathsToCreate[1..];
        cwd := SlashJoin(cwd, curDir);
        if !Stat(fs, home, cwd) {
          outcome := MkdirOne(cwd);
          if outcome != Ok {
            return;
          }
        }
      }
      return Ok;
    }
  }

  /** Block by block, through partial writes and EAGAINs, into a file just truncated. */
  method SendBlocks(answers: seq<Writes.Answer>, data: Bytes) returns (received: Bytes)
    ensures received == data
  {
    var remoteFile := new Writes.Sink(answers);
    var localFile := new Writes.LocalFile(data);
    Writes.Put(remoteFile, localFile);
    assert [] + data == data;
    return remoteFile.received;
  }

  method Copy(local: Fs, ls: Listing, src: Path, sftp: Sftp, remote: string, recurse: bool) returns (outcome: Outcome)
    requires Lists(local, ls)
    modifies sftp
    ensures (sftp.fs, outcome) == CopyFile(local, ls, src, old(sftp.fs), sftp.home, remote, recurse)
    decreases Under(local, src), 1
  {
    hide Resolve, Stat, CanOpen, RemotePathsSplit, Mkdir, Lists, Under, CopyNames;
    if IsDir(local, src) && recurse {
      outcome := CopyDir(local, ls, src, sftp, remote);
      return;
    } else if IsDir(local, src) && !recurse {
      return ValueError;
    }
    var destination := RemotePathsSplit(remote);
    if destination.Some? {
      if !Stat(sftp.fs, sftp.home, destination.value) {
        outcome := sftp.MakeDirs(destination.value);
        if outcome != Ok {
          return;
        }
      }
    }
    if !CanOpen(sftp.fs, sftp.home, remote) {
      return SftpError;
    }
    var p := Resolve(sftp.home, remote);
    ghost var fs1 := sftp.fs;
    sftp.fs := sftp.fs[p := File([])];
    if src !in local {
      return LocalError;
    }
    var received := SendBlocks(sftp.answers(p), local[src].data);
    sftp.fs := sftp.fs[p := File(received)];
    assert sftp.fs == fs1[p := local[src]];
    return Ok;
  }

  method CopyDir(local: Fs, ls: Listing, src: Path, sftp: Sftp, remote: string) returns (outcome: Outcome)
    requires Lists(local, ls) && IsDir(local, src)
    modifies sftp
    ensures (sftp.fs, outcome) == CopyFile(local, ls, src, old(sftp.fs), sftp.home, remote, true)
    decreases Under(local, src), 0
  {
    outcome := sftp.MakeDirs(remote);
    if outcome != Ok {
      return;
    }
    var fileList := ls(src);
    assert ListsAt(local, ls, src);
    ghost var fs1 := sftp.fs;
    for i := 0 to |fileList|
      invariant CopyNames(local, ls, src, fileList[i..], sftp.fs, sftp.home, remote)
             == CopyNames(local, ls, src, fileList, fs1, sftp.home, remote)
      invariant outcome == Ok
    {
      var fileName := fileList[i];
      assert fileList[i..][1..] == fileList[i + 1..];
      UnderShrinks(local, src, fileName);
      outcome := Copy(local, ls, src + [fileName], sftp, SlashJoin(remote, fileName), true);
      if outcome != Ok {
        return;
      }
    }
  }

  // ----- Making directories -----

  /** The directory that joining a name with a slash goes down from: the empty path stands for
      the working directory, but what is joined to it is at the root. */
  function Destination(home: Path, path: string): Path {
    if path == "" then [] else Resolve(home, path)
  }

  lemma Descend(home: Path, cwd: string, name: Name)
    requires IsName(name)
    ensures var path := SlashJoin(cwd, name);
            && Destination(home, path) == Resolve(home, path) == Destination(home, cwd) + [name]
            && !NamesDir(path) && !DotLast(path)
            && (Plain(cwd) ==> Plain(path))
  {
    hide Components, Plain, DotLast, Pieces, NonEmpty;
    JoinedPieces(cwd, name);
    JoinedComponents(cwd, name);
    if cwd == "" {
      EmptyComponents();
      assert [] + [name] == [name];
    } else {
      SlashJoinDescendsIff(home, cwd, name);
    }
  }

  lemma StayPut(home: Path, cwd: string)
    ensures var path := SlashJoin(cwd, ".");
            Destination(home, path) == Resolve(home, path) == Destination(home, cwd) && NamesDir(path)
  {
    hide Components, DotLast, Plain, Pieces, NonEmpty;
    JoinedPieces(cwd, ".");
    JoinedComponents(cwd, ".");
    EmptyComponents();
    assert cwd != "" ==> (cwd + "/" + ".")[0] == cwd[0];
  }

  /** A path that ends in a dot does not stand for a file. */
  predicate DotFits(fs: Fs, p: Path, dotLast: bool) {
    dotLast && p in fs ==> fs[p].Dir?
  }

  function MkdirOutcome(fs: Fs, at: Path, names: seq<string>): (Fs, Outcome) {
    var (fs', ok) := MkdirFrom(fs, at, WithoutDots(names));
    (fs', if ok && DotFits(fs', at + WithoutDots(names), EndsInDot(names)) then Ok else SftpIoError)
  }

  /** The loop over strings makes the chain of directories; a dot on the way has it look again
      at the directory it has reached. */
  lemma {:induction false} MkdirLoopIs(fs: Fs, home: Path, cwd: string, names: seq<string>)
    requires Tree(fs) && Destination(home, cwd) in fs && Steps(names)
    ensures MkdirLoop(fs, home, cwd, names) == MkdirOutcome(fs, Destination(home, cwd), names)
    decreases |names|
  {
    hide Tree, Resolve, NamesDir, IsName, LastPiece, Plain, WithoutDots, Destination;
    var at := Destination(home, cwd);
    if names == [] {
      assert WithoutDots([]) == [] by { NoPieces(); }
    } else {
      var n, rest := names[0], names[1..];
      assert names == [n] + rest;
      assert Steps(rest) && IsStep(n);
      WithoutDotsCons(n, rest);
      if n == "." {
        StayPut(home, cwd);
        if IsDir(fs, at) {
          MkdirLoopIs(fs, home, SlashJoin(cwd, n), rest);
          assert [] + WithoutDots(rest) == WithoutDots(rest);
          assert rest == [] ==> WithoutDots(rest) == [] && at + [] == at by { NoPieces(); }
        } else {
          DotAtFile(fs, at, rest);
        }
      } else {
        var path, p := SlashJoin(cwd, n), at + [n];
        Descend(home, cwd, n);
        assert Parent(p) == at;
        assert ([n] + WithoutDots(rest))[1..] == WithoutDots(rest);
        assert at + ([n] + WithoutDots(rest)) == p + WithoutDots(rest);
        assert !EndsInDot([n]);
        if p in fs {
          MkdirLoopIs(fs, home, path, rest);
        } else if IsDir(fs, at) {
          AddKeepsTree(fs, p, Dir);
          MkdirLoopIs(fs[p := Dir], home, path, rest);
        }
        assert EndsInDot(names) <==> EndsInDot(rest);
      }
    }
  }

  /** Past a file nothing can be made, and the file is no directory either. */
  lemma DotAtFile(fs: Fs, at: Path, rest: seq<string>)
    requires Tree(fs) && at in fs && !IsDir(fs, at) && Steps(rest)
    ensures MkdirOutcome(fs, at, ["."] + rest) == (fs, SftpIoError)
  {
    hide Tree;
    WithoutDotsCons(".", rest);
    var d := WithoutDots(rest);
    assert [] + d == d;
    if d == [] {
      assert EndsInDot(["."] + rest);
      assert at + d == at;
    } else {
      var p := at + [d[0]];
      assert Parent(p) == at;
      if p in fs {
        PrefixIsDir(fs, p, at);
      }
    }
  }

  lemma DotStands(home: Path)
    ensures Destination(home, ".") == home
  {
    assert Pieces(".") == ["."] by { assert LastSlash(".") == -1; }
    NonEmptySnoc([], ".");
    assert [] + ["."] == ["."];
    assert Components(".") == [];
  }

  /** `mkdir` succeeds exactly when no file is in the way, or stands where the path ends in a
      dot; then every directory of the path is there, whatever was there before still is, and
      nothing else was made. */
  lemma MkdirWorks(fs: Fs, home: Path, directory: string)
    requires Tree(fs) && IsDir(fs, home) && Plain(directory)
    ensures var (fs', outcome) := Mkdir(fs, home, directory);
            var p := Resolve(home, directory);
            && Tree(fs') && (outcome == Ok || outcome == SftpIoError)
            && (outcome == Ok <==> OpenWay(fs, p) && DotFits(fs, p, DotLast(directory)))
            && (outcome == Ok ==> Made(fs, fs', p))
            && Grown(fs, fs', p)
  {
    hide Tree, OpenWay, Made, Grown, Plain, Pieces, NonEmpty, MkdirFrom, MkdirLoop, WithoutDots, EndsInDot;
    var absolute := IsAbsolute(directory);
    var cwd, at := if absolute then "" else ".", if absolute then [] else home;
    var p := Resolve(home, directory);
    PlainSteps(directory);
    PlainComponents(directory);
    DotStands(home);
    TreeHasRoot(fs);
    MkdirLoopIs(fs, home, cwd, NonEmpty(Pieces(directory)));
    MkdirKeepsTree(fs, at, Components(directory));
    MkdirMakes(fs, at, Components(directory));
    MkdirGrows(fs, at, Components(directory));
    if MkdirFrom(fs, at, Components(directory)).1 {
      MadeThere(fs, MkdirFrom(fs, at, Components(directory)).0, p);
    }
  }

  // ----- What an upload is to do -----

  /** The node a path has afterwards, where the copied node is `node`. */
  function New(node: Node, fs: Fs, q: Path): Node {
    if node.File? then node else if q in fs then fs[q] else Dir
  }

  function Want(local: Fs, src: Path, fs: Fs, dst: Path, q: Path): Option<Node> {
    if dst <= q && src + q[|dst|..] in local then Some(New(local[src + q[|dst|..]], fs, q))
    else if q < dst && q !in fs then Some(Dir)
    else At(fs, q)
  }

  /** Every file below `src` is at its place below `dst` with its contents, every directory
      is there unless something was there already, missing ancestors of `dst` were made, and
      nothing else changed. */
  ghost predicate Mirrored(local: Fs, src: Path, fs: Fs, fs': Fs, dst: Path) {
    forall q :: At(fs', q) == Want(local, src, fs, dst, q)
  }

  /** Every path is as it was or as it is to be. */
  ghost predicate Partial(local: Fs, src: Path, fs: Fs, fs': Fs, dst: Path) {
    forall q :: At(fs', q) == At(fs, q) || At(fs', q) == Want(local, src, fs, dst, q)
  }

  lemma MirroredIsPartial(local: Fs, src: Path, fs: Fs, fs': Fs, dst: Path)
    requires Mirrored(local, src, fs, fs', dst)
    ensures Partial(local, src, fs, fs', dst)
  {
  }

  lemma GrownIsPartial(local: Fs, src: Path, fs: Fs, fs': Fs, dst: Path)
    requires src in local && Grown(fs, fs', dst) && (local[src].File? ==> dst != [] && Grown(fs, fs', Parent(dst)))
    ensures Partial(local, src, fs, fs', dst)
  {
    forall q ensures At(fs', q) == At(fs, q) || At(fs', q) == Want(local, src, fs, dst, q) {
      PrefixCases(q, dst);
      if q == dst { assert src + q[|dst|..] == src; }
      if dst != [] { BelowParentIff(dst, q); }
    }
  }

  ghost predicate Childless(local: Fs, p: Path) {
    forall n :: p + [n] !in local
  }

  /** What stands at the place of a copied node does not stop the copy: it is no directory
      where a file goes, and no file where a directory with something in it goes. */
  ghost predicate Meets(local: Fs, p: Path, fs: Fs, q: Path)
    requires p in local
  {
    q in fs ==> if local[p].File? then fs[q].File? else fs[q].Dir? || Childless(local, p)
  }

  ghost predicate Passable(local: Fs, src: Path, fs: Fs, dst: Path) {
    && OpenWay(fs, dst)
    && forall p {:trigger Meets(local, p, fs, dst + p[|src|..])} ::
         p in local && src <= p ==> Meets(local, p, fs, dst + p[|src|..])
  }

  // ----- One file -----

  lemma DestinationWorks(fs: Fs, home: Path, remote: string)
    requires Tree(fs) && IsDir(fs, home) && Plain(remote) && !NamesDir(remote)
    ensures Resolve(home, remote) != [] && IsName(LastPiece(remote))
    ensures Resolve(home, remote)[|Resolve(home, remote)| - 1] == LastPiece(remote)
    ensures var (fs', outcome) := MakeDestination(fs, home, remote);
            var p := Parent(Resolve(home, remote));
            && Tree(fs')
            && (OpenWay(fs, Resolve(home, remote)) ==> outcome == Ok)
            && (outcome == Ok ==> OpenWay(fs, p) && Made(fs, fs', p))
            && Grown(fs, fs', p)
  {
    hide Tree, OpenWay, Made, Grown, Plain, NamesDir, LastPiece, Mkdir, Components, NamesDir, DotLast;
    SplitCutsLast(home, remote);
    NothingGrown(fs, Parent(Resolve(home, remote)));
    OpenWayParent(fs, Resolve(home, remote));
    TreeHasRoot(fs);
    var p := Parent(Resolve(home, remote));
    match RemotePathsSplit(remote) {
      case Some(d) =>
        MkdirWorks(fs, home, d);
        assert Resolve(home, d) == p;
        if p in fs { StandingWay(fs, p); }
      case None =>
        assert p == [] || p == home;
        StandingWay(fs, p);
    }
  }

  lemma FilePassableIff(local: Fs, src: Path, fs: Fs, dst: Path)
    requires Tree(local) && src in local && local[src].File?
    ensures Passable(local, src, fs, dst) <==> OpenWay(fs, dst) && !IsDir(fs, dst)
  {
    hide Tree, OpenWay;
    assert dst + src[|src|..] == dst;
    assert Meets(local, src, fs, dst + src[|src|..]) <==> !IsDir(fs, dst);
    assert src <= src;
    forall p | p in local && src <= p ensures p == src {
      assert p == src + p[|src|..];
      NothingUnderFile(local, src, p[|src|..]);
    }
  }

  lemma FileMirrored(local: Fs, src: Path, fs: Fs, fs1: Fs, dst: Path)
    requires Tree(local) && src in local && local[src].File?
    requires dst != [] && Made(fs, fs1, Parent(dst))
    ensures Mirrored(local, src, fs, fs1[dst := local[src]], dst)
  {
    hide Tree;
    var fs' := fs1[dst := local[src]];
    forall q ensures At(fs', q) == Want(local, src, fs, dst, q) {
      assert At(fs1, q) == if q <= Parent(dst) && q !in fs then Some(Dir) else At(fs, q);
      BelowParentIff(dst, q);
      if dst <= q && src + q[|dst|..] in local {
        NothingUnderFile(local, src, q[|dst|..]);
        assert q == dst + q[|dst|..];
      }
      if q == dst {
        assert src + q[|dst|..] == src;
      }
    }
  }

  lemma PutFileWorks(local: Fs, src: Path, fs: Fs, home: Path, remote: string)
    requires Tree(local) && src in local && local[src].File?
    requires Tree(fs) && IsDir(fs, home) && Plain(remote) && !NamesDir(remote)
    ensures var (fs', outcome) := PutFile(local, src, fs, home, remote);
            var dst := Resolve(home, remote);
            && (outcome == Ok <==> Passable(local, src, fs, dst))
            && (outcome == Ok ==> Tree(fs') && Mirrored(local, src, fs, fs', dst))
            && Partial(local, src, fs, fs', dst)
  {
    hide Tree, OpenWay, Mirrored, Partial, Grown, Passable, Plain, NamesDir, LastPiece;
    hide MakeDestination, Resolve, IsName;
    var dst := Resolve(home, remote);
    var (fs1, made) := MakeDestination(fs, home, remote);
    DestinationWorks(fs, home, remote);
    FilePassableIff(local, src, fs, dst);
    OpenWayParent(fs, dst);
    GrownMore(fs, fs1, dst);
    GrownIsPartial(local, src, fs, fs1, dst);
    if made == Ok {
      var p := Parent(dst);
      assert At(fs1, p) == if p !in fs then Some(Dir) else At(fs, p);
      assert !(dst <= p) && At(fs1, dst) == At(fs, dst);
      if CanOpen(fs1, home, remote) {
        AddKeepsTree(fs1, dst, local[src]);
        FileMirrored(local, src, fs, fs1, dst);
        MirroredIsPartial(local, src, fs, fs1[dst := local[src]], dst);
      }
    }
  }

  // ----- The names of one directory -----

  /** What copying the entries `names` of `src` leaves at `q`. */
  function WantNames(local: Fs, src: Path, names: seq<Name>, fs: Fs, dst: Path, q: Path): Option<Node> {
    if dst < q && q[|dst|] in names && src + q[|dst|..] in local then Some(New(local[src + q[|dst|..]], fs, q))
    else At(fs, q)
  }

  ghost predicate NamesMirrored(local: Fs, src: Path, names: seq<Name>, fs: Fs, fs': Fs, dst: Path) {
    forall q :: At(fs', q) == WantNames(local, src, names, fs, dst, q)
  }

  ghost predicate NamesPartial(local: Fs, src: Path, names: seq<Name>, fs: Fs, fs': Fs, dst: Path) {
    forall q :: At(fs', q) == At(fs, q) || At(fs', q) == WantNames(local, src, names, fs, dst, q)
  }

  ghost predicate NamesPassable(local: Fs, src: Path, names: seq<Name>, fs: Fs, dst: Path) {
    forall n :: n in names ==> Passable(local, src + [n], fs, dst + [n])
  }

  /** Copying one entry leaves every path alone that is not at or below its own place, once
      `dst` is there. */
  lemma OtherPathsSame(local: Fs, src: Path, n: Name, fs: Fs, fs1: Fs, dst: Path, q: Path)
    requires Tree(fs) && dst in fs && Mirrored(local, src + [n], fs, fs1, dst + [n])
    requires !(dst < q && q[|dst|] == n)
    ensures At(fs1, q) == At(fs, q)
  {
    hide Tree;
    Branch(src, dst, n, q);
    assert At(fs1, q) == Want(local, src + [n], fs, dst + [n], q);
    if q <= dst && q != dst {
      assert q < dst;
      PrefixIsDir(fs, dst, q);
    }
  }

  /** So what it takes to copy another entry stays the same. */
  lemma OtherPassableSame(local: Fs, src: Path, n: Name, m: Name, fs: Fs, fs1: Fs, dst: Path)
    requires Tree(fs) && dst in fs && Mirrored(local, src + [n], fs, fs1, dst + [n])
    requires m != n
    ensures Passable(local, src + [m], fs1, dst + [m]) <==> Passable(local, src + [m], fs, dst + [m])
  {
    hide Tree, Mirrored;
    forall q | q < dst + [m] || dst + [m] <= q ensures At(fs1, q) == At(fs, q) {
      Branch(src, dst, m, q);
      OtherPathsSame(local, src, n, fs, fs1, dst, q);
    }
    PassableSame(local, src + [m], fs, fs1, dst + [m]);
  }

  lemma PassableSame(local: Fs, src: Path, fs: Fs, fs1: Fs, dst: Path)
    requires forall q :: q < dst || dst <= q ==> At(fs1, q) == At(fs, q)
    ensures Passable(local, src, fs1, dst) <==> Passable(local, src, fs, dst)
  {
    hide Meets;
    forall q | q < dst ensures (q in fs1 <==> q in fs) && (q in fs ==> fs1[q] == fs[q]) {
      assert At(fs1, q) == At(fs, q);
    }
    forall p | p in local && src <= p
      ensures Meets(local, p, fs1, dst + p[|src|..]) <==> Meets(local, p, fs, dst + p[|src|..])
    {
      var q := dst + p[|src|..];
      assert dst <= q;
      assert At(fs1, q) == At(fs, q);
      MeetsSame(local, p, fs, fs1, q);
    }
  }

  /** A copy that fails at its first entry. */
  lemma FirstPartial(local: Fs, src: Path, n: Name, rest: seq<Name>, fs: Fs, fs': Fs, dst: Path)
    requires Tree(fs) && dst in fs && Partial(local, src + [n], fs, fs', dst + [n])
    ensures NamesPartial(local, src, [n] + rest, fs, fs', dst)
  {
    hide Tree;
    forall q | At(fs', q) != At(fs, q) ensures At(fs', q) == WantNames(local, src, [n] + rest, fs, dst, q) {
      Branch(src, dst, n, q);
      assert At(fs', q) == Want(local, src + [n], fs, dst + [n], q);
      PrefixCases(q, dst);
      if q < dst { PrefixIsDir(fs, dst, q); }
    }
  }

  /** A copy that fails, if at all, at a later one. */
  lemma RestPartial(local: Fs, src: Path, n: Name, rest: seq<Name>, fs: Fs, fs1: Fs, fs': Fs, dst: Path)
    requires Tree(fs) && dst in fs && Mirrored(local, src + [n], fs, fs1, dst + [n])
    requires NamesPartial(local, src, rest, fs1, fs', dst) && n !in rest
    ensures NamesPartial(local, src, [n] + rest, fs, fs', dst)
  {
    hide Tree;
    forall q | At(fs', q) != At(fs, q) ensures At(fs', q) == WantNames(local, src, [n] + rest, fs, dst, q) {
      Branch(src, dst, n, q);
      assert At(fs', q) == At(fs1, q) || At(fs', q) == WantNames(local, src, rest, fs1, dst, q);
      if dst < q && q[|dst|] == n {
        assert At(fs1, q) == Want(local, src + [n], fs, dst + [n], q);
      } else {
        OtherPathsSame(local, src, n, fs, fs1, dst, q);
      }
    }
  }

  lemma NamesMirroredCons(local: Fs, src: Path, n: Name, rest: seq<Name>, fs: Fs, fs1: Fs, fs': Fs, dst: Path)
    requires Tree(fs) && dst in fs && Mirrored(local, src + [n], fs, fs1, dst + [n])
    requires NamesMirrored(local, src, rest, fs1, fs', dst) && n !in rest
    ensures NamesMirrored(local, src, [n] + rest, fs, fs', dst)
  {
    hide Tree;
    forall q ensures At(fs', q) == WantNames(local, src, [n] + rest, fs, dst, q) {
      Branch(src, dst, n, q);
      assert At(fs', q) == WantNames(local, src, rest, fs1, dst, q);
      if dst < q && q[|dst|] == n {
        assert At(fs1, q) == Want(local, src + [n], fs, dst + [n], q);
      } else {
        OtherPathsSame(local, src, n, fs, fs1, dst, q);
      }
    }
  }

  // ----- One directory -----

  /** A directory can be copied exactly when its path can be made and then each entry can be
      copied. */
  lemma DirPassableIff(local: Fs, ls: Listing, src: Path, fs: Fs, fs1: Fs, dst: Path)
    requires Tree(local) && IsDir(local, src) && ListsAt(local, ls, src)
    requires Tree(fs1) && OpenWay(fs, dst) && Made(fs, fs1, dst)
    ensures Passable(local, src, fs, dst) <==> NamesPassable(local, src, ls(src), fs1, dst)
  {
    if Passable(local, src, fs, dst) {
      forall n | n in ls(src) ensures Passable(local, src + [n], fs1, dst + [n]) {
        ChildPassable(local, src, n, fs, fs1, dst);
      }
    }
    if NamesPassable(local, src, ls(src), fs1, dst) {
      forall p | p in local && src <= p ensures Meets(local, p, fs, dst + p[|src|..]) {
        MeetsFromChildren(local, ls, src, fs, fs1, dst, p);
      }
    }
  }

  lemma ChildPassable(local: Fs, src: Path, n: Name, fs: Fs, fs1: Fs, dst: Path)
    requires IsDir(local, src) && src + [n] in local
    requires Tree(fs1) && Made(fs, fs1, dst) && Passable(local, src, fs, dst)
    ensures Passable(local, src + [n], fs1, dst + [n])
  {
    hide Tree, Made, OpenWay, Meets, Childless;
    var src', dst' := src + [n], dst + [n];
    DstIsDir(local, src, n, fs, fs1, dst);
    OpenBelowDir(fs1, dst, n);
    forall p | p in local && src' <= p ensures Meets(local, p, fs1, dst' + p[|src'|..]) {
      Branch(dst, src, n, p);
      var q := dst + p[|src|..];
      assert dst' + p[|src'|..] == q;
      assert Meets(local, p, fs, q);
      assert dst < q;
      MadeElsewhere(fs, fs1, dst, q);
      MeetsSame(local, p, fs, fs1, q);
    }
  }

  lemma MeetsSame(local: Fs, p: Path, fs: Fs, fs1: Fs, q: Path)
    requires p in local && At(fs1, q) == At(fs, q)
    ensures Meets(local, p, fs1, q) <==> Meets(local, p, fs, q)
  {
  }

  lemma DstIsDir(local: Fs, src: Path, n: Name, fs: Fs, fs1: Fs, dst: Path)
    requires IsDir(local, src) && src + [n] in local
    requires Made(fs, fs1, dst) && Passable(local, src, fs, dst)
    ensures IsDir(fs1, dst)
  {
    hide OpenWay, Made;
    MadeThere(fs, fs1, dst);
    assert src <= src && dst + src[|src|..] == dst;
    assert Meets(local, src, fs, dst);
    assert !Childless(local, src);
  }

  lemma OpenBelowDir(fs: Fs, dst: Path, n: Name)
    requires Tree(fs)
    ensures OpenWay(fs, dst + [n]) <==> (dst !in fs && OpenWay(fs, dst)) || IsDir(fs, dst)
  {
    OpenWayParent(fs, dst + [n]);
    assert Parent(dst + [n]) == dst;
    if dst in fs { StandingWay(fs, dst); }
  }

  lemma MeetsFromChildren(local: Fs, ls: Listing, src: Path, fs: Fs, fs1: Fs, dst: Path, p: Path)
    requires Tree(local) && IsDir(local, src) && ListsAt(local, ls, src)
    requires Tree(fs1) && Made(fs, fs1, dst) && NamesPassable(local, src, ls(src), fs1, dst)
    requires p in local && src <= p
    ensures Meets(local, p, fs, dst + p[|src|..])
  {
    hide Tree, Made, OpenWay, Meets;
    var r := p[|src|..];
    assert p == src + r;
    if r == [] {
      assert p == src && dst + r == dst;
      MeetsAtDst(local, ls, src, fs, fs1, dst);
    } else {
      var n := r[0];
      ChildIsThere(local, src, r);
      assert n in ls(src);
      assert Passable(local, src + [n], fs1, dst + [n]);
      assert p[|src|] == n && src < p;
      Branch(dst, src, n, p);
      assert dst + [n] + p[|src| + 1..] == dst + r;
      MadeElsewhere(fs, fs1, dst, dst + r);
      MeetsSame(local, p, fs, fs1, dst + r);
    }
  }

  lemma MeetsAtDst(local: Fs, ls: Listing, src: Path, fs: Fs, fs1: Fs, dst: Path)
    requires IsDir(local, src) && ListsAt(local, ls, src)
    requires Tree(fs1) && Made(fs, fs1, dst) && NamesPassable(local, src, ls(src), fs1, dst)
    ensures Meets(local, src, fs, dst)
  {
    hide Tree, Made, OpenWay;
    MadeThere(fs, fs1, dst);
    if !Childless(local, src) {
      var n :| src + [n] in local;
      assert Passable(local, src + [n], fs1, dst + [n]);
      OpenBelowDir(fs1, dst, n);
    }
  }

  lemma DirMirrored(local: Fs, ls: Listing, src: Path, fs: Fs, fs1: Fs, fs': Fs, dst: Path)
    requires Tree(local) && IsDir(local, src) && ListsAt(local, ls, src)
    requires Made(fs, fs1, dst) && NamesMirrored(local, src, ls(src), fs1, fs', dst)
    ensures Mirrored(local, src, fs, fs', dst)
  {
    hide Tree;
    forall q ensures At(fs', q) == Want(local, src, fs, dst, q) {
      assert At(fs', q) == WantNames(local, src, ls(src), fs1, dst, q);
      if dst < q {
        MadeElsewhere(fs, fs1, dst, q);
        var r := q[|dst|..];
        if src + r in local {
          ChildIsThere(local, src, r);
          assert r[0] == q[|dst|];
        }
      } else if q == dst {
        MadeThere(fs, fs1, dst);
        assert src + q[|dst|..] == src;
      } else {
        assert At(fs1, q) == if q <= dst && q !in fs then Some(Dir) else At(fs, q);
        PrefixCases(dst, q);
      }
    }
  }

  lemma DirPartial(local: Fs, src: Path, names: seq<Name>, fs: Fs, fs1: Fs, fs': Fs, dst: Path)
    requires IsDir(local, src) && Made(fs, fs1, dst) && NamesPartial(local, src, names, fs1, fs', dst)
    ensures Partial(local, src, fs, fs', dst)
  {
    forall q | At(fs', q) != At(fs, q) ensures At(fs', q) == Want(local, src, fs, dst, q) {
      assert At(fs', q) == At(fs1, q) || At(fs', q) == WantNames(local, src, names, fs1, dst, q);
      assert At(fs1, q) == if q <= dst && q !in fs then Some(Dir) else At(fs, q);
      PrefixCases(q, dst);
      if q == dst { assert src + q[|dst|..] == src; }
      if dst < q { MadeElsewhere(fs, fs1, dst, q); }
    }
  }

  // ----- The whole copy -----

  /** A directory stays one when something is copied over it. */
  lemma DirStays(local: Fs, src: Path, fs: Fs, fs': Fs, dst: Path, q: Path)
    requires Passable(local, src, fs, dst) && Mirrored(local, src, fs, fs', dst) && IsDir(fs, q)
    ensures IsDir(fs', q)
  {
    assert At(fs', q) == Want(local, src, fs, dst, q);
    if dst <= q && src + q[|dst|..] in local {
      var p := src + q[|dst|..];
      assert src <= p && p[|src|..] == q[|dst|..];
      assert dst + p[|src|..] == q;
      assert Meets(local, p, fs, q);
    }
  }

  /** A directory is copied to any path, a file only to one that does not end in a slash or a
      dot. */
  predicate Target(local: Fs, src: Path, remote: string) {
    Plain(remote) && (IsDir(local, src) || !NamesDir(remote))
  }

  lemma MkdirDestination(fs: Fs, home: Path, remote: string)
    requires Tree(fs) && IsDir(fs, home) && Plain(remote)
    ensures var (fs', outcome) := Mkdir(fs, home, remote);
            var p := Destination(home, remote);
            && Tree(fs') && (outcome == Ok || outcome == SftpIoError)
            && (outcome == Ok <==> OpenWay(fs, p) && DotFits(fs, p, DotLast(remote)))
            && (outcome == Ok ==> Made(fs, fs', p))
            && Grown(fs, fs', p)
  {
    if remote == "" {
      assert Pieces("") == [""];
      NonEmptySnoc([], "");
      assert [] + [""] == [""];
      StandingWay(fs, []);
    } else {
      MkdirWorks(fs, home, remote);
    }
  }

  /** A recursive upload, which names a file if it copies one, succeeds exactly when no file is
      in the way of the target or stands where it ends in a dot, no directory stands where a
      file goes, and no file where a directory with something in it goes.  Then every local
      node is at its relative place, missing ancestors of the target were made, and nothing
      else changed.  However it ends, every path is as it was or as it is to be. */
  lemma {:induction false} UploadMirrors(
    local: Fs, ls: Listing, src: Path, fs: Fs, home: Path, remote: string)
    requires Tree(local) && Lists(local, ls) && src in local
    requires Tree(fs) && IsDir(fs, home) && Target(local, src, remote)
    ensures var (fs', outcome) := CopyFile(local, ls, src, fs, home, remote, true);
            var dst := Destination(home, remote);
            && (outcome == Ok <==> Passable(local, src, fs, dst) && DotFits(fs, dst, DotLast(remote)))
            && (outcome == Ok ==> Tree(fs') && Mirrored(local, src, fs, fs', dst))
            && Partial(local, src, fs, fs', dst)
    decreases Under(local, src), 1, 0
  {
    hide Tree, Mirrored, Partial, NamesPartial, Grown, Passable, NamesPassable, NamesMirrored;
    hide Made, OpenWay, Resolve, Destination, Mkdir, PutFile, Plain, NamesDir, LastPiece, ListsAt;
    var dst := Destination(home, remote);
    if IsDir(local, src) {
      assert ListsAt(local, ls, src);
      MkdirDestination(fs, home, remote);
      var (fs1, made) := Mkdir(fs, home, remote);
      if made == Ok {
        AfterMkdir(fs, fs1, home, dst);
        DirPassableIff(local, ls, src, fs, fs1, dst);
        ListedDistinct(local, ls, src);
        CopyNamesWorks(local, ls, src, ls(src), fs1, home, remote);
        var (fs', outcome) := CopyNames(local, ls, src, ls(src), fs1, home, remote);
        DirPartial(local, src, ls(src), fs, fs1, fs', dst);
        if outcome == Ok {
          DirMirrored(local, ls, src, fs, fs1, fs', dst);
        }
      } else {
        if !OpenWay(fs, dst) { NotPassable(local, src, fs, dst); }
        GrownIsPartial(local, src, fs, fs1, dst);
      }
    } else {
      FileDestination(home, remote);
      PutFileWorks(local, src, fs, home, remote);
    }
  }

  lemma FileDestination(home: Path, remote: string)
    requires Plain(remote) && !NamesDir(remote)
    ensures Destination(home, remote) == Resolve(home, remote) && !DotLast(remote)
  {
    SplitCutsLast(home, remote);
  }

  lemma NotPassable(local: Fs, src: Path, fs: Fs, dst: Path)
    requires !OpenWay(fs, dst)
    ensures !Passable(local, src, fs, dst)
  {
  }

  lemma AfterMkdir(fs: Fs, fs1: Fs, home: Path, dst: Path)
    requires IsDir(fs, home) && Made(fs, fs1, dst)
    ensures IsDir(fs1, home) && dst in fs1
  {
    MadeThere(fs, fs1, dst);
    assert At(fs1, home) == At(fs, home);
  }

  ghost predicate AllDifferent(names: seq<Name>) {
    forall j, k :: 0 <= j < k < |names| ==> names[j] != names[k]
  }

  lemma ListedDistinct(local: Fs, ls: Listing, src: Path)
    requires ListsAt(local, ls, src)
    ensures AllDifferent(ls(src)) && forall n :: n in ls(src) ==> src + [n] in local
  {
  }

  lemma {:induction false} CopyNamesWorks(
    local: Fs, ls: Listing, src: Path, names: seq<Name>, fs: Fs, home: Path, remote: string)
    requires Tree(local) && Lists(local, ls)
    requires AllDifferent(names) && forall n :: n in names ==> src + [n] in local
    requires Tree(fs) && IsDir(fs, home) && Plain(remote) && Destination(home, remote) in fs
    ensures var (fs', outcome) := CopyNames(local, ls, src, names, fs, home, remote);
            var dst := Destination(home, remote);
            && (outcome == Ok <==> NamesPassable(local, src, names, fs, dst))
            && (outcome == Ok ==> Tree(fs') && NamesMirrored(local, src, names, fs, fs', dst))
            && NamesPartial(local, src, names, fs, fs', dst)
    decreases Under(local, src), 0, |names|
  {
    hide Tree, Mirrored, Partial, NamesPartial, Grown, Passable, NamesMirrored, Made, OpenWay;
    hide Resolve, Destination, Plain, NamesDir, LastPiece, Lists, CopyFile, SlashJoin, IsName;
    var dst := Destination(home, remote);
    if names == [] {
      NothingMirrored(local, src, fs, dst);
    } else {
      var n, rest := names[0], names[1..];
      EntryIsName(local, src, n);
      Descend(home, remote, n);
      UnderShrinks(local, src, n);
      assert src + [n] in local;
      UploadMirrors(local, ls, src + [n], fs, home, SlashJoin(remote, n));
      var (fs1, outcome) := CopyFile(local, ls, src + [n], fs, home, SlashJoin(remote, n), true);
      if outcome == Ok {
        DirStays(local, src + [n], fs, fs1, dst + [n], home);
        Restful(names);
        StillThere(local, src, n, fs, fs1, dst);
        CopyNamesWorks(local, ls, src, rest, fs1, home, remote);
        forall m | m in rest
          ensures Passable(local, src + [m], fs1, dst + [m]) <==> Passable(local, src + [m], fs, dst + [m])
        {
          OtherPassableSame(local, src, n, m, fs, fs1, dst);
        }
        var (fs', last) := CopyNames(local, ls, src, rest, fs1, home, remote);
        assert [n] + rest == names;
        RestPartial(local, src, n, rest, fs, fs1, fs', dst);
        if last == Ok {
          NamesMirroredCons(local, src, n, rest, fs, fs1, fs', dst);
        }
      } else {
        assert n in names;
        assert [n] + rest == names;
        FirstPartial(local, src, n, rest, fs, fs1, dst);
      }
    }
  }

  lemma NothingMirrored(local: Fs, src: Path, fs: Fs, dst: Path)
    ensures NamesMirrored(local, src, [], fs, fs, dst) && NamesPartial(local, src, [], fs, fs, dst)
  {
  }

  lemma Restful(names: seq<Name>)
    requires AllDifferent(names) && names != []
    ensures AllDifferent(names[1..]) && names[0] !in names[1..]
    ensures forall m :: m in names <==> m == names[0] || m in names[1..]
  {
    assert names == [names[0]] + names[1..];
  }

  lemma StillThere(local: Fs, src: Path, n: Name, fs: Fs, fs1: Fs, dst: Path)
    requires Tree(fs) && dst in fs && Mirrored(local, src + [n], fs, fs1, dst + [n])
    ensures dst in fs1
  {
    OtherPathsSame(local, src, n, fs, fs1, dst, dst);
  }

  // ----- Which error -----

  /** A file that is not there yet: its directories cannot be made, or a directory has its
      name. */
  lemma PutFileErrors(local: Fs, src: Path, fs: Fs, home: Path, remote: string)
    requires Tree(fs) && IsDir(fs, home) && Plain(remote) && !NamesDir(remote)
    requires src in local && local[src].File?
    ensures var outcome, dst := PutFile(local, src, fs, home, remote).1, Resolve(home, remote);
            && dst != []
            && (outcome == Ok || outcome == SftpError || outcome == SftpIoError)
            && (!OpenWay(fs, Parent(dst)) ==> outcome == SftpIoError)
            && (OpenWay(fs, dst) && IsDir(fs, dst) ==> outcome == SftpError)
            && (outcome == SftpIoError ==> !OpenWay(fs, dst))
            && (outcome == SftpError ==> OpenWay(fs, Parent(dst)))
  {
    hide Tree, OpenWay, Plain, NamesDir, LastPiece, MakeDestination, Resolve, IsName, Made, Grown;
    var dst := Resolve(home, remote);
    DestinationWorks(fs, home, remote);
    DestinationOutcome(fs, home, remote);
    var (fs1, made) := MakeDestination(fs, home, remote);
    if made == Ok {
      MadeElsewhere(fs, fs1, Parent(dst), dst);
    }
  }

  lemma DestinationOutcome(fs: Fs, home: Path, remote: string)
    ensures MakeDestination(fs, home, remote).1 == Ok || MakeDestination(fs, home, remote).1 == SftpIoError
  {
  }

  /** A recursive upload ends in no other way than these. */
  lemma {:induction false} UploadOutcomes(
    local: Fs, ls: Listing, src: Path, fs: Fs, home: Path, remote: string)
    requires Lists(local, ls) && src in local
    ensures var outcome := CopyFile(local, ls, src, fs, home, remote, true).1;
            outcome == Ok || outcome == SftpError || outcome == SftpIoError
    decreases Under(local, src), 1, 0
  {
    hide MkdirLoop, MakeDestination, CanOpen;
    if IsDir(local, src) {
      assert ListsAt(local, ls, src);
      var (fs1, made) := Mkdir(fs, home, remote);
      if made == Ok {
        NamesOutcomes(local, ls, src, ls(src), fs1, home, remote);
      }
    } else {
      DestinationOutcome(fs, home, remote);
    }
  }

  lemma {:induction false} NamesOutcomes(
    local: Fs, ls: Listing, src: Path, names: seq<Name>, fs: Fs, home: Path, remote: string)
    requires Lists(local, ls) && forall n :: n in names ==> src + [n] in local
    ensures var outcome := CopyNames(local, ls, src, names, fs, home, remote).1;
            outcome == Ok || outcome == SftpError || outcome == SftpIoError
    decreases Under(local, src), 0, |names|
  {
    hide Lists, CopyFile;
    if names != [] {
      UnderShrinks(local, src, names[0]);
      UploadOutcomes(local, ls, src + [names[0]], fs, home, SlashJoin(remote, names[0]));
      var (fs1, outcome) := CopyFile(local, ls, src + [names[0]], fs, home, SlashJoin(remote, names[0]), true);
      if outcome == Ok {
        NamesOutcomes(local, ls, src, names[1..], fs1, home, remote);
      }
    }
  }

  // ----- Mirroring -----

  /** The flag makes no difference to a file. */
  lemma FlagIsForDirs(local: Fs, ls: Listing, src: Path, fs: Fs, home: Path, remote: string)
    requires Lists(local, ls) && !IsDir(local, src)
    ensures CopyFile(local, ls, src, fs, home, remote, false) == CopyFile(local, ls, src, fs, home, remote, true)
  {
  }

  /** Any other upload fails.  Without the flag nothing is done; but a path with a slash at its
      end is first made into directories, even where a file is copied. */
  lemma UploadRefused(local: Fs, ls: Listing, src: Path, fs: Fs, home: Path, remote: string, recurse: bool)
    requires Lists(local, ls) && src in local
    requires Tree(fs) && IsDir(fs, home) && Plain(remote)
    requires if IsDir(local, src) then !recurse else NamesDir(remote)
    ensures var (fs', outcome) := CopyFile(local, ls, src, fs, home, remote, recurse);
            && (if IsDir(local, src) then outcome == ValueError && fs' == fs
                else outcome == SftpError || outcome == SftpIoError)
            && Grown(fs, fs', Destination(home, remote))
  {
    hide Tree, Destination, Plain, NamesDir, LastPiece, Lists, CopyNames, PutFile;
    if IsDir(local, src) {
      NothingGrown(fs, Destination(home, remote));
    } else {
      NoFileName(local, src, fs, home, remote);
    }
  }

  lemma NoFileName(local: Fs, src: Path, fs: Fs, home: Path, remote: string)
    requires Tree(fs) && IsDir(fs, home) && Plain(remote) && NamesDir(remote)
    ensures var (fs', outcome) := PutFile(local, src, fs, home, remote);
            (outcome == SftpError || outcome == SftpIoError) && Grown(fs, fs', Destination(home, remote))
  {
    hide Tree, OpenWay, Made, Plain, Mkdir, Components, Grown, DotLast, Pieces, NonEmpty;
    CutString(remote);
    NothingGrown(fs, Destination(home, remote));
    var split := RemotePathsSplit(remote);
    if split.Some? {
      var front := split.value;
      if LastPiece(remote) == "" {
        assert remote == front + "/";
        TrailingSlash(front);
      } else {
        assert remote == front + "/" + ".";
        JoinedComponents(front, ".");
        PlainDot(front);
      }
      assert IsAbsolute(remote) <==> IsAbsolute(front);
      assert Resolve(home, remote) == Resolve(home, front);
      MkdirWorks(fs, home, front);
    }
  }

  lemma PlainDot(front: string)
    requires Plain(front + "/" + ".")
    ensures Plain(front)
  {
    JoinedPieces(front, ".");
    NonEmptySnoc(Pieces(front), ".");
    var c := NonEmpty(Pieces(front));
    assert forall k :: 0 <= k < |c| ==> c[k] == (c + ["."])[k];
  }

  /** A local file that is not there is noticed too late: where it could have been copied to,
      an empty file is left, whatever was there before. */
  lemma MissingFileLeavesEmptyOne(local: Fs, ls: Listing, src: Path, fs: Fs, home: Path, remote: string, recurse: bool)
    requires Lists(local, ls) && src !in local
    requires Tree(fs) && IsDir(fs, home) && Plain(remote) && !NamesDir(remote)
    ensures var (fs', outcome) := CopyFile(local, ls, src, fs, home, remote, recurse);
            var dst := Resolve(home, remote);
            && (outcome == LocalError <==> OpenWay(fs, dst) && !IsDir(fs, dst))
            && (outcome == LocalError ==> forall q :: At(fs', q) == WithEmptyFile(fs, dst, q))
  {
    hide Tree, OpenWay, Plain, NamesDir, LastPiece, Resolve, NamesDir, Lists, Passable, Mirrored;
    hide MakeDestination;
    var one, f := map[[] := Dir, ["f"] := File([])], ["f"];
    assert Tree(one) by { OneFileTree(); }
    PutFileWorks(one, f, fs, home, remote);
    FilePassableIff(one, f, fs, Resolve(home, remote));
    MadeDestinationOutcome(fs, home, remote);
    var (fs', outcome) := PutFile(one, f, fs, home, remote);
    if outcome == Ok {
      EmptyFileMirrored(one, f, fs, fs', Resolve(home, remote));
    }
  }

  function WithEmptyFile(fs: Fs, dst: Path, q: Path): Option<Node> {
    if q == dst then Some(File([])) else if q < dst && q !in fs then Some(Dir) else At(fs, q)
  }

  lemma OneFileTree()
    ensures Tree(map[[] := Dir, ["f"] := File([])])
  {
    assert Parent(["f"]) == [];
  }

  lemma MadeDestinationOutcome(fs: Fs, home: Path, remote: string)
    ensures MakeDestination(fs, home, remote).1 != LocalError
  {
  }

  lemma EmptyFileMirrored(one: Fs, f: Path, fs: Fs, fs': Fs, dst: Path)
    requires Tree(one) && f in one && one[f] == File([]) && Mirrored(one, f, fs, fs', dst)
    ensures forall q :: At(fs', q) == WithEmptyFile(fs, dst, q)
  {
    hide Tree;
    forall q ensures At(fs', q) == WithEmptyFile(fs, dst, q) {
      assert At(fs', q) == Want(one, f, fs, dst, q);
      if dst <= q {
        assert q == dst + q[|dst|..];
        if f + q[|dst|..] in one { NothingUnderFile(one, f, q[|dst|..]); }
        if q == dst { assert f + q[|dst|..] == f; }
      }
    }
  }

  /** One kind of conflict goes unnoticed: an empty directory is not created where a file
      stands, and the upload still succeeds.  A successful upload put every local node in its
      place exactly when that did not happen. */
  lemma EveryNodeThereIff(local: Fs, src: Path, fs: Fs, fs': Fs, dst: Path)
    requires Passable(local, src, fs, dst) && Mirrored(local, src, fs, fs', dst)
    ensures (forall p :: p in local && src <= p ==> At(fs', dst + p[|src|..]) == Some(local[p]))
       <==> (forall p :: IsDir(local, p) && src <= p && dst + p[|src|..] in fs ==> fs[dst + p[|src|..]].Dir?)
  {
    hide OpenWay, Childless;
    forall p | p in local && src <= p
      ensures At(fs', dst + p[|src|..]) == Some(local[p])
         <==> (local[p].Dir? && dst + p[|src|..] in fs ==> fs[dst + p[|src|..]].Dir?)
    {
      var q := dst + p[|src|..];
      assert dst <= q && q[|dst|..] == p[|src|..] && src + p[|src|..] == p;
      assert At(fs', q) == Want(local, src, fs, dst, q);
    }
  }
}
