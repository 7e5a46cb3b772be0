/** Copying remote files and directories to the local host over SFTP: `copy_remote_file`,
    `_copy_remote_dir` and `_sftp_readdir`. */
module Download {
  import opened Files
  import opened Octets
  import opened Options
  import opened Paths
  import Upload

  /** `Endless`: the same directory is entered again and again until some limit is hit. */
  datatype Outcome = Ok | ValueError | SftpIoError | LocalError | Endless

  predicate IsDots(n: string) {
    n == "." || n == ".."
  }

  /** What reading a remote directory returns: each entry, in any order, and possibly the
      directory itself and its parent. */
  type Listing = Path -> seq<Name>

  ghost predicate Reads(fs: Fs, ls: Listing) {
    forall p :: IsDir(fs, p) ==> ReadsAt(fs, ls, p)
  }

  ghost predicate ReadsAt(fs: Fs, ls: Listing, p: Path) {
    && (forall n :: p + [n] in fs ==> n in ls(p))
    && (forall n :: n in ls(p) ==> IsDots(n) || p + [n] in fs)
  }

  // ----- Lines of names -----

  predicate IsBreak(c: char) {
    c == '\n' || c == '\r'
  }

  predicate Unbroken(s: string) {
    forall k :: 0 <= k < |s| ==> !IsBreak(s[k])
  }

  function FirstBreak(s: string): (k: nat)
    ensures k <= |s| && (k < |s| ==> IsBreak(s[k]))
    ensures forall j :: 0 <= j < k ==> !IsBreak(s[j])
  {
    if s == "" || IsBreak(s[0]) then 0 else 1 + FirstBreak(s[1..])
  }

  /** What follows the first line break. */
  function AfterBreak(s: string): (rest: string)
    ensures s != "" ==> |rest| < |s|
  {
    var k := FirstBreak(s);
    if k == |s| then ""
    else if s[k] == '\r' && k + 1 < |s| && s[k + 1] == '\n' then s[k + 2..]
    else s[k + 1..]
  }

  /** `splitlines`: a line feed, a carriage return or the two together end a line. */
  function SplitLines(s: string): seq<string>
    decreases |s|
  {
    if s == "" then [] else [s[..FirstBreak(s)]] + SplitLines(AfterBreak(s))
  }

  /** What ends a line. */
  predicate EndsLine(sep: string) {
    sep == "\n" || sep == "\r" || sep == "\r\n"
  }

  /** The lines with what ends them, one after the other. */
  function Weave(lines: seq<string>, seps: seq<string>): string
    requires |lines| == |seps|
  {
    if lines == [] then "" else lines[0] + seps[0] + Weave(lines[1..], seps[1..])
  }

  /** `lines` are the lines of `s`: with their ends they make it up, no line holds a break, only
      the last may lack its end, which a line that is there alone does not, and no CR LF is taken
      for two ends. */
  ghost predicate AreLines(s: string, lines: seq<string>, seps: seq<string>) {
    && |lines| == |seps| && Weave(lines, seps) == s
    && (forall k :: 0 <= k < |lines| ==> '\n' !in lines[k] && '\r' !in lines[k])
    && (forall k :: 0 <= k < |seps| ==> EndsLine(seps[k]) || (k == |seps| - 1 && seps[k] == "" && lines[k] != ""))
    && (forall k :: 0 <= k < |seps| - 1 && seps[k] == "\r" ==>
          !(lines[k + 1] == "" && seps[k + 1] == "\n"))
  }

  lemma FirstCut(s: string)
    requires s != ""
    ensures var line, rest := s[..FirstBreak(s)], AfterBreak(s);
            var sep := s[|line|..|s| - |rest|];
            && s == line + sep + rest && '\n' !in line && '\r' !in line
            && (EndsLine(sep) || (sep == "" && rest == "" && line != ""))
            && (sep == "\r" && rest != "" ==> rest[0] != '\n')
  {
    var k, m := FirstBreak(s), |s| - |AfterBreak(s)|;
    AfterBreakIs(s);
    hide FirstBreak, AfterBreak;
    CutTwice(s, k, m);
    assert forall j :: 0 <= j < k ==> s[..k][j] == s[j] && !IsBreak(s[j]);
    assert k < m ==> s[k..m] == if m == k + 1 then [s[k]] else [s[k], s[k + 1]];
  }

  /** What follows the first break. */
  lemma AfterBreakIs(s: string)
    ensures var k, m := FirstBreak(s), |s| - |AfterBreak(s)|;
            && k <= m <= |s| && AfterBreak(s) == s[m..]
            && (m == k <==> k == |s|)
            && (k < m ==> IsBreak(s[k]) && (m == k + 1 || (m == k + 2 && s[k..m] == "\r\n")))
            && (m == k + 1 && m < |s| ==> !(s[k] == '\r' && s[m] == '\n'))
  {
  }

  lemma CutTwice(s: string, k: nat, m: nat)
    requires k <= m <= |s|
    ensures s == s[..k] + s[k..m] + s[m..]
  {
  }

  /** The lines of a name are just that. */
  lemma {:induction false} SplitLinesAre(s: string) returns (seps: seq<string>)
    ensures AreLines(s, SplitLines(s), seps)
    decreases |s|
  {
    hide FirstBreak, AfterBreak;
    if s == "" {
      seps := [];
    } else {
      FirstCut(s);
      var line, rest := s[..FirstBreak(s)], AfterBreak(s);
      var more := SplitLinesAre(rest);
      seps := [s[|line|..|s| - |rest|]] + more;
      LinesCons(s, line, seps[0], rest, SplitLines(rest), more);
    }
  }

  lemma FirstOfWeave(lines: seq<string>, seps: seq<string>)
    requires |lines| == |seps| > 0
    ensures lines[0] == "" && seps[0] == "\n" ==> Weave(lines, seps) != "" && Weave(lines, seps)[0] == '\n'
  {
  }

  lemma LinesCons(s: string, line: string, sep: string, rest: string, lines: seq<string>, seps: seq<string>)
    requires s == line + sep + rest && '\n' !in line && '\r' !in line && AreLines(rest, lines, seps)
    requires EndsLine(sep) || (sep == "" && rest == "" && line != "")
    requires sep == "\r" && rest != "" ==> rest[0] != '\n'
    ensures AreLines(s, [line] + lines, [sep] + seps)
  {
    assert ([line] + lines)[1..] == lines && ([sep] + seps)[1..] == seps;
    if lines != [] {
      assert Weave(lines, seps) == lines[0] + seps[0] + Weave(lines[1..], seps[1..]);
      assert rest != "" by { assert EndsLine(seps[0]) || lines[0] != ""; }
      FirstOfWeave(lines, seps);
    }
  }

  /** `_sftp_readdir`: the lines of all the names. */
  function LinesOf(names: seq<Name>): seq<string> {
    if names == [] then []
    else LinesOf(names[..|names| - 1]) + SplitLines(names[|names| - 1])
  }

  method ReadNames(names: seq<Name>) returns (lines: seq<string>)
    ensures lines == LinesOf(names)
  {
    lines := [];
    for i := 0 to |names|
      invariant lines == LinesOf(names[..i])
    {
      assert names[..i + 1][..i] == names[..i];
      lines := lines + SplitLines(names[i]);
    }
    assert names[..|names|] == names;
  }

  // ----- What the calls do -----

  /** `_make_local_dir` of an absolute path: nothing is made where something stands, and where
      that is a file but the path ends in a dot it is not found and cannot be made either. */
  function MakeLocalDir(fs: Fs, cwd: Path, dirpath: string): (Fs, bool) {
    if Stat(fs, cwd, dirpath) then (fs, true)
    else if Components(dirpath) in fs then (fs, false)
    else MkdirFrom(fs, [], Components(dirpath))
  }

  function Get(data: Bytes, fs: Fs, cwd: Path, local: string): (Fs, Outcome) {
    var (fs1, made) := MakeLocalDir(fs, cwd, DownloadDir(local));
    if !made || !CanOpen(fs1, cwd, local) then (fs1, LocalError)
    else (fs1[Resolve(cwd, local) := File(data)], Ok)
  }

  function CopyRemote(remote: Fs, ls: Listing, p: Path, fs: Fs, cwd: Path, local: string, recurse: bool): (Fs, Outcome)
    decreases Under(remote, p), 1, 0
  {
    if p !in remote then (fs, SftpIoError)
    else if remote[p].File? then Get(remote[p].data, fs, cwd, local)
    else if !recurse then (fs, ValueError)
    else CopyLines(remote, ls, p, LinesOf(ls(p)), fs, cwd, local)
  }

  /** An empty line leads back into the directory it was read from. */
  function CopyLines(remote: Fs, ls: Listing, p: Path, lines: seq<string>, fs: Fs, cwd: Path, local: string)
    : (Fs, Outcome)
    decreases Under(remote, p), 0, |lines|
  {
    if lines == [] then (fs, Ok)
    else if IsDots(lines[0]) then CopyLines(remote, ls, p, lines[1..], fs, cwd, local)
    else if lines[0] == "" then (fs, Endless)
    else if p + [lines[0]] !in remote then (fs, SftpIoError)
    else
      UnderShrinks(remote, p, lines[0]);
      var (fs1, outcome) := CopyRemote(remote, ls, p + [lines[0]], fs, cwd, OsJoin(local, lines[0]), true);
      if outcome != Ok then (fs1, outcome)
      else CopyLines(remote, ls, p, lines[1..], fs1, cwd, local)
  }

  // ----- The client -----

  /** The local machine, and the directory the program runs in. */
  class LocalFiles {
    const cwd: Path
    var fs: Fs

    constructor (cwd: Path, fs: Fs)
      ensures this.cwd == cwd && this.fs == fs
    {
      this.cwd, this.fs := cwd, fs;
    }

    method MakeDir(dirpath: string) returns (ok: bool)
      modifies this
      ensures (fs, ok) == MakeLocalDir(old(fs), cwd, dirpath)
    {
      if Stat(fs, cwd, dirpath) {
        return true;
      }
      if Components(dirpath) in fs {
        return false;
      }
      var made := MkdirFrom(fs, [], Components(dirpath));
      fs := made.0;
      return made.1;
    }

    method SftpGet(data: Bytes, path: string) returns (outcome: Outcome)
      modifies this
      ensures if CanOpen(old(fs), cwd, path) then outcome == Ok && fs == old(fs)[Resolve(cwd, path) := File(data)]
              else outcome == LocalError && fs == old(fs)
    {
      if !CanOpen(fs, cwd, path) {
        return LocalError;
      }
      fs := fs[Resolve(cwd, path) := File(data)];
      return Ok;
    }
  }

  method CopyRemoteFile(remote: Fs, ls: Listing, p: Path, client: LocalFiles, local: string, recurse: bool)
    returns (outcome: Outcome)
    modifies client
    ensures (client.fs, outcome) == CopyRemote(remote, ls, p, old(client.fs), client.cwd, local, recurse)
    decreases Under(remote, p), 1
  {
    if p !in remote {
      return SftpIoError;
    }
    if remote[p].Dir? {
      if !recurse {
        return ValueError;
      }
      var fileList := ReadNames(ls(p));
      outcome := CopyRemoteDir(remote, ls, p, fileList, client, local);
      return;
    }
    var ok := client.MakeDir(DownloadDir(local));
    if !ok {
      return LocalError;
    }
    outcome := client.SftpGet(remote[p].data, local);
  }

  method CopyRemoteDir(remote: Fs, ls: Listing, p: Path, fileList: seq<string>, client: LocalFiles, local: string)
    returns (outcome: Outcome)
    modifies client
    ensures (client.fs, outcome) == CopyLines(remote, ls, p, fileList, old(client.fs), client.cwd, local)
    decreases Under(remote, p), 0
  {
    for i := 0 to |fileList|
      invariant CopyLines(remote, ls, p, fileList[i..], client.fs, client.cwd, local)
             == CopyLines(remote, ls, p, fileList, old(client.fs), client.cwd, local)
    {
      var fileName := fileList[i];
      assert fileList[i..][1..] == fileList[i + 1..];
      if IsDots(fileName) {
        continue;
      }
      if fileName == "" {
        return Endless;
      }
      if p + [fileName] !in remote {
        return SftpIoError;
      }
      UnderShrinks(remote, p, fileName);
      outcome := CopyRemoteFile(remote, ls, p + [fileName], client, OsJoin(local, fileName), true);
      if outcome != Ok {
        return;
      }
    }
    return Ok;
  }

  // ----- What a download is to do -----

  /** A download from `src` to `dst`.  `way` is where `dst` would be if its path were taken from
      the root, as it is for the directories that are made: `dst` itself for an absolute path. */
  datatype Route = Route(src: Path, dst: Path, way: Path)

  /** The place of a remote path, and the remote path of a place. */
  function Place(route: Route, p: Path): Path
    requires route.src <= p
  {
    route.dst + p[|route.src|..]
  }

  function Origin(route: Route, q: Path): Path
    requires route.dst <= q
  {
    route.src + q[|route.dst|..]
  }

  /** Where the place would be, taken from the root. */
  function OnWay(route: Route, p: Path): Path
    requires route.src <= p
  {
    route.way + p[|route.src|..]
  }

  ghost predicate AreFiles(remote: Fs, files: set<Path>, src: Path) {
    forall p :: p in files ==> p in remote && remote[p].File? && src <= p
  }

  /** A directory that is made for one of the files. */
  ghost predicate LeadsTo(files: set<Path>, route: Route, q: Path) {
    exists p :: p in files && route.src <= p && q < OnWay(route, p)
  }

  /** What a path holds after the files are delivered. */
  ghost function Want(remote: Fs, files: set<Path>, route: Route, fs: Fs, q: Path): Option<Node>
    requires AreFiles(remote, files, route.src)
  {
    if route.dst <= q && Origin(route, q) in files then Some(remote[Origin(route, q)])
    else if q !in fs && LeadsTo(files, route, q) then Some(Dir)
    else At(fs, q)
  }

  /** Every file is at its place, the missing directories on the way there were made, and
      nothing else changed. */
  ghost predicate Delivered(remote: Fs, files: set<Path>, route: Route, fs: Fs, fs': Fs)
    requires AreFiles(remote, files, route.src)
  {
    forall q :: At(fs', q) == Want(remote, files, route, fs, q)
  }

  /** Every path is as it was or as it is to be. */
  ghost predicate Partly(remote: Fs, files: set<Path>, route: Route, fs: Fs, fs': Fs)
    requires AreFiles(remote, files, route.src)
  {
    forall q :: At(fs', q) == At(fs, q) || At(fs', q) == Want(remote, files, route, fs, q)
  }

  ghost predicate Free(fs: Fs, q: Path) {
    OpenWay(fs, q) && !IsDir(fs, q)
  }

  /** The directories for a file can be made, its own directory is then there, and no directory
      has its name. */
  ghost predicate Fit(route: Route, fs: Fs, p: Path)
    requires route.src <= p
  {
    var place, way := Place(route, p), OnWay(route, p);
    if route.way == route.dst then Free(fs, place)
    else
      && place != [] && way != []
      && OpenWay(fs, Parent(way)) && IsDir(fs, Parent(place)) && !IsDir(fs, place)
  }

  ghost predicate Fits(files: set<Path>, route: Route, fs: Fs) {
    forall p :: p in files && route.src <= p ==> Fit(route, fs, p)
  }

  /** No directory that is made for a file is the directory of a place, or below it. */
  ghost predicate Apart(files: set<Path>, route: Route) {
    route.way == route.dst ||
    forall p, q :: p in files && q in files && route.src <= p && route.src <= q ==>
      Place(route, q) != [] && !(Parent(Place(route, q)) < OnWay(route, p))
  }

  // ----- Two deliveries, one after the other -----

  lemma {:induction false} NoFileBelowFile(remote: Fs, files: set<Path>, src: Path, p: Path, q: Path)
    requires Tree(remote) && AreFiles(remote, files, src) && p in files && q in remote
    ensures !(p < q)
  {
    if p < q {
      assert q == p + q[|p|..];
      NothingUnderFile(remote, p, q[|p|..]);
    }
  }

  lemma PlaceOrder(route: Route, p: Path, q: Path)
    requires route.src <= p && route.src <= q
    ensures Place(route, p) < Place(route, q) <==> p < q
    ensures Origin(route, Place(route, p)) == p
  {
    assert Place(route, p)[|route.dst|..] == p[|route.src|..];
    assert p == route.src + p[|route.src|..] && q == route.src + q[|route.src|..];
    if p < q {
      assert q[|route.src|..][..|p| - |route.src|] == p[|route.src|..];
    }
    if Place(route, p) < Place(route, q) {
      var r := Place(route, q);
      assert r[..|route.dst| + |p| - |route.src|][|route.dst|..] == p[|route.src|..];
      assert r[|route.dst|..][..|p| - |route.src|] == p[|route.src|..];
      assert q[..|p|] == route.src + q[|route.src|..][..|p| - |route.src|];
    }
  }

  lemma OriginPlace(route: Route, q: Path)
    requires route.dst <= q
    ensures Place(route, Origin(route, q)) == q
  {
    assert Origin(route, q)[|route.src|..] == q[|route.dst|..];
  }

  lemma ParentBelow(r: Path, w: Path, k: nat)
    requires r != [] && k < |r|
    ensures r < w ==> Parent(r) < w
    ensures Parent(r) < w ==> k < |w| && r[..k] == w[..k]
  {
    if r < w { assert Parent(r) == w[..|r| - 1]; }
    if Parent(r) < w {
      assert r[..k] == Parent(r)[..k] == w[..k];
    }
  }

  /** A place is not on the way to another one. */
  lemma PlaceOffWay(remote: Fs, files: set<Path>, route: Route, p: Path, q: Path)
    requires Tree(remote) && AreFiles(remote, files, route.src) && Apart(files, route)
    requires p in files && q in files
    ensures !(Place(route, q) < OnWay(route, p))
  {
    hide Tree;
    if route.way == route.dst {
      PlaceOrder(route, q, p);
      NoFileBelowFile(remote, files, route.src, q, p);
    } else {
      ParentBelow(Place(route, q), OnWay(route, p), 0);
    }
  }

  /** Nothing delivered gets in the way of another file. */
  lemma FitAfterIff(remote: Fs, all: set<Path>, files: set<Path>, route: Route, fs: Fs, fs1: Fs, p: Path)
    requires Tree(remote) && AreFiles(remote, all, route.src) && AreFiles(remote, files, route.src)
    requires Apart(all, route) && files <= all && p in all
    requires Fits(files, route, fs) && Delivered(remote, files, route, fs, fs1)
    ensures Fit(route, fs1, p) <==> Fit(route, fs, p)
  {
    hide Tree, Apart;
    var r, w := Place(route, p), OnWay(route, p);
    forall q | q < w
      ensures (q in fs1 ==> fs1[q].Dir?) <==> (q in fs ==> fs[q].Dir?)
    {
      assert At(fs1, q) == Want(remote, files, route, fs, q);
      if route.dst <= q && Origin(route, q) in files {
        OriginPlace(route, q);
        PlaceOffWay(remote, all, route, p, Origin(route, q));
      }
    }
    assert IsDir(fs1, r) <==> IsDir(fs, r) by {
      assert At(fs1, r) == Want(remote, files, route, fs, r);
      PlaceOrder(route, p, p);
      if LeadsTo(files, route, r) {
        var p1 :| p1 in files && route.src <= p1 && r < OnWay(route, p1);
        PlaceOffWay(remote, all, route, p1, p);
      }
      if p in files { assert !IsDir(fs, r); }
    }
    if w != [] { OpenWayBelow(fs, fs1, w); }
    if route.way != route.dst && r != [] {
      DirAfterIff(remote, all, files, route, fs, fs1, p);
    }
  }

  lemma OpenWayBelow(fs: Fs, fs1: Fs, w: Path)
    requires w != []
    requires forall q :: q < w ==> ((q in fs1 ==> fs1[q].Dir?) <==> (q in fs ==> fs[q].Dir?))
    ensures OpenWay(fs1, w) <==> OpenWay(fs, w)
    ensures OpenWay(fs1, Parent(w)) <==> OpenWay(fs, Parent(w))
  {
    forall q | (q in fs || q in fs1) && q < Parent(w) ensures q < w {
      assert q == w[..|q|];
    }
  }

  lemma DirAfterIff(remote: Fs, all: set<Path>, files: set<Path>, route: Route, fs: Fs, fs1: Fs, p: Path)
    requires Tree(remote) && AreFiles(remote, all, route.src) && AreFiles(remote, files, route.src)
    requires Apart(all, route) && files <= all && p in all && route.way != route.dst
    requires Delivered(remote, files, route, fs, fs1) && Place(route, p) != []
    ensures IsDir(fs1, Parent(Place(route, p))) <==> IsDir(fs, Parent(Place(route, p)))
  {
    hide Tree;
    var r := Place(route, p);
    var q := Parent(r);
    assert At(fs1, q) == Want(remote, files, route, fs, q);
    if route.dst <= q && Origin(route, q) in files {
      var p1 := Origin(route, q);
      OriginPlace(route, q);
      assert q < r;
      PlaceOrder(route, p1, p);
      NoFileBelowFile(remote, all, route.src, p1, p);
    }
    assert !LeadsTo(files, route, q);
  }

  lemma FitsBothIff(remote: Fs, one: set<Path>, two: set<Path>, route: Route, fs: Fs, fs1: Fs)
    requires Tree(remote) && AreFiles(remote, one, route.src) && AreFiles(remote, two, route.src)
    requires Apart(one + two, route)
    requires Fits(one, route, fs) && Delivered(remote, one, route, fs, fs1)
    ensures Fits(two, route, fs1) <==> Fits(one + two, route, fs)
  {
    hide Tree, Fit, Delivered, Apart;
    BothAreFiles(remote, one, two, route.src);
    forall p | p in two ensures Fit(route, fs1, p) <==> Fit(route, fs, p) {
      FitAfterIff(remote, one + two, one, route, fs, fs1, p);
    }
    assert forall p :: p in one + two <==> p in one || p in two;
  }

  lemma LeadsToBoth(one: set<Path>, two: set<Path>, route: Route, q: Path)
    ensures LeadsTo(one + two, route, q) <==> LeadsTo(one, route, q) || LeadsTo(two, route, q)
  {
    if LeadsTo(one, route, q) {
      var p :| p in one && route.src <= p && q < OnWay(route, p);
      assert p in one + two;
    }
    if LeadsTo(two, route, q) {
      var p :| p in two && route.src <= p && q < OnWay(route, p);
      assert p in one + two;
    }
  }

  lemma LeadsElsewhere(remote: Fs, one: set<Path>, two: set<Path>, route: Route, q: Path)
    requires Tree(remote) && AreFiles(remote, one, route.src) && AreFiles(remote, two, route.src)
    requires Apart(one + two, route)
    ensures route.dst <= q && Origin(route, q) in two ==> !LeadsTo(one, route, q)
  {
    hide Tree, Apart;
    if route.dst <= q && Origin(route, q) in two && LeadsTo(one, route, q) {
      var p :| p in one && route.src <= p && q < OnWay(route, p);
      OriginPlace(route, q);
      BothAreFiles(remote, one, two, route.src);
      PlaceOffWay(remote, one + two, route, p, Origin(route, q));
    }
  }

  lemma DeliveredBoth(remote: Fs, one: set<Path>, two: set<Path>, route: Route, fs: Fs, fs1: Fs, fs': Fs)
    requires Tree(remote) && AreFiles(remote, one, route.src) && AreFiles(remote, two, route.src)
    requires AreFiles(remote, one + two, route.src) && Apart(one + two, route)
    requires Delivered(remote, one, route, fs, fs1)
    ensures Delivered(remote, two, route, fs1, fs') ==> Delivered(remote, one + two, route, fs, fs')
    ensures Partly(remote, two, route, fs1, fs') ==> Partly(remote, one + two, route, fs, fs')
  {
    hide LeadsTo, Tree, Apart;
    forall q
      ensures At(fs', q) == Want(remote, two, route, fs1, q)
          ==> At(fs', q) == Want(remote, one + two, route, fs, q)
      ensures At(fs', q) == At(fs1, q)
          ==> At(fs', q) == At(fs, q) || At(fs', q) == Want(remote, one + two, route, fs, q)
    {
      LeadsToBoth(one, two, route, q);
      LeadsElsewhere(remote, one, two, route, q);
      assert At(fs1, q) == Want(remote, one, route, fs, q);
    }
  }

  lemma PartlyMore(remote: Fs, one: set<Path>, two: set<Path>, route: Route, fs: Fs, fs': Fs)
    requires Tree(remote) && AreFiles(remote, one, route.src) && AreFiles(remote, two, route.src)
    requires AreFiles(remote, one + two, route.src) && Apart(one + two, route)
    requires Partly(remote, one, route, fs, fs')
    ensures Partly(remote, one + two, route, fs, fs')
  {
    hide LeadsTo, Tree, Apart;
    forall q
      ensures Want(remote, one, route, fs, q) == At(fs, q)
           || Want(remote, one, route, fs, q) == Want(remote, one + two, route, fs, q)
    {
      LeadsToBoth(one, two, route, q);
      LeadsElsewhere(remote, one, two, route, q);
    }
  }

  // ----- One file -----

  /** Where the directory of a download stands already as a file, and its path ends in a dot. */
  predicate DotDir(fs: Fs, local: string) {
    NamesDir(DownloadDir(local)) && Components(DownloadDir(local)) in fs && fs[Components(DownloadDir(local))].File?
  }

  /** The directories are made from the root exactly when no file is in their way. */
  lemma LocalDirWorks(fs: Fs, cwd: Path, local: string)
    requires Tree(fs) && Plain(local)
    ensures var (fs1, made) := MakeLocalDir(fs, cwd, DownloadDir(local));
            var dir := Components(DownloadDir(local));
            && Tree(fs1) && (made <==> OpenWay(fs, dir) && !DotDir(fs, local)) && (made ==> Made(fs, fs1, dir))
            && Grown(fs, fs1, dir)
  {
    hide Tree, OpenWay, Made, Grown, Plain, DownloadDir, Components, NamesDir, MkdirFrom, ProperNames;
    var dir := Components(DownloadDir(local));
    DownloadDirIs(cwd, local);
    TreeHasRoot(fs);
    if dir in fs {
      StandingWay(fs, dir);
      NothingGrown(fs, dir);
    }
    MkdirKeepsTree(fs, [], dir);
    MkdirMakes(fs, [], dir);
    assert [] + dir == dir;
    MkdirGrows(fs, [], dir);
  }

  lemma OwnPlaceOffWay(remote: Fs, p: Path, route: Route, q: Path)
    requires Tree(remote) && AreFiles(remote, {p}, route.src) && Apart({p}, route) && p in {p}
    requires q < OnWay(route, p)
    ensures !(route.dst <= q && Origin(route, q) == p)
    ensures q != Place(route, p) && LeadsTo({p}, route, q)
  {
    hide Tree, Apart;
    PlaceOffWay(remote, {p}, route, p, p);
    if route.dst <= q { OriginPlace(route, q); }
  }

  lemma PartlyDir(remote: Fs, p: Path, route: Route, fs: Fs, fs1: Fs)
    requires Tree(remote) && p in {p} && AreFiles(remote, {p}, route.src) && Apart({p}, route) && OnWay(route, p) != []
    requires Grown(fs, fs1, Parent(OnWay(route, p)))
    ensures Partly(remote, {p}, route, fs, fs1)
  {
    hide Tree, Apart, LeadsTo;
    var w := OnWay(route, p);
    forall q | q <= Parent(w) && q !in fs ensures Want(remote, {p}, route, fs, q) == Some(Dir) {
      BelowParentIff(w, q);
      OwnPlaceOffWay(remote, p, route, q);
    }
  }

  lemma OneDelivered(remote: Fs, p: Path, route: Route, fs: Fs, fs1: Fs)
    requires Tree(remote) && p in {p} && AreFiles(remote, {p}, route.src) && Apart({p}, route) && OnWay(route, p) != []
    requires Made(fs, fs1, Parent(OnWay(route, p)))
    ensures Delivered(remote, {p}, route, fs, fs1[Place(route, p) := remote[p]])
  {
    hide Tree, Apart;
    var r, w := Place(route, p), OnWay(route, p);
    var fs' := fs1[r := remote[p]];
    PlaceOrder(route, p, p);
    forall q ensures At(fs', q) == Want(remote, {p}, route, fs, q) {
      assert At(fs1, q) == if q <= Parent(w) && q !in fs then Some(Dir) else At(fs, q);
      BelowParentIff(w, q);
      assert LeadsTo({p}, route, q) <==> q < w;
      if q < w { OwnPlaceOffWay(remote, p, route, q); }
      if route.dst <= q && Origin(route, q) == p {
        OriginPlace(route, q);
      }
    }
  }

  /** What copying some files comes to: it succeeds exactly when the names can be read and
      every file fits, it then has delivered them, and otherwise some of them. */
  ghost predicate Does(remote: Fs, files: set<Path>, readable: bool, route: Route, fs: Fs, fs': Fs, outcome: Outcome)
    requires AreFiles(remote, files, route.src)
  {
    && Tree(fs')
    && (outcome == Ok <==> readable && Fits(files, route, fs))
    && (outcome == Ok ==> Delivered(remote, files, route, fs, fs'))
    && (outcome == LocalError ==> !Fits(files, route, fs))
    && Partly(remote, files, route, fs, fs')
  }

  lemma DeliveredPartly(remote: Fs, files: set<Path>, route: Route, fs: Fs, fs': Fs)
    requires AreFiles(remote, files, route.src) && Delivered(remote, files, route, fs, fs')
    ensures Partly(remote, files, route, fs, fs')
  {
  }

  lemma FitsOneIff(p: Path, route: Route, fs: Fs)
    requires route.src <= p
    ensures Fits({p}, route, fs) <==> Fit(route, fs, p)
  {
    assert p in {p};
  }

  /** The local path of a file stands for its place, and its names for the way. */
  ghost predicate Stands(route: Route, p: Path, cwd: Path, local: string)
    requires route.src <= p
  {
    && Plain(local)
    && Resolve(cwd, local) == Place(route, p) && Components(local) == OnWay(route, p)
    && (route.way == route.dst || Tidy(local))
  }

  lemma GetWorks(remote: Fs, p: Path, route: Route, fs: Fs, cwd: Path, local: string)
    requires Tree(remote) && p in remote && remote[p].File? && AreFiles(remote, {p}, route.src) && Apart({p}, route)
    requires Tree(fs) && route.src <= p && Stands(route, p, cwd, local) && !NamesDir(local)
    ensures var (fs', outcome) := Get(remote[p].data, fs, cwd, local);
            Does(remote, {p}, true, route, fs, fs', outcome)
  {
    hide Tree, OpenWay, Made, Grown, Plain, NamesDir, LastPiece, MakeLocalDir, Components, Resolve;
    hide Delivered, Partly, Fits, Apart, Tidy;
    var r, w := Place(route, p), OnWay(route, p);
    SplitCutsLast(cwd, local);
    DownloadDirIs(cwd, local);
    var (fs1, made) := MakeLocalDir(fs, cwd, DownloadDir(local));
    LocalDirWorks(fs, cwd, local);
    FitsOneIff(p, route, fs);
    PartlyDir(remote, p, route, fs, fs1);
    SplitName(cwd, local);
    if made {
      RoomIff(remote, p, route, fs, fs1, cwd, local);
      if CanOpen(fs1, cwd, local) {
        AddKeepsTree(fs1, r, remote[p]);
        OneDelivered(remote, p, route, fs, fs1);
        DeliveredPartly(remote, {p}, route, fs, fs1[r := remote[p]]);
      }
    } else {
      NoRoom(p, route, fs, cwd, local);
    }
  }

  lemma SplitName(cwd: Path, local: string)
    requires Plain(local) && !NamesDir(local)
    ensures var r := Resolve(cwd, local); r != [] && IsName(r[|r| - 1])
  {
    SplitCutsLast(cwd, local);
  }

  /** With its directories made, a file can be opened exactly when it fits. */
  lemma RoomIff(remote: Fs, p: Path, route: Route, fs: Fs, fs1: Fs, cwd: Path, local: string)
    requires Tree(remote) && p in {p} && AreFiles(remote, {p}, route.src) && Apart({p}, route)
    requires Stands(route, p, cwd, local) && !NamesDir(local)
    requires OnWay(route, p) != [] && Place(route, p) != []
    requires OpenWay(fs, Parent(OnWay(route, p))) && Made(fs, fs1, Parent(OnWay(route, p)))
    ensures CanOpen(fs1, cwd, local) <==> Fit(route, fs, p)
  {
    hide Tree, OpenWay, Plain, NamesDir, Components, Resolve, Tidy;
    var r, w := Place(route, p), OnWay(route, p);
    PlaceOffWay(remote, {p}, route, p, p);
    BelowParentIff(w, r);
    assert At(fs1, r) == if r <= Parent(w) && r !in fs then Some(Dir) else At(fs, r);
    if route.way == route.dst {
      MadeThere(fs, fs1, Parent(w));
      OpenWayParent(fs, r);
    } else {
      BelowParentIff(w, Parent(r));
      assert !(Parent(r) < w);
      assert At(fs1, Parent(r)) == At(fs, Parent(r));
    }
  }

  /** Where they cannot be made it does not fit. */
  lemma NoRoom(p: Path, route: Route, fs: Fs, cwd: Path, local: string)
    requires Tree(fs) && route.src <= p && Stands(route, p, cwd, local) && !NamesDir(local)
    requires OnWay(route, p) != [] && Components(DownloadDir(local)) == Parent(OnWay(route, p))
    requires !(OpenWay(fs, Parent(OnWay(route, p))) && !DotDir(fs, local))
    ensures !Fit(route, fs, p)
  {
    hide OpenWay, Plain, NamesDir, Components, Resolve, DownloadDir;
    TreeHasRoot(fs);
    OpenWayParent(fs, OnWay(route, p));
  }

  // ----- Names and their lines -----

  lemma {:induction false} LineIsUnbroken(s: string, l: string)
    requires '/' !in s && l in SplitLines(s)
    ensures Unbroken(l) && '/' !in l
    decreases |s|
  {
    var rest := AfterBreak(s);
    if l in SplitLines(rest) {
      assert forall k :: 0 <= k < |rest| ==> rest[k] in s;
      LineIsUnbroken(rest, l);
    }
  }

  lemma UnbrokenIsOneLine(s: string)
    requires Unbroken(s) && s != ""
    ensures SplitLines(s) == [s]
  {
    assert s[..|s|] == s;
    assert SplitLines("") == [];
  }

  lemma {:induction false} LinesOfIff(names: seq<Name>, l: string)
    ensures l in LinesOf(names) <==> exists n :: n in names && l in SplitLines(n)
  {
    hide SplitLines;
    if names != [] {
      var k := |names| - 1;
      LinesOfIff(names[..k], l);
      assert names == names[..k] + [names[k]];
      if exists n :: n in names[..k] && l in SplitLines(n) {
        var n :| n in names[..k] && l in SplitLines(n);
        assert n in names;
      } else if l in SplitLines(names[k]) {
        assert names[k] in names;
      }
    }
  }

  // ----- The files that a download can reach -----

  /** No name on the way from `p` to `q` holds a line break. */
  predicate Clean(p: Path, q: Path) {
    p <= q && forall k :: |p| <= k < |q| ==> Unbroken(q[k])
  }

  function CleanFiles(remote: Fs, p: Path): set<Path> {
    set q | q in remote && remote[q].File? && Clean(p, q)
  }

  function CleanIn(remote: Fs, p: Path, lines: seq<string>): set<Path> {
    set q | q in remote && remote[q].File? && Clean(p, q) && p < q && q[|p|] in lines
  }

  /** Every line of the name of an entry of `d` names an entry of `d`. */
  ghost predicate LinesThere(remote: Fs, d: Path, n: Name) {
    forall l :: l in SplitLines(n) ==> IsDots(l) || d + [l] in remote
  }

  /** That holds in each directory that is reached: names with line breaks do no harm. */
  ghost predicate Readable(remote: Fs, p: Path) {
    forall d, n {:trigger LinesThere(remote, d, n)} :: d + [n] in remote && Clean(p, d) ==> LinesThere(remote, d, n)
  }

  ghost predicate LinesReadable(remote: Fs, p: Path, lines: seq<string>) {
    forall l :: l in lines ==> IsDots(l) || (p + [l] in remote && Readable(remote, p + [l]))
  }

  lemma CleanStep(p: Path, l: Name, q: Path)
    requires Unbroken(l)
    ensures Clean(p + [l], q) <==> Clean(p, q) && p < q && q[|p|] == l
  {
    Branch(p, p, l, q);
  }

  lemma CleanFilesAre(remote: Fs, p: Path, src: Path)
    requires src <= p
    ensures AreFiles(remote, CleanFiles(remote, p), src)
    ensures forall lines :: AreFiles(remote, CleanIn(remote, p, lines), src)
  {
    forall q | q in remote && p <= q ensures src <= q {
      assert q[..|p|][..|src|] == q[..|src|];
    }
  }

  lemma NoEntryOfFile(remote: Fs, p: Path, d: Path, n: Name)
    requires Tree(remote) && p in remote && remote[p].File?
    ensures p <= d ==> d + [n] !in remote
  {
    hide Tree;
    if p <= d && d + [n] in remote {
      assert p < d + [n];
      PrefixIsDir(remote, d + [n], p);
    }
  }

  lemma CleanFileIs(remote: Fs, p: Path)
    requires Tree(remote) && p in remote && remote[p].File?
    ensures CleanFiles(remote, p) == {p} && Readable(remote, p)
  {
    hide Tree, LinesThere;
    forall q | q in remote && p <= q ensures q == p {
      assert q == p + q[|p|..];
      NothingUnderFile(remote, p, q[|p|..]);
    }
    forall d, n ensures Clean(p, d) ==> d + [n] !in remote {
      NoEntryOfFile(remote, p, d, n);
    }
  }

  lemma DotsHaveNoFiles(remote: Fs, p: Path, l: string, rest: seq<string>)
    requires Tree(remote) && IsDots(l)
    ensures CleanIn(remote, p, [l] + rest) == CleanIn(remote, p, rest)
  {
    hide Tree, Clean;
    forall q | q in remote && p < q ensures q[|p|] != l {
      NamesAreProper(remote, q);
    }
  }

  lemma LineHasFiles(remote: Fs, p: Path, l: string, rest: seq<string>)
    requires Unbroken(l)
    ensures CleanIn(remote, p, [l] + rest) == CleanFiles(remote, p + [l]) + CleanIn(remote, p, rest)
  {
    hide Clean, Unbroken;
    forall q ensures Clean(p + [l], q) <==> Clean(p, q) && p < q && q[|p|] == l {
      CleanStep(p, l, q);
    }
  }

  lemma NoLineNoFiles(remote: Fs, p: Path)
    ensures CleanIn(remote, p, []) == {}
  {
  }

  lemma EntryIsLine(remote: Fs, ls: Listing, p: Path, q: Path)
    requires Tree(remote) && ReadsAt(remote, ls, p) && q in remote && p < q && Unbroken(q[|p|])
    ensures q[|p|] in LinesOf(ls(p)) && p + [q[|p|]] in remote
  {
    hide Tree, Unbroken, SplitLines, LinesOf;
    var n := q[|p|];
    assert q == p + q[|p|..] && q[|p|..][0] == n;
    ChildIsThere(remote, p, q[|p|..]);
    EntryIsName(remote, p, n);
    UnbrokenIsOneLine(n);
    assert n in SplitLines(n);
    LinesOfIff(ls(p), n);
  }

  lemma CleanFilesIn(remote: Fs, ls: Listing, p: Path)
    requires Tree(remote) && IsDir(remote, p) && ReadsAt(remote, ls, p)
    ensures CleanFiles(remote, p) == CleanIn(remote, p, LinesOf(ls(p)))
  {
    hide Tree, ReadsAt, Unbroken, LinesOf;
    forall q | q in remote && remote[q].File? && Clean(p, q) ensures p < q && q[|p|] in LinesOf(ls(p)) {
      PrefixCases(p, q);
      EntryIsLine(remote, ls, p, q);
    }
  }

  lemma LineIsReadable(remote: Fs, ls: Listing, p: Path, l: string)
    requires Tree(remote) && ReadsAt(remote, ls, p) && l in LinesOf(ls(p)) && Readable(remote, p)
    ensures IsDots(l) || (p + [l] in remote && Readable(remote, p + [l]))
  {
    hide Tree, SplitLines, LinesOf;
    LinesOfIff(ls(p), l);
    var n :| n in ls(p) && l in SplitLines(n);
    if IsDots(n) {
      assert Unbroken(n);
      UnbrokenIsOneLine(n);
    } else {
      assert Clean(p, p);
      assert LinesThere(remote, p, n);
      EntryIsName(remote, p, n);
      LineIsUnbroken(n, l);
      forall d, m | d + [m] in remote && Clean(p + [l], d) ensures LinesThere(remote, d, m) {
        CleanStep(p, l, d);
      }
    }
  }

  lemma ReadableIff(remote: Fs, ls: Listing, p: Path)
    requires Tree(remote) && IsDir(remote, p) && ReadsAt(remote, ls, p)
    ensures Readable(remote, p) <==> LinesReadable(remote, p, LinesOf(ls(p)))
  {
    hide Tree, Unbroken, SplitLines, LinesOf;
    if Readable(remote, p) {
      forall l | l in LinesOf(ls(p)) ensures IsDots(l) || (p + [l] in remote && Readable(remote, p + [l])) {
        LineIsReadable(remote, ls, p, l);
      }
    }
    if LinesReadable(remote, p, LinesOf(ls(p))) {
      forall d, n | d + [n] in remote && Clean(p, d) ensures LinesThere(remote, d, n) {
        EntryIsReadable(remote, ls, p, d, n);
      }
    }
  }

  lemma EntryIsReadable(remote: Fs, ls: Listing, p: Path, d: Path, n: Name)
    requires Tree(remote) && ReadsAt(remote, ls, p) && LinesReadable(remote, p, LinesOf(ls(p)))
    requires d + [n] in remote && Clean(p, d)
    ensures LinesThere(remote, d, n)
  {
    hide Tree, Unbroken, SplitLines, LinesOf;
    if d == p {
      forall l | l in SplitLines(n) ensures IsDots(l) || p + [l] in remote {
        LinesOfIff(ls(p), l);
      }
    } else {
      PrefixCases(p, d);
      assert d < d + [n];
      PrefixIsDir(remote, d + [n], d);
      EntryIsLine(remote, ls, p, d);
      var l := d[|p|];
      EntryIsName(remote, p, l);
      CleanStep(p, l, d);
      assert Readable(remote, p + [l]);
    }
  }

  // ----- The whole copy -----

  ghost predicate ProperLines(lines: seq<string>) {
    forall l :: l in lines ==> Unbroken(l) && '/' !in l
  }

  lemma ListedLines(remote: Fs, ls: Listing, p: Path)
    requires Tree(remote) && ReadsAt(remote, ls, p)
    ensures ProperLines(LinesOf(ls(p)))
  {
    hide Tree, Unbroken, SplitLines, LinesOf;
    forall l | l in LinesOf(ls(p)) ensures Unbroken(l) && '/' !in l {
      LinesOfIff(ls(p), l);
      var n :| n in ls(p) && l in SplitLines(n);
      if !IsDots(n) { EntryIsName(remote, p, n); }
      LineIsUnbroken(n, l);
    }
  }

  lemma ChildStands(route: Route, p: Path, l: Name, cwd: Path, local: string)
    requires route.src <= p && Stands(route, p, cwd, local) && IsName(l)
    ensures Stands(route, p + [l], cwd, OsJoin(local, l)) && !NamesDir(OsJoin(local, l))
  {
    hide Plain, NamesDir, Tidy, Components, Resolve, OsJoin, IsName, NonEmpty, Pieces;
    assert (p + [l])[|route.src|..] == p[|route.src|..] + [l];
    OsJoinDescends(cwd, local, l);
    if Tidy(local) { TidyJoin(local, l); }
  }

  lemma ApartParts(one: set<Path>, two: set<Path>, route: Route)
    requires Apart(one + two, route)
    ensures Apart(one, route) && Apart(two, route)
  {
    assert forall p :: p in one || p in two ==> p in one + two;
  }

  lemma NothingDone(remote: Fs, files: set<Path>, route: Route, fs: Fs)
    requires AreFiles(remote, files, route.src)
    ensures Partly(remote, files, route, fs, fs)
    ensures files == {} ==> Delivered(remote, files, route, fs, fs) && Fits(files, route, fs)
  {
  }

  lemma {:induction false} CopyRemoteWorks(
    remote: Fs, ls: Listing, p: Path, route: Route, fs: Fs, cwd: Path, local: string)
    requires Tree(remote) && Reads(remote, ls) && p in remote && route.src <= p
    requires Tree(fs) && Stands(route, p, cwd, local) && (IsDir(remote, p) || !NamesDir(local))
    requires Apart(CleanFiles(remote, p), route)
    ensures AreFiles(remote, CleanFiles(remote, p), route.src)
    ensures var (fs', outcome) := CopyRemote(remote, ls, p, fs, cwd, local, true);
            Does(remote, CleanFiles(remote, p), Readable(remote, p), route, fs, fs', outcome)
    decreases Under(remote, p), 1, 0
  {
    hide Tree, Reads, Does, AreFiles, Stands, Apart, NamesDir, CleanFiles, CleanIn, Readable;
    hide LinesReadable, LinesOf, Get;
    CleanFilesAre(remote, p, route.src);
    if remote[p].File? {
      CleanFileIs(remote, p);
      GetWorks(remote, p, route, fs, cwd, local);
    } else {
      ReadsThere(remote, ls, p);
      CleanFilesIn(remote, ls, p);
      ReadableIff(remote, ls, p);
      ListedLines(remote, ls, p);
      CopyLinesWorks(remote, ls, p, LinesOf(ls(p)), route, fs, cwd, local);
    }
  }

  lemma ReadsThere(remote: Fs, ls: Listing, p: Path)
    requires Reads(remote, ls) && IsDir(remote, p)
    ensures ReadsAt(remote, ls, p)
  {
  }

  lemma {:induction false} CopyLinesWorks(
    remote: Fs, ls: Listing, p: Path, lines: seq<string>, route: Route, fs: Fs, cwd: Path, local: string)
    requires Tree(remote) && Reads(remote, ls) && route.src <= p && ProperLines(lines)
    requires Tree(fs) && Stands(route, p, cwd, local) && Apart(CleanIn(remote, p, lines), route)
    ensures AreFiles(remote, CleanIn(remote, p, lines), route.src)
    ensures var (fs', outcome) := CopyLines(remote, ls, p, lines, fs, cwd, local);
            Does(remote, CleanIn(remote, p, lines), LinesReadable(remote, p, lines), route, fs, fs', outcome)
    decreases Under(remote, p), 0, |lines|
  {
    hide Tree, Reads, Does, AreFiles, Stands, Apart, NamesDir, CleanFiles, CleanIn, Readable;
    hide LinesReadable, CopyRemote, OsJoin, Unbroken, Clean;
    CleanFilesAre(remote, p, route.src);
    if lines == [] {
      NoLines(remote, p, route, fs);
    } else {
      var l, rest := lines[0], lines[1..];
      assert lines == [l] + rest;
      if IsDots(l) {
        DotsHaveNoFiles(remote, p, l, rest);
        CopyLinesWorks(remote, ls, p, rest, route, fs, cwd, local);
        DotsReadable(remote, p, l, rest);
      } else if l == "" || p + [l] !in remote {
        Unreadable(remote, p, lines, route, fs, if l == "" then Endless else SftpIoError);
      } else {
        UnderShrinks(remote, p, l);
        ChildStands(route, p, l, cwd, local);
        LineHasFiles(remote, p, l, rest);
        ApartParts(CleanFiles(remote, p + [l]), CleanIn(remote, p, rest), route);
        CopyRemoteWorks(remote, ls, p + [l], route, fs, cwd, OsJoin(local, l));
        LineReadable(remote, p, l, rest);
        var (fs1, outcome) := CopyRemote(remote, ls, p + [l], fs, cwd, OsJoin(local, l), true);
        var one, two := CleanFiles(remote, p + [l]), CleanIn(remote, p, rest);
        if outcome == Ok {
          DoesTree(remote, one, Readable(remote, p + [l]), route, fs, fs1, outcome);
          CopyLinesWorks(remote, ls, p, rest, route, fs1, cwd, local);
          var (fs', last) := CopyLines(remote, ls, p, rest, fs1, cwd, local);
          DoesBoth(
            remote, one, Readable(remote, p + [l]), two, LinesReadable(remote, p, rest), route, fs, fs1, fs', last);
        } else {
          DoesFirst(
            remote, one, Readable(remote, p + [l]), two, LinesReadable(remote, p, rest), route, fs, fs1, outcome);
        }
      }
    }
  }

  lemma NoLines(remote: Fs, p: Path, route: Route, fs: Fs)
    requires Tree(fs) && AreFiles(remote, CleanIn(remote, p, []), route.src)
    ensures Does(remote, CleanIn(remote, p, []), LinesReadable(remote, p, []), route, fs, fs, Ok)
  {
    hide Tree, Delivered, Partly, Fits, AreFiles;
    NoLineNoFiles(remote, p);
    NothingDone(remote, CleanIn(remote, p, []), route, fs);
  }

  lemma DotsReadable(remote: Fs, p: Path, l: string, rest: seq<string>)
    requires IsDots(l)
    ensures LinesReadable(remote, p, [l] + rest) <==> LinesReadable(remote, p, rest)
  {
    hide Readable;
    assert forall m :: m in [l] + rest <==> m == l || m in rest;
  }

  lemma LineReadable(remote: Fs, p: Path, l: string, rest: seq<string>)
    requires !IsDots(l) && p + [l] in remote
    ensures LinesReadable(remote, p, [l] + rest) <==> Readable(remote, p + [l]) && LinesReadable(remote, p, rest)
  {
    hide Readable;
    assert forall m :: m in [l] + rest <==> m == l || m in rest;
  }

  lemma Unreadable(remote: Fs, p: Path, lines: seq<string>, route: Route, fs: Fs, outcome: Outcome)
    requires Tree(remote) && Tree(fs) && AreFiles(remote, CleanIn(remote, p, lines), route.src)
    requires outcome == Endless || outcome == SftpIoError
    requires lines != [] && !IsDots(lines[0]) && (lines[0] == "" || p + [lines[0]] !in remote)
    ensures Does(remote, CleanIn(remote, p, lines), LinesReadable(remote, p, lines), route, fs, fs, outcome)
  {
    hide Tree, Partly, Fits, AreFiles, Readable, CleanIn;
    NothingDone(remote, CleanIn(remote, p, lines), route, fs);
    assert lines[0] in lines;
    if p + [lines[0]] in remote { EntryIsName(remote, p, lines[0]); }
  }

  lemma DoesTree(remote: Fs, files: set<Path>, readable: bool, route: Route, fs: Fs, fs': Fs, outcome: Outcome)
    requires AreFiles(remote, files, route.src) && Does(remote, files, readable, route, fs, fs', outcome)
    ensures Tree(fs')
  {
  }

  lemma BothAreFiles(remote: Fs, one: set<Path>, two: set<Path>, src: Path)
    requires AreFiles(remote, one, src) && AreFiles(remote, two, src)
    ensures AreFiles(remote, one + two, src)
  {
  }

  lemma DoesBoth(remote: Fs, one: set<Path>, first: bool, two: set<Path>, second: bool, route: Route,
                 fs: Fs, fs1: Fs, fs': Fs, outcome: Outcome)
    requires Tree(remote) && AreFiles(remote, one, route.src) && AreFiles(remote, two, route.src)
    requires Apart(one + two, route)
    requires Does(remote, one, first, route, fs, fs1, Ok) && Does(remote, two, second, route, fs1, fs', outcome)
    ensures AreFiles(remote, one + two, route.src)
    ensures Does(remote, one + two, first && second, route, fs, fs', outcome)
  {
    hide Tree, Partly, Fits, AreFiles, Delivered, Apart;
    BothAreFiles(remote, one, two, route.src);
    FitsBothIff(remote, one, two, route, fs, fs1);
    DeliveredBoth(remote, one, two, route, fs, fs1, fs');
  }

  lemma DoesFirst(remote: Fs, one: set<Path>, first: bool, two: set<Path>, second: bool, route: Route,
                  fs: Fs, fs1: Fs, outcome: Outcome)
    requires Tree(remote) && AreFiles(remote, one, route.src) && AreFiles(remote, two, route.src)
    requires Apart(one + two, route)
    requires Does(remote, one, first, route, fs, fs1, outcome) && outcome != Ok
    ensures AreFiles(remote, one + two, route.src)
    ensures Does(remote, one + two, first && second, route, fs, fs1, outcome)
  {
    hide Tree, Partly, AreFiles, Delivered, Fit, Apart;
    BothAreFiles(remote, one, two, route.src);
    PartlyMore(remote, one, two, route, fs, fs1);
  }

  // ----- Which error -----

  /** Some name that is met has a line of the kind. */
  ghost predicate HasBlankLine(remote: Fs, p: Path) {
    exists d, n {:trigger d + [n]} :: d + [n] in remote && Clean(p, d) && "" in SplitLines(n)
  }

  ghost predicate IsStray(remote: Fs, d: Path, l: string) {
    l != "" && !IsDots(l) && d + [l] !in remote
  }

  ghost predicate HasStrayLine(remote: Fs, p: Path) {
    exists d, n, l {:trigger d + [n], IsStray(remote, d, l)} ::
      d + [n] in remote && Clean(p, d) && l in SplitLines(n) && IsStray(remote, d, l)
  }

  /** The error says what went wrong with the names, if it was one of them. */
  ghost predicate NamesBlame(remote: Fs, p: Path, outcome: Outcome) {
    && outcome != ValueError
    && (outcome == Endless ==> HasBlankLine(remote, p))
    && (outcome == SftpIoError ==> HasStrayLine(remote, p))
  }

  lemma BlameBelow(remote: Fs, p: Path, l: Name, outcome: Outcome)
    requires Unbroken(l) && NamesBlame(remote, p + [l], outcome)
    ensures NamesBlame(remote, p, outcome)
  {
    hide SplitLines, IsStray, Unbroken;
    if outcome == Endless {
      var d, n :| d + [n] in remote && Clean(p + [l], d) && "" in SplitLines(n);
      CleanStep(p, l, d);
      assert d + [n] in remote && Clean(p, d);
    }
    if outcome == SftpIoError {
      var d, n, m :| d + [n] in remote && Clean(p + [l], d) && m in SplitLines(n) && IsStray(remote, d, m);
      CleanStep(p, l, d);
      assert d + [n] in remote && Clean(p, d) && IsStray(remote, d, m);
    }
  }

  /** A line that was read from a directory stands in the name of an entry, unless it is dots. */
  lemma LineFromEntry(remote: Fs, ls: Listing, p: Path, l: string) returns (n: Name)
    requires ReadsAt(remote, ls, p) && l in LinesOf(ls(p)) && !IsDots(l)
    ensures p + [n] in remote && l in SplitLines(n)
  {
    LinesOfIff(ls(p), l);
    n :| n in ls(p) && l in SplitLines(n);
    if IsDots(n) {
      UnbrokenIsOneLine(n);
    }
  }

  lemma {:induction false} CopyRemoteBlames(
    remote: Fs, ls: Listing, p: Path, fs: Fs, cwd: Path, local: string)
    requires Tree(remote) && Reads(remote, ls) && p in remote
    ensures NamesBlame(remote, p, CopyRemote(remote, ls, p, fs, cwd, local, true).1)
    decreases Under(remote, p), 1, 0
  {
    hide Tree, Reads, NamesBlame, LinesOf, Get;
    var outcome := CopyRemote(remote, ls, p, fs, cwd, local, true).1;
    if remote[p].File? {
      GetOutcome(remote[p].data, fs, cwd, local);
      NothingToBlame(remote, p, outcome);
    } else {
      ReadsThere(remote, ls, p);
      ListedLines(remote, ls, p);
      CopyLinesBlames(remote, ls, p, LinesOf(ls(p)), fs, cwd, local);
    }
  }

  lemma GetOutcome(data: Bytes, fs: Fs, cwd: Path, local: string)
    ensures Get(data, fs, cwd, local).1 == Ok || Get(data, fs, cwd, local).1 == LocalError
  {
  }

  lemma NothingToBlame(remote: Fs, p: Path, outcome: Outcome)
    requires outcome == Ok || outcome == LocalError
    ensures NamesBlame(remote, p, outcome)
  {
  }

  lemma BlameLine(remote: Fs, ls: Listing, p: Path, l: string)
    requires ReadsAt(remote, ls, p) && l in LinesOf(ls(p)) && !IsDots(l)
    ensures l == "" ==> NamesBlame(remote, p, Endless)
    ensures l != "" && p + [l] !in remote ==> NamesBlame(remote, p, SftpIoError)
  {
    hide SplitLines, LinesOf;
    var n := LineFromEntry(remote, ls, p, l);
    assert Clean(p, p);
    if l != "" && p + [l] !in remote {
      assert IsStray(remote, p, l);
    }
  }

  lemma {:induction false} CopyLinesBlames(
    remote: Fs, ls: Listing, p: Path, lines: seq<string>, fs: Fs, cwd: Path, local: string)
    requires Tree(remote) && Reads(remote, ls) && IsDir(remote, p) && ProperLines(lines)
    requires forall l :: l in lines ==> l in LinesOf(ls(p))
    ensures NamesBlame(remote, p, CopyLines(remote, ls, p, lines, fs, cwd, local).1)
    decreases Under(remote, p), 0, |lines|
  {
    hide Tree, Reads, NamesBlame, LinesOf, CopyRemote, OsJoin, Unbroken;
    if lines == [] {
      NothingToBlame(remote, p, Ok);
    } else {
      var l, rest := lines[0], lines[1..];
      assert l in lines && forall m :: m in rest ==> m in lines;
      ReadsThere(remote, ls, p);
      if IsDots(l) {
        CopyLinesBlames(remote, ls, p, rest, fs, cwd, local);
      } else if l == "" || p + [l] !in remote {
        BlameLine(remote, ls, p, l);
      } else {
        UnderShrinks(remote, p, l);
        CopyRemoteBlames(remote, ls, p + [l], fs, cwd, OsJoin(local, l));
        var (fs1, outcome) := CopyRemote(remote, ls, p + [l], fs, cwd, OsJoin(local, l), true);
        if outcome == Ok {
          CopyLinesBlames(remote, ls, p, rest, fs1, cwd, local);
        } else {
          BlameBelow(remote, p, l, outcome);
        }
      }
    }
  }

  // ----- Downloads -----

  function RouteTo(src: Path, cwd: Path, local: string): Route {
    Route(src, Resolve(cwd, local), Components(local))
  }

  /** What a relative path takes for the files not to disturb one another; an absolute one
      takes nothing. */
  ghost predicate Direct(remote: Fs, src: Path, cwd: Path, local: string) {
    Resolve(cwd, local) == Components(local)
    || (Tidy(local) && Apart(CleanFiles(remote, src), RouteTo(src, cwd, local)))
  }

  lemma AbsoluteIsDirect(remote: Fs, src: Path, cwd: Path, local: string)
    requires IsAbsolute(local) || cwd == []
    ensures Direct(remote, src, cwd, local)
  {
    hide Components, Tidy, Apart;
    assert [] + Components(local) == Components(local);
  }

  /** A relative path takes no more either when the place where it would be, taken from the
      root, does not lead to the working directory and on to the target. */
  lemma ElsewhereIsDirect(remote: Fs, src: Path, cwd: Path, local: string)
    requires cwd != [] && Tidy(local) && !IsAbsolute(local) && !(Components(local) <= cwd + Components(local))
    ensures Direct(remote, src, cwd, local)
  {
    hide Components, Tidy, Clean;
    var route := RouteTo(src, cwd, local);
    var way, dst := route.way, route.dst;
    forall p, q | src <= p && src <= q
      ensures Place(route, q) != [] && !(Parent(Place(route, q)) < OnWay(route, p))
    {
      var r, w := Place(route, q), OnWay(route, p);
      assert r[..|way|] == dst[..|way|] && w[..|way|] == way;
      ParentBelow(r, w, |way|);
    }
  }

  /** A recursive download, which names a file if it copies one, succeeds exactly when every
      name that is met falls into lines that name entries, and every file fits: for an absolute
      path, no file or directory is in its way.  Then every file whose relative path holds no
      line break is at its relative place, its directories were made from the root, and nothing
      else changed.  However it ends, every path is as it was or as it is to be. */
  lemma DownloadDelivers(remote: Fs, ls: Listing, src: Path, fs: Fs, cwd: Path, local: string)
    requires Tree(remote) && Reads(remote, ls) && src in remote
    requires Tree(fs) && Plain(local) && (IsDir(remote, src) || !NamesDir(local))
    requires Direct(remote, src, cwd, local)
    ensures AreFiles(remote, CleanFiles(remote, src), src)
    ensures var (fs', outcome) := CopyRemote(remote, ls, src, fs, cwd, local, true);
            var route, files := RouteTo(src, cwd, local), CleanFiles(remote, src);
            && (outcome == Ok <==> Readable(remote, src) && Fits(files, route, fs))
            && (outcome == Ok ==> Delivered(remote, files, route, fs, fs'))
            && (outcome == LocalError ==> !Fits(files, route, fs))
            && Partly(remote, files, route, fs, fs')
            && Tree(fs')
  {
    hide Tree, Reads, Delivered, Partly, Fits, AreFiles, Plain, NamesDir, Tidy, Resolve;
    hide Components, CleanFiles, Readable, Get, CopyLines;
    var route := RouteTo(src, cwd, local);
    assert Place(route, src) == route.dst && OnWay(route, src) == route.way;
    assert Stands(route, src, cwd, local);
    CopyRemoteWorks(remote, ls, src, route, fs, cwd, local);
  }

  /** The flag makes no difference to a file. */
  lemma FlagIsForDirs(remote: Fs, ls: Listing, src: Path, fs: Fs, cwd: Path, local: string)
    requires !IsDir(remote, src)
    ensures CopyRemote(remote, ls, src, fs, cwd, local, false) == CopyRemote(remote, ls, src, fs, cwd, local, true)
  {
  }

  /** Any other download fails, and at most makes directories on the way to its path. */
  lemma DownloadRefused(remote: Fs, ls: Listing, src: Path, fs: Fs, cwd: Path, local: string, recurse: bool)
    requires Tree(fs) && Plain(local)
    requires src in remote ==> if IsDir(remote, src) then !recurse else NamesDir(local)
    ensures var (fs', outcome) := CopyRemote(remote, ls, src, fs, cwd, local, recurse);
            && outcome == (if src !in remote then SftpIoError
                           else if IsDir(remote, src) then ValueError
                           else LocalError)
            && Grown(fs, fs', Components(local))
            && (src !in remote || IsDir(remote, src) ==> fs' == fs)
  {
    hide Tree, OpenWay, Made, Grown, Plain, NamesDir, LastPiece, MakeLocalDir, Components, CopyLines;
    NothingGrown(fs, Components(local));
    if src in remote && remote[src].File? {
      DownloadDirIs(cwd, local);
      LocalDirWorks(fs, cwd, local);
      var made := MakeLocalDir(fs, cwd, DownloadDir(local)).0;
      GrownFurther(fs, made, Components(DownloadDir(local)), Components(local));
      assert CopyRemote(remote, ls, src, fs, cwd, local, recurse) == (made, LocalError);
    }
  }

  lemma GrownFurther(fs: Fs, fs': Fs, p: Path, q: Path)
    requires Grown(fs, fs', p) && p <= q
    ensures Grown(fs, fs', q)
  {
    forall r | r <= p && r !in fs ensures r <= q {
      assert q[..|p|][..|r|] == q[..|r|];
    }
  }

  ghost predicate NoBreaks(fs: Fs, p: Path) {
    forall q :: q in fs && p <= q ==> Clean(p, q)
  }

  function FilesBelow(fs: Fs, p: Path): set<Path> {
    set q | q in fs && fs[q].File? && p <= q
  }

  /** Without line breaks in the names nothing stops the download but what is in the way, and
      every file is delivered. */
  lemma UnbrokenNamesDeliver(remote: Fs, ls: Listing, src: Path, fs: Fs, cwd: Path, local: string)
    requires Tree(remote) && Reads(remote, ls) && src in remote && NoBreaks(remote, src)
    requires Tree(fs) && Plain(local) && (IsDir(remote, src) || !NamesDir(local))
    requires Direct(remote, src, cwd, local)
    ensures AreFiles(remote, FilesBelow(remote, src), src)
    ensures var (fs', outcome) := CopyRemote(remote, ls, src, fs, cwd, local, true);
            var route, files := RouteTo(src, cwd, local), FilesBelow(remote, src);
            && (outcome == Ok <==> Fits(files, route, fs))
            && (outcome == Ok ==> Delivered(remote, files, route, fs, fs'))
  {
    hide Tree, Reads, Delivered, Partly, Fits, Plain, NamesDir, Components, Resolve, Direct, CopyRemote;
    DownloadDelivers(remote, ls, src, fs, cwd, local);
    assert CleanFiles(remote, src) == FilesBelow(remote, src) by { hide Clean; }
    UnbrokenIsReadable(remote, src);
  }

  lemma UnbrokenIsReadable(remote: Fs, p: Path)
    requires Tree(remote) && NoBreaks(remote, p)
    ensures Readable(remote, p)
  {
    hide Tree, SplitLines;
    forall d, n | d + [n] in remote && Clean(p, d) ensures LinesThere(remote, d, n) {
      assert p <= d + [n];
      assert Clean(p, d + [n]);
      assert (d + [n])[|d|] == n;
      EntryIsName(remote, d, n);
      UnbrokenIsOneLine(n);
    }
  }

  ghost predicate Fresh(fs: Fs, p: Path) {
    forall q :: p <= q ==> q !in fs
  }

  /** After a successful download to a place where nothing was, every file is there exactly
      when no relative path of a file holds a line break. */
  lemma EveryFileThereIff(remote: Fs, route: Route, fs: Fs, fs': Fs)
    requires AreFiles(remote, CleanFiles(remote, route.src), route.src)
    requires Delivered(remote, CleanFiles(remote, route.src), route, fs, fs')
    requires Fresh(fs, route.dst)
    ensures (forall p :: p in FilesBelow(remote, route.src) ==> At(fs', Place(route, p)) == Some(remote[p]))
       <==> (forall p :: p in FilesBelow(remote, route.src) ==> Clean(route.src, p))
  {
    hide LeadsTo, Clean;
    forall p | p in FilesBelow(remote, route.src)
      ensures At(fs', Place(route, p)) == Some(remote[p]) <==> Clean(route.src, p)
    {
      PlaceOrder(route, p, p);
      var q := Place(route, p);
      assert route.dst <= q;
      assert At(fs', q) == Want(remote, CleanFiles(remote, route.src), route, fs, q);
    }
  }

  // ----- Relative local paths -----

  /** The file is at its place, and the missing directories of another path were made. */
  ghost predicate DeliveredApart(data: Bytes, fs: Fs, fs': Fs, place: Path, made: Path) {
    forall q :: At(fs', q) ==
      if q == place then Some(File(data)) else if q <= made && q !in fs then Some(Dir) else At(fs, q)
  }

  /** A file downloaded to a relative path: its directories are made below the root, not
      below the working directory.  So it succeeds exactly when they can be made there, its
      directory below the working directory was there before, and no directory has its
      name; with a dot before the name, no file may stand where they are made. */
  lemma RelativeDownloadIff(data: Bytes, fs: Fs, cwd: Path, local: string)
    requires Tree(fs) && cwd != []
    requires Plain(local) && !IsAbsolute(local) && !NamesDir(local)
    ensures Components(local) != []
    ensures Get(data, fs, cwd, local).1 == Ok
       <==> && OpenWay(fs, Parent(Components(local))) && !DotDir(fs, local)
            && IsDir(fs, cwd + Parent(Components(local))) && !IsDir(fs, cwd + Components(local))
  {
    hide Tree, OpenWay, Made, Plain, NamesDir, LastPiece, MakeLocalDir, Components, Get;
    DownloadDirIs(cwd, local);
    LocalDirWorks(fs, cwd, local);
    RelativeGet(data, fs, cwd, local);
  }

  /** And then the directories made are stray ones. */
  lemma RelativeDownloadStrays(data: Bytes, fs: Fs, cwd: Path, local: string)
    requires Tree(fs) && cwd != []
    requires Plain(local) && !IsAbsolute(local) && !NamesDir(local)
    requires Get(data, fs, cwd, local).1 == Ok
    ensures Components(local) != []
    ensures DeliveredApart(data, fs, Get(data, fs, cwd, local).0, cwd + Components(local), Parent(Components(local)))
  {
    hide Tree, OpenWay, Made, Plain, NamesDir, LastPiece, MakeLocalDir, Components, Get, DeliveredApart;
    DownloadDirIs(cwd, local);
    LocalDirWorks(fs, cwd, local);
    RelativeGet(data, fs, cwd, local);
  }

  lemma RelativeGet(data: Bytes, fs: Fs, cwd: Path, local: string)
    requires cwd != [] && !IsAbsolute(local) && Components(local) != [] && !NamesDir(local)
    requires var (fs1, made) := MakeLocalDir(fs, cwd, DownloadDir(local));
             made ==> Made(fs, fs1, Parent(Components(local)))
    ensures var (fs', outcome) := Get(data, fs, cwd, local);
            var (fs1, made) := MakeLocalDir(fs, cwd, DownloadDir(local));
            var names := Components(local);
            && (outcome == Ok <==> made && IsDir(fs, cwd + Parent(names)) && !IsDir(fs, cwd + names))
            && (outcome == Ok ==> DeliveredApart(data, fs, fs', cwd + names, Parent(names)))
  {
    hide MakeLocalDir, Components, NamesDir, DownloadDir;
    var names := Components(local);
    var (fs1, made) := MakeLocalDir(fs, cwd, DownloadDir(local));
    assert Parent(cwd + names) == cwd + Parent(names);
    if made {
      assert At(fs1, cwd + names) == At(fs, cwd + names);
      assert At(fs1, cwd + Parent(names)) == At(fs, cwd + Parent(names));
    }
  }

  // ----- There and back -----

  ghost predicate HasFile(fs: Fs, p: Path) {
    exists q :: q in fs && fs[q].File? && p <= q
  }

  /** What is below `b` in `there` is what is below `a` in `here`. */
  ghost predicate SameBelow(here: Fs, a: Path, there: Fs, b: Path) {
    forall r :: At(there, b + r) == At(here, a + r)
  }

  lemma UploadToFresh(local: Fs, src: Path, fs: Fs, fs': Fs, dst: Path)
    requires Fresh(fs, dst)
    ensures Upload.Passable(local, src, fs, dst) <==> OpenWay(fs, dst)
    ensures forall dotLast :: Upload.DotFits(fs, dst, dotLast)
    ensures Upload.Mirrored(local, src, fs, fs', dst) ==> SameBelow(local, src, fs', dst)
  {
    hide OpenWay;
    if Upload.Mirrored(local, src, fs, fs', dst) {
      forall r ensures At(fs', dst + r) == At(local, src + r) {
        assert (dst + r)[|dst|..] == r;
        assert dst <= dst + r;
        assert At(fs', dst + r) == Upload.Want(local, src, fs, dst, dst + r);
      }
    }
  }

  lemma CleanShift(p: Path, r: Path)
    ensures Clean(p, p + r) <==> forall k :: 0 <= k < |r| ==> Unbroken(r[k])
  {
    hide Unbroken;
    forall k | 0 <= k < |r| ensures (p + r)[|p| + k] == r[k] {}
    if Clean(p, p + r) {
      forall k | 0 <= k < |r| ensures Unbroken(r[k]) {
        assert Unbroken((p + r)[|p| + k]);
      }
    }
  }

  lemma NoBreaksThere(here: Fs, a: Path, there: Fs, b: Path)
    requires SameBelow(here, a, there, b) && NoBreaks(here, a)
    ensures NoBreaks(there, b)
  {
    hide Clean, Unbroken;
    forall q | q in there && b <= q ensures Clean(b, q) {
      var r := q[|b|..];
      assert q == b + r;
      assert At(there, b + r) == At(here, a + r);
      assert a <= a + r;
      CleanShift(a, r);
      CleanShift(b, r);
    }
  }

  lemma PrefixesCompare(q: Path, d: Path, r: Path)
    requires q < r && d <= r
    ensures q < d || d <= q
    ensures q < d <==> |q| < |d|
  {
    if |q| < |d| {
      assert q == d[..|q|];
    } else {
      assert q[..|d|] == d;
    }
  }

  lemma FreshIsFreeIff(fs: Fs, dst: Path, r: Path)
    requires Fresh(fs, dst) && dst <= r
    ensures Free(fs, r) <==> OpenWay(fs, dst)
  {
    forall q | q in fs ensures q < r <==> q < dst {
      if q < r { PrefixesCompare(q, dst, r); }
      if q < dst { assert q == r[..|q|]; }
    }
  }

  lemma FreshFitsIff(files: set<Path>, src: Path, dst: Path, fs: Fs)
    requires Fresh(fs, dst) && forall p :: p in files ==> src <= p
    ensures Fits(files, Route(src, dst, dst), fs) <==> OpenWay(fs, dst) || files == {}
  {
    hide Free;
    var route := Route(src, dst, dst);
    forall p | p in files ensures Fit(route, fs, p) <==> OpenWay(fs, dst) {
      FreshIsFreeIff(fs, dst, Place(route, p));
    }
  }

  lemma FilesBelowSame(here: Fs, a: Path, there: Fs, b: Path, r: Path)
    requires SameBelow(here, a, there, b)
    ensures b + r in FilesBelow(there, b) <==> a + r in here && here[a + r].File?
    ensures HasFile(there, b + r) <==> HasFile(here, a + r)
  {
    SameFile(here, a, there, b, r);
    if HasFile(here, a + r) {
      var q :| q in here && here[q].File? && a + r <= q;
      assert q == a + (r + q[|a + r|..]);
      SameFile(here, a, there, b, r + q[|a + r|..]);
      assert b + r <= b + (r + q[|a + r|..]);
    }
    if HasFile(there, b + r) {
      var q :| q in there && there[q].File? && b + r <= q;
      assert q == b + (r + q[|b + r|..]);
      SameFile(here, a, there, b, r + q[|b + r|..]);
      assert a + r <= a + (r + q[|b + r|..]);
    }
  }

  lemma SameFile(here: Fs, a: Path, there: Fs, b: Path, r: Path)
    requires SameBelow(here, a, there, b)
    ensures b + r in there <==> a + r in here
    ensures a + r in here ==> there[b + r] == here[a + r]
  {
    assert At(there, b + r) == At(here, a + r);
  }

  /** Nothing was at `dst`: what is there after the delivery. */
  lemma DeliveredToFresh(remote: Fs, src: Path, dst: Path, fs: Fs, fs': Fs, r: Path)
    requires Tree(remote) && AreFiles(remote, FilesBelow(remote, src), src) && Fresh(fs, dst)
    requires Delivered(remote, FilesBelow(remote, src), Route(src, dst, dst), fs, fs')
    ensures At(fs', dst + r) == if HasFile(remote, src + r) then At(remote, src + r) else None
  {
    hide Tree;
    var files, q, route := FilesBelow(remote, src), dst + r, Route(src, dst, dst);
    assert q[|dst|..] == r && Origin(route, q) == src + r;
    assert dst <= q;
    assert At(fs', q) == Want(remote, files, route, fs, q);
    assert src <= src + r;
    if HasFile(remote, src + r) {
      var p :| p in remote && remote[p].File? && src + r <= p;
      LeadsToIt(files, route, r, p);
      if p != src + r {
        PrefixCases(src + r, p);
        PrefixIsDir(remote, p, src + r);
      }
    }
    if LeadsTo(files, route, q) {
      var p :| p in files && src <= p && q < OnWay(route, p);
      PlaceOrder(route, src + r, p);
      assert Place(route, src + r) == q;
      assert src + r <= p;
    }
  }

  lemma LeadsToIt(files: set<Path>, route: Route, r: Path, p: Path)
    requires route.src + r <= p && route.way == route.dst
    ensures route.src <= p
    ensures p in files && p != route.src + r ==> LeadsTo(files, route, route.dst + r)
  {
    var s := route.src + r;
    assert s[..|route.src|] == route.src;
    assert p[..|s|][..|route.src|] == p[..|route.src|];
    PrefixCases(s, p);
    PlaceOrder(route, s, p);
    assert Place(route, s) == route.dst + r;
  }

  /** Every file below `a` is back at its relative place below `b`, with every directory that
      has a file beneath it, and nothing else is there. */
  ghost predicate BackAgain(here: Fs, a: Path, there: Fs, b: Path) {
    forall r :: At(there, b + r) == if HasFile(here, a + r) then At(here, a + r) else None
  }

  /** From a place that mirrors `src` and to where nothing is, for names without line breaks. */
  lemma BackFromMirror(local: Fs, src: Path, remote: Fs, mid: Path, ls: Listing, cwd: Path, back: string)
    requires Tree(local) && src in local && NoBreaks(local, src)
    requires Tree(remote) && Reads(remote, ls) && SameBelow(local, src, remote, mid)
    requires Plain(back) && IsAbsolute(back) && (IsDir(local, src) || !NamesDir(back))
    requires Fresh(local, Components(back))
    ensures var (local', outcome) := CopyRemote(remote, ls, mid, local, cwd, back, true);
            && (outcome == Ok <==> OpenWay(local, Components(back)) || !HasFile(local, src))
            && (outcome == Ok ==> BackAgain(local, src, local', Components(back)))
  {
    hide Tree, NoBreaks, Plain, NamesDir, LastPiece, Components, Reads, Fresh, CopyRemote;
    hide Delivered, HasFile, SameBelow, OpenWay, Fits, FilesBelow;
    var dst := Components(back);
    assert src + [] == src && mid + [] == mid;
    SameFile(local, src, remote, mid, []);
    NoBreaksThere(local, src, remote, mid);
    UnbrokenNamesDeliver(remote, ls, mid, local, cwd, back);
    var files := FilesBelow(remote, mid);
    FilesSrc(remote, files, mid);
    FreshFitsIff(files, mid, dst, local);
    NoFilesIff(remote, mid);
    FilesBelowSame(local, src, remote, mid, []);
    var (local', outcome) := CopyRemote(remote, ls, mid, local, cwd, back, true);
    if outcome == Ok {
      forall r ensures At(local', dst + r) == if HasFile(local, src + r) then At(local, src + r) else None {
        DeliveredToFresh(remote, mid, dst, local, local', r);
        FilesBelowSame(local, src, remote, mid, r);
        SameFile(local, src, remote, mid, r);
      }
    }
  }

  /** Upload to where nothing is, then download to where nothing is, for names without line
      breaks: each succeeds when no file is in the way of its target, or there is no file to
      download, and then every file is back with its contents at its relative place, and so is
      every directory with a file beneath it, but no other one. */
  lemma RoundTrip(local: Fs, ls: Upload.Listing, src: Path, remote: Fs, home: Path, there: string,
                  rls: Listing, cwd: Path, back: string)
    requires Tree(local) && Upload.Lists(local, ls) && src in local && NoBreaks(local, src)
    requires Tree(remote) && IsDir(remote, home) && Upload.Target(local, src, there)
    requires Fresh(remote, Upload.Destination(home, there))
    requires Plain(back) && IsAbsolute(back) && (IsDir(local, src) || !NamesDir(back))
    requires Fresh(local, Components(back))
    ensures var (remote', uploaded) := Upload.CopyFile(local, ls, src, remote, home, there, true);
            var (local', outcome) := CopyRemote(remote', rls, Upload.Destination(home, there), local, cwd, back, true);
            && (uploaded == Upload.Ok <==> OpenWay(remote, Upload.Destination(home, there)))
            && (uploaded == Upload.Ok && Reads(remote', rls) ==>
                  && (outcome == Ok <==> OpenWay(local, Components(back)) || !HasFile(local, src))
                  && (outcome == Ok ==> BackAgain(local, src, local', Components(back))))
  {
    hide *;
    var mid := Upload.Destination(home, there);
    var (remote', uploaded) := Upload.CopyFile(local, ls, src, remote, home, there, true);
    Upload.UploadMirrors(local, ls, src, remote, home, there);
    UploadToFresh(local, src, remote, remote', mid);
    if uploaded == Upload.Ok && Reads(remote', rls) {
      BackFromMirror(local, src, remote', mid, rls, cwd, back);
    }
  }

  /** What a file that was copied up leaves to be copied down. */
  lemma FileWasPut(local: Fs, src: Path, fs: Fs, fs': Fs, dst: Path, r: Path)
    requires src + r in local && local[src + r].File? && Upload.Mirrored(local, src, fs, fs', dst)
    ensures At(fs', dst + r) == Some(local[src + r])
    ensures Clean(src, src + r) ==> Clean(dst, dst + r)
  {
    assert dst <= dst + r && (dst + r)[|dst|..] == r;
    assert At(fs', dst + r) == Upload.Want(local, src, fs, dst, dst + r);
    CleanShift(src, r);
    CleanShift(dst, r);
  }

  lemma SomethingWasPut(local: Fs, src: Path, fs: Fs, fs': Fs, dst: Path)
    requires src in local && Upload.Mirrored(local, src, fs, fs', dst)
    ensures dst in fs'
  {
    assert dst <= dst && src + dst[|dst|..] == src;
    assert At(fs', dst) == Upload.Want(local, src, fs, dst, dst);
  }

  lemma FileIsBack(remote: Fs, route: Route, fs: Fs, fs': Fs, r: Path)
    requires AreFiles(remote, CleanFiles(remote, route.src), route.src)
    requires Delivered(remote, CleanFiles(remote, route.src), route, fs, fs')
    requires route.src + r in remote && remote[route.src + r].File? && Clean(route.src, route.src + r)
    ensures At(fs', route.dst + r) == Some(remote[route.src + r])
  {
    var q := route.dst + r;
    assert route.dst <= q && Origin(route, q) == route.src + r;
    assert At(fs', q) == Want(remote, CleanFiles(remote, route.src), route, fs, q);
  }

  /** Whatever was at the two targets before: the upload succeeds when it meets nothing in its
      way, the download when moreover the names it meets can be read, and then every local file
      without a line break on its relative path is back with its contents. */
  lemma EveryFileBack(local: Fs, ls: Upload.Listing, src: Path, remote: Fs, home: Path, there: string,
                      rls: Listing, cwd: Path, back: string)
    requires Tree(local) && Upload.Lists(local, ls) && src in local
    requires Tree(remote) && IsDir(remote, home) && Upload.Target(local, src, there)
    requires Plain(back)
    ensures var mid := Upload.Destination(home, there);
            var (remote', uploaded) := Upload.CopyFile(local, ls, src, remote, home, there, true);
            var (local', outcome) := CopyRemote(remote', rls, mid, local, cwd, back, true);
            && (uploaded == Upload.Ok
                <==> Upload.Passable(local, src, remote, mid) && Upload.DotFits(remote, mid, DotLast(there)))
            && (uploaded == Upload.Ok && Reads(remote', rls) && Direct(remote', mid, cwd, back) ==>
                  && (outcome == Ok
                      <==> && Readable(remote', mid) && Fits(CleanFiles(remote', mid), RouteTo(mid, cwd, back), local)
                           && (IsDir(remote', mid) || !NamesDir(back)))
                  && (outcome == Ok ==> FilesBack(local, src, local', Resolve(cwd, back))))
  {
    hide Upload.Target, Upload.Lists, Upload.Passable, Upload.DotFits, Upload.Mirrored, Upload.Partial;
    hide Upload.Destination, Upload.CopyFile, CopyRemote, Plain, NamesDir, Components, Resolve;
    hide Tree, Reads, Readable, Fits, Delivered, CleanFiles, AreFiles, Clean, Direct;
    var mid, dst := Upload.Destination(home, there), Resolve(cwd, back);
    var (remote', uploaded) := Upload.CopyFile(local, ls, src, remote, home, there, true);
    Upload.UploadMirrors(local, ls, src, remote, home, there);
    if uploaded == Upload.Ok && Reads(remote', rls) && Direct(remote', mid, cwd, back) {
      SomethingWasPut(local, src, remote, remote', mid);
      var (local', outcome) := CopyRemote(remote', rls, mid, local, cwd, back, true);
      if IsDir(remote', mid) || !NamesDir(back) {
        DownloadDelivers(remote', rls, mid, local, cwd, back);
        forall r | outcome == Ok && src + r in local && local[src + r].File? && Clean(src, src + r)
          ensures At(local', dst + r) == Some(local[src + r])
        {
          FileWasPut(local, src, remote, remote', mid, r);
          FileIsBack(remote', RouteTo(mid, cwd, back), local, local', r);
        }
      } else {
        DownloadRefused(remote', rls, mid, local, cwd, back, true);
      }
    }
  }

  ghost predicate FilesBack(here: Fs, a: Path, there: Fs, b: Path) {
    forall r :: a + r in here && here[a + r].File? && Clean(a, a + r) ==> At(there, b + r) == Some(here[a + r])
  }

  lemma FilesSrc(remote: Fs, files: set<Path>, src: Path)
    requires AreFiles(remote, files, src)
    ensures forall p :: p in files ==> src <= p
  {
  }

  lemma NoFilesIff(fs: Fs, p: Path)
    ensures FilesBelow(fs, p) == {} <==> !HasFile(fs, p)
  {
    if HasFile(fs, p) {
      var q :| q in fs && fs[q].File? && p <= q;
      assert q in FilesBelow(fs, p);
    }
  }
}
