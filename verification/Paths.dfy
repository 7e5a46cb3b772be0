/** Paths as the strings the copying code cuts up and joins. */
module Paths {
  import opened Files
  import opened Options

  function LastSlash(s: string): (j: int)
    ensures -1 <= j < |s| && (j >= 0 ==> s[j] == '/')
    ensures forall k :: j < k < |s| ==> s[k] != '/'
  {
    if s == "" then -1 else if s[|s| - 1] == '/' then |s| - 1 else LastSlash(s[..|s| - 1])
  }

  /** `s.split('/')`. */
  function Pieces(s: string): (r: seq<string>)
    ensures |r| > 0
    decreases |s|
  {
    var j := LastSlash(s);
    if j < 0 then [s] else Pieces(s[..j]) + [s[j + 1..]]
  }

  function LastPiece(s: string): string {
    s[LastSlash(s) + 1..]
  }

  /** The pieces that are not empty. */
  function NonEmpty(pieces: seq<string>): seq<string> {
    if pieces == [] then []
    else
      var n := |pieces| - 1;
      NonEmpty(pieces[..n]) + if pieces[n] == "" then [] else [pieces[n]]
  }

  /** Those that are not a dot either: the names that a path goes through. */
  function WithoutDots(pieces: seq<string>): seq<string> {
    if pieces == [] then []
    else
      var n := |pieces| - 1;
      WithoutDots(pieces[..n]) + if pieces[n] == "." then [] else [pieces[n]]
  }

  function Components(s: string): Path {
    WithoutDots(NonEmpty(Pieces(s)))
  }

  predicate IsAbsolute(s: string) {
    s != "" && s[0] == '/'
  }

  /** The node a path string stands for, from a working directory. */
  function Resolve(home: Path, s: string): Path {
    (if IsAbsolute(s) then [] else home) + Components(s)
  }

  /** A path without `..` pieces. */
  predicate Plain(s: string) {
    forall k :: 0 <= k < |NonEmpty(Pieces(s))| ==> NonEmpty(Pieces(s))[k] != ".."
  }

  /** The last of the pieces that are not empty is a dot. */
  predicate DotLast(s: string) {
    EndsInDot(NonEmpty(Pieces(s)))
  }

  predicate EndsInDot(pieces: seq<string>) {
    pieces != [] && pieces[|pieces| - 1] == "."
  }

  /** A path that ends in a slash or a dot can only stand for a directory. */
  predicate NamesDir(s: string) {
    LastPiece(s) == "" || LastPiece(s) == "."
  }

  /** `_remote_paths_split`: what stands before the last slash, unless that is all there is
      of it. */
  function RemotePathsSplit(s: string): Option<string> {
    var j := LastSlash(s);
    if j > 0 then Some(s[..j]) else None
  }

  /** `'/'.join([directory, name])`. */
  function SlashJoin(directory: string, name: string): string {
    directory + "/" + name
  }

  /** `os.path.join(directory, name)` for a name that is not itself absolute. */
  function OsJoin(directory: string, name: string): string {
    if directory == "" || directory[|directory| - 1] == '/' then directory + name
    else directory + "/" + name
  }

  /** `'/'.join(names)`. */
  function Join(names: seq<string>): string {
    if |names| == 0 then ""
    else if |names| == 1 then names[0]
    else Join(names[..|names| - 1]) + "/" + names[|names| - 1]
  }

  /** All but the last piece. */
  function Front(pieces: seq<string>): seq<string> {
    if pieces == [] then [] else pieces[..|pieces| - 1]
  }

  /** The directory that a download makes for a local file: all names but the last, taken
      from the root. */
  function DownloadDir(local: string): string {
    "/" + Join(Front(NonEmpty(Pieces(local))))
  }

  // ----- What a path string stands for in a file system -----

  predicate Stat(fs: Fs, home: Path, path: string) {
    var p := Resolve(home, path);
    p in fs && (NamesDir(path) ==> fs[p].Dir?)
  }

  /** Opening a file for writing, with truncation or creation. */
  predicate CanOpen(fs: Fs, home: Path, path: string) {
    var p := Resolve(home, path);
    p != [] && !NamesDir(path) && IsDir(fs, Parent(p)) && !IsDir(fs, p)
  }

  // ----- Joining -----

  lemma {:induction false} SlashIsLast(directory: string, name: string)
    requires '/' !in name
    ensures LastSlash(directory + "/" + name) == |directory|
    decreases |name|
  {
    var s := directory + "/" + name;
    if name != "" {
      var front := name[..|name| - 1];
      assert s[..|s| - 1] == directory + "/" + front;
      assert s[|s| - 1] == name[|name| - 1];
      SlashIsLast(directory, front);
    }
  }

  lemma JoinedPieces(directory: string, name: string)
    requires '/' !in name
    ensures LastSlash(directory + "/" + name) == |directory|
    ensures Pieces(directory + "/" + name) == Pieces(directory) + [name]
    ensures LastPiece(directory + "/" + name) == name
  {
    hide LastSlash;
    var s, j := directory + "/" + name, |directory|;
    SlashIsLast(directory, name);
    assert s[..j] == directory;
    assert s[j + 1..] == name;
  }

  lemma NonEmptySnoc(pieces: seq<string>, piece: string)
    ensures NonEmpty(pieces + [piece]) == NonEmpty(pieces) + if piece == "" then [] else [piece]
    ensures WithoutDots(pieces + [piece]) == WithoutDots(pieces) + if piece == "." then [] else [piece]
  {
    assert (pieces + [piece])[..|pieces|] == pieces;
  }

  lemma {:induction false} WithoutDotsFrom(pieces: seq<string>)
    ensures forall n :: n in WithoutDots(pieces) <==> n in pieces && n != "."
  {
    if pieces != [] {
      var k := |pieces| - 1;
      WithoutDotsFrom(pieces[..k]);
      assert pieces == pieces[..k] + [pieces[k]];
    }
  }

  lemma {:induction false} WithoutDotsCons(piece: string, pieces: seq<string>)
    ensures WithoutDots([piece] + pieces) == (if piece == "." then [] else [piece]) + WithoutDots(pieces)
  {
    hide WithoutDots, NonEmpty;
    NoPieces();
    if pieces == [] {
      assert [piece] + pieces == [] + [piece];
      NonEmptySnoc([], piece);
    } else {
      var k := |pieces| - 1;
      var front, last := pieces[..k], pieces[k];
      assert pieces == front + [last];
      assert [piece] + pieces == ([piece] + front) + [last];
      WithoutDotsCons(piece, front);
      NonEmptySnoc([piece] + front, last);
      NonEmptySnoc(front, last);
    }
  }

  lemma {:induction false} PiecesHaveNoSlash(s: string)
    ensures forall k :: 0 <= k < |Pieces(s)| ==> '/' !in Pieces(s)[k]
    decreases |s|
  {
    var j := LastSlash(s);
    if j >= 0 {
      PiecesHaveNoSlash(s[..j]);
    }
  }

  lemma {:induction false} NonEmptyFrom(pieces: seq<string>)
    ensures forall n :: n in NonEmpty(pieces) <==> n in pieces && n != ""
  {
    if pieces != [] {
      var k := |pieces| - 1;
      NonEmptyFrom(pieces[..k]);
      assert pieces == pieces[..k] + [pieces[k]];
    }
  }

  /** A name of a path, or a dot. */
  predicate IsStep(n: string) {
    n == "." || IsName(n)
  }

  ghost predicate Steps(pieces: seq<string>) {
    forall k :: 0 <= k < |pieces| ==> IsStep(pieces[k])
  }

  lemma PlainSteps(s: string)
    requires Plain(s)
    ensures Steps(NonEmpty(Pieces(s)))
  {
    PiecesHaveNoSlash(s);
    NonEmptyFrom(Pieces(s));
    var c := NonEmpty(Pieces(s));
    forall k | 0 <= k < |c| ensures IsStep(c[k]) {
      assert c[k] in c;
    }
  }

  lemma ProperSteps(pieces: seq<string>)
    requires Steps(pieces)
    ensures ProperNames(WithoutDots(pieces))
  {
    WithoutDotsFrom(pieces);
    var c := WithoutDots(pieces);
    forall k | 0 <= k < |c| ensures IsName(c[k]) {
      assert c[k] in c;
    }
  }

  /** The components of a plain path are proper names. */
  lemma PlainComponents(s: string)
    requires Plain(s)
    ensures ProperNames(Components(s))
  {
    PlainSteps(s);
    ProperSteps(NonEmpty(Pieces(s)));
  }

  lemma JoinedComponents(directory: string, name: string)
    requires '/' !in name && name != ""
    ensures Components(directory + "/" + name) == Components(directory) + if name == "." then [] else [name]
    ensures NonEmpty(Pieces(directory + "/" + name)) == NonEmpty(Pieces(directory)) + [name]
    ensures Plain(directory) && name != ".." ==> Plain(directory + "/" + name)
    ensures DotLast(directory + "/" + name) <==> name == "."
  {
    hide Pieces, LastSlash, WithoutDots, NonEmpty;
    JoinedPieces(directory, name);
    NonEmptySnoc(Pieces(directory), name);
    NonEmptySnoc(NonEmpty(Pieces(directory)), name);
  }

  /** Joining with a slash goes one level down, except from the empty path: that one stands
      for the working directory, but what is joined to it is at the root. */
  lemma SlashJoinDescendsIff(home: Path, directory: string, name: string)
    requires IsName(name)
    ensures Resolve(home, SlashJoin(directory, name)) == Resolve(home, directory) + [name]
       <==> directory != "" || home == []
  {
    hide Components, Pieces, NonEmpty, Plain, DotLast;
    JoinedComponents(directory, name);
    if directory == "" {
      EmptyComponents();
      assert directory + "/" + name == "/" + name;
      assert [] + [name] == [name];
      assert home + [] == home;
      assert home + [name] == [name] ==> |home| == 0;
    } else {
      assert IsAbsolute(directory + "/" + name) <==> IsAbsolute(directory);
    }
  }

  lemma EmptyComponents()
    ensures Components("") == []
  {
    assert Pieces("") == [""];
    NonEmptySnoc([], "");
    assert [] + [""] == [""];
  }

  lemma EmptyPieces()
    ensures NonEmpty(Pieces("")) == []
  {
    assert Pieces("") == [""];
    NonEmptySnoc([], "");
    assert [] + [""] == [""];
  }

  lemma SingleComponent(name: string)
    requires IsName(name)
    ensures Components(name) == [name] && NonEmpty(Pieces(name)) == [name]
  {
    assert LastSlash(name) == -1;
    assert Pieces(name) == [name];
    NonEmptySnoc([], name);
    assert [] + [name] == [name];
  }

  /** `os.path.join` always goes one level down. */
  lemma OsJoinDescends(home: Path, directory: string, name: string)
    requires IsName(name)
    ensures Resolve(home, OsJoin(directory, name)) == Resolve(home, directory) + [name]
    ensures Components(OsJoin(directory, name)) == Components(directory) + [name]
    ensures NonEmpty(Pieces(OsJoin(directory, name))) == NonEmpty(Pieces(directory)) + [name]
    ensures LastPiece(OsJoin(directory, name)) == name && !NamesDir(OsJoin(directory, name))
    ensures IsAbsolute(OsJoin(directory, name)) <==> IsAbsolute(directory)
    ensures Plain(directory) ==> Plain(OsJoin(directory, name))
  {
    hide Components, Pieces, LastSlash, NonEmpty;
    if directory == "" {
      EmptyComponents();
      EmptyPieces();
      SingleComponent(name);
      LastPieceOfName(name);
      assert directory + name == name;
      assert [] + [name] == [name];
    } else if directory[|directory| - 1] == '/' {
      var front := directory[..|directory| - 1];
      assert directory == front + "/";
      assert directory + name == front + "/" + name;
      JoinedComponents(front, name);
      JoinedPieces(front, name);
      TrailingSlash(front);
    } else {
      JoinedComponents(directory, name);
      JoinedPieces(directory, name);
    }
  }

  lemma LastPieceOfName(name: string)
    requires IsName(name)
    ensures LastPiece(name) == name && Plain(name)
  {
    assert LastSlash(name) == -1;
    assert Pieces(name) == [name];
    NonEmptySnoc([], name);
    assert [] + [name] == [name];
  }

  lemma TrailingSlash(front: string)
    ensures Components(front + "/") == Components(front)
    ensures NonEmpty(Pieces(front + "/")) == NonEmpty(Pieces(front))
    ensures Plain(front + "/") == Plain(front)
  {
    hide Pieces, LastSlash, WithoutDots, NonEmpty;
    JoinedPieces(front, "");
    assert front + "/" + "" == front + "/";
    NonEmptySnoc(Pieces(front), "");
    assert NonEmpty(Pieces(front)) + [] == NonEmpty(Pieces(front));
  }

  /** Cutting a plain path at its last slash cuts off its last component. */
  lemma SplitCutsLast(home: Path, s: string)
    requires Plain(s) && !NamesDir(s)
    ensures IsName(LastPiece(s)) && !DotLast(s)
    ensures match RemotePathsSplit(s)
            case Some(d) => Plain(d) && Resolve(home, s) == Resolve(home, d) + [LastPiece(s)]
            case None => Resolve(home, s) == (if IsAbsolute(s) then [] else home) + [LastPiece(s)]
  {
    hide Components, NonEmpty, WithoutDots, Plain, IsName, Pieces, LastPiece, DotLast, NamesDir;
    PlainLast(s);
    CutString(s);
    var j := LastSlash(s);
    if j < 0 {
      SingleComponent(s);
    } else {
      CutAtSlash(home, s[..j], LastPiece(s));
    }
  }

  lemma CutString(s: string)
    ensures var j := LastSlash(s);
            if j < 0 then LastPiece(s) == s && !IsAbsolute(s)
            else s == s[..j] + "/" + LastPiece(s) && (s[..j] == "" <==> j == 0)
  {
    hide LastSlash;
    var j := LastSlash(s);
    if j >= 0 {
      assert [s[j]] == "/";
      assert s == s[..j] + [s[j]] + s[j + 1..];
    } else {
      assert s[0..] == s;
    }
  }

  lemma CutAtSlash(home: Path, front: string, name: string)
    requires Plain(front + "/" + name) && IsName(name)
    ensures var s := front + "/" + name;
            if front != "" then Plain(front) && Resolve(home, s) == Resolve(home, front) + [name]
            else Resolve(home, s) == [name] && IsAbsolute(s)
  {
    hide Components, Plain;
    PlainFront(front, name);
    if front != "" {
      SlashJoinDescendsIff(home, front, name);
    } else {
      JoinedComponents("", name);
      EmptyComponents();
      assert [] + [name] == [name];
    }
  }

  lemma PlainLast(s: string)
    requires Plain(s) && !NamesDir(s)
    ensures IsName(LastPiece(s)) && !DotLast(s)
  {
    var p := Pieces(s);
    assert p[|p| - 1] == LastPiece(s);
    PiecesHaveNoSlash(s);
    NonEmptySnoc(p[..|p| - 1], LastPiece(s));
    assert p == p[..|p| - 1] + [LastPiece(s)];
    var c := NonEmpty(p);
    assert c[|c| - 1] == LastPiece(s);
  }

  lemma PlainFront(front: string, name: string)
    requires Plain(front + "/" + name) && IsName(name)
    ensures Plain(front)
  {
    hide Pieces, LastSlash;
    JoinedPieces(front, name);
    NonEmptySnoc(Pieces(front), name);
    var c := NonEmpty(Pieces(front));
    assert forall k :: 0 <= k < |c| ==> c[k] == (c + [name])[k];
  }

  lemma {:induction false} JoinedFromRoot(names: seq<string>)
    requires Steps(names)
    ensures Components("/" + Join(names)) == WithoutDots(names)
    ensures NamesDir("/" + Join(names)) <==> names == [] || EndsInDot(names)
  {
    hide Components, LastPiece;
    EmptyComponents();
    if |names| == 0 {
      TrailingSlash("");
      assert "" + "/" == "/" + Join(names);
      JoinedPieces("", "");
      assert "" + "/" + "" == "/" + Join(names);
    } else {
      var front, name := names[..|names| - 1], names[|names| - 1];
      assert names == front + [name];
      var directory := if front == [] then "" else "/" + Join(front);
      assert "/" + Join(names) == directory + "/" + name;
      if front != [] { JoinedFromRoot(front); }
      JoinedComponents(directory, name);
      JoinedPieces(directory, name);
    }
  }

  lemma FrontCuts(pieces: seq<string>)
    requires Steps(pieces)
    ensures Steps(Front(pieces)) && WithoutDots(Front(pieces)) <= WithoutDots(pieces)
    ensures pieces != [] && !EndsInDot(pieces) ==>
              WithoutDots(pieces) != [] && WithoutDots(Front(pieces)) == Parent(WithoutDots(pieces))
  {
    if pieces != [] {
      assert pieces == Front(pieces) + [pieces[|pieces| - 1]];
      NonEmptySnoc(Front(pieces), pieces[|pieces| - 1]);
    }
  }

  lemma DownloadDirParts(local: string)
    ensures IsAbsolute(DownloadDir(local)) && DownloadDir(local) == "/" + Join(Front(NonEmpty(Pieces(local))))
  {
  }

  /** For a file it is the directory of the file when the path is absolute, and otherwise has
      nothing to do with the working directory. */
  lemma DownloadDirIs(cwd: Path, local: string)
    requires Plain(local)
    ensures Resolve(cwd, DownloadDir(local)) == Components(DownloadDir(local)) <= Components(local)
    ensures ProperNames(Components(DownloadDir(local)))
    ensures !NamesDir(local) ==>
              Components(local) != [] && Components(DownloadDir(local)) == Parent(Components(local))
  {
    hide Plain, Pieces, NonEmpty, Components, WithoutDots, NamesDir, IsName, DownloadDir, Join;
    hide Front, Steps, ProperNames, EndsInDot;
    var names := NonEmpty(Pieces(local));
    PlainSteps(local);
    FrontCuts(names);
    JoinedFromRoot(Front(names));
    ProperSteps(Front(names));
    DownloadDirParts(local);
    ComponentsAre(local);
    if !NamesDir(local) {
      PlainLast(local);
      NotEmpty(local);
    }
    assert [] + Components(DownloadDir(local)) == Components(DownloadDir(local));
  }

  lemma ComponentsAre(s: string)
    ensures Components(s) == WithoutDots(NonEmpty(Pieces(s)))
  {
  }

  lemma NotEmpty(s: string)
    requires !NamesDir(s)
    ensures NonEmpty(Pieces(s)) != []
  {
    var pieces := Pieces(s);
    assert pieces[|pieces| - 1] == LastPiece(s);
  }

  /** Dots are in the way of nothing: at the end of a path, or before its last name, only for
      the root or the working directory. */
  predicate Tidy(local: string) {
    && (DotLast(local) ==> Components(local) == [])
    && (NamesDir(DownloadDir(local)) ==> Components(DownloadDir(local)) == [])
  }

  lemma TidyJoin(directory: string, name: string)
    requires IsName(name) && Plain(directory) && Tidy(directory)
    ensures Tidy(OsJoin(directory, name))
  {
    hide Pieces, NonEmpty, Components, Plain, NamesDir, LastPiece, OsJoin, Join, DownloadDir, WithoutDots;
    OsJoinDescends([], directory, name);
    var s, names := OsJoin(directory, name), NonEmpty(Pieces(directory));
    assert Front(names + [name]) == names;
    PlainSteps(directory);
    JoinedFromRoot(names);
    DownloadDirParts(s);
    ComponentsAre(directory);
    assert !EndsInDot(names + [name]);
    if names == [] { NoPieces(); }
  }

  lemma NoPieces()
    ensures WithoutDots([]) == []
  {
  }
}
