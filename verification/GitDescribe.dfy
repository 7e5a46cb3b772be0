/** Reading the output of `git describe --long` and printing it again: the describe half of
    `git_pieces_from_vcs`, and `render_git_describe_long`. */
module GitDescribe {
  import opened Options

  /** `Untagged` when there is no tag to describe from; `Unparsable` and `OtherPrefix` are the
      two errors. */
  datatype Pieces =
    | Tagged(tag: string, distance: nat, short: string, dirty: bool)
    | Untagged(commits: nat, short: string, dirty: bool)
    | Unparsable(dirty: bool)
    | OtherPrefix(dirty: bool)

  // ----- Characters and numbers -----

  predicate IsDigit(c: char) { '0' <= c <= '9' }

  predicate IsHex(c: char) { IsDigit(c) || 'a' <= c <= 'f' }

  predicate IsSpace(c: char) {
    c in " \t\n\r" || c in "\U{000B}\U{000C}\U{001C}\U{001D}\U{001E}\U{001F}\U{0085}\U{00A0}"
  }

  lemma SpacesAre(c: char)
    ensures IsSpace(c) <==> 9 <= c as int <= 13 || 28 <= c as int <= 32 || c as int == 133 || c as int == 160
  {
  }

  predicate Digits(s: string) { |s| > 0 && forall k :: 0 <= k < |s| ==> IsDigit(s[k]) }

  predicate Hex(s: string) { |s| > 0 && forall k :: 0 <= k < |s| ==> IsHex(s[k]) }

  predicate NoSpace(s: string) { forall k :: 0 <= k < |s| ==> !IsSpace(s[k]) }

  function Decimal(n: nat): (s: string)
    ensures Digits(s)
  {
    var digit := '0' + (n % 10) as char;
    if n < 10 then [digit] else Decimal(n / 10) + [digit]
  }

  function Number(s: string): nat
    requires Digits(s)
  {
    var n := |s| - 1;
    var digit := (s[n] - '0') as nat;
    if n == 0 then digit else Number(s[..n]) * 10 + digit
  }

  lemma {:induction false} NumberOfDecimal(n: nat)
    ensures Number(Decimal(n)) == n
  {
    if n >= 10 {
      NumberOfDecimal(n / 10);
      assert Decimal(n)[..|Decimal(n)| - 1] == Decimal(n / 10);
    }
  }

  predicate Canonical(s: string) { |s| == 1 || (|s| > 1 && s[0] != '0') }

  lemma {:induction false} DecimalIsCanonical(n: nat)
    ensures Canonical(Decimal(n)) && (n > 0 ==> Decimal(n)[0] != '0')
  {
    if n >= 10 {
      DecimalIsCanonical(n / 10);
    }
  }

  lemma {:induction false} PositiveNumber(s: string)
    requires Digits(s) && s[0] != '0'
    ensures Number(s) > 0
  {
    if |s| > 1 {
      PositiveNumber(s[..|s| - 1]);
    }
  }

  /** Printing a number gives back its digits exactly when they have no leading zero. */
  lemma {:induction false} DecimalOfNumberIff(s: string)
    requires Digits(s)
    ensures Decimal(Number(s)) == s <==> Canonical(s)
  {
    DecimalIsCanonical(Number(s));
    if Canonical(s) && |s| > 1 {
      var n := |s| - 1;
      PositiveNumber(s[..n]);
      if n > 1 || s[0] != '0' {
        DecimalOfNumberIff(s[..n]);
      }
      assert Number(s) / 10 == Number(s[..n]) && Number(s) % 10 == (s[n] - '0') as nat;
      assert s == s[..n] + [s[n]];
    }
  }

  // ----- The regular expression -----

  /** The last hyphen, or -1. */
  function LastHyphen(s: string): (j: int)
    ensures -1 <= j < |s| && (j >= 0 ==> s[j] == '-')
    ensures forall k :: j < k < |s| ==> s[k] != '-'
  {
    if s == [] then -1 else if s[|s| - 1] == '-' then |s| - 1 else LastHyphen(s[..|s| - 1])
  }

  /** `a-b-gc` with `a` not empty and free of newlines, `b` digits and `c` hexadecimal. */
  ghost predicate Shape(s: string, a: string, b: string, c: string) {
    && a != "" && '\n' !in a && Digits(b) && Hex(c)
    && s == a + "-" + b + "-g" + c
  }

  /** `^(.+)-(\d+)-g([0-9a-f]+)$` on a whole string. */
  function MatchWhole(s: string): (r: Option<(string, string, string)>)
    ensures r.Some? ==> Shape(s, r.value.0, r.value.1, r.value.2)
  {
    var j := LastHyphen(s);
    if j < 0 || j + 1 >= |s| || s[j + 1] != 'g' || !Hex(s[j + 2..]) then None
    else
      var i := LastHyphen(s[..j]);
      if i < 1 || !Digits(s[i + 1..j]) || '\n' in s[..i] then None
      else
        assert s == s[..i] + "-" + s[i + 1..j] + "-g" + s[j + 2..];
        Some((s[..i], s[i + 1..j], s[j + 2..]))
  }

  /** A string has that shape in at most one way, and the match finds it: that the first
      group is greedy makes no difference. */
  lemma MatchFinds(s: string, a: string, b: string, c: string)
    requires Shape(s, a, b, c)
    ensures MatchWhole(s) == Some((a, b, c))
  {
    var i, j := |a|, |a| + 1 + |b|;
    assert s[j] == '-' && s[j + 1] == 'g' && s[j + 2..] == c;
    forall k | j < k < |s| ensures s[k] != '-' {
      assert k >= j + 2 ==> s[k] == c[k - j - 2];
    }
    assert LastHyphen(s) == j;
    assert s[..j][i] == '-' && s[..i] == a && s[i + 1..j] == b;
    forall k | i < k < j ensures s[..j][k] != '-' {
      assert s[k] == b[k - i - 1];
    }
    assert LastHyphen(s[..j]) == i;
  }

  /** `$` also matches before a newline that ends the string. */
  function Match(s: string): Option<(string, string, string)> {
    if MatchWhole(s).None? && |s| > 0 && s[|s| - 1] == '\n' then MatchWhole(s[..|s| - 1])
    else MatchWhole(s)
  }

  // ----- Parsing and printing -----

  function Strip(s: string): string {
    StripEnd(StripStart(s))
  }

  function StripStart(s: string): string {
    if s != [] && IsSpace(s[0]) then StripStart(s[1..]) else s
  }

  function StripEnd(s: string): string {
    if s != [] && IsSpace(s[|s| - 1]) then StripEnd(s[..|s| - 1]) else s
  }

  ghost predicate AllSpace(s: string) { forall k :: 0 <= k < |s| ==> IsSpace(s[k]) }

  /** `strip` takes off all white space at both ends, and no more. */
  lemma {:induction false} StripIs(before: string, s: string, after: string)
    requires AllSpace(before) && AllSpace(after)
    requires s == "" || (!IsSpace(s[0]) && !IsSpace(s[|s| - 1]))
    ensures Strip(before + s + after) == s
    decreases |before| + |after|
  {
    hide IsSpace;
    var t := before + s + after;
    if before != [] {
      assert t[1..] == before[1..] + s + after && t[0] == before[0];
      StripIs(before[1..], s, after);
    } else if s == "" {
      if after != [] {
        assert t[1..] == [] + s + after[1..] && t[0] == after[0];
        StripIs([], s, after[1..]);
      }
    } else {
      assert t[0] == s[0];
      StripEndIs(s, after);
      assert t == s + after;
    }
  }

  lemma {:induction false} StripEndIs(s: string, after: string)
    requires AllSpace(after) && s != "" && !IsSpace(s[|s| - 1])
    ensures StripEnd(s + after) == s
    decreases |after|
  {
    hide IsSpace;
    if after == "" {
      assert s + after == s;
    } else {
      var n := |after| - 1;
      assert (s + after)[..|s + after| - 1] == s + after[..n];
      StripEndIs(s, after[..n]);
    }
  }

  const DIRTY := "-dirty"

  predicate EndsWith(s: string, suffix: string) {
    |s| >= |suffix| && s[|s| - |suffix|..] == suffix
  }

  /** What git printed, without white space around it and without the dirty mark. */
  function BodyOf(describe: string): string {
    var s := Strip(describe);
    if EndsWith(s, DIRTY) then s[..|s| - |DIRTY|] else s
  }

  /** `describe` is what git printed; `full` and `commits` are what its other two commands
      printed, the hash of HEAD and the number of commits. */
  function Parse(prefix: string, describe: string, full: string, commits: nat): Pieces {
    var dirty := EndsWith(Strip(describe), DIRTY);
    var body := BodyOf(describe);
    if '-' in body then
      match Match(body)
      case None => Unparsable(dirty)
      case Some((tag, number, hash)) =>
        if prefix <= tag then
          assert Digits(number) by { MatchDigits(body); }
          Tagged(tag[|prefix|..], Number(number), hash, dirty)
        else OtherPrefix(dirty)
    else Untagged(commits, if |full| < 7 then full else full[..7], dirty)
  }

  // ----- What comes out -----

  /** The same without a newline that is then at its end. */
  function Core(describe: string): string {
    var body := BodyOf(describe);
    if |body| > 0 && body[|body| - 1] == '\n' then body[..|body| - 1] else body
  }

  lemma HexHasNoEnd(s: string, a: string, b: string, c: string)
    requires Shape(s, a, b, c)
    ensures s[|s| - 1] != '\n' && '-' in s
  {
    assert s[|s| - 1] == c[|c| - 1];
    assert s[|a|] == '-';
  }

  lemma MatchIs(s: string)
    requires '-' in s
    ensures Match(s) == MatchWhole(if |s| > 0 && s[|s| - 1] == '\n' then s[..|s| - 1] else s)
  {
    if MatchWhole(s).Some? {
      var (a, b, c) := MatchWhole(s).value;
      HexHasNoEnd(s, a, b, c);
    }
  }

  /** Each kind of answer comes out in exactly one case, and always with the dirty mark. */
  lemma ParseCases(prefix: string, describe: string, full: string, commits: nat)
    ensures var p, core := Parse(prefix, describe, full, commits), Core(describe);
            && p.dirty == EndsWith(Strip(describe), "-dirty")
            && (p.Untagged? <==> '-' !in BodyOf(describe))
            && (p.Unparsable? <==> '-' in BodyOf(describe) && !exists a, b, c :: Shape(core, a, b, c))
            && (p.OtherPrefix? <==> exists a, b, c :: Shape(core, a, b, c) && !(prefix <= a))
            && (p.Tagged? <==> exists a, b, c :: Shape(core, a, b, c) && prefix <= a)
  {
    hide Strip, EndsWith, Match, MatchWhole, Number, Digits, Hex;
    var body, core := BodyOf(describe), Core(describe);
    forall a, b, c | Shape(core, a, b, c) ensures '-' in body && MatchWhole(core) == Some((a, b, c)) {
      HexHasNoEnd(core, a, b, c);
      MatchFinds(core, a, b, c);
    }
    if '-' in body {
      MatchIs(body);
      WholeMatch(core);
    }
  }

  lemma WholeMatch(s: string)
    ensures MatchWhole(s).Some? ==>
              var (a, b, c) := MatchWhole(s).value;
              Shape(s, a, b, c)
  {
  }

  /** Where there is a tag, the parts of the one shape that the description has. */
  lemma TaggedIs(prefix: string, describe: string, full: string, commits: nat, a: string, b: string, c: string)
    requires Shape(Core(describe), a, b, c) && prefix <= a
    ensures var p := Parse(prefix, describe, full, commits);
            p.Tagged? && prefix + p.tag == a && p.distance == Number(b) && p.short == c
  {
    hide Strip, EndsWith, Match, MatchWhole, Number, Hex;
    var body, core := BodyOf(describe), Core(describe);
    HexHasNoEnd(core, a, b, c);
    MatchFinds(core, a, b, c);
    MatchIs(body);
  }

  /** Where there is none, the commits are counted and the hash is that of HEAD, cut to seven
      digits. */
  lemma UntaggedIs(prefix: string, describe: string, full: string, commits: nat)
    requires '-' !in BodyOf(describe)
    ensures var p := Parse(prefix, describe, full, commits);
            && p.Untagged? && p.commits == commits
            && p.short <= full && |p.short| == (if |full| < 7 then |full| else 7)
  {
    hide Strip, EndsWith;
  }

  lemma MatchDigits(s: string)
    ensures Match(s).Some? ==> Digits(Match(s).value.1)
  {
  }

  function RenderLong(tag: string, distance: nat, short: string, dirty: bool): string {
    (if tag != "" then tag + "-" + Decimal(distance) + "-g" + short else short)
    + if dirty then DIRTY else ""
  }

  // ----- Round trips -----

  lemma StripNothing(s: string)
    requires NoSpace(s)
    ensures Strip(s) == s
  {
  }

  lemma NoSpaceJoin(a: string, b: string)
    requires NoSpace(a) && NoSpace(b)
    ensures NoSpace(a + b)
  {
  }

  lemma NoSpaceParts(a: string, b: string)
    requires NoSpace(a + b)
    ensures NoSpace(a) && NoSpace(b)
  {
    assert forall k :: 0 <= k < |a| ==> a[k] == (a + b)[k];
    assert forall k :: 0 <= k < |b| ==> b[k] == (a + b)[|a| + k];
  }

  lemma PrintableParts(n: nat, short: string)
    requires Hex(short)
    ensures NoSpace(Decimal(n)) && NoSpace(short) && NoSpace("-") && NoSpace("-g") && NoSpace(DIRTY)
  {
  }

  lemma RenderNoSpace(prefix: string, tag: string, distance: nat, short: string, dirty: bool)
    requires NoSpace(prefix) && NoSpace(tag) && Hex(short)
    ensures NoSpace(prefix + RenderLong(tag, distance, short, dirty))
  {
    hide NoSpace, Decimal, Hex;
    PrintableParts(distance, short);
    NoSpaceJoin(tag, "-");
    NoSpaceJoin(tag + "-", Decimal(distance));
    NoSpaceJoin(tag + "-" + Decimal(distance), "-g");
    NoSpaceJoin(tag + "-" + Decimal(distance) + "-g", short);
    var r := if tag != "" then tag + "-" + Decimal(distance) + "-g" + short else short;
    assert r + "" == r;
    NoSpaceJoin(r, DIRTY);
    NoSpaceJoin(prefix, RenderLong(tag, distance, short, dirty));
  }

  /** The dirty mark is found exactly when it was printed: no hash ends in `-dirty`. */
  lemma DirtyMark(front: string, short: string, dirty: bool)
    requires Hex(short)
    ensures var s := front + short + if dirty then DIRTY else "";
            EndsWith(s, DIRTY) == dirty && (dirty ==> s[..|s| - |DIRTY|] == front + short)
  {
    var s := front + short + if dirty then DIRTY else "";
    EndsInY(s);
    assert !dirty ==> s[|s| - 1] == short[|short| - 1];
  }

  lemma EndsInY(s: string)
    ensures EndsWith(s, DIRTY) ==> s[|s| - 1] == 'y'
  {
    if EndsWith(s, DIRTY) {
      assert s[|s| - |DIRTY|..][5] == s[|s| - 1];
    }
  }

  lemma ParseStripped(prefix: string, s: string, body: string, dirty: bool, full: string, commits: nat)
    requires Strip(s) == s && EndsWith(s, DIRTY) == dirty
    requires body == if dirty then s[..|s| - |DIRTY|] else s
    requires Match(body).Some? && '-' in body && prefix <= Match(body).value.0
    ensures var m := Match(body).value;
            Digits(m.1) && Parse(prefix, s, full, commits) == Tagged(m.0[|prefix|..], Number(m.1), m.2, dirty)
  {
    hide Strip, EndsWith, Match, Number, Digits;
    MatchDigits(body);
  }

  /** Parsing what was printed gives the pieces back for every tag that is not empty:
      hyphens in it do no harm, whatever the prefix, distance, hash and dirty mark. */
  lemma ParseOfRender(
    prefix: string, tag: string, distance: nat, short: string, dirty: bool, full: string, commits: nat)
    requires NoSpace(prefix + tag) && Hex(short) && tag != ""
    ensures Parse(prefix, prefix + RenderLong(tag, distance, short, dirty), full, commits)
         == Tagged(tag, distance, short, dirty)
  {
    hide IsSpace, Decimal, Number, Strip, Match, Parse, EndsWith;
    var s := prefix + RenderLong(tag, distance, short, dirty);
    NoSpaceParts(prefix, tag);
    RenderNoSpace(prefix, tag, distance, short, dirty);
    StripNothing(s);
    var front := prefix + tag + "-" + Decimal(distance) + "-g";
    assert s == front + short + if dirty then DIRTY else "";
    DirtyMark(front, short, dirty);
    var body := front + short;
    NoNewline(prefix + tag);
    MatchFinds(body, prefix + tag, Decimal(distance), short);
    MatchIsWhole(body);
    assert body[|prefix + tag|] == '-';
    assert s == body + (if dirty then DIRTY else "");
    assert !dirty ==> s == body;
    ParseStripped(prefix, s, body, dirty, full, commits);
    NumberOfDecimal(distance);
    assert (prefix + tag)[|prefix|..] == tag;
  }

  lemma NoNewline(s: string)
    requires NoSpace(s)
    ensures '\n' !in s
  {
  }

  lemma MatchIsWhole(s: string)
    requires MatchWhole(s).Some?
    ensures Match(s) == MatchWhole(s)
  {
  }

  /** With an empty tag it never does: the printed form then leaves out the distance. */
  lemma EmptyTagIsLost(
    prefix: string, distance: nat, short: string, dirty: bool, full: string, commits: nat)
    requires NoSpace(prefix) && Hex(short)
    ensures !(Parse(prefix, prefix + RenderLong("", distance, short, dirty), full, commits).Tagged?)
  {
    hide IsSpace, Decimal, Number, Strip, Match, EndsWith, Parse, Hex;
    var s := prefix + RenderLong("", distance, short, dirty);
    RenderNoSpace(prefix, "", distance, short, dirty);
    StripNothing(s);
    assert s == prefix + short + if dirty then DIRTY else "";
    DirtyMark(prefix, short, dirty);
    var body := prefix + short;
    assert !dirty ==> s == body;
    NoTagIn(prefix, short);
    ParseNeedsTag(prefix, s, body, dirty, full, commits);
  }

  /** What the prefix and a hash match has no tag that starts with the prefix. */
  lemma NoTagIn(prefix: string, short: string)
    requires Hex(short)
    ensures var m := Match(prefix + short); m.Some? ==> !(prefix <= m.value.0)
  {
    hide IsSpace, MatchWhole;
    var body := prefix + short;
    assert body[|body| - 1] == short[|short| - 1];
    if MatchWhole(body).Some? {
      var (tag, number, hash) := MatchWhole(body).value;
      HyphenAfter(prefix, short, tag, number, hash);
    }
  }

  lemma ParseNeedsTag(prefix: string, s: string, body: string, dirty: bool, full: string, commits: nat)
    requires Strip(s) == s && EndsWith(s, DIRTY) == dirty
    requires body == if dirty then s[..|s| - |DIRTY|] else s
    requires Match(body).Some? ==> !(prefix <= Match(body).value.0)
    ensures !Parse(prefix, s, full, commits).Tagged?
  {
    hide Strip, EndsWith, Match, Number, Digits;
  }

  lemma HyphenAfter(prefix: string, short: string, tag: string, number: string, hash: string)
    requires Shape(prefix + short, tag, number, hash)
    ensures prefix <= tag ==> exists k :: 0 <= k < |short| && short[k] == '-'
  {
    if prefix <= tag {
      assert (prefix + short)[|tag|] == '-';
      assert short[|tag| - |prefix|] == '-';
    }
  }

  /** So what is printed without a tag is read as untagged, with its dirty mark. */
  lemma UntaggedOfRender(prefix: string, short: string, distance: nat, dirty: bool, full: string, commits: nat)
    requires Hex(short)
    ensures Parse(prefix, RenderLong("", distance, short, dirty), full, commits)
         == Untagged(commits, if |full| < 7 then full else full[..7], dirty)
  {
    hide IsSpace, Decimal, Number, Strip, Match, Parse, EndsWith, BodyOf, Core;
    var s := RenderLong("", distance, short, dirty);
    RenderNoSpace("", "", distance, short, dirty);
    assert "" + s == s;
    StripNothing(s);
    assert s == "" + short + if dirty then DIRTY else "";
    DirtyMark("", short, dirty);
    HexBody(s, short, dirty);
    ParseCases(prefix, s, full, commits);
    UntaggedIs(prefix, s, full, commits);
  }

  lemma HexBody(s: string, short: string, dirty: bool)
    requires Strip(s) == s && Hex(short) && EndsWith(s, DIRTY) == dirty
    requires s == short + if dirty then DIRTY else ""
    ensures '-' !in BodyOf(s)
  {
    hide Strip, EndsWith;
    assert BodyOf(s) == short;
  }

  /** For every tag without white space: the round trip holds if and only if the tag is not
      empty. */
  lemma RoundTripIff(
    prefix: string, tag: string, distance: nat, short: string, dirty: bool, full: string, commits: nat)
    requires NoSpace(prefix + tag) && Hex(short)
    ensures Parse(prefix, prefix + RenderLong(tag, distance, short, dirty), full, commits)
         == Tagged(tag, distance, short, dirty)
       <==> tag != ""
  {
    hide *;
    if tag != "" {
      ParseOfRender(prefix, tag, distance, short, dirty, full, commits);
    } else {
      NoSpaceParts(prefix, tag);
      EmptyTagIsLost(prefix, distance, short, dirty, full, commits);
    }
  }

  /** And the other way round: printing what was parsed gives back what git printed exactly
      when the tag is more than the prefix and the distance was printed without leading zeros,
      as git does. */
  lemma RenderOfParseIff(prefix: string, describe: string, full: string, commits: nat, a: string, b: string, c: string)
    requires var s := Strip(describe);
             Shape(if EndsWith(s, DIRTY) then s[..|s| - |DIRTY|] else s, a, b, c)
    requires prefix <= a
    ensures var p := Parse(prefix, describe, full, commits);
            && p.Tagged?
            && (prefix + RenderLong(p.tag, p.distance, p.short, p.dirty) == Strip(describe)
                <==> prefix < a && Canonical(b))
  {
    hide Strip, Parse, Match, MatchWhole, Number, Decimal, Canonical, Digits, Hex, IsSpace, RenderLong;
    var s := Strip(describe);
    var dirty := EndsWith(s, DIRTY);
    var body := if dirty then s[..|s| - |DIRTY|] else s;
    StripTwice(describe);
    MatchFinds(body, a, b, c);
    MatchIsWhole(body);
    HyphenIn(body, a, b, c);
    ParseStripped(prefix, s, body, dirty, full, commits);
    ParseOfStrip(prefix, describe, full, commits);
    EndsWithSplits(s, dirty);
    if prefix < a {
      PrintedIff(prefix, a, b, c, dirty);
    } else {
      assert prefix == a && a[|prefix|..] == "";
      PrefixAloneIsLost(a, b, c, Number(b), dirty);
    }
  }

  lemma PrefixAloneIsLost(a: string, b: string, c: string, distance: nat, dirty: bool)
    ensures a + RenderLong("", distance, c, dirty) != a + "-" + b + "-g" + c + (if dirty then DIRTY else "")
  {
    hide Decimal;
    assert |a + RenderLong("", distance, c, dirty)| == |a| + |c| + if dirty then |DIRTY| else 0;
  }

  lemma HyphenIn(s: string, a: string, b: string, c: string)
    requires Shape(s, a, b, c)
    ensures '-' in s && Digits(b)
  {
    assert s[|a|] == '-';
  }

  lemma ParseOfStrip(prefix: string, describe: string, full: string, commits: nat)
    requires Strip(Strip(describe)) == Strip(describe)
    ensures Parse(prefix, Strip(describe), full, commits) == Parse(prefix, describe, full, commits)
  {
    hide Match, Number, EndsWith, Strip;
  }

  lemma {:induction false} StripEndKeeps(s: string)
    ensures var r := StripEnd(s);
            r <= s && (r == [] || !IsSpace(r[|r| - 1]))
  {
    if s != [] && IsSpace(s[|s| - 1]) {
      StripEndKeeps(s[..|s| - 1]);
    }
  }

  lemma {:induction false} StripStartKeeps(s: string)
    ensures var r := StripStart(s); r == [] || !IsSpace(r[0])
  {
    if s != [] && IsSpace(s[0]) {
      StripStartKeeps(s[1..]);
    }
  }

  lemma StripTwice(s: string)
    ensures Strip(Strip(s)) == Strip(s)
  {
    StripStartKeeps(s);
    StripEndKeeps(StripStart(s));
  }

  /** What is printed for a parsed shape is that shape exactly when its number is canonical. */
  lemma PrintedIff(prefix: string, a: string, b: string, c: string, dirty: bool)
    requires Digits(b) && prefix < a
    ensures prefix + RenderLong(a[|prefix|..], Number(b), c, dirty)
         == a + "-" + b + "-g" + c + (if dirty then DIRTY else "")
       <==> Canonical(b)
  {
    hide Digits, Number, Decimal, Canonical;
    var end := "-g" + c + (if dirty then DIRTY else "");
    var d := Decimal(Number(b));
    assert a + "-" + b + "-g" + c + (if dirty then DIRTY else "") == (a + "-") + b + end;
    assert prefix + RenderLong(a[|prefix|..], Number(b), c, dirty) == (a + "-") + d + end;
    MiddleSame(a + "-", d, b, end);
    DecimalOfNumberIff(b);
  }

  lemma EndsWithSplits(s: string, dirty: bool)
    requires EndsWith(s, DIRTY) == dirty
    ensures s == (if dirty then s[..|s| - |DIRTY|] else s) + if dirty then DIRTY else ""
  {
  }

  lemma MiddleSame(a: string, x: string, y: string, c: string)
    ensures a + x + c == a + y + c <==> x == y
  {
    if a + x + c == a + y + c {
      assert |x| == |y|;
      assert x == (a + x + c)[|a|..|a| + |x|];
      assert y == (a + y + c)[|a|..|a| + |y|];
    }
  }
}
