/**
The text of the XFS projects file: the block printed for a project, the two regular
expressions that read the file back, and the removal of a block's text.
*/
module ProjectsFile {
  import opened Options
  import opened Text

  const MAX_UINT16 := 65535

  datatype Project = Project(id: nat, directory: string, bhard: string)

  /** What the provisioner asks for: a newline-free path from "/" on and a limit in digits. */
  predicate Printable(directory: string, bhard: string) {
    && directory != [] && directory[0] == '/' && '\n' !in directory
    && bhard != [] && AllDigits(bhard)
  }

  predicate WellFormed(p: Project) {
    p.id <= MAX_UINT16 && Printable(p.directory, p.bhard)
  }

  function Line(p: Project): string {
    FormatUint(p.id) + ":" + p.directory + ":" + p.bhard
  }

  function Block(p: Project): string {
    "\n" + Line(p) + "\n"
  }

  /** The file that holds the given projects' blocks, in that order. */
  function FileText(ps: seq<Project>): string {
    if ps == [] then "" else Block(ps[0]) + FileText(ps[1..])
  }

  // ---------------------------------------------------------------- reading lines

  /** The length of the longest prefix of digits. */
  function DigitRun(s: string): (n: nat)
    ensures n <= |s| && AllDigits(s[..n])
    ensures n < |s| ==> !IsDigit(s[n])
  {
    if s == [] || !IsDigit(s[0]) then 0
    else
      var n := 1 + DigitRun(s[1..]);
      assert s[..n] == [s[0]] + s[1..][..n - 1];
      n
  }

  /** The last colon at or before `k` that has something before it. */
  function LastColon(s: string, k: int): (r: Option<nat>)
    requires k < |s|
    ensures r.Some? ==> 1 <= r.value <= k && s[r.value] == ':'
    ensures forall j :: 1 <= j <= k && s[j] == ':' ==> r.Some? && j <= r.value
  {
    if k < 1 then None else if s[k] == ':' then Some(k) else LastColon(s, k - 1)
  }

  datatype Match = Match(text: string, digits: string, directory: string, bhard: string)

  /** A line against `^([0-9]+):(.+):(.+)$`; the first `.+` takes as much as it can. */
  function MatchLine(line: string): (r: Option<Match>)
    ensures r.Some? ==> AllDigits(r.value.digits)
  {
    var d := DigitRun(line);
    if d == 0 || d == |line| || line[d] != ':' then None
    else
      var rest := line[d + 1..];
      match LastColon(rest, |rest| - 2)
      case None => None
      case Some(k) => Some(Match("\n" + line + "\n", line[..d], rest[..k], rest[k + 1..]))
  }

  /** A line against `^([0-9]+):/.+$`: its number. */
  function IdOfLine(line: string): Option<nat> {
    var d := DigitRun(line);
    if d == 0 || d + 2 >= |line| || line[d] != ':' || line[d + 1] != '/' then None
    else Some(ParseUint(line[..d]))
  }

  /** The first line of a text that has a newline. */
  function FirstLine(s: string): (r: Option<string>)
    ensures r.Some? ==> |r.value| < |s| && '\n' !in r.value && r.value + "\n" <= s
  {
    if s == [] then None
    else if s[0] == '\n' then Some("")
    else match FirstLine(s[1..])
      case None => None
      case Some(line) => Some([s[0]] + line)
  }

  /** All matches, from left to right, of a newline, a matching line and its newline; a newline
      that ends one match cannot begin the next. */
  function FindAll(s: string): seq<Match> {
    if s == [] then []
    else if s[0] != '\n' then FindAll(s[1..])
    else match FirstLine(s[1..])
      case None => FindAll(s[1..])
      case Some(line) =>
        if MatchLine(line).Some? then [MatchLine(line).value] + FindAll(s[1..][|line| + 1..]) else FindAll(s[1..])
  }

  /** The 16-bit numbers of all matching lines. */
  function ExistingIDs(s: string): set<nat> {
    set line | line in Split(s, '\n') && IdOfLine(line).Some? && IdOfLine(line).value <= MAX_UINT16 :: IdOfLine(line).value
  }

  // ---------------------------------------------------------------- print, then parse

  lemma {:induction false} DigitRunUpTo(digits: string, rest: string)
    requires AllDigits(digits) && (rest == [] || !IsDigit(rest[0]))
    ensures DigitRun(digits + rest) == |digits|
  {
    if digits == [] {
      assert digits + rest == rest;
    } else {
      assert (digits + rest)[1..] == digits[1..] + rest;
      DigitRunUpTo(digits[1..], rest);
    }
  }

  lemma {:induction false} FirstLineOf(line: string, rest: string)
    requires '\n' !in line
    ensures FirstLine(line + "\n" + rest) == Some(line)
  {
    if line != [] {
      assert (line + "\n" + rest)[1..] == line[1..] + "\n" + rest;
      FirstLineOf(line[1..], rest);
      assert [line[0]] + line[1..] == line;
    }
  }

  lemma LineIsPlain(p: Project)
    requires WellFormed(p)
    ensures '\n' !in Line(p) && Line(p) != [] && IsDigit(Line(p)[0])
  {
    ParseFormat(p.id);
  }

  lemma LastColonAfter(directory: string, bhard: string)
    requires directory != [] && bhard != [] && ':' !in bhard
    ensures
      var rest := directory + ":" + bhard;
      LastColon(rest, |rest| - 2) == Some(|directory|)
  {
    var rest := directory + ":" + bhard;
    assert forall j :: |directory| < j < |rest| ==> rest[j] in bhard;
    assert rest[|directory|] == ':';
  }

  /** The printed line gives back the project; the directory may hold colons. */
  lemma LineParts(digits: string, rest: string)
    requires AllDigits(digits) && digits != [] && |rest| >= 2 && rest[0] == '/'
    ensures
      var line := digits + ":" + rest;
      && DigitRun(line) == |digits| && |digits| + 2 < |line|
      && line[|digits|] == ':' && line[|digits| + 1] == '/'
      && line[..|digits|] == digits && line[|digits| + 1..] == rest
  {
    assert digits + ":" + rest == digits + (":" + rest);
    hide DigitRun, AllDigits;
    DigitRunUpTo(digits, ":" + rest);
  }

  lemma RestParts(directory: string, bhard: string)
    requires directory != [] && bhard != [] && ':' !in bhard
    ensures
      var rest := directory + ":" + bhard;
      && LastColon(rest, |rest| - 2) == Some(|directory|)
      && rest[..|directory|] == directory && rest[|directory| + 1..] == bhard
  {
    hide LastColon;
    LastColonAfter(directory, bhard);
  }

  lemma PrintedLineParts(p: Project)
    requires WellFormed(p)
    ensures
      var line, digits, rest := Line(p), FormatUint(p.id), p.directory + ":" + p.bhard;
      && digits != [] && AllDigits(digits) && ParseUint(digits) == p.id
      && DigitRun(line) == |digits| && |digits| + 2 < |line|
      && line[|digits|] == ':' && line[|digits| + 1] == '/'
      && line[..|digits|] == digits && line[|digits| + 1..] == rest
  {
    ParseFormat(p.id);
    hide FormatUint, DigitRun, ParseUint, AllDigits;
    var digits, rest := FormatUint(p.id), p.directory + ":" + p.bhard;
    assert Line(p) == digits + ":" + rest;
    LineParts(digits, rest);
  }

  lemma MatchPrintedLine(p: Project)
    requires WellFormed(p)
    ensures MatchLine(Line(p)) == Some(Match(Block(p), FormatUint(p.id), p.directory, p.bhard))
    ensures IdOfLine(Line(p)) == Some(p.id)
  {
    PrintedLineParts(p);
    NoColonInDigits(p.bhard);
    RestParts(p.directory, p.bhard);
    hide Line, FormatUint, LastColon, DigitRun, ParseUint, AllDigits;
  }

  lemma NoColonInDigits(s: string)
    requires AllDigits(s)
    ensures ':' !in s
  {}

  /** Different projects have different blocks. */
  lemma BlockInjective(p: Project, q: Project)
    requires WellFormed(p) && WellFormed(q) && Block(p) == Block(q)
    ensures p == q
  {
    assert Line(p) == Block(p)[1..|Block(p)| - 1];
    assert Line(q) == Block(q)[1..|Block(q)| - 1];
    MatchPrintedLine(p);
    MatchPrintedLine(q);
    ParseFormat(p.id);
    ParseFormat(q.id);
  }

  function MatchOf(p: Project): Match {
    Match(Block(p), FormatUint(p.id), p.directory, p.bhard)
  }

  function MatchesOf(ps: seq<Project>): seq<Match> {
    seq(|ps|, i requires 0 <= i < |ps| => MatchOf(ps[i]))
  }

  lemma FindAllLine(line: string, rest: string)
    requires '\n' !in line && MatchLine(line).Some?
    ensures FindAll("\n" + line + "\n" + rest) == [MatchLine(line).value] + FindAll(rest)
  {
    hide MatchLine;
    var s := "\n" + line + "\n" + rest;
    assert s[1..] == line + "\n" + rest;
    FirstLineOf(line, rest);
    assert s[1..][|line| + 1..] == rest;
  }

  /** Reading the file back gives exactly the projects written, in order. */
  lemma {:induction false} FindAllPrinted(ps: seq<Project>)
    requires forall p :: p in ps ==> WellFormed(p)
    ensures FindAll(FileText(ps)) == MatchesOf(ps)
  {
    hide FindAll, MatchLine, Line;
    if ps == [] {
      EmptyFile();
    } else {
      var p := ps[0];
      LineIsPlain(p);
      MatchPrintedLine(p);
      FindAllLine(Line(p), FileText(ps[1..]));
      FindAllPrinted(ps[1..]);
      assert MatchesOf(ps) == [MatchOf(p)] + MatchesOf(ps[1..]);
    }
  }

  lemma EmptyFile()
    ensures FindAll("") == []
  {}

  function IdsOf(ps: seq<Project>): (ids: set<nat>)
    ensures forall p :: p in ps ==> p.id in ids
    ensures forall id :: id in ids ==> exists p :: p in ps && p.id == id
  {
    if ps == [] then {}
    else
      assert ps == [ps[0]] + ps[1..];
      {ps[0].id} + IdsOf(ps[1..])
  }

  lemma {:induction false} SplitPrinted(ps: seq<Project>)
    requires forall p :: p in ps ==> WellFormed(p)
    ensures forall line :: line in Split(FileText(ps), '\n') <==> line == "" || exists p :: p in ps && line == Line(p)
  {
    if ps != [] {
      var p, rest := ps[0], FileText(ps[1..]);
      LineIsPlain(p);
      SplitPrinted(ps[1..]);
      SplitFirst("", Line(p) + ['\n'] + rest, '\n');
      SplitFirst(Line(p), rest, '\n');
      assert FileText(ps) == "" + ['\n'] + (Line(p) + ['\n'] + rest);
      assert Split(FileText(ps), '\n') == [""] + ([Line(p)] + Split(rest, '\n'));
      assert forall q :: q in ps <==> q == p || q in ps[1..];
    }
  }

  /** The ids read back are exactly the ids of the projects written. */
  lemma ExistingIDsPrinted(ps: seq<Project>)
    requires forall p :: p in ps ==> WellFormed(p)
    ensures ExistingIDs(FileText(ps)) == IdsOf(ps)
  {
    SplitPrinted(ps);
    forall id | id in ExistingIDs(FileText(ps)) ensures id in IdsOf(ps) {
      var line :| line in Split(FileText(ps), '\n') && IdOfLine(line) == Some(id);
      var p :| p in ps && line == Line(p);
      MatchPrintedLine(p);
    }
    forall p | p in ps ensures p.id in ExistingIDs(FileText(ps)) {
      MatchPrintedLine(p);
      assert Line(p) in Split(FileText(ps), '\n');
    }
  }

  // ---------------------------------------------------------------- removing a block

  function Without(ps: seq<Project>, p: Project): seq<Project> {
    if ps == [] then []
    else if ps[0] == p then Without(ps[1..], p)
    else [ps[0]] + Without(ps[1..], p)
  }

  lemma OtherBlockDiffers(p: Project, q: Project, tail: string)
    requires WellFormed(p) && WellFormed(q) && p != q
    ensures !StartsWith(Block(q) + tail, Block(p))
  {
    LineIsPlain(p);
    LineIsPlain(q);
    if StartsWith(Block(q) + tail, Block(p)) {
      SameLine(Line(p), Line(q), tail);
      BlockInjective(p, q);
    }
  }

  lemma NotInside(a: string, b: string, tail: string, j: nat)
    requires '\n' !in a && a != [] && '\n' !in b && (tail == [] || tail[0] == '\n')
    requires 0 < j < |b| + 2
    ensures !StartsWith(("\n" + b + "\n")[j..] + tail, "\n" + a + "\n")
  {
    var x, y := "\n" + a + "\n", "\n" + b + "\n";
    var t := y[j..] + tail;
    assert t[0] == y[j] && x[0] == '\n' && x[1] == a[0] && a[0] in a;
    if j <= |b| {
      assert y[j] == b[j - 1] && b[j - 1] in b;
    } else if tail != [] {
      assert t[1] == tail[0];
    }
  }

  /** In a text of blocks, the text of one block starts nowhere inside another. */
  lemma OtherBlockUntouched(p: Project, q: Project, tail: string)
    requires WellFormed(p) && WellFormed(q) && p != q
    requires tail == [] || tail[0] == '\n'
    ensures NoneStartsIn(Block(q), tail, Block(p))
  {
    LineIsPlain(p);
    LineIsPlain(q);
    hide Line, StartsWith;
    forall j | 0 <= j < |Block(q)| ensures !StartsWith(Block(q)[j..] + tail, Block(p)) {
      if j == 0 {
        assert Block(q)[0..] == Block(q);
        OtherBlockDiffers(p, q, tail);
      } else {
        NotInside(Line(p), Line(q), tail, j);
      }
    }
  }

  lemma SameLine(a: string, b: string, tail: string)
    requires '\n' !in a && '\n' !in b
    requires "\n" + a + "\n" <= "\n" + b + "\n" + tail
    ensures a == b
  {
    var x, y := "\n" + a + "\n", "\n" + b + "\n" + tail;
    assert x[1..] <= y[1..];
    assert x[1..] == a + "\n" + "";
    assert y[1..] == b + "\n" + tail;
    assert y[1..] == a + "\n" + y[|x|..];
    FirstLineOf(a, y[|x|..]);
    FirstLineOf(b, tail);
  }

  /** Replacing one block's text by nothing removes that project and changes no other text. */
  lemma {:induction false} RemoveBlock(ps: seq<Project>, p: Project)
    requires WellFormed(p) && forall q :: q in ps ==> WellFormed(q)
    ensures RemoveAll(FileText(ps), Block(p)) == FileText(Without(ps, p))
  {
    if ps != [] {
      var q, rest := ps[0], FileText(ps[1..]);
      RemoveBlock(ps[1..], p);
      if q == p {
        RemoveAllCuts(rest, Block(p));
      } else {
        OtherBlockUntouched(p, q, rest);
        RemoveAllSkips(Block(q), rest, Block(p));
      }
    }
  }

  lemma {:induction false} FileTextAppend(ps: seq<Project>, p: Project)
    ensures FileText(ps + [p]) == FileText(ps) + Block(p)
  {
    if ps == [] {
      assert ps + [p] == [p];
    } else {
      assert (ps + [p])[1..] == ps[1..] + [p];
      FileTextAppend(ps[1..], p);
    }
  }

  /** What is left is the others, each as often as before and in the same order. */
  lemma {:induction false} WithoutKeepsOthers(ps: seq<Project>, p: Project)
    ensures multiset(Without(ps, p)) == multiset(ps)[p := 0]
  {
    if ps != [] {
      WithoutKeepsOthers(ps[1..], p);
      assert ps == [ps[0]] + ps[1..];
    }
  }
}
