/**
Cutting an export's block out of a file that holds other blocks and any other text besides: its
text occurs nowhere else, because the line with its id does not.
*/
module ExportRemoval {
  import opened Options
  import opened Text
  import opened ProjectsFile
  import opened IdAllocation
  import opened Exports
  import opened ExportReadBack

  // ---------------------------------------------------------------- the line with the id

  /** The line of a block that names its id. */
  function IdLine(kind: Kind, id: nat, path: string, rootSquash: bool, subnet: string): string {
    match kind
    case Ganesha => "\t" + (Marker(Ganesha) + (FormatUint(id) + ";"))
    case Kernel => Before(Kernel, path, rootSquash, subnet) + (Marker(Kernel) + (FormatUint(id) + ")"))
  }

  /** The line may name the id of any block of this kind. */
  ghost predicate Names(kind: Kind, line: string, id: nat) {
    match kind
    case Ganesha => line == "\t" + (Marker(Ganesha) + (FormatUint(id) + ";"))
    case Kernel => exists front: string :: line == front + (Marker(Kernel) + (FormatUint(id) + ")"))
  }

  lemma IdLineNames(kind: Kind, id: nat, path: string, rootSquash: bool, subnet: string)
    ensures Names(kind, IdLine(kind, id, path, rootSquash, subnet), id)
  {
    hide Marker, FormatUint, Before;
  }

  /** Equal ends of digits are the same digits. */
  lemma SameDigits(a: string, x: string, b: string, y: string)
    requires a != [] && b != [] && !IsDigit(a[|a| - 1]) && !IsDigit(b[|b| - 1]) && AllDigits(x) && AllDigits(y)
    requires a + x == b + y
    ensures x == y
  {
    var s, t := a + x, b + y;
    assert s[|a| - 1] == a[|a| - 1] && t[|b| - 1] == b[|b| - 1];
    assert forall i :: |a| <= i < |s| ==> s[i] == x[i - |a|] && x[i - |a|] in x;
    assert forall i :: |b| <= i < |t| ==> t[i] == y[i - |b|] && y[i - |b|] in y;
    assert |a| == |b|;
    assert s[|a|..] == x && t[|b|..] == y;
  }

  lemma SameEnds(a: string, x: string, b: string, y: string, m: string, stop: string)
    requires m != [] && !IsDigit(m[|m| - 1]) && AllDigits(x) && AllDigits(y) && |stop| == 1
    requires a + (m + (x + stop)) == b + (m + (y + stop))
    ensures x == y
  {
    var line, front, back := a + (m + (x + stop)), a + m, b + m;
    assert line == (front + x) + stop == (back + y) + stop;
    assert line[..|line| - 1] == front + x && line[..|line| - 1] == back + y;
    SameDigits(front, x, back, y);
  }

  /** A line names one id at most. */
  lemma NamesOne(kind: Kind, line: string, id: nat, other: nat)
    requires Names(kind, line, id) && Names(kind, line, other)
    ensures id == other
  {
    ParseFormat(id);
    ParseFormat(other);
    MarkerEnd(kind);
    hide Marker, FormatUint, ParseUint, AllDigits;
    var x, y := FormatUint(id), FormatUint(other);
    var stop := if kind.Ganesha? then ";" else ")";
    var a, b;
    if kind.Ganesha? {
      a, b := "\t", "\t";
    } else {
      a :| line == a + (Marker(kind) + (x + stop));
      b :| line == b + (Marker(kind) + (y + stop));
    }
    SameEnds(a, x, b, y, Marker(kind), stop);
  }

  lemma MarkerEnd(kind: Kind)
    ensures Marker(kind) != [] && !IsDigit(Marker(kind)[|Marker(kind)| - 1])
  {}

  /** A line that names an id captures it. */
  lemma NamedIsCaptured(kind: Kind, line: string, id: nat)
    requires Names(kind, line, id)
    ensures id in Captured(kind, line)
  {
    var digits := FormatUint(id);
    var stop := if kind.Ganesha? then ';' else ')';
    var front;
    if kind.Ganesha? {
      front := "\t";
    } else {
      front :| line == front + (Marker(kind) + (digits + [stop]));
    }
    MarkerEnd(kind);
    hide Marker, FormatUint, Captured, Names;
    assert line == front + (Marker(kind) + (digits + [stop]));
    assert line[|front|..] == Marker(kind) + digits + [stop] + "";
    MentionCaptured(kind, line, |front|, id, stop, "");
  }

  /** What a file's lines capture, the file does. */
  lemma {:induction false} LineIsCaptured(kind: Kind, lines: seq<string>, line: string)
    requires line in lines
    ensures Captured(kind, line) <= Captured(kind, Join(lines, '\n'))
  {
    hide Captured;
    if |lines| > 1 {
      var rest := Join(lines[1..], '\n');
      assert Join(lines, '\n') == lines[0] + ("\n" + rest);
      CapturedByLines(kind, lines[0], rest);
      if line != lines[0] {
        LineIsCaptured(kind, lines[1..], line);
      }
    }
  }

  lemma FileLineIsCaptured(kind: Kind, file: string, line: string, id: nat)
    requires line in Split(file, '\n') && Names(kind, line, id)
    ensures id in Captured(kind, file)
  {
    hide Captured, Names, Split;
    JoinSplit(file, '\n');
    LineIsCaptured(kind, Split(file, '\n'), line);
    NamedIsCaptured(kind, line, id);
  }

  /** No line of the text names the id. */
  ghost predicate Unnamed(kind: Kind, text: string, id: nat) {
    forall line :: line in Split(text, '\n') ==> !Names(kind, line, id)
  }

  lemma UncapturedIsUnnamed(kind: Kind, text: string, id: nat)
    requires id !in Captured(kind, text)
    ensures Unnamed(kind, text, id)
  {
    hide Captured, Names, Split;
    forall line | line in Split(text, '\n') ensures !Names(kind, line, id) {
      if Names(kind, line, id) {
        FileLineIsCaptured(kind, text, line, id);
      }
    }
  }

  lemma UnnamedConcat(kind: Kind, a: string, b: string, id: nat)
    ensures Unnamed(kind, a + ("\n" + b), id) <==> Unnamed(kind, a, id) && Unnamed(kind, b, id)
  {
    hide Names, Split;
    assert a + ("\n" + b) == a + ['\n'] + b;
    SplitConcat(a, b, '\n');
    var l, m := Split(a, '\n'), Split(b, '\n');
    assert forall line :: line in l + m <==> line in l || line in m;
  }

  // ---------------------------------------------------------------- lines of a block

  lemma KernelAround(front: string, m: string, digits: string)
    ensures "\n" + front + m + digits + ")" + "\n" == "" + ("\n" + ((front + (m + (digits + ")"))) + ("\n" + "")))
  {}

  lemma GaneshaAround(open: string, rest: string)
    ensures "\n" + (open + ("\n" + rest)) == ("\n" + open) + ("\n" + rest)
  {}

  /** A block around its line with the id. */
  lemma AroundIdLine(kind: Kind, id: nat, path: string, rootSquash: bool, subnet: string) returns (u: string, v: string)
    ensures ExportBlock(kind, id, path, rootSquash, subnet) ==
            u + ("\n" + (IdLine(kind, id, path, rootSquash, subnet) + ("\n" + v)))
  {
    match kind {
      case Kernel =>
        hide Marker, FormatUint, Before;
        KernelAround(Before(Kernel, path, rootSquash, subnet), Marker(Kernel), FormatUint(id));
        u, v := "", "";
      case Ganesha =>
        GaneshaEntries(id, path, rootSquash, subnet);
        hide ExportBlock, Marker, FormatUint, Settings;
        var pseudo := ("\tPseudo = " + path + ";") + ("\n" + (Settings(FormatUint(id), rootSquash) + "\n"));
        var paths := ("\tPath = " + path + ";") + ("\n" + pseudo);
        u, v := "\n" + "EXPORT\n{", paths;
        GaneshaAround("EXPORT\n{", IdLine(Ganesha, id, path, rootSquash, subnet) + ("\n" + paths));
    }
  }

  lemma LineInside(x: string, line: string, y: string)
    requires '\n' !in line
    ensures line in Split(x + ("\n" + (line + ("\n" + y))), '\n')
  {
    hide Split;
    var rest := line + ("\n" + y);
    assert x + ("\n" + rest) == x + ['\n'] + rest && rest == line + ['\n'] + y;
    SplitConcat(x, rest, '\n');
    SplitConcat(line, y, '\n');
    SplitWhole(line, '\n');
  }

  lemma MarkerPlain(kind: Kind)
    ensures '\n' !in Marker(kind)
  {}

  lemma IdLinePlain(kind: Kind, id: nat, path: string, rootSquash: bool, subnet: string)
    requires '\n' !in path && '\n' !in subnet
    ensures '\n' !in IdLine(kind, id, path, rootSquash, subnet)
  {
    ParseFormat(id);
    DigitsPlain(FormatUint(id));
    MarkerPlain(kind);
    KernelFrontPlain(path, rootSquash, subnet);
    hide FormatUint, Before, Marker, NoNewlineE;
  }

  lemma OccurrenceRegroup(text: string, j: nat, u: string, line: string, v: string, block: string) returns (y: string)
    requires block == u + ("\n" + (line + ("\n" + v)))
    requires j <= |text| && StartsWith(text[j..], block)
    ensures text == (text[..j] + u) + ("\n" + (line + ("\n" + (v + y))))
  {
    y := text[j..][|block|..];
    assert text == text[..j] + (block + y);
    assert block + y == u + ("\n" + (line + ("\n" + (v + y))));
  }

  /** A text that holds the whole block names its id. */
  lemma OccurrenceNames(kind: Kind, text: string, j: nat, id: nat, path: string, rootSquash: bool, subnet: string)
    requires '\n' !in path && '\n' !in subnet
    requires j <= |text| && StartsWith(text[j..], ExportBlock(kind, id, path, rootSquash, subnet))
    ensures !Unnamed(kind, text, id)
  {
    hide ExportBlock, IdLine, Names, Split, StartsWith;
    var block, line := ExportBlock(kind, id, path, rootSquash, subnet), IdLine(kind, id, path, rootSquash, subnet);
    var u, v := AroundIdLine(kind, id, path, rootSquash, subnet);
    IdLinePlain(kind, id, path, rootSquash, subnet);
    IdLineNames(kind, id, path, rootSquash, subnet);
    var y := OccurrenceRegroup(text, j, u, line, v, block);
    LineInside(text[..j] + u, line, v + y);
  }

  // ---------------------------------------------------------------- cutting

  lemma BlockEnds(kind: Kind, id: nat, path: string, rootSquash: bool, subnet: string)
    requires '\n' !in path && '\n' !in subnet
    ensures
      var block := ExportBlock(kind, id, path, rootSquash, subnet);
      StartsOnlyAtFront(block) && block[|block| - 1] == '\n'
  {
    hide StartsOnlyAtFront, FormatUint, Before, After, Marker;
    match kind {
      case Kernel => KernelBlockStarts(id, path, rootSquash, subnet);
      case Ganesha => GaneshaBlockStarts(id, path, rootSquash, subnet);
    }
    var block := ExportBlock(kind, id, path, rootSquash, subnet);
    FrontNotEmpty(block);
  }

  /** A block does not begin in a text in front of it that does not name its id. */
  lemma NotInFront(kind: Kind, front: string, id: nat, path: string, rootSquash: bool, subnet: string, back: string)
    requires '\n' !in path && '\n' !in subnet && Unnamed(kind, front, id)
    ensures
      var block := ExportBlock(kind, id, path, rootSquash, subnet);
      NoneStartsIn(front, block + back, block)
  {
    var block := ExportBlock(kind, id, path, rootSquash, subnet);
    BlockEnds(kind, id, path, rootSquash, subnet);
    UnnamedWithNewline(kind, front, id);
    hide ExportBlock, Unnamed;
    forall j | 0 <= j < |front| ensures !StartsWith(front[j..] + (block + back), block) {
      if StartsWith(front[j..] + (block + back), block) {
        var k := StaysInFront(front, j, block, back);
        OccurrenceNames(kind, front + "\n", j, id, path, rootSquash, subnet);
      }
    }
  }

  /** Such an occurrence could only end with the newline with which the block itself begins. */
  lemma StaysInFront(front: string, j: nat, block: string, back: string) returns (k: nat)
    requires j < |front| && StartsOnlyAtFront(block) && block[|block| - 1] == '\n'
    requires StartsWith(front[j..] + (block + back), block)
    ensures StartsWith((front + "\n")[j..], block)
  {
    var t := front[j..] + (block + back);
    k := |front| - j;
    assert t[k] == block[0] && t[k + 1] == block[1];
    assert forall i :: 0 <= i < |block| ==> block[i] == t[i];
    assert k >= |block| - 1;
    var s := (front + "\n")[j..];
    assert |s| == k + 1 && forall i :: 0 <= i < |block| ==> s[i] == block[i] by {
      assert forall i :: 0 <= i < k ==> s[i] == front[j + i] == t[i];
      assert s[k] == '\n';
    }
    assert s[..|block|] == block;
  }

  lemma UnnamedWithNewline(kind: Kind, text: string, id: nat)
    requires Unnamed(kind, text, id)
    ensures Unnamed(kind, text + "\n", id)
  {
    assert text + "\n" == text + ("\n" + "");
    UnnamedConcat(kind, text, "", id);
    EmptyUnnamed(kind, id);
  }

  lemma EmptyUnnamed(kind: Kind, id: nat)
    ensures Unnamed(kind, "", id)
  {
    NothingIn(kind);
    UncapturedIsUnnamed(kind, "", id);
  }

  /** Cutting a block's text out of a file whose other text does not name its id takes away that
      one block and leaves all other text as it is. */
  lemma CutFromMiddle(kind: Kind, front: string, id: nat, path: string, rootSquash: bool, subnet: string, back: string)
    requires '\n' !in path && '\n' !in subnet
    requires Unnamed(kind, front, id) && Unnamed(kind, back, id)
    ensures
      var block := ExportBlock(kind, id, path, rootSquash, subnet);
      block != [] && RemoveAll(front + (block + back), block) == front + back
  {
    var block := ExportBlock(kind, id, path, rootSquash, subnet);
    BlockEnds(kind, id, path, rootSquash, subnet);
    NotInFront(kind, front, id, path, rootSquash, subnet, back);
    hide ExportBlock, Unnamed, RemoveAll;
    RemoveAllSkips(front, block + back, block);
    RemoveAllCuts(back, block);
    forall j | 0 <= j < |back| ensures !StartsWith(back[j..] + "", block) {
      assert back[j..] + "" == back[j..];
      if StartsWith(back[j..], block) {
        OccurrenceNames(kind, back, j, id, path, rootSquash, subnet);
      }
    }
    RemoveAllSkips(back, "", block);
    NothingToRemove(block);
    assert back + "" == back;
  }

  lemma NothingToRemove(block: string)
    requires block != []
    ensures RemoveAll("", block) == ""
  {}

  /** Undoing an addition restores any file in which the id is not yet mentioned, whatever it holds. */
  lemma RollbackRestores(kind: Kind, file: string, id: nat, path: string, rootSquash: bool, subnet: string)
    requires '\n' !in path && '\n' !in subnet
    requires id !in Captured(kind, file)
    ensures
      var block := ExportBlock(kind, id, path, rootSquash, subnet);
      block != [] && RemoveAll(file + block, block) == file
  {
    hide ExportBlock, Captured, RemoveAll, Unnamed;
    UncapturedIsUnnamed(kind, file, id);
    EmptyUnnamed(kind, id);
    CutFromMiddle(kind, file, id, path, rootSquash, subnet, "");
    var block := ExportBlock(kind, id, path, rootSquash, subnet);
    assert block + "" == block && file + "" == file;
  }
}
