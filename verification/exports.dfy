/**
The NFS exporters: export ids and the blocks of the ganesha configuration and of the kernel's
exports file, which may hold other text besides.
*/
module Exports {
  import opened Options
  import opened Text
  import opened ProjectsFile
  import opened IdAllocation

  datatype Kind = Ganesha | Kernel

  /** What the exporter's regular expression looks for around the digits of an id. */
  function Marker(kind: Kind): string {
    match kind
    case Ganesha => "Export_Id = "
    case Kernel => "fsid="
  }

  /** The text before and after the first mention of the id in a block. */
  function Before(kind: Kind, path: string, rootSquash: bool, subnet: string): string {
    match kind
    case Ganesha => "EXPORT\n{\n\t"
    case Kernel =>
      path + " " + subnet + "(rw,insecure," + (if rootSquash then "root_squash" else "no_root_squash") + ","
  }

  function After(kind: Kind, id: string, path: string, rootSquash: bool): string {
    match kind
    case Ganesha =>
      ";\n" +
      "\tPath = " + path + ";\n" +
      "\tPseudo = " + path + ";\n" +
      "\tAccess_Type = RW;\n" +
      "\tSquash = " + (if rootSquash then "root_id_squash" else "no_root_squash") + ";\n" +
      "\tSecType = sys;\n" +
      "\tFilesystem_id = " + id + "." + id + ";\n" +
      "\tFSAL {\n\t\tName = VFS;\n\t}\n}"
    case Kernel => ")"
  }

  function ExportBlock(kind: Kind, id: nat, path: string, rootSquash: bool, subnet: string): string {
    "\n" + Before(kind, path, rootSquash, subnet) + Marker(kind) + FormatUint(id) +
    After(kind, FormatUint(id), path, rootSquash) + "\n"
  }

  /** The number at the start of `s` that the regular expression captures there. */
  function CapturedHere(kind: Kind, s: string): set<nat> {
    if !StartsWith(s, Marker(kind)) then {}
    else
      var rest := s[|Marker(kind)|..];
      var n := DigitRun(rest);
      if n == 0 || (kind.Ganesha? && (n == |rest| || rest[n] != ';')) then {} else {ParseUint(rest[..n])}
  }

  /** All numbers that the regular expression captures. (A match cannot begin inside another.) */
  function Captured(kind: Kind, s: string): set<nat> {
    if s == [] then {} else CapturedHere(kind, s) + Captured(kind, s[1..])
  }

  lemma {:induction false} CapturedAt(kind: Kind, s: string, j: nat)
    requires j < |s|
    ensures CapturedHere(kind, s[j..]) <= Captured(kind, s)
  {
    if j == 0 {
      assert s[0..] == s;
    } else {
      CapturedAt(kind, s[1..], j - 1);
      assert s[1..][j - 1..] == s[j..];
    }
  }

  lemma CapturedHereAt(kind: Kind, digits: string, stop: char, rest: string)
    requires AllDigits(digits) && digits != [] && !IsDigit(stop) && (kind.Ganesha? ==> stop == ';')
    ensures CapturedHere(kind, Marker(kind) + digits + [stop] + rest) == {ParseUint(digits)}
  {
    hide Marker, ParseUint;
    var m := Marker(kind);
    var t := m + digits + [stop] + rest;
    assert t[|m|..] == digits + ([stop] + rest);
    DigitRunUpTo(digits, [stop] + rest);
    assert (digits + ([stop] + rest))[..|digits|] == digits;
  }

  /** The id's mention is captured, whatever surrounds the text up to the stop after it. */
  lemma MentionCaptured(kind: Kind, s: string, j: nat, id: nat, stop: char, rest: string)
    requires j < |s| && s[j..] == Marker(kind) + FormatUint(id) + [stop] + rest
    requires !IsDigit(stop) && (kind.Ganesha? ==> stop == ';')
    ensures id in Captured(kind, s)
  {
    hide Marker, CapturedHere, Captured, FormatUint;
    ParseFormat(id);
    CapturedHereAt(kind, FormatUint(id), stop, rest);
    CapturedAt(kind, s, j);
  }

  // ---------------------------------------------------------------- where a block can begin

  /** After its first character, no newline of the text is followed by its second character. */
  predicate StartsOnlyAtFront(block: string) {
    |block| >= 3 && block[0] == '\n' && forall k :: 0 < k < |block| - 1 && block[k] == '\n' ==> block[k + 1] != block[1]
  }

  predicate NoNewlineE(s: string) {
    forall i :: 0 <= i < |s| - 1 && s[i] == '\n' ==> s[i + 1] != 'E'
  }

  lemma NoNewlineEConcat(a: string, b: string)
    requires NoNewlineE(a) && NoNewlineE(b)
    requires a != [] && b != [] && (a[|a| - 1] != '\n' || b[0] != 'E')
    ensures NoNewlineE(a + b) && (a + b)[|a + b| - 1] == b[|b| - 1]
  {
    var s := a + b;
    forall i | 0 <= i < |s| - 1 && s[i] == '\n' ensures s[i + 1] != 'E' {
      if i < |a| - 1 {
        assert a[i] == '\n';
      } else if i >= |a| {
        assert b[i - |a|] == '\n';
      }
    }
  }

  /** Ends the text with a further piece, if the piece is plain or begins with no 'E'. */
  lemma AndPiece(s: string, piece: string) returns (s': string)
    requires NoNewlineE(s) && s != [] && NoNewlineE(piece)
    requires s[|s| - 1] != '\n' || (piece != [] && piece[0] != 'E')
    ensures s' == s + piece && NoNewlineE(s') && s' != []
    ensures piece != [] ==> s'[|s'| - 1] == piece[|piece| - 1]
    ensures piece == [] ==> s' == s
  {
    s' := s + piece;
    if piece == [] {
      assert s' == s;
    } else {
      NoNewlineEConcat(s, piece);
    }
  }

  lemma FramedStarts(inner: string)
    requires inner != [] && '\n' !in inner
    ensures StartsOnlyAtFront("\n" + inner + "\n")
  {
    var block := "\n" + inner + "\n";
    assert forall k :: 0 < k < |block| - 1 ==> block[k] == inner[k - 1] && inner[k - 1] in inner;
  }

  lemma KernelFrontPlain(path: string, rootSquash: bool, subnet: string)
    requires '\n' !in path && '\n' !in subnet
    ensures '\n' !in Before(Kernel, path, rootSquash, subnet) && '\n' !in Marker(Kernel)
  {}

  lemma KernelBlockText(id: nat, path: string, rootSquash: bool, subnet: string) returns (inner: string)
    requires '\n' !in path && '\n' !in subnet
    ensures inner != [] && '\n' !in inner
    ensures ExportBlock(Kernel, id, path, rootSquash, subnet) == "\n" + inner + "\n"
  {
    ParseFormat(id);
    var digits := FormatUint(id);
    DigitsPlain(digits);
    KernelFrontPlain(path, rootSquash, subnet);
    var front, mark := Before(Kernel, path, rootSquash, subnet), Marker(Kernel);
    hide FormatUint, NoNewlineE, Before, Marker, AllDigits;
    inner := front + mark + digits + ")";
  }

  lemma KernelBlockStarts(id: nat, path: string, rootSquash: bool, subnet: string)
    requires '\n' !in path && '\n' !in subnet
    ensures StartsOnlyAtFront(ExportBlock(Kernel, id, path, rootSquash, subnet))
  {
    hide ExportBlock, StartsOnlyAtFront;
    var inner := KernelBlockText(id, path, rootSquash, subnet);
    FramedStarts(inner);
  }

  lemma Plain(s: string)
    requires '\n' !in s
    ensures NoNewlineE(s)
  {}

  /** The text behind a block's id, up to its Squash entry. */
  lemma GaneshaPaths(path: string) returns (r: string)
    requires '\n' !in path
    ensures r == ";\n" + "\tPath = " + path + ";\n" + "\tPseudo = " + path + ";\n" + "\tAccess_Type = RW;\n" + "\tSquash = "
    ensures NoNewlineE(r) && r[|r| - 1] == ' ' && r[0] == ';'
  {
    hide NoNewlineE;
    Plain(path);
    GaneshaPieces();
    r := ";\n" + "\tPath = ";
    r := AndPiece(r, path);
    r := AndPiece(r, ";\n");
    r := AndPiece(r, "\tPseudo = ");
    r := AndPiece(r, path);
    r := AndPiece(r, ";\n");
    r := AndPiece(r, "\tAccess_Type = RW;\n");
    r := AndPiece(r, "\tSquash = ");
  }

  lemma GaneshaRest(s: string, squash: string, id: string) returns (r: string)
    requires NoNewlineE(s) && s != [] && s[|s| - 1] == ' '
    requires '\n' !in squash && '\n' !in id
    ensures r == s + squash + ";\n" + "\tSecType = sys;\n" + "\tFilesystem_id = " + id + "." + id + ";\n" +
                 "\tFSAL {\n\t\tName = VFS;\n\t}\n}"
    ensures NoNewlineE(r) && r[|r| - 1] == '}' && r[0] == s[0]
  {
    hide NoNewlineE;
    Plain(squash);
    Plain(id);
    GaneshaPieces();
    r := AndPiece(s, squash);
    r := AndPiece(r, ";\n");
    r := AndPiece(r, "\tSecType = sys;\n");
    r := AndPiece(r, "\tFilesystem_id = ");
    r := AndPiece(r, id);
    r := AndPiece(r, ".");
    r := AndPiece(r, id);
    r := AndPiece(r, ";\n");
    r := AndPiece(r, "\tFSAL {\n\t\tName = VFS;\n\t}\n}");
  }

  lemma GaneshaAfter(s: string, id: string, path: string, rootSquash: bool) returns (r: string)
    requires NoNewlineE(s) && s != [] && s[|s| - 1] != '\n'
    requires '\n' !in path && '\n' !in id
    ensures r == s + After(Ganesha, id, path, rootSquash) && NoNewlineE(r)
    ensures r[|r| - 1] == '}'
  {
    hide NoNewlineE;
    var a := GaneshaPaths(path);
    a := GaneshaRest(a, if rootSquash then "root_id_squash" else "no_root_squash", id);
    assert a == After(Ganesha, id, path, rootSquash);
    r := AndPiece(s, a);
  }

  lemma GaneshaPieces()
    ensures NoNewlineE(";\n" + "\tPath = ") && NoNewlineE(";\n") && NoNewlineE("\tPseudo = ")
    ensures NoNewlineE("\tAccess_Type = RW;\n") && NoNewlineE("\tSquash = ") && NoNewlineE("\tSecType = sys;\n")
    ensures NoNewlineE("\tFilesystem_id = ") && NoNewlineE(".") && NoNewlineE("\tFSAL {\n\t\tName = VFS;\n\t}\n}")
  {}

  lemma GaneshaBlockText(id: nat, path: string, rootSquash: bool, subnet: string)
    ensures
      var digits := FormatUint(id);
      ExportBlock(Ganesha, id, path, rootSquash, subnet) ==
        "\n" + ("EXPORT\n{\n\t" + "Export_Id = " + digits + After(Ganesha, digits, path, rootSquash) + "\n")
  {
    hide FormatUint, After;
  }

  lemma GaneshaBlockStarts(id: nat, path: string, rootSquash: bool, subnet: string)
    requires '\n' !in path
    ensures StartsOnlyAtFront(ExportBlock(Ganesha, id, path, rootSquash, subnet))
  {
    hide FormatUint, NoNewlineE, After, ExportBlock, StartsOnlyAtFront;
    ParseFormat(id);
    GaneshaBlockText(id, path, rootSquash, subnet);
    var digits := FormatUint(id);
    GaneshaHead();
    DigitsPlain(digits);
    var a := AndPiece("EXPORT\n{\n\t" + "Export_Id = ", digits);
    assert a[|a| - 1] == digits[|digits| - 1] != '\n';
    a := GaneshaAfter(a, digits, path, rootSquash);
    NewlineAlone();
    a := AndPiece(a, "\n");
    InnerNewlines(a);
  }

  lemma DigitsPlain(digits: string)
    requires AllDigits(digits)
    ensures NoNewlineE(digits) && '\n' !in digits
  {}

  lemma GaneshaHead()
    ensures NoNewlineE("EXPORT\n{\n\t" + "Export_Id = ")
  {}

  lemma NewlineAlone()
    ensures NoNewlineE("\n")
  {}

  lemma InnerNewlines(b: string)
    requires NoNewlineE(b) && |b| >= 2 && b[0] == 'E'
    ensures StartsOnlyAtFront("\n" + b)
  {
    var block := "\n" + b;
    assert forall k :: 0 < k < |block| ==> block[k] == b[k - 1];
  }

  lemma FrontNotEmpty(block: string)
    requires StartsOnlyAtFront(block)
    ensures |block| >= 3
  {}
}
