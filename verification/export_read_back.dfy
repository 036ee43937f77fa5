/**
What a restart reads back from an exporter's file: a block that was added adds its id and
nothing else to the ids that the exporter's regular expression captures.
*/
module ExportReadBack {
  import opened Options
  import opened Text
  import opened ProjectsFile
  import opened IdAllocation
  import opened Exports

  /** No capture goes on across such a character. */
  predicate Separates(kind: Kind, sep: char) {
    sep !in Marker(kind) && !IsDigit(sep) && sep != ';'
  }

  lemma HereUpTo(kind: Kind, a: string, sep: char, c: string)
    requires a != [] && Separates(kind, sep)
    ensures CapturedHere(kind, a + ([sep] + c)) == CapturedHere(kind, a)
  {
    var m, s := Marker(kind), a + ([sep] + c);
    hide Marker;
    if |a| < |m| {
      assert s[|a|] == sep && m[|a|] in m;
    } else {
      assert s[..|m|] == a[..|m|];
      var rest := a[|m|..];
      assert s[|m|..] == rest + ([sep] + c);
      var n := DigitRun(rest);
      assert rest + ([sep] + c) == rest[..n] + (rest[n..] + ([sep] + c));
      DigitRunUpTo(rest[..n], rest[n..] + ([sep] + c));
      assert (rest + ([sep] + c))[..n] == rest[..n];
    }
  }

  /** What a text captures does not depend on what such a character separates from it. */
  lemma {:induction false} CapturedAcross(kind: Kind, a: string, sep: char, c: string)
    requires Separates(kind, sep)
    ensures Captured(kind, a + ([sep] + c)) == Captured(kind, a) + Captured(kind, c)
  {
    var s := a + ([sep] + c);
    if a == [] {
      assert s == [sep] + c && s[1..] == c;
      FirstOfMarker(kind);
      assert Marker(kind)[0] in Marker(kind);
    } else {
      hide CapturedHere, Marker, Separates;
      HereUpTo(kind, a, sep, c);
      assert s[1..] == a[1..] + ([sep] + c);
      CapturedAcross(kind, a[1..], sep, c);
    }
  }

  lemma CapturedByLines(kind: Kind, a: string, c: string)
    ensures Captured(kind, a + ("\n" + c)) == Captured(kind, a) + Captured(kind, c)
  {
    CapturedAcross(kind, a, '\n', c);
  }

  /** The place of "=" in a marker; its first character does not come again before that. */
  lemma MarkerShape(kind: Kind) returns (k: nat)
    ensures 0 < k < |Marker(kind)| && Marker(kind)[k] == '='
    ensures forall j :: 0 < j < |Marker(kind)| ==> Marker(kind)[j] != Marker(kind)[0]
  {
    k := if kind.Ganesha? then 10 else 4;
  }

  /** Text without "=" in front of a mention adds nothing to what is captured. */
  lemma {:induction false} CapturedSkips(kind: Kind, a: string, rest: string)
    requires '=' !in a
    ensures Captured(kind, a + (Marker(kind) + rest)) == Captured(kind, Marker(kind) + rest)
  {
    var k := MarkerShape(kind);
    hide Marker;
    var m := Marker(kind);
    var s := a + (m + rest);
    if a == [] {
      assert s == m + rest;
    } else {
      if |a| > k {
        assert s[k] == a[k];
      } else {
        assert s[|a|] == m[0] != m[|a|];
      }
      assert !StartsWith(s, m);
      assert s[1..] == a[1..] + (m + rest);
      CapturedSkips(kind, a[1..], rest);
    }
  }

  /** Text that has no marker's first character adds nothing to what follows it. */
  lemma {:induction false} PlainFront(kind: Kind, a: string, c: string)
    requires Marker(kind)[0] !in a
    ensures Captured(kind, a + c) == Captured(kind, c)
  {
    var s := a + c;
    if a == [] {
      assert s == c;
    } else {
      assert s[0] == a[0] && a[0] in a && s[1..] == a[1..] + c;
      hide Marker;
      PlainFront(kind, a[1..], c);
    }
  }

  /** Text without "=" captures nothing. */
  lemma {:induction false} NothingCaptured(kind: Kind, s: string)
    requires '=' !in s
    ensures Captured(kind, s) == {}
  {
    var k := MarkerShape(kind);
    if s != [] {
      hide Marker;
      assert |s| > k ==> s[k] in s;
      NothingCaptured(kind, s[1..]);
    }
  }

  lemma OneMention(kind: Kind, digits: string, stop: char)
    requires AllDigits(digits) && digits != [] && stop == if kind.Ganesha? then ';' else ')'
    ensures Captured(kind, Marker(kind) + (digits + [stop])) == {ParseUint(digits)}
  {
    var k := MarkerShape(kind);
    FirstOfMarker(kind);
    NothingIn(kind);
    var m, mention := Marker(kind), digits + [stop];
    hide CapturedHere, ParseUint, Marker;
    assert m + mention == m + digits + [stop] + "";
    CapturedHereAt(kind, digits, stop, "");
    var rest := m[1..] + mention;
    assert (m + mention)[1..] == rest && rest + "" == rest;
    assert m[0] !in mention;
    PlainFront(kind, rest, "");
  }

  lemma FirstOfMarker(kind: Kind)
    ensures Marker(kind)[0] == if kind.Ganesha? then 'E' else 'f'
  {}

  /** The numbers that a path and a subnet themselves mention, where a block has them. */
  function Mentions(kind: Kind, path: string, subnet: string): set<nat> {
    match kind
    case Ganesha => Captured(Ganesha, path + ";")
    case Kernel => Captured(Kernel, path) + Captured(Kernel, subnet)
  }

  lemma KernelLine(id: nat, path: string, rootSquash: bool, subnet: string)
    ensures
      var options := "rw,insecure," + (if rootSquash then "root_squash" else "no_root_squash") + ",";
      ExportBlock(Kernel, id, path, rootSquash, subnet) ==
        "\n" + ((path + (" " + (subnet + ("(" + (options + (Marker(Kernel) + (FormatUint(id) + ")"))))))) + ("\n" + ""))
  {
    hide FormatUint, Marker;
    var squash := if rootSquash then "root_squash" else "no_root_squash";
    assert "(rw,insecure," == "(" + "rw,insecure,";
    assert Before(Kernel, path, rootSquash, subnet) == path + " " + subnet + "(rw,insecure," + squash + ",";
    hide Before;
    KernelRegroup(path, subnet, "rw,insecure,", squash, Marker(Kernel), FormatUint(id));
  }

  lemma KernelRegroup(path: string, subnet: string, options: string, squash: string, m: string, digits: string)
    ensures "\n" + (path + " " + subnet + ("(" + options) + squash + ",") + m + digits + ")" + "\n" ==
            "\n" + ((path + (" " + (subnet + ("(" + (options + squash + "," + (m + (digits + ")"))))))) + ("\n" + ""))
  {}

  lemma KernelReadBack(file: string, id: nat, path: string, rootSquash: bool, subnet: string)
    ensures Captured(Kernel, file + ExportBlock(Kernel, id, path, rootSquash, subnet)) ==
            Captured(Kernel, file) + Mentions(Kernel, path, subnet) + {id}
  {
    ParseFormat(id);
    KernelLine(id, path, rootSquash, subnet);
    NothingIn(Kernel);
    var digits := FormatUint(id);
    var options := "rw,insecure," + (if rootSquash then "root_squash" else "no_root_squash") + ",";
    assert '=' !in options && Separates(Kernel, ' ') && Separates(Kernel, '(');
    hide Captured, FormatUint, Marker, ExportBlock, Separates;
    var last := options + (Marker(Kernel) + (digits + ")"));
    var rest := subnet + ("(" + last);
    var line := path + (" " + rest);
    CapturedByLines(Kernel, file, line + ("\n" + ""));
    CapturedByLines(Kernel, line, "");
    CapturedAcross(Kernel, path, ' ', rest);
    CapturedAcross(Kernel, subnet, '(', last);
    CapturedSkips(Kernel, options, digits + ")");
    OneMention(Kernel, digits, ')');
  }

  lemma NothingIn(kind: Kind)
    ensures Captured(kind, "") == {}
  {}

  /** The part of a ganesha block that follows the paths. */
  function Settings(id: string, rootSquash: bool): string {
    "\tAccess_Type = RW;\n" +
    "\tSquash = " + (if rootSquash then "root_id_squash" else "no_root_squash") + ";\n" +
    "\tSecType = sys;\n" +
    "\tFilesystem_id = " + id + "." + id + ";\n" +
    "\tFSAL {\n\t\tName = VFS;\n\t}\n}"
  }

  lemma SettingsPlain(id: string, rootSquash: bool)
    requires AllDigits(id)
    ensures 'E' !in Settings(id, rootSquash) + "\n"
  {}

  /** Regrouping of one "key value;" entry and what follows it. */
  lemma EntryThen(before: string, key: string, value: string, rest: string)
    ensures before + key + value + ";\n" + rest == before + ((key + value + ";") + ("\n" + rest))
  {
    assert ";\n" == ";" + "\n";
  }

  lemma AfterEntries(digits: string, path: string, rootSquash: bool)
    ensures
      var pseudo := ("\tPseudo = " + path + ";") + ("\n" + (Settings(digits, rootSquash) + "\n"));
      After(Ganesha, digits, path, rootSquash) + "\n" == ";\n" + (("\tPath = " + path + ";") + ("\n" + pseudo))
  {
    AfterText(digits, path, rootSquash);
    hide After, Settings;
    var rest := Settings(digits, rootSquash) + "\n";
    var front := ";\n" + "\tPath = " + path + ";\n";
    var all := front + "\tPseudo = " + path + ";\n";
    assert (all + Settings(digits, rootSquash)) + "\n" == all + rest;
    EntryThen(front, "\tPseudo = ", path, rest);
    EntryThen(";\n", "\tPath = ", path, ("\tPseudo = " + path + ";") + ("\n" + rest));
  }

  lemma AfterText(digits: string, path: string, rootSquash: bool)
    ensures After(Ganesha, digits, path, rootSquash) ==
            ";\n" + "\tPath = " + path + ";\n" + "\tPseudo = " + path + ";\n" + Settings(digits, rootSquash)
  {}

  /** A ganesha block, entry by entry. */
  lemma GaneshaEntries(id: nat, path: string, rootSquash: bool, subnet: string)
    ensures
      var digits := FormatUint(id);
      var pseudo := ("\tPseudo = " + path + ";") + ("\n" + (Settings(digits, rootSquash) + "\n"));
      var paths := ("\tPath = " + path + ";") + ("\n" + pseudo);
      ExportBlock(Ganesha, id, path, rootSquash, subnet) ==
        "\n" + ("EXPORT\n{" + ("\n" + (("\t" + (Marker(Ganesha) + (digits + ";"))) + ("\n" + paths))))
  {
    var digits := FormatUint(id);
    AfterEntries(digits, path, rootSquash);
    GaneshaFront(subnet, path, rootSquash);
    hide FormatUint, Settings, After, Before, Marker;
    var after := After(Ganesha, digits, path, rootSquash);
    var pseudo := ("\tPseudo = " + path + ";") + ("\n" + (Settings(digits, rootSquash) + "\n"));
    var paths := ("\tPath = " + path + ";") + ("\n" + pseudo);
    Head("EXPORT\n{", Marker(Ganesha), digits, paths);
    var head := "\n" + ("EXPORT\n{" + "\n" + "\t") + Marker(Ganesha) + digits;
    assert head + after + "\n" == head + (after + "\n");
  }

  lemma GaneshaFront(subnet: string, path: string, rootSquash: bool)
    ensures Before(Ganesha, path, rootSquash, subnet) == "EXPORT\n{" + "\n" + "\t"
  {}

  lemma Head(open: string, m: string, digits: string, rest: string)
    ensures "\n" + (open + "\n" + "\t") + m + digits + (";\n" + rest) ==
            "\n" + (open + ("\n" + (("\t" + (m + (digits + ";"))) + ("\n" + rest))))
  {
    assert ";\n" == ";" + "\n";
  }

  /** Text in lines captures what its lines do. */
  lemma CapturedInLines(kind: Kind, a: string, b: string, c: string, d: string, e: string, f: string)
    ensures Captured(kind, a + ("\n" + (b + ("\n" + (c + ("\n" + (d + ("\n" + (e + ("\n" + f)))))))))) ==
            Captured(kind, a) + Captured(kind, b) + Captured(kind, c) + Captured(kind, d) + Captured(kind, e) + Captured(kind, f)
  {
    hide Captured;
    var e', d', c' := e + ("\n" + f), d + ("\n" + (e + ("\n" + f))), c + ("\n" + (d + ("\n" + (e + ("\n" + f)))));
    CapturedByLines(kind, e, f);
    CapturedByLines(kind, d, e');
    CapturedByLines(kind, c, d');
    CapturedByLines(kind, b, c');
    CapturedByLines(kind, a, b + ("\n" + c'));
  }

  lemma PathCaptures(key: string, path: string)
    requires 'E' !in key
    ensures Captured(Ganesha, key + path + ";") == Captured(Ganesha, path + ";")
  {
    FirstOfMarker(Ganesha);
    assert key + path + ";" == key + (path + ";");
    PlainFront(Ganesha, key, path + ";");
  }

  lemma IdCaptured(digits: string)
    requires AllDigits(digits) && digits != []
    ensures Captured(Ganesha, "\t" + (Marker(Ganesha) + (digits + ";"))) == {ParseUint(digits)}
  {
    hide Captured, Marker, ParseUint;
    CapturedSkips(Ganesha, "\t", digits + ";");
    OneMention(Ganesha, digits, ';');
  }

  lemma SettingsCaptureNothing(digits: string, rootSquash: bool)
    requires AllDigits(digits)
    ensures Captured(Ganesha, Settings(digits, rootSquash) + "\n") == {} && Captured(Ganesha, "EXPORT\n{") == {}
  {
    FirstOfMarker(Ganesha);
    SettingsPlain(digits, rootSquash);
    hide Captured, Settings, Marker;
    var t := Settings(digits, rootSquash) + "\n";
    assert t + "" == t;
    PlainFront(Ganesha, t, "");
    NothingIn(Ganesha);
    NothingCaptured(Ganesha, "EXPORT\n{");
  }

  lemma GaneshaReadBack(file: string, id: nat, path: string, rootSquash: bool, subnet: string)
    ensures Captured(Ganesha, file + ExportBlock(Ganesha, id, path, rootSquash, subnet)) ==
            Captured(Ganesha, file) + Mentions(Ganesha, path, subnet) + {id}
  {
    ParseFormat(id);
    GaneshaEntries(id, path, rootSquash, subnet);
    hide Captured, FormatUint, Settings, Marker, ExportBlock, AllDigits;
    var digits := FormatUint(id);
    CapturedInLines(Ganesha, file, "EXPORT\n{", "\t" + (Marker(Ganesha) + (digits + ";")), "\tPath = " + path + ";",
                    "\tPseudo = " + path + ";", Settings(digits, rootSquash) + "\n");
    SettingsCaptureNothing(digits, rootSquash);
    IdCaptured(digits);
    PathCaptures("\tPath = ", path);
    PathCaptures("\tPseudo = ", path);
  }

  /** A block added to either exporter's file, whatever is in the file, the path and the subnet, adds
      to the numbers that a restart reads its id and what path and subnet themselves mention. */
  lemma AddedIdReadBack(kind: Kind, file: string, id: nat, path: string, rootSquash: bool, subnet: string)
    ensures Captured(kind, file + ExportBlock(kind, id, path, rootSquash, subnet)) ==
            Captured(kind, file) + Mentions(kind, path, subnet) + {id}
  {
    hide Captured, ExportBlock, Mentions;
    match kind {
      case Kernel => KernelReadBack(file, id, path, rootSquash, subnet);
      case Ganesha => GaneshaReadBack(file, id, path, rootSquash, subnet);
    }
  }

  /** So the id alone is added exactly if path and subnet mention nothing new. */
  lemma OnlyIdAddedIff(kind: Kind, file: string, id: nat, path: string, rootSquash: bool, subnet: string)
    ensures Captured(kind, file + ExportBlock(kind, id, path, rootSquash, subnet)) == Captured(kind, file) + {id}
      <==> Mentions(kind, path, subnet) <= Captured(kind, file) + {id}
  {
    hide Captured, ExportBlock, Mentions;
    AddedIdReadBack(kind, file, id, path, rootSquash, subnet);
  }

  /** Which is so for paths and subnets without "=". */
  lemma NothingMentioned(kind: Kind, path: string, subnet: string)
    requires '=' !in path && '=' !in subnet
    ensures Mentions(kind, path, subnet) == {}
  {
    hide Captured;
    match kind {
      case Kernel =>
        NothingCaptured(Kernel, path);
        NothingCaptured(Kernel, subnet);
      case Ganesha =>
        NothingCaptured(Ganesha, path + ";");
    }
  }

  /** And not for a path that ends like a mention, whatever number that is. */
  lemma MentionInPath(kind: Kind, front: string, number: nat, subnet: string)
    ensures number in Mentions(kind, front + Marker(kind) + FormatUint(number), subnet)
  {
    ParseFormat(number);
    var m, digits := Marker(kind), FormatUint(number);
    var path := front + m + digits;
    hide Marker, FormatUint, ParseUint, Captured, CapturedHere;
    match kind {
      case Ganesha =>
        assert (path + ";")[|front|..] == m + digits + [';'] + "";
        FirstOfMarker(kind);
        MentionCaptured(Ganesha, path + ";", |front|, number, ';', "");
      case Kernel =>
        assert path + " " == path + ([' '] + "");
        KernelSpace();
        NothingIn(Kernel);
        CapturedAcross(Kernel, path, ' ', "");
        assert (path + " ")[|front|..] == m + digits + [' '] + "";
        FirstOfMarker(kind);
        MentionCaptured(Kernel, path + " ", |front|, number, ' ', "");
    }
  }

  lemma KernelSpace()
    ensures Separates(Kernel, ' ')
  {}

  /** What a restart makes of the captured numbers. */
  function ReadBack(kind: Kind, config: string): set<nat> {
    set id | id in Captured(kind, config) && id <= MAX_UINT16
  }
}
