/**
The NFS exporters: an in-memory set of export ids and a file that holds other text besides, changed
by exports, their rollbacks and removals, and read back at a restart.
*/
module Exporters {
  import opened Options
  import opened Text
  import opened ProjectsFile
  import opened IdAllocation
  import opened Exports
  import opened ExportReadBack
  import opened ExportRemoval

  datatype Export = Export(id: nat, path: string, rootSquash: bool, subnet: string)

  function BlockOf(kind: Kind, e: Export): string {
    ExportBlock(kind, e.id, e.path, e.rootSquash, e.subnet)
  }

  /** The text of the exports' blocks, in order. */
  function Blocks(kind: Kind, es: seq<Export>): string {
    if es == [] then "" else Blocks(kind, es[..|es| - 1]) + BlockOf(kind, es[|es| - 1])
  }

  function Ids(es: seq<Export>): set<nat> {
    set e | e in es :: e.id
  }

  /** The numbers that the exports' paths and subnets mention besides. */
  function AllMentions(kind: Kind, es: seq<Export>): set<nat> {
    set e, id | e in es && id in Mentions(kind, e.path, e.subnet) :: id
  }

  predicate OneLine(e: Export) {
    '\n' !in e.path && '\n' !in e.subnet
  }

  predicate DistinctIds(es: seq<Export>) {
    forall i, j :: 0 <= i < j < |es| ==> es[i].id != es[j].id
  }

  // ---------------------------------------------------------------- the file of many blocks

  /** Reading back a file of blocks gives what was there, the exports' ids and what they mention. */
  lemma {:induction false} BlocksReadBack(kind: Kind, found: string, es: seq<Export>)
    ensures Captured(kind, found + Blocks(kind, es)) == Captured(kind, found) + Ids(es) + AllMentions(kind, es)
  {
    hide Captured, ExportBlock, Mentions;
    if es == [] {
      assert found + "" == found;
    } else {
      var init, e := es[..|es| - 1], es[|es| - 1];
      BlocksReadBack(kind, found, init);
      var text := found + Blocks(kind, init);
      assert found + Blocks(kind, es) == text + BlockOf(kind, e);
      AddedIdReadBack(kind, text, e.id, e.path, e.rootSquash, e.subnet);
      assert forall x :: x in es <==> x in init || x == e;
    }
  }

  lemma {:induction false} BlocksConcat(kind: Kind, a: seq<Export>, b: seq<Export>)
    ensures Blocks(kind, a + b) == Blocks(kind, a) + Blocks(kind, b)
  {
    hide BlockOf;
    if b == [] {
      assert a + b == a && Blocks(kind, a) + "" == Blocks(kind, a);
    } else {
      assert (a + b)[..|a + b| - 1] == a + b[..|b| - 1];
      BlocksConcat(kind, a, b[..|b| - 1]);
    }
  }

  lemma OneLineUnnamed(kind: Kind, line: string, id: nat)
    requires '\n' !in line
    ensures Unnamed(kind, line, id) <==> !Names(kind, line, id)
  {
    hide Names;
    SplitWhole(line, '\n');
  }

  lemma NoMarkerUnnamed(text: string, id: nat)
    requires 'E' !in text
    ensures Unnamed(Ganesha, text, id)
  {
    SplitHasNoOther(text, '\n', 'E');
    FirstOfMarker(Ganesha);
    hide Split, Marker;
    forall line | line in Split(text, '\n') ensures !Names(Ganesha, line, id) {
      var named := "\t" + (Marker(Ganesha) + (FormatUint(id) + ";"));
      assert named[1] == Marker(Ganesha)[0] && named[1] in named;
    }
  }

  lemma EntryUnnamed(key: string, path: string, id: nat)
    requires |key| > 1 && key[1] != 'E' && '\n' !in key && '\n' !in path
    ensures Unnamed(Ganesha, key + path + ";", id)
  {
    FirstOfMarker(Ganesha);
    MarkerEnd(Ganesha);
    hide Marker;
    var line := key + path + ";";
    OneLineUnnamed(Ganesha, line, id);
    var named := "\t" + (Marker(Ganesha) + (FormatUint(id) + ";"));
    assert named[1] == Marker(Ganesha)[0] && line[1] == key[1];
  }

  lemma OpeningUnnamed(id: nat)
    ensures Unnamed(Ganesha, "EXPORT\n{", id)
  {
    assert "EXPORT\n{" == "EXPORT" + ("\n" + "{");
    hide FormatUint;
    var named := "\t" + (Marker(Ganesha) + (FormatUint(id) + ";"));
    assert named[0] == '\t' && "EXPORT"[0] == 'E' && "{"[0] == '{';
    OneLineUnnamed(Ganesha, "EXPORT", id);
    OneLineUnnamed(Ganesha, "{", id);
    UnnamedConcat(Ganesha, "EXPORT", "{", id);
  }

  /** A block names no other id than its own, wherever it is put. */
  lemma BlockUnnamed(kind: Kind, text: string, e: Export, id: nat)
    requires OneLine(e) && id != e.id
    ensures Unnamed(kind, text + BlockOf(kind, e), id) <==> Unnamed(kind, text, id)
  {
    var line := IdLine(kind, e.id, e.path, e.rootSquash, e.subnet);
    IdLineNames(kind, e.id, e.path, e.rootSquash, e.subnet);
    IdLinePlain(kind, e.id, e.path, e.rootSquash, e.subnet);
    OneLineUnnamed(kind, line, id);
    if Names(kind, line, id) {
      NamesOne(kind, line, id, e.id);
    }
    match kind {
      case Kernel => KernelBlockUnnamed(text, e, id);
      case Ganesha => GaneshaBlockUnnamed(text, e, id);
    }
  }

  lemma KernelBlockUnnamed(text: string, e: Export, id: nat)
    requires Unnamed(Kernel, IdLine(Kernel, e.id, e.path, e.rootSquash, e.subnet), id)
    ensures Unnamed(Kernel, text + BlockOf(Kernel, e), id) <==> Unnamed(Kernel, text, id)
  {
    hide Unnamed, Marker, FormatUint, Before;
    var line := IdLine(Kernel, e.id, e.path, e.rootSquash, e.subnet);
    KernelAround(Before(Kernel, e.path, e.rootSquash, e.subnet), Marker(Kernel), FormatUint(e.id));
    assert BlockOf(Kernel, e) == "\n" + (line + ("\n" + ""));
    UnnamedConcat(Kernel, text, line + ("\n" + ""), id);
    UnnamedConcat(Kernel, line, "", id);
    EmptyUnnamed(Kernel, id);
  }

  lemma GaneshaBlockUnnamed(text: string, e: Export, id: nat)
    requires OneLine(e) && Unnamed(Ganesha, IdLine(Ganesha, e.id, e.path, e.rootSquash, e.subnet), id)
    ensures Unnamed(Ganesha, text + BlockOf(Ganesha, e), id) <==> Unnamed(Ganesha, text, id)
  {
    GaneshaEntries(e.id, e.path, e.rootSquash, e.subnet);
    ParseFormat(e.id);
    var digits := FormatUint(e.id);
    SettingsPlain(digits, e.rootSquash);
    var settings := Settings(digits, e.rootSquash) + "\n";
    NoMarkerUnnamed(settings, id);
    EntryUnnamed("\tPath = ", e.path, id);
    EntryUnnamed("\tPseudo = ", e.path, id);
    OpeningUnnamed(id);
    hide Unnamed, Marker, FormatUint, Settings, ExportBlock, AllDigits;
    var pseudo := "\tPseudo = " + e.path + ";";
    var path := "\tPath = " + e.path + ";";
    var line := IdLine(Ganesha, e.id, e.path, e.rootSquash, e.subnet);
    UnnamedInLines(text, "EXPORT\n{", line, path, pseudo, settings, id);
  }

  lemma UnnamedInLines(a: string, b: string, c: string, d: string, e: string, f: string, id: nat)
    ensures Unnamed(Ganesha, a + ("\n" + (b + ("\n" + (c + ("\n" + (d + ("\n" + (e + ("\n" + f))))))))), id) <==>
      && Unnamed(Ganesha, a, id) && Unnamed(Ganesha, b, id) && Unnamed(Ganesha, c, id)
      && Unnamed(Ganesha, d, id) && Unnamed(Ganesha, e, id) && Unnamed(Ganesha, f, id)
  {
    hide Unnamed;
    var e', d', c' := e + ("\n" + f), d + ("\n" + (e + ("\n" + f))), c + ("\n" + (d + ("\n" + (e + ("\n" + f)))));
    UnnamedConcat(Ganesha, e, f, id);
    UnnamedConcat(Ganesha, d, e', id);
    UnnamedConcat(Ganesha, c, d', id);
    UnnamedConcat(Ganesha, b, c', id);
    UnnamedConcat(Ganesha, a, b + ("\n" + c'), id);
  }

  lemma {:induction false} BlocksUnnamed(kind: Kind, found: string, es: seq<Export>, id: nat)
    requires Unnamed(kind, found, id) && id !in Ids(es) && forall e :: e in es ==> OneLine(e)
    ensures Unnamed(kind, found + Blocks(kind, es), id)
  {
    hide Unnamed, BlockOf, OneLine;
    if es == [] {
      assert found + "" == found;
    } else {
      var init, e := es[..|es| - 1], es[|es| - 1];
      assert e in es;
      BlocksUnnamed(kind, found, init, id);
      var text := found + Blocks(kind, init);
      assert found + Blocks(kind, es) == text + BlockOf(kind, e);
      BlockUnnamed(kind, text, e, id);
    }
  }

  lemma OthersDiffer(a: seq<Export>, e: Export, c: seq<Export>)
    requires DistinctIds(a + ([e] + c))
    ensures e.id !in Ids(a) && e.id !in Ids(c) && DistinctIds(a + c)
    ensures Ids(a + ([e] + c)) == Ids(a + c) + {e.id}
    ensures forall x :: x in a || x in c || x == e <==> x in a + ([e] + c)
  {
    var es := a + ([e] + c);
    assert es[|a|] == e;
    assert forall i :: 0 <= i < |a| ==> es[i] == a[i];
    assert forall i :: 0 <= i < |c| ==> es[|a| + 1 + i] == c[i];
    assert forall i :: 0 <= i < |a + c| ==> (a + c)[i] == es[if i < |a| then i else i + 1];
  }

  lemma OneBlock(kind: Kind, e: Export)
    ensures Blocks(kind, [e]) == BlockOf(kind, e)
  {
    hide BlockOf;
    assert [e][..0] == [] && Blocks(kind, [e]) == "" + BlockOf(kind, e);
  }

  lemma Regroup(found: string, a: string, b: string, c: string)
    ensures found + (a + (b + c)) == (found + a) + (b + c) && found + (a + c) == (found + a) + c
  {}

  lemma BlocksAround(kind: Kind, found: string, a: seq<Export>, e: Export, c: seq<Export>)
    ensures found + Blocks(kind, a + ([e] + c)) == (found + Blocks(kind, a)) + (BlockOf(kind, e) + Blocks(kind, c))
    ensures found + Blocks(kind, a + c) == (found + Blocks(kind, a)) + Blocks(kind, c)
  {
    hide BlockOf, Blocks;
    BlocksConcat(kind, a, [e] + c);
    BlocksConcat(kind, [e], c);
    BlocksConcat(kind, a, c);
    OneBlock(kind, e);
    Regroup(found, Blocks(kind, a), BlockOf(kind, e), Blocks(kind, c));
  }

  /** Removing one export cuts out exactly its block, from between all others. */
  lemma BlockRemoved(kind: Kind, found: string, a: seq<Export>, e: Export, c: seq<Export>)
    requires DistinctIds(a + ([e] + c)) && e.id !in Captured(kind, found)
    requires forall x :: x in a + ([e] + c) ==> OneLine(x)
    ensures BlockOf(kind, e) != []
    ensures RemoveAll(found + Blocks(kind, a + ([e] + c)), BlockOf(kind, e)) == found + Blocks(kind, a + c)
  {
    hide Captured, Unnamed, BlockOf, Blocks, OneLine, RemoveAll, DistinctIds, Ids;
    OthersDiffer(a, e, c);
    UncapturedIsUnnamed(kind, found, e.id);
    EmptyUnnamed(kind, e.id);
    BlocksUnnamed(kind, found, a, e.id);
    BlocksUnnamed(kind, "", c, e.id);
    assert "" + Blocks(kind, c) == Blocks(kind, c);
    BlocksAround(kind, found, a, e, c);
    CutExport(kind, found + Blocks(kind, a), e, Blocks(kind, c));
  }

  lemma CutExport(kind: Kind, front: string, e: Export, back: string)
    requires OneLine(e) && Unnamed(kind, front, e.id) && Unnamed(kind, back, e.id)
    ensures BlockOf(kind, e) != [] && RemoveAll(front + (BlockOf(kind, e) + back), BlockOf(kind, e)) == front + back
  {
    hide Unnamed, ExportBlock, RemoveAll;
    CutFromMiddle(kind, front, e.id, e.path, e.rootSquash, e.subnet, back);
  }

  // ---------------------------------------------------------------- the exporter

  /** Without the first occurrence of `e`. */
  function Drop(es: seq<Export>, e: Export): seq<Export> {
    if es == [] then [] else if es[0] == e then es[1..] else [es[0]] + Drop(es[1..], e)
  }

  lemma {:induction false} DropAt(es: seq<Export>, e: Export) returns (a: seq<Export>, c: seq<Export>)
    requires e in es
    ensures es == a + ([e] + c) && Drop(es, e) == a + c
  {
    if es[0] == e {
      a, c := [], es[1..];
    } else {
      a, c := DropAt(es[1..], e);
      a := [es[0]] + a;
    }
  }

  lemma {:induction false} DropLast(es: seq<Export>, e: Export)
    requires forall x :: x in es ==> x.id != e.id
    ensures Drop(es + [e], e) == es
  {
    if es != [] {
      assert es[0] in es && (es + [e])[1..] == es[1..] + [e];
      DropLast(es[1..], e);
    }
  }

  /** The file is what was found and the exports' blocks; the id set is what was read from the one
      and the ids of the others. */
  ghost predicate InOrder(kind: Kind, found: string, exports: seq<Export>, ids: set<nat>, config: string) {
    && config == found + Blocks(kind, exports)
    && (forall e :: e in exports ==> OneLine(e) && e.id !in ReadBack(kind, found) && e.id < ID_COUNT)
    && DistinctIds(exports)
    && ids == ReadBack(kind, found) + Ids(exports)
  }

  lemma OneMoreBlock(kind: Kind, found: string, exports: seq<Export>, e: Export)
    ensures found + Blocks(kind, exports + [e]) == (found + Blocks(kind, exports)) + BlockOf(kind, e)
  {
    hide BlockOf;
    assert (exports + [e])[..|exports|] == exports;
  }

  lemma OneMoreId(exports: seq<Export>, e: Export)
    requires DistinctIds(exports) && e.id !in Ids(exports)
    ensures DistinctIds(exports + [e]) && Ids(exports + [e]) == Ids(exports) + {e.id}
  {
    assert forall x :: x in exports + [e] <==> x in exports || x == e;
    forall i, j | 0 <= i < j < |exports + [e]| ensures (exports + [e])[i].id != (exports + [e])[j].id {
      assert (exports + [e])[i] in exports;
    }
  }

  lemma InOrderAdded(kind: Kind, found: string, exports: seq<Export>, ids: set<nat>, config: string, e: Export)
    requires InOrder(kind, found, exports, ids, config) && OneLine(e) && e.id !in ids && e.id < ID_COUNT
    ensures InOrder(kind, found, exports + [e], ids + {e.id}, config + BlockOf(kind, e))
  {
    hide ReadBack, BlockOf, Blocks, OneLine, DistinctIds, Ids;
    OneMoreBlock(kind, found, exports, e);
    OneMoreId(exports, e);
  }

  lemma DropAdded(kind: Kind, found: string, exports: seq<Export>, ids: set<nat>, config: string, e: Export)
    requires InOrder(kind, found, exports, ids, config) && e.id !in ids
    ensures Drop(exports + [e], e) == exports
  {
    assert forall x :: x in exports ==> x.id in Ids(exports);
    DropLast(exports, e);
  }

  lemma InOrderRemoved(kind: Kind, found: string, exports: seq<Export>, ids: set<nat>, config: string, e: Export)
    requires InOrder(kind, found, exports, ids, config) && e in exports
    ensures BlockOf(kind, e) != []
    ensures InOrder(kind, found, Drop(exports, e), ids - {e.id}, RemoveAll(config, BlockOf(kind, e)))
  {
    hide ReadBack, BlockOf, OneLine, Captured, RemoveAll, Blocks, Drop, DistinctIds, Ids;
    var a, c := DropAt(exports, e);
    TakenOut(kind, found, a, e, c, config, ids);
  }

  lemma TakenOut(kind: Kind, found: string, a: seq<Export>, e: Export, c: seq<Export>, config: string, ids: set<nat>)
    requires InOrder(kind, found, a + ([e] + c), ids, config)
    ensures BlockOf(kind, e) != []
    ensures InOrder(kind, found, a + c, ids - {e.id}, RemoveAll(config, BlockOf(kind, e)))
  {
    hide ReadBack, BlockOf, OneLine, Captured, RemoveAll, Blocks, DistinctIds, Ids;
    OthersDiffer(a, e, c);
    InRangeIsCaptured(kind, found, e.id);
    BlockRemoved(kind, found, a, e, c);
    IdsApart(kind, found, a, e, c);
  }

  lemma InRangeIsCaptured(kind: Kind, found: string, id: nat)
    requires id < ID_COUNT && id !in ReadBack(kind, found)
    ensures id !in Captured(kind, found)
  {}

  lemma IdsApart(kind: Kind, found: string, a: seq<Export>, e: Export, c: seq<Export>)
    requires e.id !in ReadBack(kind, found) && e.id !in Ids(a) && e.id !in Ids(c)
    ensures ReadBack(kind, found) + (Ids(a + c) + {e.id}) - {e.id} == ReadBack(kind, found) + Ids(a + c)
  {
    hide ReadBack;
    assert forall x :: x in a + c <==> x in a || x in c;
    assert e.id !in Ids(a + c);
  }

  lemma NothingAdded(kind: Kind, found: string)
    ensures InOrder(kind, found, [], ReadBack(kind, found), found)
  {
    assert found + "" == found;
  }

  class Exporter {
    const kind: Kind
    var exportIDs: set<nat>
    var config: string
    // The file as the exporter found it, and what has been exported and not removed since, in order.
    ghost const found: string
    ghost var exports: seq<Export>
    // Has every removal succeeded, been of such an export, and has every export been of one line?
    ghost var orderly: bool

    ghost predicate Valid()
      reads this
    {
      InRange(exportIDs) && (orderly ==> InOrder(kind, found, exports, exportIDs, config))
    }

    /** The start, or a restart: the ids are read from the file. */
    constructor (kind: Kind, config: string)
      ensures Valid() && orderly && this.kind == kind && this.config == found == config && exports == []
      ensures exportIDs == ReadBack(kind, config)
    {
      this.kind, this.config, found := kind, config, config;
      exportIDs := ReadBack(kind, config);
      exports, orderly := [], true;
      NothingAdded(kind, config);
    }

    /** May another volume be exported? A negative limit means no limit. */
    method CanExport(limit: int) returns (r: bool)
      ensures r <==> limit < 0 || |exportIDs| < limit
    {
      if limit < 0 {
        return true;
      }
      return |exportIDs| < limit;
    }

    method AddToConfig(toAdd: string) returns (ok: bool)
      modifies this`config
      ensures config == if ok then old(config) + toAdd else old(config)
    {
      ok := *;
      if ok {
        config := config + toAdd;
      }
    }

    method RemoveFromConfig(toRemove: string) returns (ok: bool)
      requires toRemove != []
      modifies this`config
      ensures config == if ok then RemoveAll(old(config), toRemove) else old(config)
    {
      ok := *;
      if ok {
        config := RemoveAll(config, toRemove);
      }
    }

    method AddExportBlock(path: string, rootSquash: bool, subnet: string) returns (r: Result<(string, nat)>)
      requires Valid() && |exportIDs| < ID_COUNT
      modifies this
      ensures Valid()
      ensures r.Success? ==>
        && FirstFree(old(exportIDs), r.value.1) && exportIDs == old(exportIDs) + {r.value.1}
        && r.value.0 == ExportBlock(kind, r.value.1, path, rootSquash, subnet) && config == old(config) + r.value.0
        && exports == old(exports) + [Export(r.value.1, path, rootSquash, subnet)]
        && orderly == (old(orderly) && OneLine(Export(r.value.1, path, rootSquash, subnet)))
        && (old(orderly) ==> Drop(exports, Export(r.value.1, path, rootSquash, subnet)) == old(exports))
      ensures r.Failure? ==>
        exportIDs == old(exportIDs) && config == old(config) && exports == old(exports) && orderly == old(orderly)
    {
      hide InOrder, ExportBlock, OneLine, Drop;
      var exportID;
      exportID, exportIDs := GenerateID(exportIDs);
      var block := ExportBlock(kind, exportID, path, rootSquash, subnet);
      var added := AddToConfig(block);
      if !added {
        exportIDs := exportIDs - {exportID};
        assert exportIDs == old(exportIDs);
        return Failure;
      }
      ghost var e := Export(exportID, path, rootSquash, subnet);
      if orderly {
        DropAdded(kind, found, exports, old(exportIDs), old(config), e);
        if OneLine(e) {
          InOrderAdded(kind, found, exports, old(exportIDs), old(config), e);
        }
      }
      exports, orderly := exports + [e], orderly && OneLine(e);
      return Success((block, exportID));
    }

    /** Frees the id and cuts the block's text out of the file, whatever block and id are given. */
    method RemoveExportBlock(block: string, exportID: nat) returns (ok: bool)
      requires Valid() && block != []
      modifies this
      ensures Valid() && exportIDs == old(exportIDs) - {exportID}
      ensures config == if ok then RemoveAll(old(config), block) else old(config)
      ensures forall e :: old(orderly) && e in old(exports) && e.id == exportID && BlockOf(kind, e) == block ==>
        exports == Drop(old(exports), e) && orderly == ok
    {
      hide InOrder, BlockOf, RemoveAll, Drop;
      ghost var ours := exists e :: e in exports && e.id == exportID && BlockOf(kind, e) == block;
      if ours && orderly {
        ghost var e :| e in exports && e.id == exportID && BlockOf(kind, e) == block;
        OnlyExport(kind, found, exports, exportIDs, config, e);
        InOrderRemoved(kind, found, exports, exportIDs, config, e);
        exports := Drop(exports, e);
      } else {
        orderly := false;
      }
      exportIDs := exportIDs - {exportID};
      ok := RemoveFromConfig(block);
      orderly := orderly && ok;
    }

    /** createExport: a block that is exported, or neither. When the rollback's removal succeeds, a
        failure leaves ids and file as they were, unless the file mentions an id that is not taken. */
    method CreateExport(path: string, rootSquash: bool, subnet: string)
      returns (r: Result<(string, nat)>, rolledBack: bool)
      requires Valid() && |exportIDs| < ID_COUNT
      modifies this
      ensures Valid()
      ensures r.Success? ==>
        && FirstFree(old(exportIDs), r.value.1) && exportIDs == old(exportIDs) + {r.value.1}
        && r.value.0 == ExportBlock(kind, r.value.1, path, rootSquash, subnet) && config == old(config) + r.value.0
        && exports == old(exports) + [Export(r.value.1, path, rootSquash, subnet)]
        && orderly == (old(orderly) && OneLine(Export(r.value.1, path, rootSquash, subnet)))
      ensures r.Failure? ==> exportIDs == old(exportIDs)
      ensures r.Failure? && rolledBack && OneLine(Export(0, path, rootSquash, subnet)) ==>
        old(ReadBack(kind, config) <= exportIDs) ==> config == old(config)
      ensures r.Failure? && rolledBack && OneLine(Export(0, path, rootSquash, subnet)) && old(orderly) ==>
        orderly && exports == old(exports) && config == old(config)
    {
      hide ExportBlock, Captured, RemoveAll, FirstFree, InOrder, Drop, Blocks, ReadBack;
      rolledBack := true;
      r := AddExportBlock(path, rootSquash, subnet);
      if r.Failure? {
        return;
      }
      var (block, exportID) := r.value;
      FirstFreeIsFree(old(exportIDs), exportID);
      var exported: bool := *;
      if !exported {
        ghost var e := Export(exportID, path, rootSquash, subnet);
        assert exports[|exports| - 1] == e;
        ghost var mid := config;
        BlockNotEmpty(kind, exportID, path, rootSquash, subnet);
        rolledBack := RemoveExportBlock(block, exportID);
        if OneLine(e) {
          Undone(kind, old(config), old(exportIDs), exportID, path, rootSquash, subnet);
          if rolledBack && old(orderly) {
            SameFile(kind, found, old(exports), old(exportIDs), old(config), exportIDs, config);
          }
        }
        r := Failure;
      }
    }
  }

  lemma OnlyExport(kind: Kind, found: string, exports: seq<Export>, ids: set<nat>, config: string, e: Export)
    requires InOrder(kind, found, exports, ids, config) && e in exports
    ensures forall x :: x in exports && x.id == e.id ==> x == e
  {
    hide ReadBack, Blocks, OneLine;
  }

  /** Two exporters of the same file and exports have the same text. */
  lemma SameFile(kind: Kind, found: string, exports: seq<Export>, ids: set<nat>, config: string, ids': set<nat>,
                 config': string)
    requires InOrder(kind, found, exports, ids, config) && InOrder(kind, found, exports, ids', config')
    ensures config' == config
  {}

  lemma Undone(kind: Kind, config: string, ids: set<nat>, id: nat, path: string, rootSquash: bool, subnet: string)
    requires id !in ids && id < ID_COUNT && '\n' !in path && '\n' !in subnet
    ensures
      var block := ExportBlock(kind, id, path, rootSquash, subnet);
      block != [] && (ReadBack(kind, config) <= ids ==> RemoveAll(config + block, block) == config)
  {
    BlockNotEmpty(kind, id, path, rootSquash, subnet);
    if ReadBack(kind, config) <= ids {
      InRangeIsCaptured(kind, config, id);
      hide Captured, ExportBlock, RemoveAll;
      RollbackRestores(kind, config, id, path, rootSquash, subnet);
    }
  }

  lemma FirstFreeIsFree(ids: set<nat>, id: nat)
    requires FirstFree(ids, id)
    ensures id !in ids && id < ID_COUNT
  {}

  lemma BlockNotEmpty(kind: Kind, id: nat, path: string, rootSquash: bool, subnet: string)
    ensures ExportBlock(kind, id, path, rootSquash, subnet) != []
  {}

  // ---------------------------------------------------------------- runs and restarts

  /** Paths and subnets without "=" mention nothing, so that a restart always takes up the same ids. */
  lemma NoMentions(kind: Kind, es: seq<Export>)
    requires forall e :: e in es ==> '=' !in e.path && '=' !in e.subnet
    ensures AllMentions(kind, es) == {}
  {
    hide Mentions;
    forall e | e in es ensures Mentions(kind, e.path, e.subnet) == {} {
      NothingMentioned(kind, e.path, e.subnet);
    }
  }

  /** A restart of an exporter in order takes up the same ids, and those that live exports' paths and
      subnets mention: the same id set, exactly if they mention no free id. */
  method Restart(e: Exporter) returns (restarted: Exporter)
    requires e.Valid() && e.orderly
    ensures fresh(restarted) && restarted.Valid() && restarted.config == e.config
    ensures restarted.exportIDs == e.exportIDs + set id | id in AllMentions(e.kind, e.exports) && id <= MAX_UINT16
    ensures restarted.exportIDs == e.exportIDs <==>
      forall id :: id in AllMentions(e.kind, e.exports) && id <= MAX_UINT16 ==> id in e.exportIDs
    ensures (forall x :: x in e.exports ==> '=' !in x.path && '=' !in x.subnet) ==> restarted.exportIDs == e.exportIDs
  {
    hide Captured, Blocks, AllMentions, OneLine;
    if forall x :: x in e.exports ==> '=' !in x.path && '=' !in x.subnet {
      NoMentions(e.kind, e.exports);
    }
    restarted := new Exporter(e.kind, e.config);
    BlocksReadBack(e.kind, e.found, e.exports);
    assert forall id :: id in Ids(e.exports) ==> id < ID_COUNT;
  }

  datatype Request = Create(path: string, rootSquash: bool, subnet: string) | Delete(volume: nat)

  /** What a volume's annotations remember of its export. */
  type Volume = (string, nat)

  ghost predicate Remembered(kind: Kind, volumes: seq<Volume>, exports: seq<Export>) {
    && |volumes| == |exports|
    && forall i :: 0 <= i < |volumes| ==> volumes[i] == (BlockOf(kind, exports[i]), exports[i].id)
  }

  /** Any run of exports, their failures and rollbacks, and removals of volumes that were exported:
      as long as the file can be written when something is removed from it and every path and subnet
      is of one line, the file is what was found and the blocks of the live volumes, in order, and
      the id set is what was read from the one and the ids of the other. */
  method Serve(e: Exporter, requests: seq<Request>) returns (volumes: seq<Volume>, removalFailed: bool)
    requires e.Valid() && e.orderly && e.exports == []
    modifies e
    ensures e.Valid()
    ensures !removalFailed && (forall r :: r in requests && r.Create? ==> '\n' !in r.path && '\n' !in r.subnet) ==>
      e.orderly && Remembered(e.kind, volumes, e.exports)
  {
    hide InOrder, ExportBlock, Drop, ReadBack;
    volumes, removalFailed := [], false;
    ghost var plain := forall r :: r in requests && r.Create? ==> '\n' !in r.path && '\n' !in r.subnet;
    for i := 0 to |requests|
      invariant e.Valid()
      invariant forall v :: 0 <= v < |volumes| ==> volumes[v].0 != []
      invariant !removalFailed && plain ==> e.orderly && Remembered(e.kind, volumes, e.exports)
    {
      assert requests[i] in requests;
      match requests[i] {
        case Create(path, rootSquash, subnet) =>
          // With every id taken the source would not return.
          if |e.exportIDs| < ID_COUNT {
            var r, rolledBack := e.CreateExport(path, rootSquash, subnet);
            removalFailed := removalFailed || !rolledBack;
            if r.Success? {
              BlockNotEmpty(e.kind, r.value.1, path, rootSquash, subnet);
              volumes := volumes + [r.value];
            }
          }
        case Delete(v) =>
          if v < |volumes| {
            ghost var exports := e.exports;
            if e.orderly {
              IdsDiffer(e.kind, e.found, e.exports, e.exportIDs, e.config);
            }
            var ok := e.RemoveExportBlock(volumes[v].0, volumes[v].1);
            removalFailed := removalFailed || !ok;
            if !removalFailed && plain {
              DropRemembered(e.kind, volumes, exports, v);
            }
            volumes := volumes[..v] + volumes[v + 1..];
          }
      }
    }
  }

  lemma IdsDiffer(kind: Kind, found: string, exports: seq<Export>, ids: set<nat>, config: string)
    requires InOrder(kind, found, exports, ids, config)
    ensures DistinctIds(exports)
  {}

  lemma DropRemembered(kind: Kind, volumes: seq<Volume>, exports: seq<Export>, v: nat)
    requires Remembered(kind, volumes, exports) && v < |volumes| && DistinctIds(exports)
    ensures exports[v] in exports && BlockOf(kind, exports[v]) == volumes[v].0 && exports[v].id == volumes[v].1
    ensures Remembered(kind, volumes[..v] + volumes[v + 1..], Drop(exports, exports[v]))
  {
    hide BlockOf;
    var a, c := DropAt(exports, exports[v]);
    assert (a + ([exports[v]] + c))[|a|] == exports[v];
    assert |a| == v;
  }
}
