/**
AddProject and RemoveProject running concurrently: every critical section of the map lock or
of the file lock is one step, and steps of different calls interleave freely. Calls in flight
at the same time are on distinct directories. RemoveProject frees the id before it removes the
block, so an id may be handed out again while the old holder's block is still in the file.
*/
module QuotaProtocol {
  import opened Options
  import opened Text
  import opened ProjectsFile
  import opened IdAllocation

  /** A call in flight, by what it has done: an AddProject that holds an id, one whose block is
      in the file, one whose write or whose xfs_quota command failed; and a RemoveProject, or
      an AddProject's rollback, that has freed the id and has yet to remove the block. */
  datatype Op =
    | HasId(p: Project)
    | Written(p: Project)
    | WriteFailed(p: Project)
    | CommandFailed(p: Project)
    | Freed(p: Project)

  /** `ids`, `file`: the shared map and file. `ops`, `live`: calls in flight and projects added,
      by directory. `order`: the projects whose blocks are in the file, in order. `stale`: those of
      them that a removal which failed has left behind. */
  datatype State = State(ids: set<nat>, file: string, ops: map<string, Op>, live: map<string, Project>,
                         order: seq<Project>, stale: set<Project>)

  datatype Step =
    | GenerateId(directory: string, bhard: string, id: nat)
    | WriteBlock(directory: string, ok: bool)
    | RunCommand(directory: string, ok: bool)
    | UndoId(directory: string)
    | RemoveId(directory: string)
    | RemoveText(directory: string, ok: bool)

  ghost predicate Enabled(s: State, step: Step) {
    match step
    case GenerateId(d, bhard, id) => d !in s.ops && d !in s.live && Printable(d, bhard) && FirstFree(s.ids, id)
    case WriteBlock(d, _) => d in s.ops && s.ops[d].HasId?
    case RunCommand(d, _) => d in s.ops && s.ops[d].Written?
    case UndoId(d) => d in s.ops && (s.ops[d].WriteFailed? || s.ops[d].CommandFailed?)
    case RemoveId(d) => d in s.live
    case RemoveText(d, _) => d in s.ops && s.ops[d].Freed?
  }

  ghost function Do(s: State, step: Step): State
    requires Enabled(s, step)
  {
    match step
    case GenerateId(d, bhard, id) =>
      s.(ids := s.ids + {id}, ops := s.ops[d := HasId(Project(id, d, bhard))])
    case WriteBlock(d, ok) =>
      var p := s.ops[d].p;
      if ok then s.(file := s.file + Block(p), order := s.order + [p], ops := s.ops[d := Written(p)])
      else s.(ops := s.ops[d := WriteFailed(p)])
    case RunCommand(d, ok) =>
      var p := s.ops[d].p;
      if ok then s.(ops := s.ops - {d}, live := s.live[d := p])
      else s.(ops := s.ops[d := CommandFailed(p)])
    case UndoId(d) =>
      var p := s.ops[d].p;
      s.(ids := s.ids - {p.id}, ops := if s.ops[d].WriteFailed? then s.ops - {d} else s.ops[d := Freed(p)])
    case RemoveId(d) =>
      var p := s.live[d];
      s.(ids := s.ids - {p.id}, live := s.live - {d}, ops := s.ops[d := Freed(p)])
    case RemoveText(d, ok) =>
      var p := s.ops[d].p;
      if ok
      then s.(file := RemoveAll(s.file, Block(p)), order := Without(s.order, p), stale := s.stale - {p}, ops := s.ops - {d})
      else s.(stale := s.stale + {p}, ops := s.ops - {d})
  }

  // ---------------------------------------------------------------- who holds what

  /** The projects, by directory, for which a call in flight or a finished one holds an id. */
  function Holders(s: State): map<string, Project> {
    map d | d in s.live.Keys + s.ops.Keys && (d in s.live || !s.ops[d].Freed?) ::
      if d in s.live then s.live[d] else s.ops[d].p
  }

  predicate HasBlock(op: Op) {
    op.Written? || op.CommandFailed? || op.Freed?
  }

  /** The projects, by directory, that have a block in the file. */
  function Filed(s: State): map<string, Project> {
    map d | d in s.live.Keys + s.ops.Keys && (d in s.live || HasBlock(s.ops[d])) ::
      if d in s.live then s.live[d] else s.ops[d].p
  }

  predicate Keyed(s: State) {
    && (forall d :: d in s.ops ==> d !in s.live && s.ops[d].p.directory == d && WellFormed(s.ops[d].p))
    && (forall d :: d in s.live ==> s.live[d].directory == d && WellFormed(s.live[d]))
  }

  /** Each id that is taken has exactly one holder, and no other id has any. */
  ghost predicate OneHolder(holders: map<string, Project>, ids: set<nat>) {
    && (forall d, e :: d in holders && e in holders && holders[d].id == holders[e].id ==> d == e)
    && (forall d :: d in holders ==> holders[d].id in ids)
    && (forall id :: id in ids ==> exists d :: d in holders && holders[d].id == id)
  }

  /** The file is the text of the blocks in `order`: one for each directory that has one, and
      those that were left behind, which come on top of the others. */
  predicate InFile(filed: map<string, Project>, stale: set<Project>, order: seq<Project>, file: string) {
    && file == FileText(order)
    && (forall p :: p in order ==> WellFormed(p))
    && (forall p :: p in order && p !in stale ==> p.directory in filed && filed[p.directory] == p && multiset(order)[p] == 1)
    && (forall d :: d in filed ==> filed[d].directory == d && filed[d] in order)
    && (forall p :: p in stale ==> p in order)
    && (forall d :: d in filed && filed[d] in stale ==> multiset(order)[filed[d]] > 1)
  }

  ghost predicate Inv(s: State) {
    Keyed(s) && OneHolder(Holders(s), s.ids) && InFile(Filed(s), s.stale, s.order, s.file)
  }

  /** Runs start from a quotaer at rest: a new one, or one just restarted. */
  ghost predicate IsRun(states: seq<State>, steps: seq<Step>) {
    && |states| == |steps| + 1
    && Inv(states[0]) && states[0].ops == map[]
    && forall i :: 0 <= i < |steps| ==> Enabled(states[i], steps[i]) && states[i + 1] == Do(states[i], steps[i])
  }

  lemma HolderAdded(holders: map<string, Project>, ids: set<nat>, d: string, p: Project)
    requires OneHolder(holders, ids) && p.id !in ids && d !in holders
    ensures OneHolder(holders[d := p], ids + {p.id})
  {
    var holders' := holders[d := p];
    forall id | id in ids + {p.id} ensures exists e :: e in holders' && holders'[e].id == id {
      if id == p.id {
        assert holders'[d].id == id;
      } else {
        var e :| e in holders && holders[e].id == id;
        assert holders'[e].id == id;
      }
    }
  }

  lemma HolderRemoved(holders: map<string, Project>, ids: set<nat>, d: string)
    requires OneHolder(holders, ids) && d in holders
    ensures OneHolder(holders - {d}, ids - {holders[d].id})
  {
    var holders' := holders - {d};
    forall id | id in ids - {holders[d].id} ensures exists e :: e in holders' && holders'[e].id == id {
      var e :| e in holders && holders[e].id == id;
      assert e in holders';
    }
  }

  lemma KeyedStep(s: State, step: Step)
    requires Keyed(s) && Enabled(s, step)
    ensures Keyed(Do(s, step))
  {
    hide RemoveAll, Without, Block;
  }

  /** The project, if any, that holds an id for one directory. */
  function HolderAt(s: State, d: string): Option<Project> {
    if d in s.live then Some(s.live[d])
    else if d in s.ops && !s.ops[d].Freed? then Some(s.ops[d].p)
    else None
  }

  lemma HoldersByPlace(s: State, m: map<string, Project>)
    ensures Holders(s) == m <==> forall d :: HolderAt(s, d) == if d in m then Some(m[d]) else None
  {
    if forall d :: HolderAt(s, d) == if d in m then Some(m[d]) else None {
      forall d ensures d in Holders(s) <==> d in m {
        assert HolderAt(s, d) == if d in m then Some(m[d]) else None;
      }
      forall d | d in m ensures d in Holders(s) && Holders(s)[d] == m[d] {
        assert HolderAt(s, d) == if d in m then Some(m[d]) else None;
      }
    }
  }

  /** Only generating an id adds a holder, and only freeing one takes a holder away. */
  lemma HoldersAfter(s: State, step: Step)
    requires Keyed(s) && Enabled(s, step)
    ensures Holders(Do(s, step)) ==
      match step
      case GenerateId(d, bhard, id) => Holders(s)[d := Project(id, d, bhard)]
      case UndoId(d) => Holders(s) - {d}
      case RemoveId(d) => Holders(s) - {d}
      case _ => Holders(s)
    ensures step.UndoId? ==> step.directory in Holders(s) && Holders(s)[step.directory] == s.ops[step.directory].p
    ensures step.RemoveId? ==> step.directory in Holders(s) && Holders(s)[step.directory] == s.live[step.directory]
  {
    hide WellFormed, RemoveAll, Without, Block, FirstFree, Printable, Holders;
    HoldersByPlace(s, Holders(s));
    var m := match step
      case GenerateId(d, bhard, id) => Holders(s)[d := Project(id, d, bhard)]
      case UndoId(d) => Holders(s) - {d}
      case RemoveId(d) => Holders(s) - {d}
      case _ => Holders(s);
    forall d ensures HolderAt(Do(s, step), d) == if d in m then Some(m[d]) else None {
      assert HolderAt(s, d) == if d in Holders(s) then Some(Holders(s)[d]) else None;
    }
    HoldersByPlace(Do(s, step), m);
  }

  lemma HoldersStep(s: State, step: Step)
    requires Keyed(s) && OneHolder(Holders(s), s.ids) && Enabled(s, step)
    ensures OneHolder(Holders(Do(s, step)), Do(s, step).ids)
  {
    hide OneHolder, WellFormed, RemoveAll, Without, Block, Keyed, Holders, Printable;
    HoldersAfter(s, step);
    match step {
      case GenerateId(d, bhard, id) =>
        assert d !in Holders(s) by {
          NotYetHolder(s, d);
        }
        HolderAdded(Holders(s), s.ids, d, Project(id, d, bhard));
      case UndoId(d) => HolderRemoved(Holders(s), s.ids, d);
      case RemoveId(d) => HolderRemoved(Holders(s), s.ids, d);
      case _ =>
    }
  }

  lemma NotYetHolder(s: State, d: string)
    requires d !in s.ops && d !in s.live
    ensures d !in Holders(s)
  {}

  lemma BlockAdded(filed: map<string, Project>, stale: set<Project>, order: seq<Project>, file: string, p: Project)
    requires InFile(filed, stale, order, file) && WellFormed(p) && p.directory !in filed
    ensures InFile(filed[p.directory := p], stale, order + [p], file + Block(p))
  {
    hide FileText, WellFormed;
    FileTextAppend(order, p);
    assert p in order ==> p in stale && p in multiset(order);
    assert forall q :: q in order + [p] <==> q in order || q == p;
  }

  lemma BlockRemoved(filed: map<string, Project>, stale: set<Project>, order: seq<Project>, file: string, d: string)
    requires InFile(filed, stale, order, file) && d in filed
    ensures InFile(filed - {d}, stale - {filed[d]}, Without(order, filed[d]), RemoveAll(file, Block(filed[d])))
  {
    hide FileText, WellFormed, RemoveAll, Block, Without;
    var p := filed[d];
    var order' := Without(order, p);
    RemoveBlock(order, p);
    WithoutKeepsOthers(order, p);
    assert forall q :: q in order' <==> q in multiset(order');
    assert forall q :: q in order' <==> q in order && q != p;
  }

  lemma BlockLeft(filed: map<string, Project>, stale: set<Project>, order: seq<Project>, file: string, d: string)
    requires InFile(filed, stale, order, file) && d in filed
    ensures InFile(filed - {d}, stale + {filed[d]}, order, file)
  {
    hide FileText, WellFormed;
  }

  /** Only writing a block gives a directory one, and only removing its text takes it away. */
  lemma FiledAdded(s: State, d: string, ok: bool)
    requires Keyed(s) && Enabled(s, WriteBlock(d, ok))
    ensures d !in Filed(s)
    ensures Filed(Do(s, WriteBlock(d, ok))) == if ok then Filed(s)[d := s.ops[d].p] else Filed(s)
  {
    hide WellFormed, Block;
  }

  lemma FiledRemoved(s: State, d: string, ok: bool)
    requires Keyed(s) && Enabled(s, RemoveText(d, ok))
    ensures d in Filed(s) && Filed(s)[d] == s.ops[d].p
    ensures Filed(Do(s, RemoveText(d, ok))) == Filed(s) - {d}
  {
    hide WellFormed, RemoveAll, Without, Block;
  }

  /** The block that one directory has in the file, if any. */
  function FiledAt(s: State, d: string): Option<Project> {
    if d in s.live then Some(s.live[d])
    else if d in s.ops && HasBlock(s.ops[d]) then Some(s.ops[d].p)
    else None
  }

  lemma FiledByPlace(s: State, s': State)
    requires forall d :: FiledAt(s', d) == FiledAt(s, d)
    ensures Filed(s') == Filed(s)
  {
    forall d ensures d in Filed(s') <==> d in Filed(s) {
      assert FiledAt(s', d) == FiledAt(s, d);
    }
    forall d | d in Filed(s) ensures d in Filed(s') && Filed(s')[d] == Filed(s)[d] {
      assert FiledAt(s', d) == FiledAt(s, d);
    }
  }

  lemma FiledSame(s: State, step: Step)
    requires Keyed(s) && Enabled(s, step) && !step.WriteBlock? && !step.RemoveText?
    ensures Filed(Do(s, step)) == Filed(s)
  {
    hide WellFormed, RemoveAll, Without, Block, FirstFree, Printable, Filed;
    var s' := Do(s, step);
    forall d ensures FiledAt(s', d) == FiledAt(s, d) {
      hide FirstFree;
    }
    FiledByPlace(s, s');
  }

  lemma FileStep(s: State, step: Step)
    requires Keyed(s) && InFile(Filed(s), s.stale, s.order, s.file) && Enabled(s, step)
    ensures InFile(Filed(Do(s, step)), Do(s, step).stale, Do(s, step).order, Do(s, step).file)
  {
    hide InFile, WellFormed, RemoveAll, Without, Block, FirstFree, Printable, Filed;
    match step {
      case WriteBlock(d, ok) =>
        FiledAdded(s, d, ok);
        if ok {
          BlockAdded(Filed(s), s.stale, s.order, s.file, s.ops[d].p);
        }
      case RemoveText(d, ok) =>
        FiledRemoved(s, d, ok);
        if ok {
          BlockRemoved(Filed(s), s.stale, s.order, s.file, d);
        } else {
          BlockLeft(Filed(s), s.stale, s.order, s.file, d);
        }
      case _ => FiledSame(s, step);
    }
  }

  lemma {:induction false} Invariant(states: seq<State>, steps: seq<Step>, i: nat)
    requires IsRun(states, steps) && i < |states|
    ensures Inv(states[i])
  {
    hide Enabled, Do, InFile, OneHolder;
    if i > 0 {
      Invariant(states, steps, i - 1);
      KeyedStep(states[i - 1], steps[i - 1]);
      HoldersStep(states[i - 1], steps[i - 1]);
      FileStep(states[i - 1], steps[i - 1]);
    }
  }

  /** The file is the text of exactly one block for each live project, in some order. */
  predicate HoldsExactly(live: map<string, Project>, order: seq<Project>) {
    && (forall p :: p in order ==> p.directory in live && live[p.directory] == p && multiset(order)[p] == 1)
    && (forall d :: d in live ==> live[d] in order)
  }

  /** In every interleaving no id ever has two holders, and once nothing is in flight: every live
      project has its block in the file; the file holds exactly one block for every live project and
      nothing else if and only if no removal has left a block behind; and the ids read back from it
      are exactly those that are taken and those of the blocks left behind. */
  lemma QuietAgreement(states: seq<State>, steps: seq<Step>, i: nat)
    requires IsRun(states, steps) && i < |states|
    ensures OneHolder(Holders(states[i]), states[i].ids)
    ensures
      var s := states[i];
      s.ops == map[] ==>
        && OneHolder(s.live, s.ids)
        && s.file == FileText(s.order) && (forall d :: d in s.live ==> s.live[d] in s.order)
        && (HoldsExactly(s.live, s.order) <==> s.stale == {})
        && ExistingIDs(s.file) == s.ids + set p | p in s.stale :: p.id
  {
    hide IsRun, FileText, WellFormed, ExistingIDs;
    Invariant(states, steps, i);
    var s := states[i];
    if s.ops == map[] {
      assert Holders(s) == s.live && Filed(s) == s.live;
      ExistingIDsPrinted(s.order);
      SameIds(s.live, s.stale, s.order, s.file, s.ids);
      ExactlyWhenNoneLeft(s.live, s.stale, s.order, s.file);
    }
  }

  lemma ExactlyWhenNoneLeft(live: map<string, Project>, stale: set<Project>, order: seq<Project>, file: string)
    requires InFile(live, stale, order, file)
    ensures HoldsExactly(live, order) <==> stale == {}
  {
    hide FileText, WellFormed;
    if stale != {} {
      var p :| p in stale;
      assert p in order;
    }
  }

  lemma SameIds(live: map<string, Project>, stale: set<Project>, order: seq<Project>, file: string, ids: set<nat>)
    requires InFile(live, stale, order, file) && OneHolder(live, ids)
    ensures IdsOf(order) == ids + set p | p in stale :: p.id
  {
    hide FileText, WellFormed;
    forall id | id in ids ensures id in IdsOf(order) {
      var d :| d in live && live[d].id == id;
      assert live[d] in order;
    }
    forall id | id in IdsOf(order) && id !in ids ensures exists p :: p in stale && p.id == id {
      var p :| p in order && p.id == id;
      if p !in stale {
        assert live[p.directory] == p;
      }
    }
  }

  /** While every removal succeeds, no block is left behind. */
  lemma {:induction false} NoneLeftBehind(states: seq<State>, steps: seq<Step>, i: nat)
    requires IsRun(states, steps) && states[0].stale == {} && i < |states|
    requires forall j :: 0 <= j < |steps| && steps[j].RemoveText? ==> steps[j].ok
    ensures states[i].stale == {}
  {
    hide Enabled, Inv;
    if i > 0 {
      NoneLeftBehind(states, steps, i - 1);
      assert states[i - 1 + 1] == Do(states[i - 1], steps[i - 1]);
    }
  }
}
