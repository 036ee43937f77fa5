/**
The XFS quotaer: an in-memory set of project ids and a file of printed blocks, changed by
AddProject, RemoveProject and their rollbacks, and read back at a restart.
*/
module Quotas {
  import opened Options
  import opened Text
  import opened ProjectsFile
  import opened IdAllocation

  predicate DistinctIds(ps: seq<Project>) {
    ps == [] || (ps[0].id !in IdsOf(ps[1..]) && DistinctIds(ps[1..]))
  }

  predicate AllWellFormed(ps: seq<Project>) {
    forall p :: p in ps ==> WellFormed(p)
  }

  lemma {:induction false} IdsOfConcat(a: seq<Project>, b: seq<Project>)
    ensures IdsOf(a + b) == IdsOf(a) + IdsOf(b)
  {
    if a == [] {
      assert a + b == b;
    } else {
      assert (a + b)[1..] == a[1..] + b;
      IdsOfConcat(a[1..], b);
    }
  }

  lemma {:induction false} DistinctConcat(a: seq<Project>, b: seq<Project>)
    ensures DistinctIds(a + b) <==> DistinctIds(a) && DistinctIds(b) && IdsOf(a) !! IdsOf(b)
  {
    if a == [] {
      assert a + b == b;
    } else {
      assert (a + b)[1..] == a[1..] + b;
      DistinctConcat(a[1..], b);
      IdsOfConcat(a[1..], b);
    }
  }

  lemma {:induction false} WithoutOther(ps: seq<Project>, p: Project)
    requires p !in ps
    ensures Without(ps, p) == ps
  {
    if ps != [] {
      WithoutOther(ps[1..], p);
    }
  }

  lemma {:induction false} WithoutConcat(a: seq<Project>, b: seq<Project>, p: Project)
    ensures Without(a + b, p) == Without(a, p) + Without(b, p)
  {
    if a == [] {
      assert a + b == b;
    } else {
      assert (a + b)[1..] == a[1..] + b;
      WithoutConcat(a[1..], b, p);
    }
  }

  /** Where ids are distinct, only the one occurrence goes. */
  lemma WithoutMiddle(a: seq<Project>, p: Project, c: seq<Project>)
    requires DistinctIds(a + ([p] + c))
    ensures Without(a + ([p] + c), p) == a + c
  {
    DistinctConcat(a, [p] + c);
    IdsOfConcat([p], c);
    assert ([p] + c)[1..] == c;
    WithoutConcat(a, [p] + c, p);
    WithoutOther(a, p);
    WithoutOther(c, p);
  }

  lemma {:induction false} WithoutIds(ps: seq<Project>, p: Project)
    requires DistinctIds(ps) && p in ps
    ensures IdsOf(Without(ps, p)) == IdsOf(ps) - {p.id}
  {
    hide WellFormed;
    if ps[0] == p {
      WithoutOther(ps[1..], p);
    } else {
      WithoutIds(ps[1..], p);
      var rest := Without(ps[1..], p);
      assert Without(ps, p) == [ps[0]] + rest && ([ps[0]] + rest)[1..] == rest;
    }
  }

  lemma {:induction false} WithoutDistinct(ps: seq<Project>, p: Project)
    requires DistinctIds(ps) && p in ps
    ensures DistinctIds(Without(ps, p))
    ensures forall q :: q in Without(ps, p) ==> q in ps
  {
    if ps[0] == p {
      WithoutOther(ps[1..], p);
    } else {
      WithoutDistinct(ps[1..], p);
      WithoutIds(ps[1..], p);
      var rest := Without(ps[1..], p);
      assert ([ps[0]] + rest)[1..] == rest;
    }
  }

  /** The state of a quotaer that is in order. */
  predicate InOrder(ps: seq<Project>, ids: set<nat>) {
    AllWellFormed(ps) && DistinctIds(ps) && ids == IdsOf(ps)
  }

  lemma AddedInOrder(ps: seq<Project>, ids: set<nat>, p: Project)
    requires InOrder(ps, ids) && WellFormed(p) && p.id !in ids
    ensures InOrder(ps + [p], ids + {p.id})
    ensures Without(ps + [p], p) == ps
    ensures FileText(ps + [p]) == FileText(ps) + Block(p)
  {
    DistinctConcat(ps, [p]);
    IdsOfConcat(ps, [p]);
    FileTextAppend(ps, p);
    assert ps + [p] == ps + ([p] + []);
    WithoutMiddle(ps, p, []);
    assert ps + [] == ps;
  }

  lemma InOrderAt(a: seq<Project>, p: Project, c: seq<Project>, ids: set<nat>)
    requires InOrder(a + ([p] + c), ids)
    ensures p in a + ([p] + c) && p.id in ids
    ensures Without(a + ([p] + c), p) == a + c
  {
    WithoutMiddle(a, p, c);
    assert (a + ([p] + c))[|a|] == p;
  }

  lemma InOrderWellFormed(ps: seq<Project>, ids: set<nat>)
    requires InOrder(ps, ids)
    ensures AllWellFormed(ps)
  {}

  lemma RemovedInOrder(ps: seq<Project>, ids: set<nat>, p: Project)
    requires InOrder(ps, ids) && p in ps
    ensures InOrder(Without(ps, p), ids - {p.id})
    ensures RemoveAll(FileText(ps), Block(p)) == FileText(Without(ps, p))
  {
    WithoutDistinct(ps, p);
    WithoutIds(ps, p);
    RemoveBlock(ps, p);
  }

  /** The projects whose directory still exists. */
  function Surviving(ps: seq<Project>, directories: set<string>): seq<Project> {
    if ps == [] then []
    else
      var last := ps[|ps| - 1];
      Surviving(ps[..|ps| - 1], directories) + if last.directory in directories then [last] else []
  }

  lemma SurvivingOneMore(ps: seq<Project>, directories: set<string>, i: nat)
    requires i < |ps|
    ensures Surviving(ps[..i + 1], directories) ==
            Surviving(ps[..i], directories) + if ps[i].directory in directories then [ps[i]] else []
  {
    assert ps[..i + 1][..i] == ps[..i];
  }

  lemma NoneSurvive(ps: seq<Project>, directories: set<string>)
    ensures Surviving(ps[..0], directories) + ps[0..] == ps
  {}

  lemma {:induction false} SurvivingFrom(ps: seq<Project>, directories: set<string>)
    ensures forall p :: p in Surviving(ps, directories) <==> p in ps && p.directory in directories
  {
    if ps != [] {
      SurvivingFrom(ps[..|ps| - 1], directories);
      assert ps == ps[..|ps| - 1] + [ps[|ps| - 1]];
    }
  }

  datatype Restored = Ok | NotAdded | XfsQuotaFailed

  class XfsQuotaer {
    var projectIDs: set<nat>
    var projectsFile: string
    // The projects added and not removed, in the order of their blocks.
    ghost var projects: seq<Project>
    // Has a removal from the file ever failed?
    ghost var removalFailed: bool

    ghost predicate Valid()
      reads this
    {
      && InOrder(projects, projectIDs) && InRange(projectIDs)
      && (!removalFailed ==> projectsFile == FileText(projects))
    }

    /** A restart: the ids are read back from the file. */
    constructor (projectsFile: string, ghost ps: seq<Project>)
      requires projectsFile == FileText(ps) && AllWellFormed(ps) && DistinctIds(ps)
      ensures Valid() && projects == ps && !removalFailed
      ensures this.projectsFile == projectsFile && projectIDs == ExistingIDs(projectsFile)
    {
      this.projectsFile := projectsFile;
      projectIDs := ExistingIDs(projectsFile);
      projects, removalFailed := ps, false;
      ExistingIDsPrinted(ps);
    }

    method AddToFile(toAdd: string) returns (ok: bool)
      modifies this`projectsFile
      ensures projectsFile == if ok then old(projectsFile) + toAdd else old(projectsFile)
    {
      ok := *;
      if ok {
        projectsFile := projectsFile + toAdd;
      }
    }

    method RemoveFromFile(toRemove: string) returns (ok: bool)
      requires toRemove != []
      modifies this`projectsFile, this`removalFailed
      ensures ok ==> projectsFile == RemoveAll(old(projectsFile), toRemove) && removalFailed == old(removalFailed)
      ensures !ok ==> projectsFile == old(projectsFile) && removalFailed
    {
      ok := *;
      if ok {
        projectsFile := RemoveAll(projectsFile, toRemove);
      } else {
        removalFailed := true;
      }
    }

    /** Adds a project under the first free id; undoes everything when a step fails. */
    method AddProject(directory: string, bhard: string) returns (r: Result<(string, nat)>)
      requires Valid() && |projectIDs| < ID_COUNT
      requires Printable(directory, bhard)
      modifies this
      ensures Valid()
      ensures r.Success? ==>
        && FirstFree(old(projectIDs), r.value.1)
        && projects == old(projects) + [Project(r.value.1, directory, bhard)]
        && r.value.0 == Block(Project(r.value.1, directory, bhard))
        && removalFailed == old(removalFailed)
      ensures r.Failure? ==> projects == old(projects) && projectIDs == old(projectIDs)
      ensures r.Failure? && !removalFailed ==> projectsFile == old(projectsFile)
    {
      hide InOrder, FileText;
      var projectID;
      projectID, projectIDs := GenerateID(projectIDs);
      ghost var p := Project(projectID, directory, bhard);
      assert WellFormed(p);
      var block := "\n" + FormatUint(projectID) + ":" + directory + ":" + bhard + "\n";
      assert block == Block(p);
      var added := AddToFile(block);
      if !added {
        projectIDs := projectIDs - {projectID};
        return Failure;
      }
      AddedInOrder(projects, old(projectIDs), p);
      projects := projects + [p];
      var specified: bool := *;
      if !specified {
        var _ := RemoveProject(block, projectID, p);
        return Failure;
      }
      return Success((block, projectID));
    }

    /** Frees the id first and removes the block afterwards. `p` is the project concerned. */
    method RemoveProject(block: string, projectID: nat, ghost p: Project) returns (ok: bool)
      requires Valid() && p in projects && block == Block(p) && projectID == p.id
      modifies this
      ensures Valid()
      ensures projects == Without(old(projects), p)
      ensures projectIDs == old(projectIDs) - {p.id}
      ensures ok ==> removalFailed == old(removalFailed)
      ensures ok ==> projectsFile == RemoveAll(old(projectsFile), block)
      ensures !ok ==> removalFailed
    {
      hide InOrder, FileText, Line;
      RemovedInOrder(projects, projectIDs, p);
      projectIDs := projectIDs - {projectID};
      ok := RemoveFromFile(block);
      projects := Without(projects, p);
    }

    method SetQuota(projectID: nat) returns (r: Restored)
      ensures r == NotAdded <==> projectID !in projectIDs
    {
      if projectID !in projectIDs {
        return NotAdded;
      }
      var done: bool := *;
      return if done then Ok else XfsQuotaFailed;
    }

    /** Sets the quota of one project of the file, or drops it when its directory is gone. */
    method RestoreOne(m: Match, directories: set<string>, ghost kept: seq<Project>, ghost p: Project,
                      ghost rest: seq<Project>)
      returns (r: Restored)
      requires Valid() && projects == kept + ([p] + rest) && m == MatchOf(p)
      modifies this
      ensures Valid() && r != NotAdded
      ensures r == Ok ==> projects == (if p.directory in directories then kept + [p] else kept) + rest
    {
      hide InOrder, InRange, FileText, Block, ParseUint, FormatUint, AllDigits;
      ParseFormat(p.id);
      var projectID := ParseUint(m.digits);
      InOrderAt(kept, p, rest, projectIDs);
      if m.directory !in directories {
        var _ := RemoveProject(m.text, projectID, p);
        r := Ok;
      } else {
        r := SetQuota(projectID);
        assert kept + ([p] + rest) == (kept + [p]) + rest;
      }
    }

    /** Sets the quotas of the projects in the file, and drops those whose directory is gone. */
    method RestoreQuotas(directories: set<string>) returns (r: Restored)
      requires Valid() && !removalFailed
      modifies this
      ensures Valid()
      ensures r != NotAdded
      ensures r == Ok ==> projects == Surviving(old(projects), directories)
    {
      hide InOrder, InRange, FindAll, FileText, MatchOf, Surviving, IdsOf, DistinctIds, WellFormed, ExistingIDs;
      ghost var ps := projects;
      InOrderWellFormed(ps, projectIDs);
      var matches := FindAll(projectsFile);
      FindAllPrinted(ps);
      NoneSurvive(ps, directories);
      for i := 0 to |matches|
        invariant |matches| == |ps| && matches == MatchesOf(ps)
        invariant Valid() && projects == Surviving(ps[..i], directories) + ps[i..]
      {
        ghost var p, kept, rest := ps[i], Surviving(ps[..i], directories), ps[i + 1..];
        SurvivingOneMore(ps, directories, i);
        assert ps[i..] == [p] + rest;
        r := RestoreOne(matches[i], directories, kept, p, rest);
        if r != Ok {
          return;
        }
        assert ps[i + 1..] == rest;
      }
      assert ps[..|ps|] == ps && ps[|ps|..] == [];
      r := Ok;
    }

    /** createQuota: a project and its quota, or neither. */
    method CreateQuota(directory: string, limit: string) returns (r: Result<(string, nat)>)
      requires Valid() && |projectIDs| < ID_COUNT
      requires Printable(directory, limit)
      modifies this
      ensures Valid()
      ensures r.Success? ==> projects == old(projects) + [Project(r.value.1, directory, limit)]
      ensures r.Failure? ==> projects == old(projects) && projectIDs == old(projectIDs)
      ensures r.Failure? && !removalFailed ==> projectsFile == old(projectsFile)
    {
      r := AddProject(directory, limit);
      if r.Failure? {
        return;
      }
      var (block, projectID) := r.value;
      ghost var p := Project(projectID, directory, limit);
      assert projects[|projects| - 1] == p;
      var quotaSet := SetQuota(projectID);
      if quotaSet != Ok {
        assert projects == old(projects) + ([p] + []) && old(projects) + [] == old(projects);
        WithoutMiddle(old(projects), p, []);
        var _ := RemoveProject(block, projectID, p);
        return Failure;
      }
    }
  }

  /** A restart recovers the id set, and keeps exactly the projects that still have a directory. */
  method Restart(q: XfsQuotaer, directories: set<string>) returns (restarted: XfsQuotaer, r: Restored)
    requires q.Valid() && !q.removalFailed
    ensures fresh(restarted) && restarted.Valid()
    ensures r != NotAdded
    ensures ExistingIDs(q.projectsFile) == q.projectIDs
    ensures r == Ok ==> restarted.projects == Surviving(q.projects, directories)
    ensures r == Ok ==> restarted.projectIDs == set p | p in q.projects && p.directory in directories :: p.id
  {
    restarted := new XfsQuotaer(q.projectsFile, q.projects);
    ExistingIDsPrinted(q.projects);
    r := restarted.RestoreQuotas(directories);
    SurvivingFrom(q.projects, directories);
  }
}
