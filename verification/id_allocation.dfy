/**
The allocation of 16-bit ids: the first free one in the order 1, 2, ..., 65535, 0.
*/
module IdAllocation {

  const ID_COUNT := 65536

  predicate InRange(ids: set<nat>) {
    forall id :: id in ids ==> id < ID_COUNT
  }

  /** The place of an id in the order in which ids are tried. */
  function Rank(id: nat): nat
    requires id < ID_COUNT
  {
    if id == 0 then ID_COUNT - 1 else id - 1
  }

  ghost predicate FirstFree(ids: set<nat>, id: nat) {
    id < ID_COUNT && id !in ids && forall j: nat :: j < ID_COUNT && Rank(j) < Rank(id) ==> j in ids
  }

  function Below(n: nat): (ids: set<nat>)
    ensures forall i: nat :: i in ids <==> i < n
    ensures |ids| == n
  {
    if n == 0 then {} else Below(n - 1) + {n - 1}
  }

  lemma SubsetSize(a: set<nat>, b: set<nat>)
    requires a <= b
    ensures |a| <= |b|
  {
    assert b == a + (b - a);
  }

  /** When fewer than 65536 ids are taken, one is free. */
  lemma SomeFree(ids: set<nat>)
    requires |ids| < ID_COUNT
    ensures exists id: nat :: id < ID_COUNT && id !in ids
  {
    if Below(ID_COUNT) <= ids {
      SubsetSize(Below(ID_COUNT), ids);
    }
    var id :| id in Below(ID_COUNT) && id !in ids;
  }

  /** And exactly then: with all of them taken the search has nothing to find. */
  lemma SomeFreeIff(ids: set<nat>)
    requires InRange(ids)
    ensures |ids| < ID_COUNT <==> exists id: nat :: id < ID_COUNT && id !in ids
  {
    if |ids| < ID_COUNT {
      SomeFree(ids);
    } else if id: nat :| id < ID_COUNT && id !in ids {
      SubsetSize(ids, Below(ID_COUNT) - {id});
    }
  }

  lemma NotAllTaken(ids: set<nat>)
    requires forall j: nat :: j < ID_COUNT && Rank(j) < Rank(0) ==> j in ids
    requires 0 in ids
    ensures |ids| >= ID_COUNT
  {
    assert forall j: nat :: 0 < j < ID_COUNT ==> Rank(j) < Rank(0);
    if |ids| < ID_COUNT {
      SomeFree(ids);
    }
  }

  /** Takes the first free id. The counter is 16 bits wide: after 65535 it wraps to 0. When all
      ids are taken the source's loop does not end. */
  method GenerateID(ids: set<nat>) returns (id: nat, taken: set<nat>)
    requires InRange(ids) && |ids| < ID_COUNT
    ensures FirstFree(ids, id)
    ensures taken == ids + {id} && InRange(taken)
  {
    id := 1;
    while true
      invariant id < ID_COUNT
      invariant forall j: nat :: j < ID_COUNT && Rank(j) < Rank(id) ==> j in ids
      decreases ID_COUNT - Rank(id)
    {
      if id !in ids {
        break;
      }
      if id == 0 {
        NotAllTaken(ids);
        assert false;
      }
      id := (id + 1) % ID_COUNT;
    }
    taken := ids + {id};
  }
}
