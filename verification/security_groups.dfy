/**
EC2 security groups: the splitting of grouped permissions, and the sync of a group's ingress
rules with the wanted ones.
*/
module SecurityGroups {
  import opened Options

  /** One permission as EC2 groups them. In an IPPermissionSet a permission stands for its key,
      the JSON text of its fields. */
  datatype Permission = Permission(protocol: string, fromPort: Option<int>, toPort: Option<int>,
                                   ranges: seq<string>, groups: seq<string>, prefixes: seq<string>)

  datatype Rule = Rule(protocol: string, fromPort: Option<int>, toPort: Option<int>, cidr: string)

  /** The list itself when it has at most one item, else each item on its own. */
  function Singles(items: seq<string>): set<seq<string>> {
    if |items| <= 1 then {items} else set x | x in items :: [x]
  }

  /** A permission split by address range and by prefix list. */
  function SplitUp(p: Permission): set<Permission> {
    set rs, ps | rs in Singles(p.ranges) && ps in Singles(p.prefixes) :: p.(ranges := rs, prefixes := ps)
  }

  function AllSplitUp(s: set<Permission>): set<Permission> {
    set p, q | p in s && q in SplitUp(p) :: q
  }

  function Elements<T>(l: seq<T>): set<T> {
    set x | x in l
  }

  /** The contents in some order. */
  method List(s: set<Permission>) returns (l: seq<Permission>)
    ensures Elements(l) == s
  {
    l := [];
    var rest := s;
    while rest != {}
      invariant Elements(l) + rest == s
      decreases |rest|
    {
      var p :| p in rest;
      l := l + [p];
      rest := rest - {p};
    }
  }

  predicate AtMostOneGroup(s: set<Permission>) {
    forall p :: p in s ==> |p.groups| <= 1
  }

  /** The permissions that splitting by range, by user group and by prefix list is meant to give. */
  function FullySplit(s: set<Permission>): set<Permission> {
    set p, rs, gs, ps | p in s && rs in Singles(p.ranges) && gs in Singles(p.groups) && ps in Singles(p.prefixes) ::
      p.(ranges := rs, groups := gs, prefixes := ps)
  }

  lemma SinglesAreSingle(items: seq<string>)
    ensures Singles(items) != {} && forall x :: x in Singles(items) ==> |x| <= 1
  {
    if |items| > 1 {
      assert [items[0]] in Singles(items);
    }
  }

  lemma FullySplitGroups(s: set<Permission>)
    ensures AtMostOneGroup(FullySplit(s))
    ensures AtMostOneGroup(s) ==> FullySplit(s) == AllSplitUp(s)
  {
    hide Singles;
    forall q | q in FullySplit(s) ensures |q.groups| <= 1 {
      var p, rs, gs, ps :| p in s && rs in Singles(p.ranges) && gs in Singles(p.groups) && ps in Singles(p.prefixes) &&
        q == p.(ranges := rs, groups := gs, prefixes := ps);
      SinglesAreSingle(p.groups);
    }
    if AtMostOneGroup(s) {
      forall q | q in FullySplit(s) ensures q in AllSplitUp(s) {
        var p, rs, gs, ps :| p in s && rs in Singles(p.ranges) && gs in Singles(p.groups) && ps in Singles(p.prefixes) &&
          q == p.(ranges := rs, groups := gs, prefixes := ps);
        OnlySingle(p.groups);
        assert q == p.(ranges := rs, prefixes := ps) && q in SplitUp(p);
      }
      forall q | q in AllSplitUp(s) ensures q in FullySplit(s) {
        var p :| p in s && q in SplitUp(p);
        var rs, ps :| rs in Singles(p.ranges) && ps in Singles(p.prefixes) && q == p.(ranges := rs, prefixes := ps);
        OnlySingle(p.groups);
        assert q == p.(ranges := rs, groups := p.groups, prefixes := ps);
      }
    }
  }

  lemma OnlySingle(items: seq<string>)
    ensures |items| <= 1 ==> Singles(items) == {items}
  {}

  /** A permission with several groups leaves one behind, unless the groups themselves are split. */
  lemma GroupsStay(s: set<Permission>)
    requires !AtMostOneGroup(s)
    ensures !AtMostOneGroup(ByRange(s)) && !AtMostOneGroup(ByPrefix(s))
  {
    hide Singles;
    var p :| p in s && |p.groups| > 1;
    SinglesAreSingle(p.ranges);
    SinglesAreSingle(p.prefixes);
    var rs :| rs in Singles(p.ranges);
    var ps :| ps in Singles(p.prefixes);
    assert p.(ranges := rs) in ByRange(s) && p.(prefixes := ps) in ByPrefix(s);
  }

  /** Splits permissions into individual ones, by range, by user group and by prefix list. The
      middle loop appends to the wrong list, so that the result is the intended one if and only if
      no permission has several user groups. */
  method Ungroup(s: set<Permission>) returns (r: set<Permission>)
    ensures r == FullySplit(s) <==> AtMostOneGroup(s)
    ensures AtMostOneGroup(s) ==> r == AllSplitUp(s)
  {
    hide FullySplit, AllSplitUp, ByRange, ByPrefix;
    var list := List(s);
    ghost var few := AtMostOneGroup(s);
    var l := SplitRanges(list);
    var l2: seq<Permission> := [];
    ghost var appended := false;
    FewGroupsByRange(s);
    for i := 0 to |l|
      invariant few ==> l2 == l[..i]
      invariant appended ==> |l| <= |l2| && l2[..|l|] == l
      invariant appended <==> exists k :: 0 <= k < i && |l[k].groups| > 1
    {
      var p := l[i];
      assert p in Elements(l);
      if |p.groups| <= 1 {
        l2 := l2 + [p];
      } else {
        for j := 0 to |p.groups|
          invariant j > 0 ==> |l| <= |l2| && l2[..|l|] == l
        {
          l2 := l + [p.(groups := [p.groups[j]])];
        }
        appended := true;
      }
    }
    var l3 := SplitPrefixes(l2);
    r := Elements(l3);
    FullySplitGroups(s);
    if few {
      assert l2 == l;
      SplitTwice(s, Elements(l), r);
    } else {
      GroupsStay(s);
      var p :| p in ByRange(s) && |p.groups| > 1;
      assert p in Elements(l);
      var k :| 0 <= k < |l| && l[k] == p;
      assert l2[..|l|][k] == p && p in Elements(l2);
      GroupsStay(Elements(l2));
    }
  }

  lemma FewGroupsByRange(s: set<Permission>)
    ensures AtMostOneGroup(s) ==> AtMostOneGroup(ByRange(s))
  {}

  function ByRange(s: set<Permission>): set<Permission> {
    set p, rs | p in s && rs in Singles(p.ranges) :: p.(ranges := rs)
  }

  function ByPrefix(s: set<Permission>): set<Permission> {
    set p, ps | p in s && ps in Singles(p.prefixes) :: p.(prefixes := ps)
  }

  lemma SplitTwice(s: set<Permission>, l: set<Permission>, r: set<Permission>)
    requires l == ByRange(s) && r == ByPrefix(l)
    ensures r == AllSplitUp(s)
  {
    forall q | q in AllSplitUp(s) ensures q in r {
      var p :| p in s && q in SplitUp(p);
      var rs, ps :| rs in Singles(p.ranges) && ps in Singles(p.prefixes) && q == p.(ranges := rs, prefixes := ps);
      assert p.(ranges := rs) in l;
      assert q == p.(ranges := rs).(prefixes := ps);
    }
    forall q | q in r ensures q in AllSplitUp(s) {
      var p', ps :| p' in l && ps in Singles(p'.prefixes) && q == p'.(prefixes := ps);
      var p, rs :| p in s && rs in Singles(p.ranges) && p' == p.(ranges := rs);
      assert q == p.(ranges := rs, prefixes := ps);
      assert q in SplitUp(p);
    }
  }

  lemma ElementsConcat<T>(a: seq<T>, b: seq<T>)
    ensures Elements(a + b) == Elements(a) + Elements(b)
  {}

  /** The permission for each of its ranges; itself when it has at most one. */
  method RangeCopies(p: Permission) returns (l: seq<Permission>)
    ensures Elements(l) == ByRange({p})
  {
    if |p.ranges| <= 1 {
      l := [p];
      assert p == p.(ranges := p.ranges);
      return;
    }
    l := [];
    for j := 0 to |p.ranges|
      invariant |l| == j && forall k :: 0 <= k < j ==> l[k] == p.(ranges := [p.ranges[k]])
    {
      l := l + [p.(ranges := [p.ranges[j]])];
    }
    forall q | q in ByRange({p}) ensures q in Elements(l) {
      var rs :| rs in Singles(p.ranges) && q == p.(ranges := rs);
      var k :| 0 <= k < |p.ranges| && rs == [p.ranges[k]];
      assert l[k] == q;
    }
  }

  method PrefixCopies(p: Permission) returns (l: seq<Permission>)
    ensures Elements(l) == ByPrefix({p})
  {
    if |p.prefixes| <= 1 {
      l := [p];
      assert p == p.(prefixes := p.prefixes);
      return;
    }
    l := [];
    for j := 0 to |p.prefixes|
      invariant |l| == j && forall k :: 0 <= k < j ==> l[k] == p.(prefixes := [p.prefixes[k]])
    {
      l := l + [p.(prefixes := [p.prefixes[j]])];
    }
    forall q | q in ByPrefix({p}) ensures q in Elements(l) {
      var ps :| ps in Singles(p.prefixes) && q == p.(prefixes := ps);
      var k :| 0 <= k < |p.prefixes| && ps == [p.prefixes[k]];
      assert l[k] == q;
    }
  }

  method SplitRanges(list: seq<Permission>) returns (l: seq<Permission>)
    ensures Elements(l) == ByRange(Elements(list))
  {
    l := [];
    for i := 0 to |list|
      invariant Elements(l) == ByRange(Elements(list[..i]))
    {
      var copies := RangeCopies(list[i]);
      ElementsConcat(l, copies);
      ElementsConcat(list[..i], [list[i]]);
      assert list[..i + 1] == list[..i] + [list[i]] && Elements([list[i]]) == {list[i]};
      l := l + copies;
    }
    assert list[..|list|] == list;
  }

  method SplitPrefixes(list: seq<Permission>) returns (l: seq<Permission>)
    ensures Elements(l) == ByPrefix(Elements(list))
  {
    l := [];
    for i := 0 to |list|
      invariant Elements(l) == ByPrefix(Elements(list[..i]))
    {
      var copies := PrefixCopies(list[i]);
      ElementsConcat(l, copies);
      ElementsConcat(list[..i], [list[i]]);
      assert list[..i + 1] == list[..i] + [list[i]] && Elements([list[i]]) == {list[i]};
      l := l + copies;
    }
    assert list[..|list|] == list;
  }

  // ---------------------------------------------------------------- a normal form

  /** Permissions that list one or more address ranges and nothing else. */
  predicate RangesOnly(s: set<Permission>) {
    forall p :: p in s ==> p.ranges != [] && p.groups == [] && p.prefixes == []
  }

  function Rules(s: set<Permission>): set<Rule> {
    set p, cidr | p in s && cidr in p.ranges :: Rule(p.protocol, p.fromPort, p.toPort, cidr)
  }

  function Single(r: Rule): Permission {
    Permission(r.protocol, r.fromPort, r.toPort, [r.cidr], [], [])
  }

  function SinglesOf(rules: set<Rule>): set<Permission> {
    set r | r in rules :: Single(r)
  }

  /** Such permissions split up into one permission for each rule. */
  lemma SplitUpOneByOne(s: set<Permission>)
    requires RangesOnly(s)
    ensures AllSplitUp(s) == SinglesOf(Rules(s))
  {
    forall q | q in AllSplitUp(s) ensures exists r :: r in Rules(s) && q == Single(r) {
      var p :| p in s && q in SplitUp(p);
      assert |q.ranges| == 1 && q.ranges[0] in p.ranges;
      var r := Rule(p.protocol, p.fromPort, p.toPort, q.ranges[0]);
      assert r in Rules(s) && q == Single(r);
    }
    forall r | r in Rules(s) ensures Single(r) in AllSplitUp(s) {
      var p, cidr :| p in s && cidr in p.ranges && r == Rule(p.protocol, p.fromPort, p.toPort, cidr);
      assert [cidr] in Singles(p.ranges) by {
        if |p.ranges| == 1 {
          assert p.ranges == [cidr];
        }
      }
      assert [] in Singles(p.prefixes);
      assert Single(r) == p.(ranges := [cidr], prefixes := []);
      assert Single(r) in SplitUp(p);
    }
  }

  /** Splitting keeps the rules, and is a normal form: two sets of permissions split into equal
      sets exactly when they have the same rules. */
  lemma SplitUpNormalForm(s: set<Permission>, t: set<Permission>)
    requires RangesOnly(s) && RangesOnly(t)
    ensures RangesOnly(AllSplitUp(s)) && Rules(AllSplitUp(s)) == Rules(s)
    ensures AllSplitUp(s) == AllSplitUp(t) <==> Rules(s) == Rules(t)
  {
    hide Single, SinglesOf, Rules, RangesOnly, AllSplitUp;
    SplitUpOneByOne(s);
    SplitUpOneByOne(t);
    SinglesHaveTheRules(Rules(s));
    SinglesHaveTheRules(Rules(t));
  }

  lemma SinglesHaveTheRules(rules: set<Rule>)
    ensures RangesOnly(SinglesOf(rules)) && Rules(SinglesOf(rules)) == rules
    ensures SinglesOf(rules) == {} <==> rules == {}
  {
    forall r | r in rules ensures r in Rules(SinglesOf(rules)) {
      assert Single(r) in SinglesOf(rules) && r.cidr in Single(r).ranges;
    }
  }

  lemma SinglesMinus(a: set<Rule>, b: set<Rule>)
    ensures SinglesOf(a) - SinglesOf(b) == SinglesOf(a - b)
  {
    forall r, r' | Single(r) == Single(r') ensures r == r' {
      assert [r.cidr] == [r'.cidr];
      assert r.cidr == [r.cidr][0] == [r'.cidr][0];
    }
    hide Single;
  }

  /** What one sync has to add or remove, as permissions, has exactly the rules that are missing. */
  lemma DifferenceRules(s: set<Permission>, t: set<Permission>)
    requires RangesOnly(s) && RangesOnly(t)
    ensures Rules(AllSplitUp(s) - AllSplitUp(t)) == Rules(s) - Rules(t)
    ensures AllSplitUp(s) - AllSplitUp(t) == {} <==> Rules(s) - Rules(t) == {}
  {
    SplitUpOneByOne(s);
    SplitUpOneByOne(t);
    hide AllSplitUp, Rules, SinglesOf, RangesOnly;
    SinglesMinus(Rules(s), Rules(t));
    SinglesHaveTheRules(Rules(s) - Rules(t));
  }

  // ---------------------------------------------------------------- the sync

  datatype Outcome = Changed | Unchanged | Error

  /** A security group whose permissions list address ranges only. */
  class SecurityGroup {
    var rules: set<Rule>

    constructor (rules: set<Rule>)
      ensures this.rules == rules
    {
      this.rules := rules;
    }

    /** A failed call may have taken effect, in whole or not at all. */
    method Authorize(permissions: set<Permission>) returns (ok: bool)
      modifies this
      ensures rules == old(rules) + Rules(permissions) || (!ok && rules == old(rules))
    {
      ok := *;
      var took: bool := *;
      if ok || took {
        rules := rules + Rules(permissions);
      }
    }

    method Revoke(permissions: set<Permission>) returns (ok: bool)
      modifies this
      ensures rules == old(rules) - Rules(permissions) || (!ok && rules == old(rules))
    {
      ok := *;
      var took: bool := *;
      if ok || took {
        rules := rules - Rules(permissions);
      }
    }

    /** Makes the ingress exactly the given permissions. `described` is what EC2 reports for the
        group: its rules, grouped in any way; None when the look-up fails. */
    method SetSecurityGroupIngress(described: Option<set<Permission>>,
                                   permissions: set<Permission>) returns (r: Outcome)
      requires RangesOnly(permissions)
      requires described.Some? ==> RangesOnly(described.value) && Rules(described.value) == rules
      modifies this
      ensures r.Changed? || r.Unchanged? ==> rules == Rules(permissions)
      ensures r.Unchanged? ==> old(rules) == Rules(permissions)
      ensures r.Changed? ==> old(rules) != Rules(permissions)
      // Even a failure removes nothing that is wanted and adds nothing that is not.
      ensures old(rules) * Rules(permissions) <= rules <= old(rules) + Rules(permissions)
    {
      if described.None? {
        return Error;
      }
      var add, remove := Differences(permissions, described.value);
      hide Rules, AllSplitUp, RangesOnly;
      assert forall x :: x in Rules(permissions) && x !in rules ==> x in Rules(add);
      assert forall x :: x in rules && x !in Rules(permissions) ==> x in Rules(remove);
      if add == {} && remove == {} {
        return Unchanged;
      }
      if add != {} {
        var ok := Authorize(add);
        if !ok {
          return Error;
        }
      }
      if remove != {} {
        var ok := Revoke(remove);
        if !ok {
          return Error;
        }
      }
      return Changed;
    }
  }

  /** The permissions to add and to remove: exactly the rules that are missing and in excess. */
  method Differences(permissions: set<Permission>, described: set<Permission>)
    returns (add: set<Permission>, remove: set<Permission>)
    requires RangesOnly(permissions) && RangesOnly(described)
    ensures Rules(add) == Rules(permissions) - Rules(described)
    ensures Rules(remove) == Rules(described) - Rules(permissions)
    ensures add == {} <==> Rules(add) == {}
    ensures remove == {} <==> Rules(remove) == {}
  {
    var wanted := Ungroup(permissions);
    var actual := Ungroup(described);
    add := wanted - actual;
    remove := actual - wanted;
    DifferenceRules(permissions, described);
    DifferenceRules(described, permissions);
  }
}
