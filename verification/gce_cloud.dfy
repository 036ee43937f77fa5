/**
The Google Compute Engine side of one load balancer: the resources kept under the
load balancer's name, what one API call may do to them, and what a run of calls keeps
when every call is made at the right moment.
*/
module GceCloud {
  import opened Options

  type IP = string
  type Host = string

  datatype Protocol = TCP | UDP | OtherProtocol(name: string)

  datatype PortRange = PortRange(first: int, last: int)

  datatype Rule = Rule(ip: IP, ports: PortRange, protocol: Protocol)

  /** `affinity` is empty when the pool was created without one. */
  datatype Pool = Pool(affinity: string, members: set<Host>, healthChecked: bool)

  /** `singleAllowed`: one allowed entry, for tcp or udp. `ranges` is None when the
      source ranges that the API reports do not parse. */
  datatype Firewall = Firewall(service: string, ip: IP, protocol: Protocol, singleAllowed: bool,
                               ports: multiset<int>, ranges: Option<set<string>>)

  datatype HealthCheck = HealthCheck(path: string, port: int)

  /** Everything GCE holds for one load balancer. `reservation` is the static address
      reserved under the load balancer's name. */
  datatype Cloud = Cloud(rule: Option<Rule>, reservation: Option<IP>, pool: Option<Pool>,
                         firewall: Option<Firewall>, healthCheck: Option<HealthCheck>)

  datatype Call =
    | InsertAddress(wanted: Option<IP>)
    | DeleteAddress
    | InsertFirewall(firewall: Firewall)
    | UpdateFirewall(firewall: Firewall)
    | InsertPool(pool: Pool)
    | DeletePool
    | AddInstances(hosts: set<Host>)
    | RemoveInstances(hosts: set<Host>)
    | InsertRule(rule: Rule)
    | DeleteRule
    | InsertHealthCheck(healthCheck: HealthCheck)
    | UpdateHealthCheck(healthCheck: HealthCheck)
    | DeleteHealthCheck

  /** The request's answer together with the outcome of waiting for its operation. */
  datatype Answer = Done | Conflict | NotFound | Failed

  datatype Step = Step(call: Call, answer: Answer)

  // ---------------------------------------------------------------- one call

  predicate IsInsert(call: Call) {
    call.InsertAddress? || call.InsertFirewall? || call.InsertPool? || call.InsertRule? || call.InsertHealthCheck?
  }

  /** Does the object that the call names exist? */
  predicate Present(call: Call, c: Cloud) {
    match call
    case InsertAddress(_) => c.reservation.Some?
    case DeleteAddress => c.reservation.Some?
    case InsertFirewall(_) => c.firewall.Some?
    case UpdateFirewall(_) => c.firewall.Some?
    case InsertPool(_) => c.pool.Some?
    case DeletePool => c.pool.Some?
    case AddInstances(_) => c.pool.Some?
    case RemoveInstances(_) => c.pool.Some?
    case InsertRule(_) => c.rule.Some?
    case DeleteRule => c.rule.Some?
    case InsertHealthCheck(_) => c.healthCheck.Some?
    case UpdateHealthCheck(_) => c.healthCheck.Some?
    case DeleteHealthCheck => c.healthCheck.Some?
  }

  /** `after` is `before` with the call carried out. An address that is not asked for by
      value may be any. Releasing a reservation leaves a rule that uses it alone. */
  predicate TookEffect(call: Call, before: Cloud, after: Cloud) {
    match call
    case InsertAddress(wanted) =>
      && after.reservation.Some?
      && (wanted.Some? ==> after.reservation == wanted)
      && after == before.(reservation := after.reservation)
    case DeleteAddress => after == before.(reservation := None)
    case InsertFirewall(f) => after == before.(firewall := Some(f))
    case UpdateFirewall(f) => after == before.(firewall := Some(f))
    case InsertPool(p) => after == before.(pool := Some(p))
    case DeletePool => after == before.(pool := None)
    case AddInstances(hosts) =>
      before.pool.Some? &&
      after == before.(pool := Some(before.pool.value.(members := before.pool.value.members + hosts)))
    case RemoveInstances(hosts) =>
      before.pool.Some? &&
      after == before.(pool := Some(before.pool.value.(members := before.pool.value.members - hosts)))
    case InsertRule(r) => after == before.(rule := Some(r))
    case DeleteRule => after == before.(rule := None)
    case InsertHealthCheck(h) => after == before.(healthCheck := Some(h))
    case UpdateHealthCheck(h) => after == before.(healthCheck := Some(h))
    case DeleteHealthCheck => after == before.(healthCheck := None)
  }

  /** What GCE may do on a call: any call may fail with or without taking effect. A
      "conflict" answer to an insert means that an object of that name exists, a "not
      found" answer that none does. The API's own protections (a pool in use by a rule
      cannot be deleted, a rule needs its pool) are not assumed. */
  predicate Allowed(call: Call, before: Cloud, answer: Answer, after: Cloud) {
    if IsInsert(call) then
      if Present(call, before) then
        after == before && (answer == Conflict || answer == Failed)
      else
        && answer != NotFound
        && (TookEffect(call, before, after) || (after == before && answer == Failed))
    else if !Present(call, before) then
      after == before && (answer == NotFound || answer == Failed)
    else
      || TookEffect(call, before, after)
      || (after == before && (answer == Failed || answer == Conflict))
  }

  // ---------------------------------------------------------------- runs of calls

  /** One moment of a run. `pinned`: the address that the first forwarding rule of the run,
      so far, was seen to hold. */
  datatype Moment = Moment(cloud: Cloud, pinned: Option<IP>)

  function Pin(pinned: Option<IP>, c: Cloud): Option<IP> {
    if pinned.Some? then pinned else if c.rule.Some? then Some(c.rule.value.ip) else None
  }

  predicate Next(m: Moment, step: Step, m': Moment) {
    Allowed(step.call, m.cloud, step.answer, m'.cloud) && m'.pinned == Pin(m.pinned, m'.cloud)
  }

  /** `steps[i]` leads from `moments[i]` to `moments[i + 1]`. */
  ghost predicate IsRun(moments: seq<Moment>, steps: seq<Step>) {
    && |moments| == |steps| + 1
    && moments[0].pinned == Pin(None, moments[0].cloud)
    && forall i :: 0 <= i < |steps| ==> Next(moments[i], steps[i], moments[i + 1])
  }

  /** "If the forwarding rule exists, the load balancer has been fully created." */
  predicate FullyCreated(c: Cloud) {
    c.rule.Some? ==> c.pool.Some? && c.firewall.Some?
  }

  /** The call is one that cannot take a fully created load balancer apart. */
  predicate KeepsCreated(call: Call, c: Cloud) {
    match call
    case DeletePool => c.rule.None?
    case InsertRule(_) => c.pool.Some? && c.firewall.Some?
    case _ => true
  }

  ghost predicate CreatedDiscipline(moments: seq<Moment>, steps: seq<Step>)
    requires |moments| == |steps| + 1
  {
    forall i :: 0 <= i < |steps| ==> KeepsCreated(steps[i].call, moments[i].cloud)
  }

  /** Over any run whose calls are disciplined, the invariant holds after every call. */
  lemma {:induction false} CreatedThroughout(moments: seq<Moment>, steps: seq<Step>, i: nat)
    requires IsRun(moments, steps) && CreatedDiscipline(moments, steps)
    requires FullyCreated(moments[0].cloud)
    requires i < |moments|
    ensures FullyCreated(moments[i].cloud)
  {
    if i > 0 {
      CreatedThroughout(moments, steps, i - 1);
      assert KeepsCreated(steps[i - 1].call, moments[i - 1].cloud);
      assert Next(moments[i - 1], steps[i - 1], moments[i]);
    }
  }

  /** The rule and the reservation do not name different addresses. */
  predicate Agree(c: Cloud) {
    c.rule.Some? && c.reservation.Some? ==> c.rule.value.ip == c.reservation.value
  }

  /** The load balancer holds address `x`, through its rule, its reservation or both,
      and holds no other. */
  predicate Holds(c: Cloud, x: IP) {
    && (c.rule.Some? || c.reservation.Some?)
    && (c.rule.Some? ==> c.rule.value.ip == x)
    && (c.reservation.Some? ==> c.reservation.value == x)
  }

  /** The call is one that cannot lose the load balancer's address: a rule's own address is
      the one reserved, a rule is deleted or created only while its address is reserved, and
      a reservation is released only while a rule holds the address or when no rule ever
      existed. */
  predicate KeepsAddress(call: Call, m: Moment) {
    var c := m.cloud;
    match call
    case InsertAddress(wanted) => c.rule.Some? ==> wanted == Some(c.rule.value.ip)
    case DeleteAddress => c.rule.Some? || m.pinned.None?
    case InsertRule(r) => c.reservation == Some(r.ip)
    case DeleteRule => c.rule.Some? ==> c.reservation == Some(c.rule.value.ip)
    case _ => true
  }

  ghost predicate AddressDiscipline(moments: seq<Moment>, steps: seq<Step>)
    requires |moments| == |steps| + 1
  {
    forall i :: 0 <= i < |steps| ==> KeepsAddress(steps[i].call, moments[i])
  }

  /** Rule and reservation agree, and the pinned address, if any, is held. */
  predicate Steady(m: Moment) {
    && Agree(m.cloud)
    && (m.pinned.Some? ==> Holds(m.cloud, m.pinned.value))
    && (m.cloud.rule.Some? ==> m.pinned.Some?)
  }

  lemma SteadyStep(m: Moment, step: Step, m': Moment)
    requires Next(m, step, m') && KeepsAddress(step.call, m)
    requires Steady(m)
    ensures Steady(m')
    ensures m.pinned.Some? ==> m'.pinned == m.pinned
  {}

  /** Address stability over any disciplined run: once a forwarding rule has held an
      address, every later state holds that address and no other. */
  lemma {:induction false} AddressStable(moments: seq<Moment>, steps: seq<Step>, k: nat, i: nat)
    requires IsRun(moments, steps) && AddressDiscipline(moments, steps)
    requires Agree(moments[0].cloud)
    requires k <= i < |moments|
    ensures Steady(moments[i])
    ensures moments[k].cloud.rule.Some? ==>
      && moments[i].pinned == Some(moments[k].cloud.rule.value.ip)
      && Holds(moments[i].cloud, moments[k].cloud.rule.value.ip)
  {
    hide Next, KeepsAddress;
    if i > 0 {
      AddressStable(moments, steps, if k < i then k else i - 1, i - 1);
      SteadyStep(moments[i - 1], steps[i - 1], moments[i]);
    }
  }

  /** What one more call adds to a run and to its disciplines. */
  lemma RunGrows(moments: seq<Moment>, steps: seq<Step>, m: Moment, step: Step)
    requires IsRun(moments, steps)
    requires Next(moments[|steps|], step, m)
    ensures IsRun(moments + [m], steps + [step])
    ensures CreatedDiscipline(moments + [m], steps + [step]) ==
      (CreatedDiscipline(moments, steps) && KeepsCreated(step.call, moments[|steps|].cloud))
    ensures AddressDiscipline(moments + [m], steps + [step]) ==
      (AddressDiscipline(moments, steps) && KeepsAddress(step.call, moments[|steps|]))
  {
    var moments', steps' := moments + [m], steps + [step];
    assert forall i :: 0 <= i < |moments| ==> moments'[i] == moments[i];
    assert forall i :: 0 <= i < |steps| ==> steps'[i] == steps[i];
    assert steps'[|steps|] == step && moments'[|moments|] == m;
  }
}
