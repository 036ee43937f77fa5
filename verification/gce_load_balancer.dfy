/**
EnsureLoadBalancer: the rebuild of one load balancer's static address, firewall, target
pool and forwarding rule, with its two flags and its deferred release. Every API call may
fail at any point; the calls made are recorded, and what a run of them keeps is proved in
module GceCloud.
*/
module GceLoadBalancer {
  import opened Options
  import opened GceCloud

  const MAX_TARGET_POOL_CREATE_INSTANCES := 200

  datatype ServicePort = ServicePort(protocol: Protocol, port: int)

  datatype AffinityType = ClientIP | NoAffinity | OtherAffinity

  /** `requestedIP`: the address the user asks for, if any. `sourceRanges` is None when the
      service's annotation does not parse. `healthCheck`: the path and node port of the health
      check that the service asks for, if any. */
  datatype Service = Service(name: string, requestedIP: Option<IP>, ports: seq<ServicePort>, affinity: AffinityType,
                             sourceRanges: Option<set<string>>, healthCheck: Option<HealthCheck>)

  // ---------------------------------------------------------------- what a service asks for

  /** The range from the lowest to the highest port, starting from the bounds 65536 and 0. */
  function Span(ports: seq<ServicePort>): PortRange {
    if ports == [] then PortRange(65536, 0)
    else
      var r := Span(ports[..|ports| - 1]);
      var p := ports[|ports| - 1].port;
      PortRange(if p < r.first then p else r.first, if p > r.last then p else r.last)
  }

  predicate Covers(r: PortRange, ports: seq<ServicePort>) {
    forall p :: p in ports ==> r.first <= p.port <= r.last
  }

  /** The range covers every port and, for port numbers of at most 65536, no smaller one does. */
  lemma {:induction false} SpanIsSmallest(ports: seq<ServicePort>, other: PortRange)
    ensures Covers(Span(ports), ports)
    ensures Covers(other, ports) && other.first <= 65536 && 0 <= other.last ==>
      other.first <= Span(ports).first && Span(ports).last <= other.last
  {
    if ports != [] {
      assert ports == ports[..|ports| - 1] + [ports[|ports| - 1]];
      SpanIsSmallest(ports[..|ports| - 1], other);
    }
  }

  predicate HasPortRange(ports: seq<ServicePort>) {
    ports != [] && (ports[0].protocol.TCP? || ports[0].protocol.UDP?)
  }

  method LoadBalancerPortRange(ports: seq<ServicePort>) returns (r: Result<PortRange>)
    ensures r == if HasPortRange(ports) then Success(Span(ports)) else Failure
  {
    if |ports| == 0 {
      return Failure;
    }
    if ports[0].protocol != TCP && ports[0].protocol != UDP {
      return Failure;
    }
    var minPort, maxPort := 65536, 0;
    for i := 0 to |ports|
      invariant PortRange(minPort, maxPort) == Span(ports[..i])
    {
      assert ports[..i + 1][..i] == ports[..i];
      if ports[i].port < minPort {
        minPort := ports[i].port;
      }
      if ports[i].port > maxPort {
        maxPort := ports[i].port;
      }
    }
    assert ports[..|ports|] == ports;
    return Success(PortRange(minPort, maxPort));
  }

  function PortNumbers(ports: seq<ServicePort>): multiset<int> {
    if ports == [] then multiset{} else multiset{ports[0].port} + PortNumbers(ports[1..])
  }

  function WantedRule(svc: Service, ip: IP): Rule
    requires HasPortRange(svc.ports)
  {
    Rule(ip, Span(svc.ports), svc.ports[0].protocol)
  }

  function WantedFirewall(svc: Service, ip: IP): Firewall
    requires svc.ports != [] && svc.sourceRanges.Some?
  {
    Firewall(svc.name, ip, svc.ports[0].protocol, true, PortNumbers(svc.ports), svc.sourceRanges)
  }

  /** The comparison that decides on an update: everything but the protocol. */
  predicate FirewallMatches(f: Firewall, svc: Service, ip: IP) {
    && f.service == svc.name && f.ip == ip
    && f.singleAllowed
    && f.ports == PortNumbers(svc.ports)
    && f.ranges.Some? && f.ranges == svc.sourceRanges
  }

  predicate HadMatching(before: Option<Firewall>, svc: Service, ip: IP) {
    before.Some? && FirewallMatches(before.value, svc, ip)
  }

  /** The firewall after a sync: the one that was there if it passed the comparison. */
  function FirewallAfter(before: Option<Firewall>, svc: Service, ip: IP): Option<Firewall>
    requires svc.ports != [] && svc.sourceRanges.Some?
  {
    if HadMatching(before, svc, ip) then before else Some(WantedFirewall(svc, ip))
  }

  /** The same, but that an update answered with a conflict may have left everything as it was. */
  predicate FirewallLeft(before: Option<Firewall>, after: Option<Firewall>, svc: Service, ip: IP, conflicted: bool)
    requires svc.ports != [] && svc.sourceRanges.Some?
  {
    || after == FirewallAfter(before, svc, ip)
    || (conflicted && before.Some? && !HadMatching(before, svc, ip) && after == before)
  }

  lemma WantedMatches(svc: Service, ip: IP)
    requires svc.ports != [] && svc.sourceRanges.Some?
    ensures FirewallMatches(WantedFirewall(svc, ip), svc, ip)
  {}

  /** Exactly when the firewall ends up as the service asks: when no update ran into a conflict, it
      does unless the one before passed the comparison with another protocol; when one did, it does
      unless that left the firewall alone. */
  lemma WantedFirewallIff(before: Option<Firewall>, after: Option<Firewall>, svc: Service, ip: IP, conflicted: bool)
    requires svc.ports != [] && svc.sourceRanges.Some?
    requires FirewallLeft(before, after, svc, ip, conflicted)
    ensures after == Some(WantedFirewall(svc, ip)) <==>
      if HadMatching(before, svc, ip) then before.value.protocol == svc.ports[0].protocol else after != before
  {
    WantedMatches(svc, ip);
  }

  /** A service that changes its protocol and keeps its port numbers keeps its old firewall. */
  lemma ProtocolChangeLost(svc: Service, ports: seq<ServicePort>, ip: IP)
    requires svc.ports != [] && svc.sourceRanges.Some? && ports != []
    requires PortNumbers(ports) == PortNumbers(svc.ports) && ports[0].protocol != svc.ports[0].protocol
    ensures
      var old_, new_ := WantedFirewall(svc, ip), svc.(ports := ports);
      HadMatching(Some(old_), new_, ip) && FirewallAfter(Some(old_), new_, ip) == Some(old_) != Some(WantedFirewall(new_, ip))
  {
    var old_ := WantedFirewall(svc, ip);
    assert old_.protocol != ports[0].protocol;
  }

  lemma FromTcpToUdp()
    ensures
      var tcp := Service("dns", None, [ServicePort(TCP, 53)], NoAffinity, Some({"10.0.0.0/8"}), None);
      var udp := tcp.(ports := [ServicePort(UDP, 53)]);
      var firewall := FirewallAfter(Some(WantedFirewall(tcp, "192.0.2.1")), udp, "192.0.2.1");
      firewall.Some? && firewall.value.protocol == TCP
  {
    var tcp := Service("dns", None, [ServicePort(TCP, 53)], NoAffinity, Some({"10.0.0.0/8"}), None);
    var ports := [ServicePort(UDP, 53)];
    assert PortNumbers(ports) == multiset{53} == PortNumbers(tcp.ports);
    ProtocolChangeLost(tcp, ports, "192.0.2.1");
  }

  /** GCE may answer any update with a conflict and leave a firewall that does not match. */
  lemma ConflictLeavesFirewall(before: Cloud, svc: Service, ip: IP)
    requires svc.ports != [] && svc.sourceRanges.Some?
    requires before.firewall.Some? && !HadMatching(before.firewall, svc, ip)
    ensures Allowed(UpdateFirewall(WantedFirewall(svc, ip)), before, Conflict, before)
    ensures FirewallLeft(before.firewall, before.firewall, svc, ip, true)
    ensures before.firewall != Some(WantedFirewall(svc, ip))
  {
    WantedMatches(svc, ip);
  }

  function TranslateAffinityType(affinity: AffinityType): string {
    match affinity
    case ClientIP => "CLIENT_IP"
    case NoAffinity => "NONE"
    case OtherAffinity => "NONE"
  }

  predicate AffinityMatches(p: Pool, svc: Service) {
    p.affinity == "" || TranslateAffinityType(svc.affinity) == p.affinity
  }

  function HostSet(hosts: seq<Host>): set<Host> {
    set h | h in hosts
  }

  function WantedPool(svc: Service, hosts: seq<Host>): Pool {
    Pool(TranslateAffinityType(svc.affinity), HostSet(hosts), svc.healthCheck.Some?)
  }

  /** Will the pool found in `c` be replaced? When it is missing, when its affinity is wrong,
      and when a health check appears for the first time or is no longer wanted. */
  predicate PoolStale(c: Cloud, svc: Service) {
    || c.pool.None?
    || !AffinityMatches(c.pool.value, svc)
    || c.healthCheck.Some? != svc.healthCheck.Some?
  }

  /** Where the health check ends up. It is left at the parameters it had before the call when
      the pool is replaced in a call that also found those parameters to have drifted: the pool
      is built from the health check as it was read, not as it was updated. It is left behind
      when it is no longer wanted and there is no pool to delete it with. */
  predicate HealthCheckSettled(before: Cloud, after: Cloud, svc: Service) {
    after.healthCheck ==
      if svc.healthCheck.Some? then
        if PoolStale(before, svc) && before.healthCheck.Some? then before.healthCheck else svc.healthCheck
      else if before.pool.None? then before.healthCheck
      else None
  }

  /** The wanted health check is missed: it has drifted from what it is to be while the pool is replaced,
      or it is not wanted and has no pool. */
  predicate MissesHealthCheck(before: Cloud, svc: Service) {
    before.healthCheck.Some? && before.healthCheck != svc.healthCheck &&
    if svc.healthCheck.Some? then PoolStale(before, svc) else before.pool.None?
  }

  lemma WantedHealthCheckIff(before: Cloud, after: Cloud, svc: Service)
    requires HealthCheckSettled(before, after, svc)
    ensures after.healthCheck == svc.healthCheck <==> !MissesHealthCheck(before, svc)
    ensures MissesHealthCheck(before, svc) ==> after.healthCheck == before.healthCheck
  {}

  /** A service that changes the affinity and the health check's port at once misses its health check,
      whatever is in the pool; and so does one that gives up its health check when the pool is lost. */
  lemma HealthCheckMissed(c: Cloud, members: set<Host>)
    ensures
      var svc := Service("web", None, [ServicePort(TCP, 80)], NoAffinity, Some({"10.0.0.0/8"}), Some(HealthCheck("/healthz", 30000)));
      var had := c.(pool := Some(Pool("NONE", members, true)), healthCheck := svc.healthCheck);
      && !MissesHealthCheck(had, svc)
      && MissesHealthCheck(had, svc.(affinity := ClientIP, healthCheck := Some(HealthCheck("/healthz", 30001))))
      && MissesHealthCheck(had.(pool := None), svc.(healthCheck := None))
  {
    assert "NONE" != "CLIENT_IP" && "NONE" != "" by {
      assert |"NONE"| == 4 && |"CLIENT_IP"| == 9;
    }
    assert HealthCheck("/healthz", 30000) != HealthCheck("/healthz", 30001);
  }

  /** The state that a successful call leaves: rule, firewall, pool and health check. */
  predicate Settled(before: Cloud, after: Cloud, svc: Service, hosts: seq<Host>) {
    && HasPortRange(svc.ports) && svc.sourceRanges.Some?
    && after.rule.Some?
    && after.rule == Some(WantedRule(svc, after.rule.value.ip))
    && after.firewall.Some?
    && after.pool == (if PoolStale(before, svc) then Some(WantedPool(svc, hosts)) else before.pool)
    && HealthCheckSettled(before, after, svc)
  }

  datatype Found<+T> = Found(value: T) | Missing | Unknown

  /** Which members to add to and remove from a pool of the existing ones, so that the given
      hosts are its members. */
  method MembersToChange(existing: set<Host>, hosts: seq<Host>) returns (toAdd: set<Host>, toRemove: set<Host>)
    ensures existing + toAdd - toRemove == HostSet(hosts)
    ensures toRemove == existing - HostSet(hosts)
  {
    var remaining := existing;
    toAdd := {};
    for i := 0 to |hosts|
      invariant remaining == existing - HostSet(hosts[..i])
      invariant toAdd <= HostSet(hosts[..i]) <= existing + toAdd
    {
      assert hosts[..i + 1] == hosts[..i] + [hosts[i]];
      assert HostSet(hosts[..i + 1]) == HostSet(hosts[..i]) + {hosts[i]};
      if hosts[i] !in remaining {
        toAdd := toAdd + {hosts[i]};
      }
      remaining := remaining - {hosts[i]};
    }
    assert hosts[..|hosts|] == hosts;
    assert existing + toAdd - remaining == HostSet(hosts);
    toRemove := remaining;
  }

  /** GCE's side of a call: any answer and any effect that are allowed. */
  method Outcome(call: Call, before: Cloud) returns (answer: Answer, after: Cloud)
    ensures Allowed(call, before, answer, after)
  {
    answer := *;
    after := *;
    if !Allowed(call, before, answer, after) {
      answer, after := Failed, before;
    }
  }

  // ---------------------------------------------------------------- the controller

  class Gce {
    var cloud: Cloud
    // The run since `start`: `steps[i]` led from `moments[i]` to `moments[i + 1]`.
    ghost const start: Cloud
    ghost var moments: seq<Moment>
    ghost var steps: seq<Step>
    // The address of the first forwarding rule seen in the run.
    ghost var pinned: Option<IP>
    // Has every call of the run kept "rule implies pool and firewall", and kept the address?
    ghost var createdKept: bool
    ghost var addressKept: bool
    // Has an update of the firewall been answered with a conflict since the flag was last cleared?
    ghost var updateConflicted: bool

    ghost predicate Valid()
      reads this
    {
      && IsRun(moments, steps) && moments[|steps|] == Moment(cloud, pinned)
      && moments[0].cloud == start
      && (cloud.rule.Some? ==> pinned.Some?)
      && (createdKept ==> CreatedDiscipline(moments, steps))
      && (addressKept ==> AddressDiscipline(moments, steps) && Agree(start))
    }

    /** A later state of the same run, in which the flags that are given were kept. */
    twostate predicate Continues(created: bool, address: bool)
      reads this
    {
      && |old(steps)| <= |steps|
      && (old(pinned).Some? ==> pinned == old(pinned))
      && (created && old(createdKept) ==> createdKept)
      && (address && old(addressKept) ==> addressKept)
      && (old(updateConflicted) ==> updateConflicted)
    }

    constructor (start: Cloud)
      ensures Valid() && cloud == this.start == start && steps == []
      ensures createdKept && addressKept == Agree(start)
    {
      this.start := start;
      cloud, moments, steps := start, [Moment(start, Pin(None, start))], [];
      pinned, createdKept, addressKept, updateConflicted := Pin(None, start), true, Agree(start), false;
    }

    /** Records one call and its effect. */
    method Record(call: Call, answer: Answer, after: Cloud)
      requires Valid() && Allowed(call, cloud, answer, after)
      modifies this
      ensures Valid() && Continues(KeepsCreated(call, old(cloud)), KeepsAddress(call, old(Moment(cloud, pinned))))
      ensures steps == old(steps) + [Step(call, answer)] && cloud == after
      ensures pinned == Pin(old(pinned), cloud)
      ensures updateConflicted == (old(updateConflicted) || (call.UpdateFirewall? && answer == Conflict))
    {
      hide IsRun, CreatedDiscipline, AddressDiscipline, Allowed, KeepsCreated, KeepsAddress, Agree;
      ghost var m := Moment(after, Pin(pinned, after));
      RunGrows(moments, steps, m, Step(call, answer));
      createdKept := createdKept && KeepsCreated(call, cloud);
      addressKept := addressKept && KeepsAddress(call, Moment(cloud, pinned));
      updateConflicted := updateConflicted || (call.UpdateFirewall? && answer == Conflict);
      pinned := m.pinned;
      cloud := after;
      moments := moments + [m];
      steps := steps + [Step(call, answer)];
    }

    /** One API call: any allowed outcome. */
    method Invoke(call: Call) returns (answer: Answer)
      requires Valid()
      modifies this
      ensures Valid() && Continues(KeepsCreated(call, old(cloud)), KeepsAddress(call, old(Moment(cloud, pinned))))
      ensures steps == old(steps) + [Step(call, answer)]
      ensures Allowed(call, old(cloud), answer, cloud)
      ensures pinned == Pin(old(pinned), cloud)
      ensures call.UpdateFirewall? && answer == Conflict ==> updateConflicted
    {
      hide IsRun, CreatedDiscipline, AddressDiscipline, Allowed, KeepsCreated, KeepsAddress, Agree, Valid;
      var after;
      answer, after := Outcome(call, cloud);
      Record(call, answer, after);
    }

    method GetRule() returns (r: Found<Rule>)
      ensures r.Found? ==> cloud.rule == Some(r.value)
      ensures r.Missing? ==> cloud.rule.None?
    {
      var fails: bool := *;
      r := if fails then Unknown else if cloud.rule.Some? then Found(cloud.rule.value) else Missing;
    }

    method GetPool() returns (r: Found<Pool>)
      ensures r.Found? ==> cloud.pool == Some(r.value)
      ensures r.Missing? ==> cloud.pool.None?
    {
      var fails: bool := *;
      r := if fails then Unknown else if cloud.pool.Some? then Found(cloud.pool.value) else Missing;
    }

    method GetFirewall() returns (r: Found<Firewall>)
      ensures r.Found? ==> cloud.firewall == Some(r.value)
      ensures r.Missing? ==> cloud.firewall.None?
    {
      var fails: bool := *;
      r := if fails then Unknown else if cloud.firewall.Some? then Found(cloud.firewall.value) else Missing;
    }

    method GetAddress() returns (r: Found<IP>)
      ensures r.Found? ==> cloud.reservation == Some(r.value)
      ensures r.Missing? ==> cloud.reservation.None?
    {
      var fails: bool := *;
      r := if fails then Unknown else if cloud.reservation.Some? then Found(cloud.reservation.value) else Missing;
    }

    method GetHealthCheck() returns (r: Found<HealthCheck>)
      ensures r.Found? ==> cloud.healthCheck == Some(r.value)
      ensures r.Missing? ==> cloud.healthCheck.None?
    {
      var fails: bool := *;
      r := if fails then Unknown else if cloud.healthCheck.Some? then Found(cloud.healthCheck.value) else Missing;
    }

    method ForwardingRuleNeedsUpdate(svc: Service)
      returns (ok: bool, exists_: bool, needsUpdate: bool, ip: Option<IP>)
      ensures ok ==> exists_ == cloud.rule.Some?
      ensures ok ==> ip == if cloud.rule.Some? then Some(cloud.rule.value.ip) else None
      ensures ok && exists_ ==>
        (!needsUpdate <==>
         && HasPortRange(svc.ports)
         && cloud.rule == Some(WantedRule(svc, cloud.rule.value.ip))
         && (svc.requestedIP.Some? ==> svc.requestedIP == ip))
      ensures ok && !exists_ ==> needsUpdate
    {
      var fwd := GetRule();
      if fwd.Missing? {
        return true, false, true, None;
      }
      if fwd.Unknown? {
        return false, true, false, None;
      }
      var rule := fwd.value;
      if svc.requestedIP.Some? && svc.requestedIP.value != rule.ip {
        return true, true, true, Some(rule.ip);
      }
      var portRange := LoadBalancerPortRange(svc.ports);
      if portRange.Failure? {
        return false, true, false, None;
      }
      if portRange.value != rule.ports {
        return true, true, true, Some(rule.ip);
      }
      if svc.ports[0].protocol != rule.protocol {
        return true, true, true, Some(rule.ip);
      }
      return true, true, false, Some(rule.ip);
    }

    /** Reserves an address under the load balancer's name, or adopts the one reserved there. */
    method EnsureStaticIP(existingIP: Option<IP>) returns (r: Result<IP>, existed: bool)
      requires Valid()
      modifies this
      ensures Valid() && pinned == old(pinned)
      ensures Continues(true, cloud.rule.Some? ==> existingIP == Some(cloud.rule.value.ip))
      ensures cloud == old(cloud).(reservation := cloud.reservation)
      ensures old(cloud).reservation.Some? ==> cloud.reservation == old(cloud).reservation
      ensures old(cloud).reservation.None? && cloud.reservation.Some? && existingIP.Some? ==>
        cloud.reservation == existingIP
      ensures r.Success? ==> cloud.reservation == Some(r.value)
      ensures r.Success? && !existed ==> old(cloud).reservation.None?
    {
      var answer := Invoke(InsertAddress(existingIP));
      existed := false;
      if answer != Done {
        if answer != Conflict {
          return Failure, false;
        }
        existed := true;
      }
      var address := GetAddress();
      if !address.Found? {
        return Failure, false;
      }
      return Success(address.value), existed;
    }

    method DeleteStaticIP() returns (ok: bool)
      requires Valid()
      modifies this
      ensures Valid() && Continues(true, cloud.rule.Some? || pinned.None?) && pinned == old(pinned)
      ensures cloud == old(cloud).(reservation := cloud.reservation)
      ensures ok ==> cloud.reservation.None?
    {
      var answer := Invoke(DeleteAddress);
      ok := answer == Done || answer == NotFound;
    }

    /** Brings the firewall in line with the service, in place where it exists. */
    method SyncFirewall(svc: Service, ip: IP) returns (ok: bool)
      requires Valid()
      requires svc.sourceRanges.Some?
      modifies this
      ensures Valid() && Continues(true, true) && pinned == old(pinned)
      ensures cloud == old(cloud).(firewall := cloud.firewall)
      ensures ok ==> svc.ports != [] || cloud.firewall == old(cloud).firewall
      ensures ok ==> cloud.firewall.Some?
      ensures ok && svc.ports != [] ==> FirewallLeft(old(cloud).firewall, cloud.firewall, svc, ip, updateConflicted)
      ensures ok ==> FirewallMatches(cloud.firewall.value, svc, ip) || updateConflicted
    {
      var fw := GetFirewall();
      if fw.Unknown? {
        return false;
      }
      if fw.Found? && FirewallMatches(fw.value, svc, ip) {
        return true;
      }
      // Looking up the hosts' tags may fail, and a service without ports makes the source panic.
      var tagged: bool := *;
      if |svc.ports| == 0 || !tagged {
        return false;
      }
      var answer;
      if fw.Found? {
        answer := Invoke(UpdateFirewall(WantedFirewall(svc, ip)));
      } else {
        answer := Invoke(InsertFirewall(WantedFirewall(svc, ip)));
      }
      return answer == Done || answer == Conflict;
    }

    /** Creates the health check or corrects its parameters; returns it as it was read. */
    method EnsureHTTPHealthCheck(wanted: HealthCheck) returns (r: Result<HealthCheck>)
      requires Valid()
      modifies this
      ensures Valid() && Continues(true, true) && pinned == old(pinned)
      ensures cloud == old(cloud).(healthCheck := cloud.healthCheck)
      ensures r.Success? ==> cloud.healthCheck == Some(wanted)
      ensures r.Success? ==> r.value == if old(cloud).healthCheck.Some? then old(cloud).healthCheck.value else wanted
    {
      var hc := GetHealthCheck();
      if !hc.Found? {
        var answer := Invoke(InsertHealthCheck(wanted));
        if answer != Done {
          return Failure;
        }
        var created := GetHealthCheck();
        return if created.Found? then Success(created.value) else Failure;
      }
      if hc.value != wanted {
        var answer := Invoke(UpdateHealthCheck(wanted));
        if answer != Done {
          return Failure;
        }
      }
      return Success(hc.value);
    }

    method DeleteForwardingRule() returns (ok: bool)
      requires Valid()
      modifies this
      ensures Valid() && pinned == old(pinned)
      ensures Continues(true, old(cloud).rule.Some? ==> old(cloud).reservation == Some(old(cloud).rule.value.ip))
      ensures cloud == old(cloud).(rule := cloud.rule)
      ensures ok ==> cloud.rule.None?
    {
      var answer := Invoke(DeleteRule);
      ok := answer == Done || answer == NotFound;
    }

    /** Deletes the pool and then the health check: `hc` when one is passed, else any stale one. */
    method DeleteTargetPool(hc: Option<HealthCheck>) returns (ok: bool)
      requires Valid()
      requires cloud.rule.None?
      modifies this
      ensures Valid() && Continues(true, true) && pinned == old(pinned)
      ensures cloud == old(cloud).(pool := cloud.pool, healthCheck := cloud.healthCheck)
      ensures ok ==> cloud.pool.None?
      ensures ok && hc.Some? ==> cloud.healthCheck.None?
      ensures cloud.healthCheck == old(cloud).healthCheck || cloud.healthCheck.None?
    {
      var answer := Invoke(DeletePool);
      if answer != Done && answer != NotFound {
        return false;
      }
      answer := Invoke(DeleteHealthCheck);
      return hc.None? || answer == Done;
    }

    method CreateTargetPool(svc: Service, hosts: seq<Host>, hc: Option<HealthCheck>) returns (ok: bool)
      requires Valid()
      requires cloud.pool.None?
      modifies this
      ensures Valid() && Continues(true, true) && pinned == old(pinned)
      ensures cloud == old(cloud).(pool := cloud.pool, healthCheck := cloud.healthCheck)
      ensures ok ==> cloud.pool == Some(Pool(TranslateAffinityType(svc.affinity), HostSet(hosts), hc.Some?))
      ensures ok ==> cloud.healthCheck == if hc.Some? then hc else old(cloud).healthCheck
    {
      if hc.Some? {
        // On failure the source panics while it formats the error; the deferred release still runs.
        var ensured := EnsureHTTPHealthCheck(hc.value);
        if ensured.Failure? {
          return false;
        }
      }
      var answer := Invoke(InsertPool(Pool(TranslateAffinityType(svc.affinity), HostSet(hosts), hc.Some?)));
      return answer == Done || answer == Conflict;
    }

    method ChangeMembers(call: Call) returns (ok: bool)
      requires Valid()
      requires call.AddInstances? || call.RemoveInstances?
      modifies this
      ensures Valid() && Continues(true, true) && pinned == old(pinned)
      ensures cloud == old(cloud).(pool := cloud.pool)
      ensures ok ==> TookEffect(call, old(cloud), cloud)
    {
      var answer := Invoke(call);
      ok := answer == Done;
    }

    /** Makes the pool's members the given hosts, starting from the members in `existing`. */
    method UpdateTargetPool(existing: set<Host>, hosts: seq<Host>) returns (ok: bool)
      requires Valid()
      modifies this
      ensures Valid() && Continues(true, true) && pinned == old(pinned)
      ensures cloud == old(cloud).(pool := cloud.pool)
      ensures ok && old(cloud).pool.Some? && old(cloud).pool.value.members == existing ==>
        cloud.pool == Some(old(cloud).pool.value.(members := HostSet(hosts))) && |HostSet(hosts)| == |hosts|
    {
      hide Valid;
      var toAdd, toRemove := MembersToChange(existing, hosts);
      if toAdd != {} {
        var added := ChangeMembers(AddInstances(toAdd));
        if !added {
          return false;
        }
      }
      if toRemove != {} {
        var removed := ChangeMembers(RemoveInstances(toRemove));
        if !removed {
          return false;
        }
      }
      var updated := GetPool();
      if !updated.Found? {
        return false;
      }
      return |updated.value.members| == |hosts|;
    }

    method CreateForwardingRule(svc: Service, ip: IP) returns (ok: bool)
      requires Valid()
      modifies this
      ensures Valid() && Continues(cloud.pool.Some? && cloud.firewall.Some?, cloud.reservation == Some(ip))
      ensures pinned == Pin(old(pinned), cloud)
      ensures cloud == old(cloud).(rule := cloud.rule)
      ensures ok && old(cloud).rule.None? ==> HasPortRange(svc.ports) && cloud.rule == Some(WantedRule(svc, ip))
    {
      var portRange := LoadBalancerPortRange(svc.ports);
      if portRange.Failure? {
        return false;
      }
      var answer := Invoke(InsertRule(Rule(ip, portRange.value, svc.ports[0].protocol)));
      return answer == Done || answer == Conflict;
    }

    method TargetPoolNeedsUpdate(svc: Service) returns (ok: bool, exists_: bool, needsUpdate: bool)
      ensures ok ==> exists_ == cloud.pool.Some?
      ensures ok ==> needsUpdate == (cloud.pool.None? || !AffinityMatches(cloud.pool.value, svc))
    {
      var tp := GetPool();
      match tp {
        case Missing => return true, false, true;
        case Unknown => return false, true, false;
        case Found(pool) => return true, true, !AffinityMatches(pool, svc);
      }
    }

    /** Settles which address will be used and reserves it; sets the two flags that decide
        on the deferred release. */
    method ChooseAddress(svc: Service, fwdRuleIP: Option<IP>)
      returns (r: Result<IP>, isUserOwnedIP: bool, isSafeToReleaseIP: bool)
      requires Valid()
      requires fwdRuleIP == if cloud.rule.Some? then Some(cloud.rule.value.ip) else None
      modifies this
      ensures Valid() && Continues(true, svc.requestedIP.None?) && pinned == old(pinned)
      ensures cloud == old(cloud).(reservation := cloud.reservation)
      ensures svc.requestedIP.None? ==> !isUserOwnedIP
      ensures isUserOwnedIP ==> svc.requestedIP.Some?
      ensures svc.requestedIP.None? && old(addressKept) && isSafeToReleaseIP ==> cloud.rule.Some? || pinned.None?
      ensures r.Success? && svc.requestedIP.None? ==> cloud.reservation == Some(r.value)
      // A requested address is the user's own and taken as it is, or the rule's and then reserved.
      ensures isUserOwnedIP ==> r == Success(svc.requestedIP.value) && cloud == old(cloud) && !isSafeToReleaseIP
      ensures r.Success? && svc.requestedIP.Some? && !isUserOwnedIP ==>
        svc.requestedIP == fwdRuleIP && cloud.reservation == Some(r.value) && isSafeToReleaseIP
      ensures r.Success? && svc.requestedIP.Some? && !isUserOwnedIP && old(cloud).reservation.None? ==>
        r.value == svc.requestedIP.value
      ensures r.Success? && Agree(old(cloud)) && cloud.rule.Some? && (svc.requestedIP.None? || svc.requestedIP == fwdRuleIP)
        ==> r.value == cloud.rule.value.ip
    {
      if svc.requestedIP.Some? {
        // The source tests the wrong error variable here, so a failed look-up counts as "not static".
        var isStatic: bool := *;
        if isStatic {
          return Success(svc.requestedIP.value), true, false;
        } else if svc.requestedIP == fwdRuleIP {
          var existed;
          r, existed := EnsureStaticIP(fwdRuleIP);
          return r, false, true;
        } else {
          return Failure, false, false;
        }
      }
      if addressKept {
        AddressStable(moments, steps, |steps|, |steps|);
      }
      var existed;
      r, existed := EnsureStaticIP(fwdRuleIP);
      return r, false, r.Success? && !existed;
    }

    /** Creates the pool with at most 200 hosts and adds the others afterwards. */
    method BuildTargetPool(svc: Service, hosts: seq<Host>, hc: Option<HealthCheck>) returns (ok: bool)
      requires Valid()
      requires cloud.pool.None?
      modifies this
      ensures Valid() && Continues(true, true) && pinned == old(pinned)
      ensures cloud == old(cloud).(pool := cloud.pool, healthCheck := cloud.healthCheck)
      ensures ok ==> cloud.pool == Some(Pool(TranslateAffinityType(svc.affinity), HostSet(hosts), hc.Some?))
      ensures ok ==> cloud.healthCheck == if hc.Some? then hc else old(cloud).healthCheck
    {
      hide Valid;
      var createInstances := hosts;
      if |hosts| > MAX_TARGET_POOL_CREATE_INSTANCES {
        createInstances := createInstances[..MAX_TARGET_POOL_CREATE_INSTANCES];
      }
      ok := CreateTargetPool(svc, createInstances, hc);
      if ok && |hosts| > MAX_TARGET_POOL_CREATE_INSTANCES {
        ok := UpdateTargetPool(HostSet(createInstances), hosts);
      }
    }

    /** Decides whether the pool is to be replaced; ensures the health check that it needs. */
    method CheckPool(svc: Service)
      returns (ok: bool, tpExists: bool, tpNeedsUpdate: bool,
               hcExisting: Found<HealthCheck>, hcToCreate: Option<HealthCheck>)
      requires Valid()
      modifies this
      ensures Valid() && Continues(true, true) && pinned == old(pinned)
      ensures cloud == old(cloud).(healthCheck := cloud.healthCheck)
      ensures ok ==> tpExists == cloud.pool.Some? && tpNeedsUpdate == PoolStale(old(cloud), svc)
      ensures ok ==> hcExisting == if old(cloud).healthCheck.Some? then Found(old(cloud).healthCheck.value) else Missing
      ensures ok ==> hcToCreate == if svc.healthCheck.Some? && old(cloud).healthCheck.Some? then old(cloud).healthCheck
                                   else svc.healthCheck
      ensures ok ==> cloud.healthCheck == if svc.healthCheck.Some? then svc.healthCheck else old(cloud).healthCheck
    {
      hide Valid;
      ok, tpExists, tpNeedsUpdate := TargetPoolNeedsUpdate(svc);
      hcExisting, hcToCreate := Unknown, None;
      if !ok {
        return;
      }
      hcExisting := GetHealthCheck();
      if hcExisting.Unknown? {
        ok := false;
        return;
      }
      if svc.healthCheck.Some? {
        if hcExisting.Missing? {
          tpNeedsUpdate := true;
        }
        var ensured := EnsureHTTPHealthCheck(svc.healthCheck.value);
        if ensured.Failure? {
          ok := false;
          return;
        }
        hcToCreate := Some(ensured.value);
      } else if hcExisting.Found? {
        tpNeedsUpdate := true;
      }
    }

    /** Replaces the pool and the rule where they need it. `isSafe` and `safe` are the
        release flag before and after. */
    method ReplacePoolAndRule(svc: Service, hosts: seq<Host>, ip: IP, fwdRuleExists: bool, fwdRuleNeedsUpdate: bool,
                              isSafe: bool) returns (ok: bool, safe: bool)
      requires Valid()
      requires cloud.firewall.Some?
      requires fwdRuleExists == cloud.rule.Some?
      requires fwdRuleExists || fwdRuleNeedsUpdate
      modifies this
      ensures Valid()
      ensures Continues(true, old(cloud).reservation == Some(ip) && (fwdRuleExists ==> ip == old(cloud).rule.value.ip))
      ensures cloud.firewall == old(cloud).firewall && cloud.reservation == old(cloud).reservation
      ensures safe ==> cloud.rule.Some? || (isSafe && old(cloud).rule.None? && pinned == old(pinned))
      ensures ok && (fwdRuleNeedsUpdate || PoolStale(old(cloud), svc)) ==>
        HasPortRange(svc.ports) && cloud.rule == Some(WantedRule(svc, ip))
      ensures ok && !fwdRuleNeedsUpdate && !PoolStale(old(cloud), svc) ==> cloud.rule == old(cloud).rule
      ensures ok ==> cloud.pool == if PoolStale(old(cloud), svc) then Some(WantedPool(svc, hosts)) else old(cloud).pool
      ensures ok ==> HealthCheckSettled(old(cloud), cloud, svc)
    {
      hide Valid;
      safe := isSafe;
      var known, tpExists, tpNeedsUpdate, hcExisting, hcToCreate := CheckPool(svc);
      if !known {
        return false, safe;
      }
      if fwdRuleExists && (fwdRuleNeedsUpdate || tpNeedsUpdate) {
        safe := false;
        var deleted := DeleteForwardingRule();
        if !deleted {
          return false, safe;
        }
      }
      if tpExists && tpNeedsUpdate {
        if svc.healthCheck.Some? {
          hcExisting := GetHealthCheck();
        }
        var hc := if hcExisting.Found? then Some(hcExisting.value) else None;
        var deleted := DeleteTargetPool(hc);
        if !deleted {
          return false, safe;
        }
      }
      if tpNeedsUpdate {
        var built := BuildTargetPool(svc, hosts, hcToCreate);
        if !built {
          return false, safe;
        }
      }
      if tpNeedsUpdate || fwdRuleNeedsUpdate {
        var created := CreateForwardingRule(svc, ip);
        if !created {
          return false, safe;
        }
        safe := true;
      }
      return true, safe;
    }

    /** Everything between the registration of the deferred release and the return. */
    method Rebuild(svc: Service, hosts: seq<Host>, fwdRuleExists: bool, fwdRuleNeedsUpdate: bool, fwdRuleIP: Option<IP>)
      returns (r: Result<IP>, isUserOwnedIP: bool, isSafeToReleaseIP: bool)
      requires Valid()
      requires fwdRuleExists == cloud.rule.Some?
      requires fwdRuleIP == if cloud.rule.Some? then Some(cloud.rule.value.ip) else None
      requires fwdRuleExists && !fwdRuleNeedsUpdate ==>
        && HasPortRange(svc.ports)
        && cloud.rule == Some(WantedRule(svc, cloud.rule.value.ip))
        && (svc.requestedIP.Some? ==> svc.requestedIP == fwdRuleIP)
      requires fwdRuleExists || fwdRuleNeedsUpdate
      modifies this
      ensures Valid() && Continues(true, svc.requestedIP.None?)
      ensures svc.requestedIP.None? ==> !isUserOwnedIP
      ensures svc.requestedIP.None? && old(addressKept) && isSafeToReleaseIP ==> cloud.rule.Some? || pinned.None?
      ensures r.Success? ==> Settled(old(cloud), cloud, svc, hosts)
      ensures r.Success? ==> FirewallLeft(old(cloud).firewall, cloud.firewall, svc, r.value, updateConflicted)
      ensures r.Success? ==> FirewallMatches(cloud.firewall.value, svc, r.value) || updateConflicted
      ensures r.Success? && Agree(old(cloud)) ==> cloud.rule.value.ip == r.value
      ensures r.Success? && Agree(old(cloud)) && old(cloud).rule.Some? && svc.requestedIP.None? ==>
        r.value == old(cloud).rule.value.ip
    {
      if addressKept {
        AddressStable(moments, steps, |steps|, |steps|);
      }
      hide Valid, FirewallMatches, HealthCheckSettled;
      r, isUserOwnedIP, isSafeToReleaseIP := ChooseAddress(svc, fwdRuleIP);
      if r.Failure? || svc.sourceRanges.None? {
        return Failure, isUserOwnedIP, isSafeToReleaseIP;
      }
      var ip := r.value;
      var firewallOk := SyncFirewall(svc, ip);
      if !firewallOk {
        return Failure, isUserOwnedIP, isSafeToReleaseIP;
      }
      var replaced;
      replaced, isSafeToReleaseIP :=
        ReplacePoolAndRule(svc, hosts, ip, fwdRuleExists, fwdRuleNeedsUpdate, isSafeToReleaseIP);
      return if replaced then Success(ip) else Failure, isUserOwnedIP, isSafeToReleaseIP;
    }

    /** Creates or updates the load balancer of a service and returns its address. */
    method EnsureLoadBalancer(svc: Service, hosts: seq<Host>) returns (r: Result<IP>)
      requires Valid()
      modifies this
      // No API call of this one, from any state of the cloud, breaks the invariant. None of them
      // can lose the address, unless a particular address is requested.
      ensures Valid() && |old(steps)| <= |steps| && (old(pinned).Some? ==> pinned == old(pinned))
      ensures old(createdKept) ==> createdKept
      ensures svc.requestedIP.None? && old(addressKept) ==> addressKept
      // A success leaves what the service asks for, whatever was there before.
      ensures r.Success? ==> FullyCreated(cloud) && Settled(old(cloud), cloud, svc, hosts)
      ensures r.Success? ==> FirewallLeft(old(cloud).firewall, cloud.firewall, svc, r.value, updateConflicted)
      ensures r.Success? ==> FirewallMatches(cloud.firewall.value, svc, r.value) || updateConflicted
      // The firewall is the wanted one, protocol included, unless the one before passed for it
      // with another protocol or an update that met a conflict left it alone.
      ensures r.Success? ==>
        (cloud.firewall == Some(WantedFirewall(svc, r.value)) <==>
         if HadMatching(old(cloud).firewall, svc, r.value)
         then old(cloud).firewall.value.protocol == svc.ports[0].protocol
         else !(updateConflicted && cloud.firewall == old(cloud).firewall))
      // And so is the health check, unless it is missed as said above.
      ensures r.Success? ==> (cloud.healthCheck == svc.healthCheck <==> !MissesHealthCheck(old(cloud), svc))
      ensures r.Success? && Agree(old(cloud)) ==> cloud.rule.value.ip == r.value
      ensures r.Success? && Agree(old(cloud)) && old(cloud).rule.Some? && svc.requestedIP.None? ==>
        r.value == old(cloud).rule.value.ip
    {
      updateConflicted := false;
      assert Valid();
      hide Valid, FirewallMatches;
      if |hosts| == 0 {
        return Failure;
      }
      var instancesFound: bool := *;
      if !instancesFound {
        return Failure;
      }
      var ok, fwdRuleExists, fwdRuleNeedsUpdate, fwdRuleIP := ForwardingRuleNeedsUpdate(svc);
      if !ok {
        return Failure;
      }
      var isUserOwnedIP, isSafeToReleaseIP;
      r, isUserOwnedIP, isSafeToReleaseIP := Rebuild(svc, hosts, fwdRuleExists, fwdRuleNeedsUpdate, fwdRuleIP);
      // The deferred release.
      if !isUserOwnedIP && isSafeToReleaseIP {
        var _ := DeleteStaticIP();
      }
      if r.Success? {
        WantedHealthCheckIff(old(cloud), cloud, svc);
      }
    }
  }

  /** Every success of a service that has changed its protocol, and kept its port numbers, leaves a
      rule for the new protocol behind a firewall for the old one. */
  method ChangeProtocol(gce: Gce, svc: Service, ports: seq<ServicePort>, hosts: seq<Host>) returns (r: Result<IP>)
    requires gce.Valid() && Agree(gce.cloud) && svc.requestedIP.None?
    requires svc.ports != [] && svc.sourceRanges.Some? && ports != []
    requires PortNumbers(ports) == PortNumbers(svc.ports) && ports[0].protocol != svc.ports[0].protocol
    requires gce.cloud.rule.Some? && gce.cloud.firewall == Some(WantedFirewall(svc, gce.cloud.rule.value.ip))
    modifies gce
    ensures r.Success? ==>
      && gce.cloud.rule.Some? && gce.cloud.rule.value.protocol == ports[0].protocol
      && gce.cloud.firewall == old(gce.cloud).firewall != Some(WantedFirewall(svc.(ports := ports), r.value))
  {
    hide FirewallMatches;
    ProtocolChangeLost(svc, ports, gce.cloud.rule.value.ip);
    r := gce.EnsureLoadBalancer(svc.(ports := ports), hosts);
  }

  datatype Request = Request(service: Service, hosts: seq<Host>)

  /** Any sequence of calls, none of them requesting an address, each free to fail anywhere:
      after every API call of the whole run the invariants hold, an address once held by a
      rule is held for ever after, and every address returned is that one. */
  method ServeAll(gce: Gce, requests: seq<Request>) returns (replies: seq<Result<IP>>)
    requires gce.Valid() && gce.steps == []
    requires FullyCreated(gce.cloud) && Agree(gce.cloud)
    requires forall k :: 0 <= k < |requests| ==> requests[k].service.requestedIP.None?
    modifies gce
    ensures gce.Valid() && |replies| == |requests|
    ensures forall i :: 0 <= i < |gce.moments| ==> FullyCreated(gce.moments[i].cloud) && Agree(gce.moments[i].cloud)
    ensures forall i, j :: 0 <= i <= j < |gce.moments| && gce.moments[i].cloud.rule.Some? ==>
      Holds(gce.moments[j].cloud, gce.moments[i].cloud.rule.value.ip)
    ensures forall k :: 0 <= k < |replies| && replies[k].Success? ==> Holds(gce.cloud, replies[k].value)
    ensures forall i, k ::
      0 <= i < |gce.moments| && 0 <= k < |replies| && gce.moments[i].cloud.rule.Some? && replies[k].Success? ==>
        gce.moments[i].cloud.rule.value.ip == replies[k].value
  {
    replies := [];
    gce.createdKept, gce.addressKept := true, true;
    for n := 0 to |requests|
      invariant gce.Valid() && gce.createdKept && gce.addressKept && FullyCreated(gce.start)
      invariant |replies| == n
      invariant forall k :: 0 <= k < n && replies[k].Success? ==> gce.pinned == Some(replies[k].value)
    {
      AddressStable(gce.moments, gce.steps, |gce.steps|, |gce.steps|);
      var r := gce.EnsureLoadBalancer(requests[n].service, requests[n].hosts);
      AddressStable(gce.moments, gce.steps, |gce.steps|, |gce.steps|);
      replies := replies + [r];
    }
    forall i | 0 <= i < |gce.moments| ensures FullyCreated(gce.moments[i].cloud) && Agree(gce.moments[i].cloud) {
      CreatedThroughout(gce.moments, gce.steps, i);
      AddressStable(gce.moments, gce.steps, i, i);
    }
    forall i, j | 0 <= i <= j < |gce.moments| && gce.moments[i].cloud.rule.Some?
      ensures gce.moments[j].pinned == Some(gce.moments[i].cloud.rule.value.ip)
      ensures Holds(gce.moments[j].cloud, gce.moments[i].cloud.rule.value.ip)
    {
      AddressStable(gce.moments, gce.steps, i, j);
    }
    AddressStable(gce.moments, gce.steps, |gce.steps|, |gce.steps|);
  }
}
