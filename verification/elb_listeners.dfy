/**
An AWS load balancer's listeners and backend policies, and their sync with the wanted ones.
*/
module ElbListeners {
  import opened Options

  /** A listener; an unset field of the source counts as empty or zero, as in its comparisons. */
  datatype Listener = Listener(protocol: string, instanceProtocol: string, instancePort: int,
                               loadBalancerPort: int, certificate: string)

  predicate DistinctPorts(listeners: seq<Listener>) {
    forall i, j :: 0 <= i < j < |listeners| ==> listeners[i].loadBalancerPort != listeners[j].loadBalancerPort
  }

  function Present(descriptions: seq<Option<Listener>>): seq<Listener> {
    if descriptions == [] then []
    else
      var last := descriptions[|descriptions| - 1];
      Present(descriptions[..|descriptions| - 1]) + if last.Some? then [last.value] else []
  }

  function Elements(l: seq<Listener>): set<Listener> {
    set x | x in l
  }

  function Ports(listeners: set<Listener>): set<int> {
    set l | l in listeners :: l.loadBalancerPort
  }

  datatype Backend = Backend(instancePort: int, proxyEnabled: bool)

  class LoadBalancer {
    var listeners: set<Listener>
    // The backend ports on which the proxy-protocol policy is set. Policies stay behind when
    // a listener goes.
    var proxied: set<int>

    constructor (listeners: set<Listener>, proxied: set<int>)
      ensures this.listeners == listeners && this.proxied == proxied
    {
      this.listeners, this.proxied := listeners, proxied;
    }

    method DeleteListeners(ports: set<int>) returns (ok: bool)
      modifies this`listeners
      ensures ok ==> listeners == set l | l in old(listeners) && l.loadBalancerPort !in ports
    {
      ok := *;
      var took: bool := *;
      if ok || took {
        listeners := set l | l in listeners && l.loadBalancerPort !in ports;
      }
    }

    method CreateListeners(additions: set<Listener>) returns (ok: bool)
      modifies this`listeners
      ensures ok ==> listeners == old(listeners) + additions
    {
      ok := *;
      var took: bool := *;
      if ok || took {
        listeners := listeners + additions;
      }
    }

    method SetBackendPolicies(port: int, proxy: bool) returns (ok: bool)
      modifies this`proxied
      ensures ok ==> proxied == if proxy then old(proxied) + {port} else old(proxied) - {port}
      ensures !ok ==> proxied in {old(proxied), old(proxied) + {port}, old(proxied) - {port}}
    {
      ok := *;
      var took: bool := *;
      if ok || took {
        proxied := if proxy then proxied + {port} else proxied - {port};
      }
    }

    /** Deletes by port what is not wanted and creates what is missing. `descriptions` is what
        AWS reports; an entry may be empty. */
    method SyncListeners(descriptions: seq<Option<Listener>>, wanted: seq<Listener>) returns (ok: bool, dirty: bool)
      requires Elements(Present(descriptions)) == listeners
      modifies this`listeners
      ensures ok && PortsTell(old(listeners), Elements(wanted)) ==> listeners == Elements(wanted)
      ensures ok && NoRepeats(wanted) ==> (listeners == Elements(wanted) <==> PortsTell(old(listeners), Elements(wanted)))
      ensures ok && NoRepeats(wanted) ==> (dirty <==> old(listeners) != Elements(wanted))
    {
      dirty := false;
      ghost var before := listeners;
      var removals, additions := Compare(descriptions, wanted);
      SyncedListeners(before, Elements(wanted), removals, Elements(additions));
      hide Ports, Present, NoRepeats, PortsTell;
      NoElements(additions);
      NothingMissing(Elements(wanted), before);
      if removals != {} {
        ok := DeleteListeners(removals);
        if !ok {
          return false, dirty;
        }
        dirty := true;
      }
      if additions != [] {
        ok := CreateListeners(Elements(additions));
        if !ok {
          return false, dirty;
        }
        dirty := true;
      }
      ok := true;
      assert listeners == (set l | l in before && l.loadBalancerPort !in removals) + Elements(additions);
    }
  }

  /** A listener's port tells whether it is wanted. */
  predicate PortsTell(before: set<Listener>, wanted: set<Listener>) {
    forall l, m :: l in before && m in before && l in wanted && m !in wanted ==> l.loadBalancerPort != m.loadBalancerPort
  }

  predicate NoRepeats(wanted: seq<Listener>) {
    forall i, j :: 0 <= i < j < |wanted| ==> wanted[i] != wanted[j]
  }

  /** Which is so where the ports of the actual listeners are distinct. */
  lemma DistinctPortsTell(actual: seq<Listener>, wanted: set<Listener>)
    requires DistinctPorts(actual)
    ensures PortsTell(Elements(actual), wanted)
  {
    forall l, m | l in Elements(actual) && m in Elements(actual) && l in wanted && m !in wanted
      ensures l.loadBalancerPort != m.loadBalancerPort
    {
      var i :| 0 <= i < |actual| && actual[i] == l;
      var j :| 0 <= j < |actual| && actual[j] == m;
    }
  }

  lemma NothingMissing(a: set<Listener>, b: set<Listener>)
    ensures a - b == {} <==> a <= b
  {
    assert a - b == {} ==> forall x :: x in a ==> x in a - b || x in b;
  }

  lemma NoElements(l: seq<Listener>)
    ensures l == [] <==> Elements(l) == {}
  {
    if l != [] {
      assert l[0] in Elements(l);
    }
  }

  /** The ports to delete and the listeners to create. */
  method Compare(descriptions: seq<Option<Listener>>, wanted: seq<Listener>)
    returns (removals: set<int>, additions: seq<Listener>)
    ensures removals == Ports(Elements(Present(descriptions)) - Elements(wanted))
    ensures Elements(wanted) - Elements(Present(descriptions)) <= Elements(additions) <= Elements(wanted)
    ensures NoRepeats(wanted) ==> Elements(additions) == Elements(wanted) - Elements(Present(descriptions))
  {
    var foundSet: set<int> := {};
    removals := {};
    for i := 0 to |descriptions|
      invariant removals == Ports(Elements(Present(descriptions[..i])) - Elements(wanted))
      invariant forall j :: j in foundSet ==> 0 <= j < |wanted| && wanted[j] in Present(descriptions[..i])
      invariant NoRepeats(wanted) ==>
        forall j :: 0 <= j < |wanted| && wanted[j] in Present(descriptions[..i]) ==> j in foundSet
    {
      assert descriptions[..i + 1][..i] == descriptions[..i];
      if descriptions[i].Some? {
        var actual := descriptions[i].value;
        var found := -1;
        for j := 0 to |wanted|
          invariant found == -1 ==> forall k :: 0 <= k < j ==> wanted[k] != actual
          invariant found != -1 ==> 0 <= found < j && wanted[found] == actual
        {
          if actual == wanted[j] {
            found := j;
          }
        }
        if found != -1 {
          foundSet := foundSet + {found};
        } else {
          removals := removals + {actual.loadBalancerPort};
        }
      }
    }
    assert descriptions[..|descriptions|] == descriptions;
    additions := [];
    for j := 0 to |wanted|
      invariant Elements(wanted[..j]) - Elements(Present(descriptions)) <= Elements(additions) <= Elements(wanted[..j])
      invariant NoRepeats(wanted) ==> Elements(additions) == Elements(wanted[..j]) - Elements(Present(descriptions))
    {
      assert wanted[..j + 1] == wanted[..j] + [wanted[j]];
      assert Elements(wanted[..j + 1]) == Elements(wanted[..j]) + {wanted[j]};
      assert Elements(additions + [wanted[j]]) == Elements(additions) + {wanted[j]};
      if j !in foundSet {
        additions := additions + [wanted[j]];
      }
    }
    assert wanted[..|wanted|] == wanted;
  }

  /** Deleting the unwanted ports and adding what is missing gives the wanted listeners where ports
      tell; and only there, unless something that was there is added again. */
  lemma SyncedListeners(before: set<Listener>, wanted: set<Listener>, removals: set<int>, added: set<Listener>)
    requires removals == Ports(before - wanted) && wanted - before <= added <= wanted
    ensures
      var after := (set l | l in before && l.loadBalancerPort !in removals) + added;
      && (PortsTell(before, wanted) ==> after == wanted)
      && (added == wanted - before ==> (after == wanted <==> PortsTell(before, wanted)))
    ensures removals == {} <==> before <= wanted
  {
    var kept := set l | l in before && l.loadBalancerPort !in removals;
    assert forall m :: m in before - wanted ==> m.loadBalancerPort in removals;
    assert kept <= wanted;
    if PortsTell(before, wanted) {
      assert forall l :: l in before && l in wanted ==> l in kept;
      assert kept + added == wanted;
    } else if added == wanted - before {
      var l, m :| l in before && m in before && l in wanted && m !in wanted && l.loadBalancerPort == m.loadBalancerPort;
      assert m in before - wanted && l !in kept + added;
    }
    if before <= wanted {
      assert before - wanted == {};
    } else {
      var l :| l in before && l !in wanted;
      assert l in before - wanted;
    }
  }

  // ---------------------------------------------------------------- proxy protocol

  function BackendPorts(listeners: seq<Listener>): set<int> {
    set l | l in listeners :: l.instancePort
  }

  predicate Truthful(backends: seq<Backend>, proxied: set<int>) {
    && (forall b :: b in backends ==> (b.proxyEnabled <==> b.instancePort in proxied))
    && (forall p :: p in proxied ==> exists b :: b in backends && b.instancePort == p)
  }

  /** Sets the proxy-protocol state of every wanted listener's backend, and takes it off every
      other backend that AWS knows. `backends` is what AWS reported before the listeners were
      synced. */
  method SyncProxyProtocol(elb: LoadBalancer, backends: seq<Backend>, wanted: seq<Listener>, proxyProtocol: bool)
    returns (ok: bool)
    requires Truthful(backends, elb.proxied)
    modifies elb`proxied
    ensures ok ==> elb.proxied == if proxyProtocol then BackendPorts(wanted) else {}
  {
    // Creating the policy itself may fail.
    var policyCreated: bool := *;
    if proxyProtocol && !policyCreated {
      return false;
    }
    var before := elb.proxied;
    var foundBackends: map<int, bool> := map[];
    var proxyBackends: map<int, bool> := map[];
    for i := 0 to |backends|
      invariant foundBackends.Keys == proxyBackends.Keys == set b | b in backends[..i] :: b.instancePort
      invariant forall p :: p in foundBackends ==> !foundBackends[p]
      invariant forall p :: p in proxyBackends ==> (proxyBackends[p] <==> p in before)
    {
      assert backends[..i + 1] == backends[..i] + [backends[i]];
      foundBackends := foundBackends[backends[i].instancePort := false];
      proxyBackends := proxyBackends[backends[i].instancePort := backends[i].proxyEnabled];
    }
    assert backends[..|backends|] == backends;
    assert before <= proxyBackends.Keys by {
      forall p | p in before ensures p in proxyBackends.Keys {
        var b :| b in backends && b.instancePort == p;
      }
    }
    for i := 0 to |wanted|
      invariant foundBackends.Keys == proxyBackends.Keys
      invariant forall p :: p in foundBackends ==> (foundBackends[p] <==> p in BackendPorts(wanted[..i]))
      invariant elb.proxied ==
        if proxyProtocol then before + BackendPorts(wanted[..i]) else before - BackendPorts(wanted[..i])
    {
      assert wanted[..i + 1] == wanted[..i] + [wanted[i]];
      var instancePort := wanted[i].instancePort;
      assert BackendPorts(wanted[..i + 1]) == BackendPorts(wanted[..i]) + {instancePort};
      var setPolicy;
      if instancePort !in proxyBackends {
        setPolicy := proxyProtocol;
      } else {
        foundBackends := foundBackends[instancePort := true];
        setPolicy := proxyBackends[instancePort] != proxyProtocol;
      }
      if setPolicy {
        ok := elb.SetBackendPolicies(instancePort, proxyProtocol);
        if !ok {
          return false;
        }
      }
    }
    assert wanted[..|wanted|] == wanted;
    ok := RemoveStalePolicies(elb, foundBackends);
  }

  /** Takes the policies off the backends that no wanted listener uses. */
  method RemoveStalePolicies(elb: LoadBalancer, foundBackends: map<int, bool>) returns (ok: bool)
    modifies elb`proxied
    ensures ok ==> elb.proxied == old(elb.proxied) - set p | p in foundBackends && !foundBackends[p]
  {
    var rest: set<int> := foundBackends.Keys;
    while rest != {}
      invariant rest <= foundBackends.Keys
      invariant elb.proxied == old(elb.proxied) - set p | p in foundBackends && p !in rest && !foundBackends[p]
      decreases |rest|
    {
      var port := AnyOf(rest);
      rest := rest - {port};
      if !foundBackends[port] {
        ok := elb.SetBackendPolicies(port, false);
        if !ok {
          return false;
        }
      }
    }
    ok := true;
  }
}
