// internal/authz/limits.go:121-191: how many pieces of work one authorization, and everyone
// together, may have in flight.
module ConcurrencyLimits {
  import opened Wrappers

  datatype Spec = Spec(name: string, perAuthorization: nat, total: nat)

  // The release function Acquire returns, with the flag of its sync.Once.
  class Lease {
    const key: string
    var open: bool

    constructor (key: string)
      ensures this.key == key && open
    {
      this.key := key;
      open := true;
    }
  }

  // A Go map read: zero when the key is absent.
  function Count(m: map<string, int>, key: string): int { if key in m then m[key] else 0 }

  ghost function HeldSet(leases: set<Lease>, key: string): set<Lease> { set l | l in leases && l.key == key }

  ghost function Held(leases: set<Lease>, key: string): nat { |HeldSet(leases, key)| }

  lemma HeldAdd(leases: set<Lease>, lease: Lease)
    requires lease !in leases
    ensures forall k :: Held(leases + {lease}, k) == Held(leases, k) + (if k == lease.key then 1 else 0)
  {
    forall k ensures Held(leases + {lease}, k) == Held(leases, k) + (if k == lease.key then 1 else 0) {
      assert HeldSet(leases + {lease}, k) == HeldSet(leases, k) + (if k == lease.key then {lease} else {});
      assert lease !in HeldSet(leases, k);
    }
  }

  class Limiter {
    const spec: Spec
    var perKey: map<string, int>
    var total: int
    // The leases nobody has released yet.
    ghost var leases: set<Lease>

    // The counters are the leases: no slot is lost, none is counted twice, no zero entry is kept.
    ghost predicate Valid()
      reads this, leases
    {
      && (forall l :: l in leases ==> l.open)
      && total == |leases| <= spec.total
      && (forall k :: k in perKey ==> perKey[k] > 0)
      && (forall k :: Count(perKey, k) == Held(leases, k) <= spec.perAuthorization)
    }

    constructor (spec: Spec)
      ensures Valid() && this.spec == spec && leases == {}
    {
      this.spec := spec;
      perKey := map[];
      total := 0;
      leases := {};
    }

    // Granted exactly when both limits leave room; a refusal changes nothing.
    method Acquire(key: string) returns (lease: Option<Lease>)
      requires Valid()
      modifies this
      ensures Valid()
      ensures lease.Some? <==> |old(leases)| < spec.total && Held(old(leases), key) < spec.perAuthorization
      ensures lease.Some? ==> fresh(lease.value) && lease.value.key == key && leases == old(leases) + {lease.value}
      ensures lease.None? ==> leases == old(leases) && perKey == old(perKey) && total == old(total)
    {
      var count := Count(perKey, key);
      if total >= spec.total || count >= spec.perAuthorization {
        return None;
      }
      var l := new Lease(key);
      HeldAdd(leases, l);
      perKey := perKey[key := count + 1];
      total := total + 1;
      leases := leases + {l};
      return Some(l);
    }

    // Releasing frees exactly the lease's own slot, and a second release does nothing.
    method Release(lease: Lease)
      requires Valid()
      requires lease.open ==> lease in leases
      modifies this, lease
      ensures Valid() && !lease.open
      ensures leases == old(leases) - {lease}
      ensures !old(lease.open) ==> perKey == old(perKey) && total == old(total)
    {
      if !lease.open { return; }
      lease.open := false;
      HeldAdd(leases - {lease}, lease);
      assert leases - {lease} + {lease} == leases;
      leases := leases - {lease};
      assert Count(perKey, lease.key) == Held(leases, lease.key) + 1;
      if lease.key in perKey && perKey[lease.key] > 0 {
        perKey := perKey[lease.key := perKey[lease.key] - 1];
        if perKey[lease.key] == 0 {
          perKey := perKey - {lease.key};
        }
      }
      if total > 0 { total := total - 1; }
    }

    method InFlight(key: string) returns (mine: int, everyone: int)
      requires Valid()
      ensures mine == Held(leases, key) && everyone == |leases|
    {
      mine := Count(perKey, key);
      everyone := total;
    }
  }
}
