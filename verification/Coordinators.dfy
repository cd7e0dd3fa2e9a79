/**
 The two coordinator services, for one type of replica: KubernetesCoordinatorService spreads a number of
 replicas over its replication controllers, StubCoordinatorService starts and stops them itself.
 */
module Coordinators {
  import opened Numbers

  type Names = seq<string>

  predicate Distinct(names: Names) {
    forall i, k | 0 <= i < k < |names| :: names[i] != names[k]
  }

  // ----- Distribution over controllers -----

  /** getNewReplicaCount: the part of replicaSum that one controller gets. */
  function Share(names: Names, name: string, replicaSum: nat): int
    requires names != []
  {
    var index := IndexOf(names, name);
    var remaining := replicaSum % |names|;
    replicaSum / |names| + Min(1, Max(0, remaining - index))
  }

  function ShareSum(names: Names, replicaSum: nat, n: nat): int
    requires names != [] && n <= |names|
  {
    if n == 0 then 0 else ShareSum(names, replicaSum, n - 1) + Share(names, names[n - 1], replicaSum)
  }

  lemma ShareAt(names: Names, i: nat, replicaSum: nat)
    requires i < |names| && Distinct(names)
    ensures Share(names, names[i], replicaSum)
            == replicaSum / |names| + (if i < replicaSum % |names| then 1 else 0)
  {
    var index := IndexOf(names, names[i]);
    assert index == i;
  }

  lemma {:induction false} ShareSumIs(names: Names, replicaSum: nat, n: nat)
    requires names != [] && n <= |names| && Distinct(names)
    ensures ShareSum(names, replicaSum, n) == n * (replicaSum / |names|) + Min(n, replicaSum % |names|)
  {
    if n > 0 {
      ShareSumIs(names, replicaSum, n - 1);
      ShareAt(names, n - 1, replicaSum);
      assert n * (replicaSum / |names|) == (n - 1) * (replicaSum / |names|) + replicaSum / |names|;
    }
  }

  /** The shares of distinct controllers add up to the requested number. */
  lemma SharesAddUp(names: Names, replicaSum: nat)
    requires names != [] && Distinct(names)
    ensures ShareSum(names, replicaSum, |names|) == replicaSum
  {
    ShareSumIs(names, replicaSum, |names|);
  }

  /** No controller gets more than one replica more than another, and the earlier ones get no less. */
  lemma SharesEven(names: Names, replicaSum: nat, i: nat, k: nat)
    requires i < k < |names| && Distinct(names)
    ensures 0 <= Share(names, names[i], replicaSum) - Share(names, names[k], replicaSum) <= 1
  {
    ShareAt(names, i, replicaSum);
    ShareAt(names, k, replicaSum);
  }

  /** Only the share of controller k grows, by one, when one replica more is requested. */
  predicate OnlyGrows(names: Names, replicaSum: nat, k: int)
    requires names != []
  {
    0 <= k < |names| && forall i | 0 <= i < |names| ::
      Share(names, names[i], replicaSum + 1) == Share(names, names[i], replicaSum) + (if i == k then 1 else 0)
  }

  /** One replica more changes exactly one share, by one. */
  lemma OneMoreReplica(names: Names, replicaSum: nat)
    requires names != [] && Distinct(names)
    ensures exists k :: OnlyGrows(names, replicaSum, k)
  {
    var n := |names|;
    var k := replicaSum % n;
    NextShare(replicaSum, n);
    forall i | 0 <= i < n
      ensures Share(names, names[i], replicaSum + 1) == Share(names, names[i], replicaSum) + (if i == k then 1 else 0)
    {
      ShareAt(names, i, replicaSum);
      ShareAt(names, i, replicaSum + 1);
    }
    assert OnlyGrows(names, replicaSum, k);
  }

  lemma NextShare(sum: nat, n: int)
    requires n >= 1
    ensures if sum % n + 1 < n then (sum + 1) / n == sum / n && (sum + 1) % n == sum % n + 1
            else (sum + 1) / n == sum / n + 1 && (sum + 1) % n == 0
  {
    var q, r := sum / n, sum % n;
    assert sum == q * n + r;
    if r + 1 < n {
      DivModIs(sum + 1, n, q, r + 1);
    } else {
      assert sum + 1 == (q + 1) * n;
      DivModIs(sum + 1, n, q + 1, 0);
    }
  }

  // ----- The effect of setReplicaCount on the count -----

  datatype Kind = Kubernetes | Stub

  /** The count after a request, with a quiescent cluster and successful starts. */
  function SetCount(kind: Kind, max: nat, current: int, number: int): int {
    if number < 0 then current
    else if kind.Kubernetes? then Min(number, max)
    else if number <= max then number
    else current
  }

  function SetAnswer(kind: Kind, max: nat, current: int, number: int): bool {
    0 <= number <= max && (kind.Kubernetes? || number != current)
  }

  /**
   The two services agree on the count exactly for requests up to the maximum (or at the maximum), and on
   the answer exactly unless the request is the current count.
   */
  lemma CoordinatorsAgreeIff(max: nat, current: int, number: int)
    ensures SetCount(Kubernetes, max, current, number) == SetCount(Stub, max, current, number)
            <==> number <= max || current == max
    ensures SetAnswer(Kubernetes, max, current, number) == SetAnswer(Stub, max, current, number)
            <==> number != current || !(0 <= number <= max)
  {
  }

  /** A request in range is honoured by both; one above it fills the cluster and leaves the stub alone. */
  lemma RequestHonoured(kind: Kind, max: nat, current: int, number: int)
    ensures 0 <= number <= max ==> SetCount(kind, max, current, number) == number
    ensures number > max ==> SetCount(kind, max, current, number) == if kind.Stub? then current else max
    ensures number < 0 ==> SetCount(kind, max, current, number) == current
    ensures SetAnswer(kind, max, current, number)
            <==> SetCount(kind, max, current, number) == number && (kind.Stub? ==> number != current) && 0 <= number <= max
  {
  }

  /** A request of one more than the maximum fills a Kubernetes cluster and is ignored by the stub. */
  lemma OneTooMany(max: nat)
    requires max >= 1
    ensures SetCount(Kubernetes, max, 0, max + 1) == max && SetCount(Stub, max, 0, max + 1) == 0
  {
  }
}

module KubernetesCoordinators {
  import opened Numbers
  import opened Coordinators

  function SpecSum(names: Names, spec: map<string, int>, n: nat): int
    requires n <= |names| && forall name | name in names :: name in spec
  {
    if n == 0 then 0 else SpecSum(names, spec, n - 1) + spec[names[n - 1]]
  }

  /** The replicas that each controller has (status) and should have (spec). */
  class KubernetesCoordinator {
    const names: Names
    const maxReplicas: nat
    var spec: map<string, int>
    var status: map<string, int>

    ghost predicate Valid()
      reads this
    {
      && names != [] && Distinct(names)
      && forall name | name in names :: name in spec && name in status
    }

    /** The cluster has come to rest. */
    ghost predicate Quiescent()
      reads this
    {
      Valid() && forall name | name in names :: status[name] == spec[name]
    }

    ghost function Count(): int
      requires Valid()
      reads this
    {
      SpecSum(names, spec, |names|)
    }

    constructor (names: Names, maxReplicas: nat)
      requires names != [] && Distinct(names)
      ensures Quiescent() && this.names == names && this.maxReplicas == maxReplicas
    {
      this.names, this.maxReplicas := names, maxReplicas;
      spec := map name | name in names :: 0;
      status := map name | name in names :: 0;
    }

    method GetReplicaCount() returns (count: int)
      requires Valid()
      ensures count == Count()
    {
      count := 0;
      for i := 0 to |names|
        invariant count == SpecSum(names, spec, i)
      {
        count := count + spec[names[i]];
      }
    }

    /** A controller whose status already equals its share is left alone, whatever its spec says. */
    method SetReplicaCount(number: int) returns (isNumberSet: bool)
      requires Valid()
      modifies this`spec
      ensures Valid()
      ensures number < 0 ==> spec == old(spec)
      ensures number >= 0 ==> forall name | name in names ::
                var share := Share(names, name, Min(number, maxReplicas));
                spec[name] == if status[name] == share then old(spec)[name] else share
      ensures isNumberSet == SetAnswer(Kubernetes, maxReplicas, old(Count()), number)
      ensures old(Quiescent()) ==> Count() == SetCount(Kubernetes, maxReplicas, old(Count()), number)
    {
      if number < 0 {
        return false;
      }
      var newNumber := Min(number, maxReplicas);
      isNumberSet := newNumber == number;
      for i := 0 to |names|
        invariant Valid()
        invariant forall k | i <= k < |names| :: spec[names[k]] == old(spec)[names[k]]
        invariant forall k | 0 <= k < i ::
                    var share := Share(names, names[k], newNumber);
                    spec[names[k]] == if status[names[k]] == share then old(spec)[names[k]] else share
      {
        var share := Share(names, names[i], newNumber);
        if status[names[i]] != share {
          spec := spec[names[i] := share];
        }
      }
      if old(Quiescent()) {
        SpecIsShares(names, spec, newNumber, |names|);
        SharesAddUp(names, newNumber);
      }
    }

    /** The controllers start and stop replicas until they have what they should. */
    method Settle()
      requires Valid()
      modifies this`status
      ensures Quiescent()
    {
      status := spec;
    }
  }

  lemma {:induction false} SpecIsShares(names: Names, spec: map<string, int>, replicaSum: nat, n: nat)
    requires names != [] && n <= |names| && forall name | name in names :: name in spec
    requires forall i | 0 <= i < n :: spec[names[i]] == Share(names, names[i], replicaSum)
    ensures SpecSum(names, spec, n) == ShareSum(names, replicaSum, n)
  {
    if n > 0 { SpecIsShares(names, spec, replicaSum, n - 1); }
  }
}

module StubCoordinators {
  import opened Numbers
  import opened Coordinators

  /** How many of the first n starts succeed. */
  function Successes(starts: nat -> bool, n: nat): (k: nat)
    ensures k <= n
    ensures (forall i | 0 <= i < n :: starts(i)) ==> k == n
  {
    if n == 0 then 0 else Successes(starts, n - 1) + (if starts(n - 1) then 1 else 0)
  }

  /** services lists the running replicas, oldest first, by the number under which each was started. */
  class StubCoordinator {
    const maxReplicas: nat
    var services: seq<nat>
    var started: nat

    constructor (maxReplicas: nat)
      ensures services == [] && started == 0 && this.maxReplicas == maxReplicas
    {
      this.maxReplicas := maxReplicas;
      services, started := [], 0;
    }

    method GetReplicaCount() returns (count: nat)
      ensures count == |services|
    {
      count := |services|;
    }

    /** starts tells which of the attempts to start a replica succeed. */
    method SetReplicaCount(number: int, starts: nat -> bool) returns (changed: bool)
      modifies this
      ensures changed == SetAnswer(Stub, maxReplicas, old(|services|), number)
      ensures !changed ==> services == old(services) && started == old(started)
      ensures changed && number < old(|services|) ==>
                services == old(services)[old(|services|) - number..] && started == old(started)
      ensures changed && number > old(|services|) ==>
                var n := Successes(starts, number - old(|services|));
                services == old(services) + seq(n, i => old(started) + i) && started == old(started) + n
      ensures (forall i: nat :: starts(i)) ==>
                |services| == SetCount(Stub, maxReplicas, old(|services|), number)
    {
      if 0 <= number <= maxReplicas && number != |services| {
        UpdateServices(number - |services|, starts);
        changed := true;
      } else {
        changed := false;
      }
    }

    method UpdateServices(replicas: int, starts: nat -> bool)
      modifies this
      ensures replicas <= 0 ==>
                services == old(services)[Min(-replicas, old(|services|))..] && started == old(started)
      ensures replicas > 0 ==>
                var n := Successes(starts, replicas);
                services == old(services) + seq(n, i => old(started) + i) && started == old(started) + n
    {
      if replicas < 0 {
        var left := replicas;
        while services != [] && left < 0
          invariant replicas <= left <= 0 && left - replicas <= |old(services)|
          invariant services == old(services)[left - replicas..] && started == old(started)
          decreases -left
        {
          left := left + 1;
          services := services[1..];
        }
      } else if replicas > 0 {
        var left := replicas;
        while left > 0
          invariant 0 <= left <= replicas
          invariant var n := Successes(starts, replicas - left);
                    services == old(services) + seq(n, i => old(started) + i) && started == old(started) + n
        {
          if starts(replicas - left) {
            services := services + [started];
            started := started + 1;
          }
          left := left - 1;
        }
      }
    }
  }
}
