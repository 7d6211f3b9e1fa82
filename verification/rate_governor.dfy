/** The operations-per-second governor. Every synchronised operation of a
    project is counted in the bucket of its wall-clock second; a second with more
    than five operations marks the project as spiking (a `git checkout`, say), and
    once a spiking project has been quiet for more than two seconds its watcher
    must be reloaded. The current time is a parameter, in milliseconds. */
module RateGovernor {

  /** The number of operations counted in one second. */
  datatype Bucket = Bucket(second: int, count: nat)

  /** More operations than this in one second are a spike. */
  const SpikeThreshold := 5

  /** A spiking project is reloaded once its last bucket is more than this many seconds old. */
  const QuietSeconds := 2

  /** The second a millisecond timestamp falls in: `Math.floor(now / 1000)`. */
  function SecondOf(nowMs: nat): int
  {
    nowMs / 1000
  }

  /** The seconds that have a bucket. */
  function Seconds(bs: seq<Bucket>): set<int>
  {
    if bs == [] then {} else {bs[0].second} + Seconds(bs[1..])
  }

  /** No second has two buckets. */
  predicate DistinctSeconds(bs: seq<Bucket>)
  {
    bs == [] || (bs[0].second !in Seconds(bs[1..]) && DistinctSeconds(bs[1..]))
  }

  /** The count recorded for `second`, 0 when it has no bucket. */
  function CountOf(bs: seq<Bucket>, second: int): nat
  {
    if bs == [] then 0
    else (if bs[0].second == second then bs[0].count else 0) + CountOf(bs[1..], second)
  }

  /** All operations recorded. */
  function Total(bs: seq<Bucket>): nat
  {
    if bs == [] then 0 else bs[0].count + Total(bs[1..])
  }

  /** One more operation in `second`: its bucket grows by one, or a new bucket
      holding 1 is appended after the existing ones. */
  function Incremented(bs: seq<Bucket>, second: int): seq<Bucket>
  {
    if bs == [] then [Bucket(second, 1)]
    else if bs[0].second == second then [Bucket(second, bs[0].count + 1)] + bs[1..]
    else [bs[0]] + Incremented(bs[1..], second)
  }

  /** Some second of `bs` holds more operations than the threshold. */
  predicate HasSpike(bs: seq<Bucket>)
  {
    exists i | 0 <= i < |bs| :: bs[i].count > SpikeThreshold
  }

  /** The most recently created bucket is more than `QuietSeconds` old. */
  predicate QuietSince(bs: seq<Bucket>, nowSecond: int)
  {
    |bs| > 0 && nowSecond - bs[|bs| - 1].second > QuietSeconds
  }

  /** The largest count of any bucket, by the running maximum the program keeps. */
  method MaxOperationsPerSecond(bs: seq<Bucket>) returns (max: nat)
    ensures forall i | 0 <= i < |bs| :: bs[i].count <= max
    ensures max == 0 || exists i | 0 <= i < |bs| :: bs[i].count == max
    ensures max > SpikeThreshold <==> HasSpike(bs)
  {
    max := 0;
    var i := 0;
    while i < |bs|
      invariant 0 <= i <= |bs|
      invariant forall j | 0 <= j < i :: bs[j].count <= max
      invariant max == 0 || exists j | 0 <= j < i :: bs[j].count == max
    {
      if bs[i].count > max {
        max := bs[i].count;
      }
      i := i + 1;
    }
  }

  /** The three per-project tables of the program. */
  class Governor {
    /** The buckets of each project, in the order they were created. */
    var operations: map<string, seq<Bucket>>
    /** Projects that have spiked since their last reset. */
    var spiking: set<string>
    /** Projects whose watcher must be reloaded. */
    var mustReload: set<string>

    /** Seconds are unique per project, a spiking project has buckets, and only
        a spiking project is ever marked for reload. */
    predicate Valid()
      reads this
    {
      (forall p | p in operations :: DistinctSeconds(operations[p])) &&
      (forall p | p in spiking :: p in operations && |operations[p]| > 0) &&
      mustReload <= spiking
    }

    /** The buckets of `project`; a project never counted has none. */
    function BucketsOf(project: string): seq<Bucket>
      reads this
    {
      if project in operations then operations[project] else []
    }

    constructor ()
      ensures Valid()
      ensures operations == map[] && spiking == {} && mustReload == {}
    {
      operations := map[];
      spiking := {};
      mustReload := {};
    }

    /** `isWatcherMustBeReloaded`. */
    function IsWatcherMustBeReloaded(project: string): (r: bool)
      reads this
      ensures Valid() && r ==> project in spiking
    {
      project in mustReload
    }

    /** `incrementWatcherOperationsPerSecond`: nothing while a reload is pending,
        otherwise one more operation in the current second. */
    method IncrementWatcherOperationsPerSecond(project: string, nowMs: nat)
      requires Valid()
      modifies this
      ensures Valid()
      ensures spiking == old(spiking) && mustReload == old(mustReload)
      ensures old(IsWatcherMustBeReloaded(project)) ==> operations == old(operations)
      ensures !old(IsWatcherMustBeReloaded(project)) ==>
                operations == old(operations)[project := Incremented(old(BucketsOf(project)), SecondOf(nowMs))]
    {
      if IsWatcherMustBeReloaded(project) {
        return;
      }
      var second := SecondOf(nowMs);
      if project !in operations {
        operations := operations[project := []];
      }
      IncrementedKeepsDistinct(operations[project], second);
      IncrementedNonEmpty(operations[project], second);
      operations := operations[project := Incremented(operations[project], second)];
    }

    /** `calculateIfWatcherMustBeReloaded`: a bucket above the threshold marks
        the project as spiking; a spiking project whose newest bucket is more than
        two seconds old is marked for reload. Neither mark is ever removed here. */
    method CalculateIfWatcherMustBeReloaded(project: string, nowMs: nat)
      requires Valid()
      modifies this
      ensures Valid()
      ensures operations == old(operations)
      ensures spiking == old(spiking) + (if HasSpike(BucketsOf(project)) then {project} else {})
      ensures mustReload == old(mustReload) +
                (if project in spiking && QuietSince(BucketsOf(project), SecondOf(nowMs)) then {project} else {})
    {
      var maxOperationsPerSecond := 0;
      if project in operations {
        maxOperationsPerSecond := MaxOperationsPerSecond(operations[project]);
      }
      if maxOperationsPerSecond > SpikeThreshold {
        spiking := spiking + {project};
      } else {
        assert !HasSpike(BucketsOf(project));
      }
      if project in spiking {
        var bs := operations[project];
        var last := bs[|bs| - 1];
        if SecondOf(nowMs) - last.second > QuietSeconds {
          mustReload := mustReload + {project};
        }
      }
    }

    /** `resetWatcherOperationsPerSecond`: no buckets and neither mark. */
    method ResetWatcherOperationsPerSecond(project: string)
      requires Valid()
      modifies this
      ensures Valid()
      ensures operations == old(operations)[project := []]
      ensures spiking == old(spiking) - {project} && mustReload == old(mustReload) - {project}
    {
      operations := operations[project := []];
      spiking := spiking - {project};
      mustReload := mustReload - {project};
    }
  }

  // ---------------------------------------------------------------------------
  // Lemmas

  /** Incrementing adds the current second to the seconds with a bucket and
      never gives a second two buckets. */
  lemma {:induction false} IncrementedKeepsDistinct(bs: seq<Bucket>, second: int)
    requires DistinctSeconds(bs)
    ensures Seconds(Incremented(bs, second)) == Seconds(bs) + {second}
    ensures DistinctSeconds(Incremented(bs, second))
    decreases |bs|
  {
    if bs != [] {
      var r := Incremented(bs, second);
      if bs[0].second == second {
        assert r[1..] == bs[1..];
      } else {
        IncrementedKeepsDistinct(bs[1..], second);
        assert r[1..] == Incremented(bs[1..], second);
      }
    }
  }

  lemma IncrementedNonEmpty(bs: seq<Bucket>, second: int)
    ensures |Incremented(bs, second)| > 0
  {
  }

  /** Incrementing adds exactly one to the current second and leaves every other second as it was. */
  lemma {:induction false} IncrementedCounts(bs: seq<Bucket>, second: int, s: int)
    ensures CountOf(Incremented(bs, second), s) == CountOf(bs, s) + (if s == second then 1 else 0)
    decreases |bs|
  {
    if bs != [] {
      var r := Incremented(bs, second);
      if bs[0].second == second {
        assert r[1..] == bs[1..];
      } else {
        IncrementedCounts(bs[1..], second, s);
        assert r[1..] == Incremented(bs[1..], second);
      }
    }
  }

  /** Incrementing records exactly one more operation in all. */
  lemma {:induction false} IncrementedTotal(bs: seq<Bucket>, second: int)
    ensures Total(Incremented(bs, second)) == Total(bs) + 1
    decreases |bs|
  {
    if bs != [] {
      var r := Incremented(bs, second);
      if bs[0].second == second {
        assert r[1..] == bs[1..];
      } else {
        IncrementedTotal(bs[1..], second);
        assert r[1..] == Incremented(bs[1..], second);
      }
    }
  }

  /** A second that already has a bucket keeps its place, with the same seconds
      in the same order; a new second is appended after all the others. */
  lemma {:induction false} IncrementedOrder(bs: seq<Bucket>, second: int)
    ensures second in Seconds(bs) ==>
              |Incremented(bs, second)| == |bs| &&
              forall i | 0 <= i < |bs| :: Incremented(bs, second)[i].second == bs[i].second
    ensures second !in Seconds(bs) ==> Incremented(bs, second) == bs + [Bucket(second, 1)]
    decreases |bs|
  {
    if bs != [] {
      var r := Incremented(bs, second);
      if bs[0].second != second {
        IncrementedOrder(bs[1..], second);
        assert r[1..] == Incremented(bs[1..], second);
        if second in Seconds(bs) {
          forall k | 0 <= k < |bs| ensures r[k].second == bs[k].second {
            if k > 0 { assert r[k] == r[1..][k - 1]; }
          }
        } else {
          assert [bs[0]] + (bs[1..] + [Bucket(second, 1)]) == bs + [Bucket(second, 1)];
        }
      } else {
        forall k | 0 <= k < |bs| ensures r[k].second == bs[k].second {
          if k > 0 { assert r[k] == bs[1..][k - 1]; }
        }
      }
    }
  }

  /** Six operations in one second, then nothing: the watcher is not reloaded one
      or two seconds later, is three seconds later, and no longer after a reset. */
  method ReloadAfterQuietPeriod(project: string, t0: nat)
    returns (afterOne: bool, afterTwo: bool, afterThree: bool, afterReset: bool)
    ensures !afterOne && !afterTwo && afterThree && !afterReset
  {
    var g := new Governor();
    var n := 0;
    while n < 6
      invariant 0 <= n <= 6
      invariant g.Valid() && g.spiking == {} && g.mustReload == {}
      invariant g.operations == (if n == 0 then map[] else map[project := [Bucket(SecondOf(t0), n)]])
    {
      if n == 0 {
        assert Incremented([], SecondOf(t0)) == [Bucket(SecondOf(t0), 1)];
      } else {
        assert Incremented([Bucket(SecondOf(t0), n)], SecondOf(t0)) == [Bucket(SecondOf(t0), n + 1)];
      }
      g.IncrementWatcherOperationsPerSecond(project, t0);
      n := n + 1;
    }
    var bs := [Bucket(SecondOf(t0), 6)];
    assert g.BucketsOf(project) == bs;
    assert HasSpike(bs) by { assert bs[0].count > SpikeThreshold; }
    assert SecondOf(t0 + 1000) == SecondOf(t0) + 1;
    assert SecondOf(t0 + 2000) == SecondOf(t0) + 2;
    assert SecondOf(t0 + 3000) == SecondOf(t0) + 3;

    g.CalculateIfWatcherMustBeReloaded(project, t0 + 1000);
    afterOne := g.IsWatcherMustBeReloaded(project);
    g.CalculateIfWatcherMustBeReloaded(project, t0 + 2000);
    afterTwo := g.IsWatcherMustBeReloaded(project);
    g.CalculateIfWatcherMustBeReloaded(project, t0 + 3000);
    afterThree := g.IsWatcherMustBeReloaded(project);
    g.ResetWatcherOperationsPerSecond(project);
    afterReset := g.IsWatcherMustBeReloaded(project);
  }
}
