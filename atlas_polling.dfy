/**
 * The traceroute result comparator of sensors/ripe_atlas_polling.py
 * (class RIPEAtlasPolling). It keeps the latest result per probe id and, for
 * each new batch of results, decides which triggers fire: a change in the
 * number of hops, a host that became (un)reachable, a change of the RTT
 * median, and inconsistent `from` addresses.
 *
 * Trigger payloads, logging and the network calls that fetch a batch are not
 * modelled; the wall clock and the measurement interval are parameters.
 */
module AtlasPolling {
  import opened Wrappers
  import opened Statistics

  /** The trigger kinds the comparator dispatches. */
  datatype Trigger =
    | HopsNumberChanged
    | RttMedianChanged
    | FromFieldDifferentInAttempts
    | FromFieldDifferentThanGeneral
    | HostPartiallyUnreachable
    | HostPartiallyReachable

  /** The trigger reference each kind is dispatched under. */
  function TriggerName(t: Trigger): (name: string)
    ensures |name| > 6 && name[..6] == "atlas."
  {
    match t
    case HopsNumberChanged => "atlas.HopsNumberChanged"
    case RttMedianChanged => "atlas.RTTMedianChanged"
    case FromFieldDifferentInAttempts => "atlas.FromFieldDifferentInAttempts"
    case FromFieldDifferentThanGeneral => "atlas.FromFieldDifferentThanGeneral"
    case HostPartiallyUnreachable => "atlas.HostPartiallyUnreachable"
    case HostPartiallyReachable => "atlas.HostPartiallyReachable"
  }

  /** Seconds a repeated result is still considered fresh after its interval. */
  const MeasurementDelayTolerance: int := 10

  /** RTT tolerance in ms; the source sets it to -10 (its own note says 10 was meant). */
  const RttTolerance: real := -10.0

  predicate IsFromFieldKind(t: Trigger)
  {
    t == FromFieldDifferentInAttempts || t == FromFieldDifferentThanGeneral
  }

  /** One traceroute attempt: a reply, or exactly the timeout marker {"x": "*"}. */
  datatype Attempt = Reply(from: string, rtt: real) | TimeoutMarker

  datatype Hop = Hop(attempts: seq<Attempt>)

  /** One probe's result: `prb_id`, `stored_timestamp`, `dst_addr` and the hops of `result`. */
  datatype ProbeResult = ProbeResult(prbId: int, storedTimestamp: int, dstAddr: string, hops: seq<Hop>)

  /** Some attempt of some hop is a reply. */
  ghost predicate HasReply(hops: seq<Hop>)
  {
    exists i, j :: 0 <= i < |hops| && 0 <= j < |hops[i].attempts| && hops[i].attempts[j].Reply?
  }

  /**
   * `_probe_results_host_unreachable`: `any` over the hops of "the hop's
   * attempt list contains the timeout marker".
   */
  function HostUnreachable(hops: seq<Hop>): (u: bool)
    ensures u <==> exists i :: 0 <= i < |hops| && TimeoutMarker in hops[i].attempts
  {
    if hops == [] then false
    else if TimeoutMarker in hops[0].attempts then true
    else
      var rest := HostUnreachable(hops[1..]);
      assert rest ==> exists i :: 1 <= i < |hops| && TimeoutMarker in hops[i].attempts by {
        if rest {
          var i :| 0 <= i < |hops[1..]| && TimeoutMarker in hops[1..][i].attempts;
          assert hops[i + 1] == hops[1..][i];
        }
      }
      rest
  }

  /** The RTTs of the replies among `attempts`, in order. */
  function AttemptRtts(attempts: seq<Attempt>): (r: seq<real>)
    ensures |r| > 0 <==> exists j :: 0 <= j < |attempts| && attempts[j].Reply?
  {
    if attempts == [] then []
    else
      var rest := AttemptRtts(attempts[1..]);
      assert (exists j :: 1 <= j < |attempts| && attempts[j].Reply?) <==> |rest| > 0 by {
        if |rest| > 0 {
          var j :| 0 <= j < |attempts[1..]| && attempts[1..][j].Reply?;
          assert attempts[j + 1] == attempts[1..][j];
        }
        if exists j :: 1 <= j < |attempts| && attempts[j].Reply? {
          var j :| 1 <= j < |attempts| && attempts[j].Reply?;
          assert attempts[1..][j - 1] == attempts[j];
        }
      }
      (if attempts[0].Reply? then [attempts[0].rtt] else []) + rest
  }

  /**
   * The RTT list `_compare_hops_median` takes the median of: the `rtt` of
   * every reply, hop by hop. Timeout markers are skipped. The source would
   * raise KeyError on a marker's `rtt`, but a result holding a marker is
   * unreachable and never reaches the median comparison.
   */
  function Rtts(hops: seq<Hop>): (r: seq<real>)
    ensures |r| > 0 <==> HasReply(hops)
  {
    if hops == [] then []
    else
      var first := AttemptRtts(hops[0].attempts);
      var rest := Rtts(hops[1..]);
      assert HasReply(hops) <==> |first| > 0 || HasReply(hops[1..]) by {
        if HasReply(hops[1..]) {
          var i, j :| 0 <= i < |hops[1..]| && 0 <= j < |hops[1..][i].attempts| && hops[1..][i].attempts[j].Reply?;
          assert hops[i + 1] == hops[1..][i];
        }
        if HasReply(hops) && |first| == 0 {
          var i, j :| 0 <= i < |hops| && 0 <= j < |hops[i].attempts| && hops[i].attempts[j].Reply?;
          assert i != 0;
          assert hops[1..][i - 1] == hops[i];
        }
      }
      first + rest
  }

  /** The set of `from` values over all attempts of all hops. */
  function Froms(hops: seq<Hop>): set<string>
  {
    set i, j | 0 <= i < |hops| && 0 <= j < |hops[i].attempts| && hops[i].attempts[j].Reply?
      :: hops[i].attempts[j].from
  }

  /**
   * The kinds `_validate_from_fields` decides to dispatch, in order: nothing
   * for an unreachable result; otherwise FromFieldDifferentInAttempts when the
   * `from` set is not a singleton and FromFieldDifferentThanGeneral when some
   * `from` differs from `dst_addr`.
   */
  function FromFieldTriggers(r: ProbeResult): (ts: seq<Trigger>)
    ensures HostUnreachable(r.hops) ==> ts == []
    ensures !HostUnreachable(r.hops) ==>
      && (FromFieldDifferentInAttempts in ts <==> |Froms(r.hops)| != 1)
      && (FromFieldDifferentThanGeneral in ts <==> Froms(r.hops) - {r.dstAddr} != {})
    ensures |ts| <= 2 && forall k :: 0 <= k < |ts| ==> IsFromFieldKind(ts[k])
  {
    if HostUnreachable(r.hops) then []
    else
      var froms := Froms(r.hops);
      (if |froms| != 1 then [FromFieldDifferentInAttempts] else [])
      + (if froms - {r.dstAddr} != {} then [FromFieldDifferentThanGeneral] else [])
  }

  /** A reachable result whose replies all come from `dst_addr` raises no from-field trigger. */
  lemma FromFieldsAllFromDestination(r: ProbeResult)
    requires !HostUnreachable(r.hops) && HasReply(r.hops)
    requires forall i, j :: 0 <= i < |r.hops| && 0 <= j < |r.hops[i].attempts| ==>
      r.hops[i].attempts[j].from == r.dstAddr
    ensures FromFieldTriggers(r) == []
  {
    var i, j :| 0 <= i < |r.hops| && 0 <= j < |r.hops[i].attempts| && r.hops[i].attempts[j].Reply?;
    assert r.dstAddr in Froms(r.hops);
    assert Froms(r.hops) == {r.dstAddr};
  }

  /** A reply from an address other than `dst_addr` raises FromFieldDifferentThanGeneral. */
  lemma FromFieldStrangerDetected(r: ProbeResult, i: nat, j: nat)
    requires !HostUnreachable(r.hops)
    requires i < |r.hops| && j < |r.hops[i].attempts| && r.hops[i].attempts[j].from != r.dstAddr
    ensures FromFieldDifferentThanGeneral in FromFieldTriggers(r)
  {
    assert r.hops[i].attempts[j].Reply?;
    assert r.hops[i].attempts[j].from in Froms(r.hops) - {r.dstAddr};
  }

  /** Two replies from different addresses raise both from-field triggers. */
  lemma FromFieldTwoResponders(r: ProbeResult, i: nat, j: nat, i': nat, j': nat)
    requires !HostUnreachable(r.hops)
    requires i < |r.hops| && j < |r.hops[i].attempts| && i' < |r.hops| && j' < |r.hops[i'].attempts|
    requires r.hops[i].attempts[j].from != r.hops[i'].attempts[j'].from
    ensures FromFieldTriggers(r) == [FromFieldDifferentInAttempts, FromFieldDifferentThanGeneral]
  {
    var a, b := r.hops[i].attempts[j].from, r.hops[i'].attempts[j'].from;
    assert r.hops[i].attempts[j].Reply? && r.hops[i'].attempts[j'].Reply?;
    var f := Froms(r.hops);
    assert a in f && b in f;
    assert b in f - {a};
    assert |f - {a}| == |f| - 1;
    assert |f| != 1;
    if a != r.dstAddr {
      assert a in Froms(r.hops) - {r.dstAddr};
    } else {
      assert b in Froms(r.hops) - {r.dstAddr};
    }
  }

  /** A reachable result without any attempt has an empty `from` set: only the first check fires. */
  lemma FromFieldNoAttempts(r: ProbeResult)
    requires forall i :: 0 <= i < |r.hops| ==> r.hops[i].attempts == []
    ensures FromFieldTriggers(r) == [FromFieldDifferentInAttempts]
  {
    assert Froms(r.hops) == {};
  }

  /** What `_compare_hops_median` returns: raised (the median of an empty list), True, or the pair. */
  datatype MedianComparison = MedianRaised | Within(newMedian: real) | Changed(oldMedian: real, newMedian: real)

  /**
   * `_compare_hops_median` with the tolerance as a parameter. The old median
   * is the cached `__rtt_median` when present; because the source passes the
   * recomputed median as the default argument of `get`, it is evaluated (and
   * raises on an empty RTT list) even when the cache is present. The new
   * median is the value the source caches on the new result.
   */
  function CompareHopsMedian(oldResult: ProbeResult, oldCached: Option<real>, newResult: ProbeResult, tolerance: real)
    : (c: MedianComparison)
    ensures c.MedianRaised? <==> !HasReply(oldResult.hops) || !HasReply(newResult.hops)
    ensures !c.MedianRaised? ==>
      var oldMedian := if oldCached.Some? then oldCached.value else Median(Rtts(oldResult.hops));
      && c.newMedian == Median(Rtts(newResult.hops))
      && (c.Changed? <==> !(oldMedian - tolerance <= c.newMedian <= oldMedian + tolerance))
      && (c.Changed? ==> c.oldMedian == oldMedian)
  {
    var oldRtts := Rtts(oldResult.hops);
    var newRtts := Rtts(newResult.hops);
    if |oldRtts| == 0 || |newRtts| == 0 then MedianRaised
    else
      var oldMedian := if oldCached.Some? then oldCached.value else Median(oldRtts);
      var newMedian := Median(newRtts);
      if oldMedian - tolerance <= newMedian <= oldMedian + tolerance then Within(newMedian)
      else Changed(oldMedian, newMedian)
  }

  /** A cache holding the old result's own median gives the same outcome as recomputing it. */
  lemma CachedMedianIsTransparent(oldResult: ProbeResult, newResult: ProbeResult, tolerance: real)
    requires HasReply(oldResult.hops)
    ensures CompareHopsMedian(oldResult, Some(Median(Rtts(oldResult.hops))), newResult, tolerance)
         == CompareHopsMedian(oldResult, None, newResult, tolerance)
  {
  }

  /** With a negative tolerance the accepted interval is empty: every computed comparison is a change. */
  lemma NegativeToleranceAlwaysChanged(oldResult: ProbeResult, oldCached: Option<real>, newResult: ProbeResult, tolerance: real)
    requires tolerance < 0.0
    requires HasReply(oldResult.hops) && HasReply(newResult.hops)
    ensures CompareHopsMedian(oldResult, oldCached, newResult, tolerance).Changed?
  {
  }

  /** With a non-negative tolerance the medians are "within" iff they differ by at most the tolerance. */
  lemma NonNegativeToleranceWithin(oldResult: ProbeResult, newResult: ProbeResult, tolerance: real)
    requires tolerance >= 0.0
    requires HasReply(oldResult.hops) && HasReply(newResult.hops)
    ensures var d := Median(Rtts(newResult.hops)) - Median(Rtts(oldResult.hops));
      CompareHopsMedian(oldResult, None, newResult, tolerance).Within? <==> -tolerance <= d <= tolerance
  {
  }

  /** The outcome of `_compare_probe_stats`: triggers dispatched, the median cached on the new result, raised. */
  datatype Comparison = Comparison(triggers: seq<Trigger>, cachedMedian: Option<real>, raised: bool)

  /** Same `stored_timestamp` and the next measurement is not yet due. */
  predicate IsStale(oldResult: ProbeResult, newResult: ProbeResult, now: int, interval: int)
  {
    && newResult.storedTimestamp == oldResult.storedTimestamp
    && newResult.storedTimestamp + interval + MeasurementDelayTolerance > now
  }

  /**
   * `_compare_probe_stats` for a probe seen before: the stale rule, then the
   * hop count, then reachability (whose trigger names are as the source has
   * them: HostPartiallyReachable fires when the NEW result is unreachable),
   * then the RTT median with the source's tolerance.
   */
  function CompareProbeStats(oldResult: ProbeResult, oldCached: Option<real>, newResult: ProbeResult, now: int, interval: int)
    : (c: Comparison)
    ensures IsStale(oldResult, newResult, now, interval) ==> c == Comparison([], None, false)
    ensures FromFieldDifferentInAttempts !in c.triggers && FromFieldDifferentThanGeneral !in c.triggers
    ensures c.cachedMedian.Some? ==> HasReply(newResult.hops) && c.cachedMedian.value == Median(Rtts(newResult.hops))
  {
    if IsStale(oldResult, newResult, now, interval) then Comparison([], None, false)
    else
      var hops := HopsTriggers(oldResult, newResult);
      var oldDown, newDown := HostUnreachable(oldResult.hops), HostUnreachable(newResult.hops);
      if oldDown || newDown then
        Comparison(hops + ReachabilityTriggers(oldDown, newDown), None, false)
      else
        var m := CompareHopsMedian(oldResult, oldCached, newResult, RttTolerance);
        match m
        case MedianRaised => Comparison(hops, None, true)
        case Changed(_, newMedian) => Comparison(hops + [RttMedianChanged], Some(newMedian), false)
        case Within(newMedian) => Comparison(hops, Some(newMedian), false)
  }

  /** The hop-count check of `_compare_probe_stats`. */
  function HopsTriggers(oldResult: ProbeResult, newResult: ProbeResult): (ts: seq<Trigger>)
    ensures ts == [] || ts == [HopsNumberChanged]
    ensures |ts| == 1 <==> |oldResult.hops| != |newResult.hops|
  {
    if |oldResult.hops| != |newResult.hops| then [HopsNumberChanged] else []
  }

  /** The reachability triggers, for results of which at least one is unreachable. */
  function ReachabilityTriggers(oldDown: bool, newDown: bool): (ts: seq<Trigger>)
    ensures HostPartiallyReachable in ts <==> newDown && !oldDown
    ensures HostPartiallyUnreachable in ts <==> oldDown && !newDown
    ensures forall k :: 0 <= k < |ts| ==> ts[k] == HostPartiallyReachable || ts[k] == HostPartiallyUnreachable
  {
    (if newDown && !oldDown then [HostPartiallyReachable] else [])
    + (if oldDown && !newDown then [HostPartiallyUnreachable] else [])
  }

  /** When not stale, HopsNumberChanged is dispatched exactly once iff the hop counts differ. */
  lemma HopsChangedExactlyOnce(oldResult: ProbeResult, oldCached: Option<real>, newResult: ProbeResult, now: int, interval: int)
    requires !IsStale(oldResult, newResult, now, interval)
    ensures var c := CompareProbeStats(oldResult, oldCached, newResult, now, interval);
      multiset(c.triggers)[HopsNumberChanged] == if |oldResult.hops| != |newResult.hops| then 1 else 0
  {
    var hops := HopsTriggers(oldResult, newResult);
    var oldDown, newDown := HostUnreachable(oldResult.hops), HostUnreachable(newResult.hops);
    if oldDown || newDown {
      var rest := ReachabilityTriggers(oldDown, newDown);
      assert HopsNumberChanged !in rest;
      CountUnaffectedBySuffix(hops, rest);
    } else {
      ReachableComparison(oldResult, oldCached, newResult, now, interval);
      CountUnaffectedBySuffix(hops, [RttMedianChanged]);
    }
    HopsCount(oldResult, newResult);
  }

  /** HopsTriggers holds one HopsNumberChanged iff the hop counts differ. */
  lemma HopsCount(oldResult: ProbeResult, newResult: ProbeResult)
    ensures multiset(HopsTriggers(oldResult, newResult))[HopsNumberChanged]
         == if |oldResult.hops| != |newResult.hops| then 1 else 0
  {
  }

  /** Appending triggers other than HopsNumberChanged does not change its count. */
  lemma CountUnaffectedBySuffix(prefix: seq<Trigger>, rest: seq<Trigger>)
    requires HopsNumberChanged !in rest
    ensures multiset(prefix + rest)[HopsNumberChanged] == multiset(prefix)[HopsNumberChanged]
  {
    assert multiset(prefix + rest) == multiset(prefix) + multiset(rest);
  }

  /**
   * When either result is unreachable: no RTT comparison (so no raise and
   * nothing cached), and the reachability trigger depends only on the two
   * flags.
   */
  lemma UnreachableComparison(oldResult: ProbeResult, oldCached: Option<real>, newResult: ProbeResult, now: int, interval: int)
    requires !IsStale(oldResult, newResult, now, interval)
    requires HostUnreachable(oldResult.hops) || HostUnreachable(newResult.hops)
    ensures var c := CompareProbeStats(oldResult, oldCached, newResult, now, interval);
      var oldDown, newDown := HostUnreachable(oldResult.hops), HostUnreachable(newResult.hops);
      && !c.raised && c.cachedMedian == None
      && RttMedianChanged !in c.triggers
      && (HostPartiallyReachable in c.triggers <==> newDown && !oldDown)
      && (HostPartiallyUnreachable in c.triggers <==> oldDown && !newDown)
  {
    var c := CompareProbeStats(oldResult, oldCached, newResult, now, interval);
    var hops := HopsTriggers(oldResult, newResult);
    var reach := ReachabilityTriggers(HostUnreachable(oldResult.hops), HostUnreachable(newResult.hops));
    assert c.triggers == hops + reach;
    assert RttMedianChanged !in reach;
  }

  /**
   * When both results are reachable: the comparison raises iff either RTT
   * list is empty (nothing cached, only the hop-count trigger); otherwise,
   * the tolerance being negative, RTTMedianChanged follows the hop-count
   * trigger every time and the new median is cached. No reachability trigger
   * fires.
   */
  lemma ReachableComparison(oldResult: ProbeResult, oldCached: Option<real>, newResult: ProbeResult, now: int, interval: int)
    requires !IsStale(oldResult, newResult, now, interval)
    requires !HostUnreachable(oldResult.hops) && !HostUnreachable(newResult.hops)
    ensures CompareProbeStats(oldResult, oldCached, newResult, now, interval)
         == if HasReply(oldResult.hops) && HasReply(newResult.hops) then
              Comparison(HopsTriggers(oldResult, newResult) + [RttMedianChanged], Some(Median(Rtts(newResult.hops))), false)
            else
              Comparison(HopsTriggers(oldResult, newResult), None, true)
  {
    if HasReply(oldResult.hops) && HasReply(newResult.hops) {
      NegativeToleranceAlwaysChanged(oldResult, oldCached, newResult, RttTolerance);
    }
  }

  /** `dict.get` on the median cache. */
  function Lookup(cache: map<int, real>, prbId: int): Option<real>
  {
    if prbId in cache then Some(cache[prbId]) else None
  }

  /** The cache after storing a new result for `prbId`: its computed median, or none. */
  function CacheAfter(cache: map<int, real>, prbId: int, median: Option<real>): map<int, real>
  {
    if median.Some? then cache[prbId := median.value] else cache - {prbId}
  }

  /** The state after one or more results: triggers dispatched, history, cache, and whether it raised. */
  datatype Handled = Handled(emitted: seq<Trigger>, previous: map<int, ProbeResult>, cache: map<int, real>, raised: bool)

  /**
   * One iteration of `_handle_results`: compare with the previous result of
   * the same probe if there is one, validate the `from` fields, then store
   * the result as the previous one for its probe id (stale or not). When the
   * comparison raises, the loop is left before anything is stored.
   */
  function HandleResult(previous: map<int, ProbeResult>, cache: map<int, real>, r: ProbeResult, now: int, interval: int)
    : (h: Handled)
    ensures h.raised ==> h.previous == previous && h.cache == cache && r.prbId in previous
    ensures !h.raised ==> h.previous == previous[r.prbId := r]
    ensures forall id :: id != r.prbId ==> Lookup(h.cache, id) == Lookup(cache, id)
    ensures r.prbId !in previous ==> h.emitted == FromFieldTriggers(r)
    ensures forall i, j :: 0 <= i < j < |h.emitted| && IsFromFieldKind(h.emitted[i]) ==> IsFromFieldKind(h.emitted[j])
  {
    if r.prbId in previous then
      var c := CompareProbeStats(previous[r.prbId], Lookup(cache, r.prbId), r, now, interval);
      if c.raised then Handled(c.triggers, previous, cache, true)
      else
        FromFieldKindsLast(c.triggers, FromFieldTriggers(r));
        Handled(c.triggers + FromFieldTriggers(r), previous[r.prbId := r], CacheAfter(cache, r.prbId, c.cachedMedian), false)
    else
      Handled(FromFieldTriggers(r), previous[r.prbId := r], cache - {r.prbId}, false)
  }

  /** Comparison triggers followed by `from`-field triggers: once a `from`-field kind appears, only such kinds follow. */
  lemma FromFieldKindsLast(ts: seq<Trigger>, fs: seq<Trigger>)
    requires FromFieldDifferentInAttempts !in ts && FromFieldDifferentThanGeneral !in ts
    requires forall k :: 0 <= k < |fs| ==> IsFromFieldKind(fs[k])
    ensures forall i, j :: 0 <= i < j < |ts + fs| && IsFromFieldKind((ts + fs)[i]) ==> IsFromFieldKind((ts + fs)[j])
  {
    var e := ts + fs;
    forall i, j | 0 <= i < j < |e| && IsFromFieldKind(e[i]) ensures IsFromFieldKind(e[j]) {
      if i >= |ts| {
        assert e[j] == fs[j - |ts|];
      }
    }
  }

  /** `h` preceded by the triggers already dispatched. */
  function After(emitted: seq<Trigger>, h: Handled): Handled
  {
    h.(emitted := emitted + h.emitted)
  }

  /** `_handle_results` over a whole batch, in order, stopping at the first result that raises. */
  function HandleResultsSpec(previous: map<int, ProbeResult>, cache: map<int, real>, batch: seq<ProbeResult>, now: int, interval: int)
    : Handled
    decreases |batch|
  {
    if batch == [] then Handled([], previous, cache, false)
    else
      var h := HandleResult(previous, cache, batch[0], now, interval);
      if h.raised then h
      else After(h.emitted, HandleResultsSpec(h.previous, h.cache, batch[1..], now, interval))
  }

  /** Prefixing two runs of triggers one after the other is prefixing their concatenation. */
  lemma AfterAfter(first: seq<Trigger>, second: seq<Trigger>, h: Handled)
    ensures After(first, After(second, h)) == After(first + second, h)
  {
    assert first + (second + h.emitted) == (first + second) + h.emitted;
  }

  /** Every cached median belongs to a stored result and is that result's median. */
  ghost predicate CacheConsistent(previous: map<int, ProbeResult>, cache: map<int, real>)
  {
    forall id :: id in cache ==>
      id in previous && HasReply(previous[id].hops) && cache[id] == Median(Rtts(previous[id].hops))
  }

  /** Every stored result is stored under its own probe id. */
  ghost predicate KeyedById(previous: map<int, ProbeResult>)
  {
    forall id :: id in previous ==> previous[id].prbId == id
  }

  /** Handling one result keeps the history keyed by id and the cache consistent. */
  lemma HandleResultKeepsInvariant(previous: map<int, ProbeResult>, cache: map<int, real>, r: ProbeResult, now: int, interval: int)
    requires CacheConsistent(previous, cache) && KeyedById(previous)
    ensures var h := HandleResult(previous, cache, r, now, interval);
      CacheConsistent(h.previous, h.cache) && KeyedById(h.previous)
  {
    var h := HandleResult(previous, cache, r, now, interval);
    forall id | id in h.cache
      ensures id in h.previous && HasReply(h.previous[id].hops) && h.cache[id] == Median(Rtts(h.previous[id].hops))
    {
      if id != r.prbId {
        assert Lookup(h.cache, id) == Lookup(cache, id);
      }
    }
  }

  /** Handling a batch keeps the history keyed by id and the cache consistent. */
  lemma {:induction false} HandleResultsKeepsInvariant(previous: map<int, ProbeResult>, cache: map<int, real>, batch: seq<ProbeResult>, now: int, interval: int)
    requires CacheConsistent(previous, cache) && KeyedById(previous)
    ensures var h := HandleResultsSpec(previous, cache, batch, now, interval);
      CacheConsistent(h.previous, h.cache) && KeyedById(h.previous)
    decreases |batch|
  {
    if batch != [] {
      var h := HandleResult(previous, cache, batch[0], now, interval);
      HandleResultKeepsInvariant(previous, cache, batch[0], now, interval);
      if !h.raised {
        HandleResultsKeepsInvariant(h.previous, h.cache, batch[1..], now, interval);
      }
    }
  }

  /** A consistent cache gives the comparison it would give with nothing cached. */
  lemma CachedComparisonIsUncached(previous: map<int, ProbeResult>, cache: map<int, real>, r: ProbeResult, now: int, interval: int)
    requires CacheConsistent(previous, cache) && r.prbId in previous
    ensures CompareProbeStats(previous[r.prbId], Lookup(cache, r.prbId), r, now, interval)
         == CompareProbeStats(previous[r.prbId], None, r, now, interval)
  {
    var o := previous[r.prbId];
    if r.prbId in cache {
      assert HasReply(o.hops) && cache[r.prbId] == Median(Rtts(o.hops));
      CachedMedianIsTransparent(o, r, RttTolerance);
      ComparisonFollowsMedianOutcome(o, Lookup(cache, r.prbId), None, r, now, interval);
    }
  }

  /** The cached median reaches the comparison only through the median outcome. */
  lemma ComparisonFollowsMedianOutcome(oldResult: ProbeResult, cached: Option<real>, cached': Option<real>, newResult: ProbeResult, now: int, interval: int)
    requires CompareHopsMedian(oldResult, cached, newResult, RttTolerance) == CompareHopsMedian(oldResult, cached', newResult, RttTolerance)
    ensures CompareProbeStats(oldResult, cached, newResult, now, interval) == CompareProbeStats(oldResult, cached', newResult, now, interval)
  {
  }

  /**
   * The median cache is only a memo: with any two consistent caches, the empty
   * one included, a batch dispatches the same triggers, raises at the same
   * point and leaves the same history.
   */
  lemma {:induction false} CacheNeverChangesDispatch(previous: map<int, ProbeResult>, cache: map<int, real>, cache': map<int, real>,
                                                     batch: seq<ProbeResult>, now: int, interval: int)
    requires CacheConsistent(previous, cache) && CacheConsistent(previous, cache') && KeyedById(previous)
    ensures var h, h' := HandleResultsSpec(previous, cache, batch, now, interval), HandleResultsSpec(previous, cache', batch, now, interval);
      h.emitted == h'.emitted && h.raised == h'.raised && h.previous == h'.previous
    decreases |batch|
  {
    if batch != [] {
      var r := batch[0];
      var h, h' := HandleResult(previous, cache, r, now, interval), HandleResult(previous, cache', r, now, interval);
      if r.prbId in previous {
        CachedComparisonIsUncached(previous, cache, r, now, interval);
        CachedComparisonIsUncached(previous, cache', r, now, interval);
      }
      assert h.emitted == h'.emitted && h.raised == h'.raised && h.previous == h'.previous;
      HandleResultKeepsInvariant(previous, cache, r, now, interval);
      HandleResultKeepsInvariant(previous, cache', r, now, interval);
      if !h.raised {
        CacheNeverChangesDispatch(h.previous, h.cache, h'.cache, batch[1..], now, interval);
      }
    }
  }

  /**
   * A stale repeat is exempt only from the comparison: its from-field
   * triggers are still dispatched, it is still stored, and the median cached
   * for the probe is dropped.
   */
  lemma StaleRepeatValidatedAndStored(previous: map<int, ProbeResult>, cache: map<int, real>, r: ProbeResult, now: int, interval: int)
    requires r.prbId in previous && IsStale(previous[r.prbId], r, now, interval)
    ensures HandleResult(previous, cache, r, now, interval)
         == Handled(FromFieldTriggers(r), previous[r.prbId := r], cache - {r.prbId}, false)
  {
  }

  /** History and cache entries of probes absent from the batch are untouched. */
  lemma {:induction false} HandleResultsKeepsOthers(previous: map<int, ProbeResult>, cache: map<int, real>, batch: seq<ProbeResult>, now: int, interval: int, id: int)
    requires forall k :: 0 <= k < |batch| ==> batch[k].prbId != id
    ensures var h := HandleResultsSpec(previous, cache, batch, now, interval);
      && (id in h.previous <==> id in previous)
      && (id in previous ==> h.previous[id] == previous[id])
      && Lookup(h.cache, id) == Lookup(cache, id)
    decreases |batch|
  {
    if batch != [] {
      var h := HandleResult(previous, cache, batch[0], now, interval);
      if !h.raised {
        HandleResultsKeepsOthers(h.previous, h.cache, batch[1..], now, interval, id);
      }
    }
  }

  /**
   * After a batch that did not raise, each probe's stored result is the last
   * result for it in the batch, even when that result was stale.
   */
  lemma {:induction false} HandleResultsStoresLast(previous: map<int, ProbeResult>, cache: map<int, real>, batch: seq<ProbeResult>, now: int, interval: int, k: nat)
    requires k < |batch|
    requires forall m :: k < m < |batch| ==> batch[m].prbId != batch[k].prbId
    ensures var h := HandleResultsSpec(previous, cache, batch, now, interval);
      !h.raised ==> batch[k].prbId in h.previous && h.previous[batch[k].prbId] == batch[k]
    decreases |batch|
  {
    var h := HandleResult(previous, cache, batch[0], now, interval);
    if !h.raised {
      if k == 0 {
        HandleResultsKeepsOthers(h.previous, h.cache, batch[1..], now, interval, batch[0].prbId);
      } else {
        HandleResultsStoresLast(h.previous, h.cache, batch[1..], now, interval, k - 1);
      }
    }
  }

  /**
   * The comparator's state: the latest result per probe id and the median
   * cached on it (`__rtt_median` on the stored result).
   */
  class RipeAtlasPolling {
    var previous: map<int, ProbeResult>
    var medianCache: map<int, real>

    ghost predicate Valid()
      reads this
    {
      CacheConsistent(previous, medianCache) && KeyedById(previous)
    }

    constructor()
      ensures Valid() && previous == map[] && medianCache == map[]
    {
      previous := map[];
      medianCache := map[];
    }

    /**
     * One iteration of the `_handle_results` loop: compare with the stored
     * result of the same probe, validate the `from` fields, store the result.
     * When the comparison raises, nothing is stored.
     */
    method HandleResultStep(r: ProbeResult, now: int, interval: int) returns (triggers: seq<Trigger>, raised: bool)
      modifies this
      ensures HandleResult(old(previous), old(medianCache), r, now, interval) == Handled(triggers, previous, medianCache, raised)
    {
      triggers, raised := [], false;
      var cached: Option<real> := None;
      if r.prbId in previous {
        var c := CompareProbeStats(previous[r.prbId], Lookup(medianCache, r.prbId), r, now, interval);
        triggers := c.triggers;
        if c.raised {
          raised := true;
          return;
        }
        cached := c.cachedMedian;
      }
      triggers := triggers + FromFieldTriggers(r);
      previous := previous[r.prbId := r];
      medianCache := CacheAfter(medianCache, r.prbId, cached);
    }

    /**
     * `_handle_results`: returns the trigger kinds dispatched, in order, and
     * whether the batch was cut short by an exception.
     */
    method HandleResults(batch: seq<ProbeResult>, now: int, interval: int) returns (emitted: seq<Trigger>, raised: bool)
      requires Valid()
      modifies this
      ensures var h := HandleResultsSpec(old(previous), old(medianCache), batch, now, interval);
        emitted == h.emitted && raised == h.raised && previous == h.previous && medianCache == h.cache
      ensures Valid()
    {
      ghost var spec := HandleResultsSpec(previous, medianCache, batch, now, interval);
      HandleResultsKeepsInvariant(previous, medianCache, batch, now, interval);
      emitted, raised := [], false;
      var i := 0;
      while i < |batch|
        invariant 0 <= i <= |batch|
        invariant spec == After(emitted, HandleResultsSpec(previous, medianCache, batch[i..], now, interval))
      {
        assert batch[i..][0] == batch[i] && batch[i..][1..] == batch[i + 1..];
        ghost var before := emitted;
        ghost var h := HandleResult(previous, medianCache, batch[i], now, interval);
        ghost var rest := HandleResultsSpec(h.previous, h.cache, batch[i + 1..], now, interval);
        assert HandleResultsSpec(previous, medianCache, batch[i..], now, interval)
            == if h.raised then h else After(h.emitted, rest);
        var triggers;
        triggers, raised := HandleResultStep(batch[i], now, interval);
        emitted := emitted + triggers;
        if raised {
          return;
        }
        AfterAfter(before, triggers, rest);
        i := i + 1;
      }
    }
  }

  /** The outcome of `_validate_from_fields` as written: the kinds dispatched, or a NameError. */
  datatype Validation = Validated(triggers: seq<Trigger>) | NameErrorRaised

  /**
   * `_validate_from_fields` exactly as written: building either payload reads
   * `payload_base`, a local of `_compare_probe_stats` that is not bound here,
   * so each branch that would dispatch raises NameError instead.
   */
  function ValidateFromFieldsAsWritten(r: ProbeResult): (v: Validation)
    ensures v.NameErrorRaised? ==> !HostUnreachable(r.hops)
  {
    if HostUnreachable(r.hops) then Validated([])
    else
      var froms := Froms(r.hops);
      if |froms| != 1 then NameErrorRaised
      else if froms - {r.dstAddr} != {} then NameErrorRaised
      else Validated([])
  }

  /** As written, no from-field trigger is ever dispatched: exactly where one is due, NameError is raised. */
  lemma AsWrittenRaisesInsteadOfDispatching(r: ProbeResult)
    ensures ValidateFromFieldsAsWritten(r) == if FromFieldTriggers(r) == [] then Validated([]) else NameErrorRaised
  {
  }

  /** A reply from a router other than `dst_addr`: the intended trigger, and the NameError as written. */
  lemma AsWrittenCounterexample()
    ensures var r := ProbeResult(1, 100, "192.0.2.2", [Hop([Reply("192.0.2.1", 12.0)])]);
      && ValidateFromFieldsAsWritten(r) == NameErrorRaised
      && FromFieldTriggers(r) == [FromFieldDifferentThanGeneral]
  {
    var r := ProbeResult(1, 100, "192.0.2.2", [Hop([Reply("192.0.2.1", 12.0)])]);
    assert r.hops[0].attempts[0].Reply? && r.hops[0].attempts[0].from == "192.0.2.1";
    assert "192.0.2.1" in Froms(r.hops);
    assert Froms(r.hops) == {"192.0.2.1"};
    assert "192.0.2.1" != "192.0.2.2";
  }
}
