# stackstorm-atlas core, modelled in Dafny

This project models the two stateful sensors of the RIPE Atlas StackStorm
pack and proves properties of the model.

- **`RIPEAtlasPolling`** (`sensors/ripe_atlas_polling.py`) keeps the
  latest traceroute result of every probe. For each new batch of results
  it decides which triggers fire and in what order. The checks are: a
  change in the number of hops, a host that became (un)reachable, a change
  of the RTT median, and `from` addresses that disagree with each other or
  with `dst_addr`. A repeated result is exempt from the comparison checks
  while the next measurement is not yet due, but its `from` fields are
  still validated and it is still stored. The median of the new result is cached on it
  (`__rtt_median`).
  Files: `atlas_polling.dfy` (module `AtlasPolling`, class
  `RipeAtlasPolling`) and `statistics.dfy` (module `Statistics`, the
  `median` helper).
- **`ProbesDiscoSensor`** (`sensors/probes_disco_sensor.py`) seeds a status
  per probe from the probe inventory. It also seeds one table per address
  family, mapping each ASN to `{status: set of probe ids}`. A connect or
  disconnect event sets the probe's stored status. Only a disconnect can
  move a probe id between the Connected and Disconnected sets, and only
  under its IPv4 ASN; every other table lookup the events make uses a
  literal key that no table holds and raises `KeyError`. Only a
  connect/disconnect event whose update completes is dispatched, as
  `atlas.probes_disco` with trace tag `"{prb_id}-{event}-{timestamp}"`.
  Files: `probes_disco.dfy` (module `ProbesDisco`, class
  `ProbesDiscoSensor`) and `decimal.dfy` (module `Decimal`, Python's `str`
  of an integer, used in the trace tag).
- `wrappers.dfy` holds the `Option` type.

Each class keeps the sensor's dictionaries as `map` fields. Its methods
update them in place. Each method is proved equal to a specification
function over values: `HandleResultsSpec`, `Seed`, `ApplyUpdate` and
`Respond`. The lemmas are stated about those functions. Python exceptions
are results, not preconditions. `median([])` raises `IndexError`. A missing
key raises `KeyError`. `None["status"]` raises `TypeError`. When an
exception is raised part-way, the state is what the source leaves behind.
The one exception is the NameError of `_validate_from_fields` (see
Findings): the batch model dispatches the intended from-field triggers
there instead, as recorded under "## Left out".

Behaviours of the code worth knowing, all reproduced by the model:

- Only status codes 1 and 2 are known (`probes_disco_sensor.py:10-13`).
  Any other code raises `KeyError` at line 58, and the records seeded
  before it stay in place.
- The reachability trigger names are swapped relative to their meaning
  (`ripe_atlas_polling.py:101-109`). `atlas.HostPartiallyReachable` fires
  when the new result is unreachable and the old one was not.
  `atlas.HostPartiallyUnreachable` fires in the opposite case.
- The RTT tolerance is -10 (`ripe_atlas_polling.py:27`). This makes the
  accepted interval at lines 170-172 empty, so `atlas.RTTMedianChanged`
  fires on every comparison that computes medians.
- A stale repeat returns early from the comparison (lines 77-83), but it
  is still stored as the probe's latest result (line 65).
- The median is cached on the new result (line 168), not the old one. The
  old median is recomputed even when it is cached, because it is the
  default argument of `dict.get` (lines 160-163). An old result without
  replies therefore raises even when a median is cached.
- Seeding writes a probe with a new IPv6 ASN into the IPv6 table under its
  IPv4 ASN (`probes_disco_sensor.py:70`). Three of the four event branches
  look up the ASN tables under the literal strings `"asn_v6"` (line 114)
  and `"asn_v4"`/`"asn_v6"` (lines 121, 126). No table holds those keys, so
  the lookup raises `KeyError`. Table keys are therefore modelled as
  `Asn(n) | Literal(s)`.

## Model

| member | source | states |
|---|---|---|
| Statistics.ConsSorted | sensors/ripe_atlas_polling.py:204 | putting a lower bound in front of an ascending list keeps it ascending |
| Statistics.LowerBoundOfPermutation | sensors/ripe_atlas_polling.py:204 | a lower bound of a list's values bounds every rearrangement of them |
| Statistics.InsertSorted | sensors/ripe_atlas_polling.py:204 | inserting into an ascending list keeps it ascending and adds exactly the inserted value |
| Statistics.Sort | sensors/ripe_atlas_polling.py:204 | `sorted(array)`: the result is ascending and is a permutation of the input |
| Statistics.Middle | sensors/ripe_atlas_polling.py:205-208 | defined as the element at `len // 2` of a sorted list for an odd length, and otherwise the mean of the elements at `len // 2 - 1` and `len // 2` |
| Statistics.SortedUnique | sensors/ripe_atlas_polling.py:204 | two ascending arrangements of the same values are equal, so the sorted list is determined by the values |
| Statistics.Median | sensors/ripe_atlas_polling.py:200-208 | `median` of a non-empty list; for an odd count the result is one of the input values |
| Statistics.MedianOfSorted | sensors/ripe_atlas_polling.py:204-208 | the median is the middle element (odd count) or the mean of the two middle elements (even count) of any ascending arrangement of the values |
| Statistics.MedianPermutationInvariant | sensors/ripe_atlas_polling.py:200-208 | the median does not depend on the order of its input |
| Statistics.MedianOddCount | sensors/ripe_atlas_polling.py:205-207 | odd count: the median is the sorted element at index `len // 2` |
| Statistics.MedianEvenCount | sensors/ripe_atlas_polling.py:205-208 | even count: the median is the mean of the sorted elements at `len // 2 - 1` and `len // 2` |
| Statistics.MedianExampleOdd | sensors/ripe_atlas_polling.py:200-208 | 10, 20, 30 in any order have median 20 |
| Statistics.MedianExampleEven | sensors/ripe_atlas_polling.py:200-208 | 10, 20, 30, 40 in any order have median 25 |
| AtlasPolling.TriggerName | sensors/ripe_atlas_polling.py:11-16 | every trigger kind is dispatched under a reference in the `atlas.` pack |
| AtlasPolling.HostUnreachable | sensors/ripe_atlas_polling.py:146-154 | a result is unreachable iff some hop's attempt list contains the timeout marker `{"x": "*"}` |
| AtlasPolling.AttemptRtts | sensors/ripe_atlas_polling.py:161-166 | the RTTs of one hop's attempts are non-empty iff some attempt is a reply |
| AtlasPolling.Rtts | sensors/ripe_atlas_polling.py:161-166 | the RTT list the median is taken of is non-empty iff some attempt of some hop is a reply |
| AtlasPolling.Froms | sensors/ripe_atlas_polling.py:128-130 | defined as the set of `from` values of every reply of every hop |
| AtlasPolling.FromFieldTriggers | sensors/ripe_atlas_polling.py:122-144 | nothing for an unreachable result; otherwise FromFieldDifferentInAttempts iff the set of `from` values is not a singleton, and FromFieldDifferentThanGeneral iff some `from` differs from `dst_addr`; at most two, both from-field kinds |
| AtlasPolling.FromFieldsAllFromDestination | sensors/ripe_atlas_polling.py:128-144 | a reachable result whose replies all come from `dst_addr` raises no from-field trigger |
| AtlasPolling.FromFieldStrangerDetected | sensors/ripe_atlas_polling.py:138-144 | one reply from an address other than `dst_addr` raises FromFieldDifferentThanGeneral |
| AtlasPolling.FromFieldTwoResponders | sensors/ripe_atlas_polling.py:128-144 | two replies from different addresses raise both from-field triggers, in source order |
| AtlasPolling.FromFieldNoAttempts | sensors/ripe_atlas_polling.py:128-136 | a result without attempts has an empty `from` set and raises only FromFieldDifferentInAttempts |
| AtlasPolling.CompareHopsMedian | sensors/ripe_atlas_polling.py:156-175 | raises iff either RTT list is empty, because the old median is evaluated even when cached; otherwise the new median is the median of the new RTTs, the old one is the cached value or the recomputed median, and "changed" holds iff the new median is outside [old - tolerance, old + tolerance] |
| AtlasPolling.CachedMedianIsTransparent | sensors/ripe_atlas_polling.py:160-163 | caching the old result's own median gives the same outcome as recomputing it |
| AtlasPolling.NegativeToleranceAlwaysChanged | sensors/ripe_atlas_polling.py:27 | with a negative tolerance, every comparison that computes both medians reports a change |
| AtlasPolling.NonNegativeToleranceWithin | sensors/ripe_atlas_polling.py:170-175 | with a non-negative tolerance, the medians are "within" iff they differ by at most the tolerance |
| AtlasPolling.IsStale | sensors/ripe_atlas_polling.py:72-79 | defined as: the new result carries the previous `stored_timestamp`, and `stored_timestamp + interval + 10` is still later than `now` |
| AtlasPolling.CompareProbeStats | sensors/ripe_atlas_polling.py:67-120 | a stale repeat (same `stored_timestamp`, and `stored_timestamp + interval + 10 > now`) yields nothing; no from-field kind is ever produced here; a cached median is the new result's median |
| AtlasPolling.HopsTriggers | sensors/ripe_atlas_polling.py:89-93 | the hop-count check yields nothing or a single HopsNumberChanged, and the latter iff the hop counts differ |
| AtlasPolling.ReachabilityTriggers | sensors/ripe_atlas_polling.py:101-109 | HostPartiallyReachable iff the new result is unreachable and the old is not; HostPartiallyUnreachable iff the old is unreachable and the new is not |
| AtlasPolling.HopsChangedExactlyOnce | sensors/ripe_atlas_polling.py:89-93 | for a fresh result, HopsNumberChanged occurs exactly once iff the hop counts differ, and never otherwise |
| AtlasPolling.HopsCount | sensors/ripe_atlas_polling.py:89-93 | the hop-count check contributes one HopsNumberChanged iff the hop counts differ, and none otherwise |
| AtlasPolling.UnreachableComparison | sensors/ripe_atlas_polling.py:96-110 | if either result is unreachable, nothing is raised, nothing is cached, no RTT trigger fires, and the reachability triggers depend only on the two flags |
| AtlasPolling.ReachableComparison | sensors/ripe_atlas_polling.py:112-120 | if both results are reachable, the comparison is exactly this. When both have a reply, it gives the hop-count trigger, then RTTMedianChanged, and caches the new median. Otherwise it raises after the hop-count trigger and caches nothing |
| AtlasPolling.CountUnaffectedBySuffix | sensors/ripe_atlas_polling.py:89-120 | the triggers after the hop-count check do not change the count of HopsNumberChanged |
| AtlasPolling.HandleResult | sensors/ripe_atlas_polling.py:55-65 | one result: if the comparison raises, nothing is stored and the probe was known; otherwise the result is stored under its id; other probes' cache entries are unchanged; a first-seen result yields only its from-field triggers; from-field triggers come after all comparison triggers. The from-field triggers are the intended ones, not the NameError the code raises (see "## Left out") |
| AtlasPolling.FromFieldKindsLast | sensors/ripe_atlas_polling.py:55-63 | comparison triggers followed by from-field triggers keep every from-field kind after every other kind |
| AtlasPolling.AfterAfter | sensors/ripe_atlas_polling.py:55-65 | triggers dispatched by successive results concatenate in order |
| AtlasPolling.HandleResultsSpec | sensors/ripe_atlas_polling.py:51-65 | defined as the batch loop over values: `HandleResult` on each result in order, each run of triggers appended after the previous ones, stopping with the state of the first result that raises |
| AtlasPolling.HandleResultKeepsInvariant | sensors/ripe_atlas_polling.py:55-65 | one result keeps the history keyed by probe id, and keeps every cached median equal to the median of the stored result it belongs to |
| AtlasPolling.HandleResultsKeepsInvariant | sensors/ripe_atlas_polling.py:51-65 | a whole batch keeps the same invariant |
| AtlasPolling.HandleResultsKeepsOthers | sensors/ripe_atlas_polling.py:55-65 | probes absent from the batch keep their stored result and cached median |
| AtlasPolling.HandleResultsStoresLast | sensors/ripe_atlas_polling.py:65 | after a batch that did not raise, each probe's stored result is its last result in the batch, even a stale one |
| AtlasPolling.StaleRepeatValidatedAndStored | sensors/ripe_atlas_polling.py:55-65 | a stale repeat of a stored result gets no comparison trigger, but its from-field triggers are still dispatched, it replaces the stored result, and its cache entry is dropped |
| AtlasPolling.CachedComparisonIsUncached | sensors/ripe_atlas_polling.py:57-59 | with a consistent cache, comparing with the cached median gives the same outcome as comparing with nothing cached, because the `__rtt_median` memo (line 160) holds the stored result's own median |
| AtlasPolling.ComparisonFollowsMedianOutcome | sensors/ripe_atlas_polling.py:115-120 | the cached median reaches `_compare_probe_stats` only through the outcome of `_compare_hops_median`: equal outcomes give equal comparisons |
| AtlasPolling.CacheNeverChangesDispatch | sensors/ripe_atlas_polling.py:51-65 | for any two consistent caches, the empty one included, a batch dispatches the same triggers, raises at the same point and leaves the same history: the memo `HandleResults` keeps consistent never changes behaviour |
| AtlasPolling.RipeAtlasPolling.constructor | sensors/ripe_atlas_polling.py:33 | the sensor starts with no history and no cached medians |
| AtlasPolling.RipeAtlasPolling.HandleResults | sensors/ripe_atlas_polling.py:51-65 | the loop dispatches exactly the trigger kinds of the batch specification, in order; it stops at the first exception, and the new history and cache are the specification's. It keeps the cache consistent, so `CacheNeverChangesDispatch` applies to every batch it handles. Like `HandleResult`, it uses the intended from-field triggers (see "## Left out") |
| AtlasPolling.RipeAtlasPolling.HandleResultStep | sensors/ripe_atlas_polling.py:55-65 | one iteration of the loop leaves exactly the triggers, history, cache and exception of `HandleResult` |
| AtlasPolling.ValidateFromFieldsAsWritten | sensors/ripe_atlas_polling.py:122-144 | as written, NameError is raised only for a reachable result |
| AtlasPolling.AsWrittenRaisesInsteadOfDispatching | sensors/ripe_atlas_polling.py:132-144 | as written, NameError is raised exactly where a from-field trigger is due, so none is ever dispatched |
| AtlasPolling.AsWrittenCounterexample | sensors/ripe_atlas_polling.py:138-144 | a single reply from 192.0.2.1 to `dst_addr` 192.0.2.2: NameError as written, FromFieldDifferentThanGeneral as intended |
| Decimal.DigitChar | sensors/probes_disco_sensor.py:152-153 | a digit below 10 renders as the decimal digit character of that value |
| Decimal.NatToString | sensors/probes_disco_sensor.py:152-153 | a non-negative integer renders as a non-empty string of digits |
| Decimal.IntToString | sensors/probes_disco_sensor.py:152-153 | `str(n)` is non-empty, starts with '-' iff `n` is negative, and is digits after that |
| Decimal.NatToStringRoundTrip | sensors/probes_disco_sensor.py:152-153 | reading the rendered digits back gives the number |
| Decimal.IntToStringInjective | sensors/probes_disco_sensor.py:152-153 | distinct integers render as distinct strings |
| ProbesDisco.StatusOf | sensors/probes_disco_sensor.py:10-13 | `STATUS_MAP`: 1 is Connected, 2 is Disconnected, every other code is a KeyError |
| ProbesDisco.AddId | sensors/probes_disco_sensor.py:63 | `setdefault(status, set()).add(id)` adds the id under that status, adds the status key if missing, and leaves the other statuses alone |
| ProbesDisco.SeedFamily | sensors/probes_disco_sensor.py:62-70 | ASN 0 changes nothing; at most the given fresh key is added; no entry becomes empty; when the fresh key is the ASN itself (the IPv4 branch), the id ends up under that ASN and status, and every existing key and membership is kept |
| ProbesDisco.SeedFamilyKeeps | sensors/probes_disco_sensor.py:62-65 | seeding one family under the probe's own ASN keeps every existing membership |
| ProbesDisco.SeedRecord | sensors/probes_disco_sensor.py:58-70 | one inventory record fails iff its status code is unknown; otherwise the probe is recorded with its ASNs and mapped status |
| ProbesDisco.Seed | sensors/probes_disco_sensor.py:57-70 | defined as the seeding loop over values: `SeedRecord` on each inventory record in order, stopping with the tracker built so far and `ok = false` at the first unknown status code |
| ProbesDisco.SeedUnfold | sensors/probes_disco_sensor.py:57-58 | seeding stops at a first record with an unknown status and otherwise continues from the tracker that record leaves |
| ProbesDisco.SeedOkIffKnownStatuses | sensors/probes_disco_sensor.py:57-58 | seeding completes iff every status code is 1 or 2 |
| ProbesDisco.SeedKeepsOtherProbes | sensors/probes_disco_sensor.py:57-60 | probes absent from the inventory keep their records |
| ProbesDisco.SeedRecordsEveryProbe | sensors/probes_disco_sensor.py:57-60 | after a successful seeding, every inventory probe is recorded with its ASNs and mapped status; for a repeated id the last record wins |
| ProbesDisco.SeedAttachesV4 | sensors/probes_disco_sensor.py:62-65 | after a successful seeding, every probe with a non-zero IPv4 ASN is in that ASN's set for its status |
| ProbesDisco.SeedKeepsV4 | sensors/probes_disco_sensor.py:62-65 | IPv4 memberships survive the rest of the seeding |
| ProbesDisco.SeedSkipsZeroV4 | sensors/probes_disco_sensor.py:62-65 | seeding never creates an entry for IPv4 ASN 0 |
| ProbesDisco.SeedV6AsWritten | sensors/probes_disco_sensor.py:67-70 | a probe with a non-zero IPv6 ASN joins that ASN's existing non-empty entry; otherwise it overwrites the entry of its IPv4 ASN with `{status: {id}}` and leaves its own IPv6 ASN unattached |
| ProbesDisco.SeedV6Example | sensors/probes_disco_sensor.py:67-70 | probe 1 with IPv4 ASN 100 and IPv6 ASN 200 lands in the IPv6 table under 100, not 200 |
| ProbesDisco.SeedRecordKeepsInvariant | sensors/probes_disco_sensor.py:58-70 | one record keeps the tables keyed by ASN numbers only, keeps every entry non-empty, and keeps records under their own ids |
| ProbesDisco.SeedKeepsInvariant | sensors/probes_disco_sensor.py:57-70 | the whole seeding keeps the same invariant |
| ProbesDisco.Move | sensors/probes_disco_sensor.py:109-112 | `remove` then `add` under one key: completes iff the key exists and the id is in the source set; the table's keys and other entries are unchanged; on completion the id leaves the source set and joins the destination set, and their union is unchanged; on failure no membership changes, and only the empty source set may have been inserted |
| ProbesDisco.MoveIfSet | sensors/probes_disco_sensor.py:108-117 | the `if asn:` guard keeps the table's keys and never empties an entry |
| ProbesDisco.Transition | sensors/probes_disco_sensor.py:106-129 | defined as one status-change branch: set the stored status to the target, move the id between the two status sets under the IPv4 key if the IPv4 ASN is set, stop with KeyError if that fails, then do the same under the IPv6 key |
| ProbesDisco.ApplyUpdate | sensors/probes_disco_sensor.py:100-135 | TypeError iff the event is connect/disconnect for an unknown probe, and then nothing changes; a connect/disconnect that completes leaves the probe recorded with the matching status; other probes' records are untouched |
| ProbesDisco.RepeatedEventIsNoOp | sensors/probes_disco_sensor.py:106-135 | a disconnect for a probe that is not Connected, or a connect for one that is not Disconnected, changes nothing |
| ProbesDisco.DisconnectTwiceIsIdempotent | sensors/probes_disco_sensor.py:106-135 | replaying a disconnect that completed changes nothing |
| ProbesDisco.DisconnectMovesV4 | sensors/probes_disco_sensor.py:106-117 | a disconnect for a Connected probe whose id is in its IPv4 ASN's Connected set moves the id from Connected to Disconnected under that ASN; the union of the two sets, the other ASNs, the IPv6 table and the other probes are unchanged; the error is KeyError iff the event also carries an IPv6 ASN (the literal "asn_v6" lookup after the move), and none otherwise |
| ProbesDisco.DisconnectV4KeyError | sensors/probes_disco_sensor.py:106-112 | an IPv4 ASN with no entry, or an id missing from its Connected set, raises KeyError after the status is already Disconnected; no membership changes |
| ProbesDisco.DisconnectV6KeyError | sensors/probes_disco_sensor.py:106-117 | a disconnect for a Connected probe with an IPv6 ASN always ends in KeyError: at the IPv4 move if that fails, otherwise at the literal key "asn_v6"; the status is Disconnected and the IPv6 table is unchanged |
| ProbesDisco.ConnectAsWritten | sensors/probes_disco_sensor.py:118-129 | a connect for a Disconnected probe sets it Connected; it raises KeyError iff either ASN is set, and neither table changes |
| ProbesDisco.ApplyUpdateKeepsInvariant | sensors/probes_disco_sensor.py:100-135 | events keep the tracker invariant |
| ProbesDisco.TransitionKeepsInvariant | sensors/probes_disco_sensor.py:106-129 | a status-change branch keeps the tracker invariant, including when it raises part-way |
| ProbesDisco.SplitAtFirstDash | sensors/probes_disco_sensor.py:152-153 | a '-'-joined pair splits back uniquely when the left part has no '-' |
| ProbesDisco.NoDashInNonNegative | sensors/probes_disco_sensor.py:152-153 | a non-negative integer renders without a '-' |
| ProbesDisco.NoDashInEventKind | sensors/probes_disco_sensor.py:152-153 | neither "connect" nor "disconnect" contains a '-' |
| ProbesDisco.TraceTag | sensors/probes_disco_sensor.py:151-152 | defined as `str(prb_id)`, a dash, the event, a dash and `str(timestamp)` |
| ProbesDisco.TraceTagInjective | sensors/probes_disco_sensor.py:152-153 | for non-negative ids and timestamps and the two event kinds, equal trace tags mean equal events |
| ProbesDisco.Respond | sensors/probes_disco_sensor.py:137-155 | the state after a response is the state after the update |
| ProbesDisco.RespondDispatches | sensors/probes_disco_sensor.py:137-155 | any other event kind raises (unbound locals); a connect/disconnect is dispatched iff its update did not raise, as `atlas.probes_disco` with its trace tag and the probe's stored record, whose status matches the event |
| ProbesDisco.ProbesDiscoSensor.constructor | sensors/probes_disco_sensor.py:25-27 | the sensor starts with three empty dictionaries |
| ProbesDisco.ProbesDiscoSensor.CreateStateDicts | sensors/probes_disco_sensor.py:57-70 | the loop leaves exactly the state of `Seed`, and reports whether it stopped at an unknown status code |
| ProbesDisco.ProbesDiscoSensor.AddInventoryRecord | sensors/probes_disco_sensor.py:58-70 | one iteration of the seeding loop for a known status leaves exactly the tracker of `SeedRecord` |
| ProbesDisco.ProbesDiscoSensor.ChangeStatus | sensors/probes_disco_sensor.py:106-129 | one status-change branch leaves exactly the state and error of `Transition` |
| ProbesDisco.ProbesDiscoSensor.UpdateProbeStatus | sensors/probes_disco_sensor.py:100-135 | the method leaves exactly the state and error of `ApplyUpdate` |
| ProbesDisco.ProbesDiscoSensor.OnResultResponse | sensors/probes_disco_sensor.py:137-155 | the method leaves exactly the state and response of `Respond` |

## Left out

- AtlasPolling.HandleResult: like `HandleResultsSpec` and `RipeAtlasPolling.HandleResults` built on it, it dispatches `FromFieldTriggers` where the code as written raises NameError on `payload_base` (`ripe_atlas_polling.py:136`, `:144`). In the code that exception escapes `_handle_results`, aborting the batch before line 65 stores the result. For a reachable result with more than one `from` address or a `from` other than `dst_addr`, the batch model therefore continues where the code stops. The as-written behaviour is modelled separately by `ValidateFromFieldsAsWritten` (see Findings).
- Network and process I/O are not modelled: `setup`, `poll`, `run`, `cleanup`, `AtlasLatestRequest`, `requests.get`, `AtlasStream`, and the `sensor_service` calls. A dispatch is a returned value, and the polling sensor returns trigger kinds. `TriggerName` gives each kind's reference.
- The clock and the measurement interval are parameters (`now`, `interval`). One `now` serves the whole batch, whereas the code reads the clock once per compared result (`ripe_atlas_polling.py:75`), so a batch that straddles a clock tick is not modelled. `ingore_stale_results` is always True, as at its only call site.
- Logging is not modelled. This includes the batch-size mismatch warning at `ripe_atlas_polling.py:52-54`.
- The empty stubs are not modelled: `_handle_atlas_error`, `add_trigger`, `update_trigger`, `remove_trigger` and `cleanup`.
- Trigger payload contents are not modelled. This covers `datetime.now()` and the misspelled key `"new_hself.ops_median"`.
- RTTs are exact `real`s, so Python float rounding in the median mean is not modelled.
- An attempt is either a reply with `from` and `rtt`, or exactly the marker `{"x": "*"}`. Other shapes are not modelled, such as `{"err": ...}`, a late reply, or a marker with extra fields. In the source they would raise `KeyError` on `from`/`rtt`. A hop without a `result` key is left out for the same reason.
- Only inventory fields 0, 1, 2 and 12 are modelled. A `None` ASN in an event is modelled as 0, which the source treats the same way.
- An event without a `probe` record, and so raising `KeyError` before any change, is not modelled.
- The median cache is a map beside the history, not a key on the stored result. Stored results are values, so aliasing between the batch and the history is not modelled.
- `ProbesDisco.ProbesDiscoSensor.ChangeStatus` gathers the two status-change branches of `_update_probe_status`, which the source writes out twice with different keys. `ProbesDisco.ProbesDiscoSensor.AddInventoryRecord` and `AtlasPolling.RipeAtlasPolling.HandleResultStep` are the bodies of the source's two loops, written as methods of their own.
- `sensors/ping_streaming_sensor.py` and `actions/get_measurement_result.py` are not part of this model.

## Findings

| source | as written | input that shows it | evidently intended | confidence | as-written member | corrected member |
|---|---|---|---|---|---|---|
| sensors/ripe_atlas_polling.py:132-144 | `_validate_from_fields` builds both payloads from `payload_base`, a local of `_compare_probe_stats` that is unbound here, so it raises NameError whenever a from-field trigger is due. That aborts `_handle_results` before the result is stored. | a reachable result with one reply from 192.0.2.1 and `dst_addr` 192.0.2.2 | dispatch FromFieldDifferentThanGeneral (or FromFieldDifferentInAttempts) and carry on; this corrected behaviour is the one `HandleResult` and the batch model use | high, not executed | AtlasPolling.ValidateFromFieldsAsWritten | AtlasPolling.FromFieldTriggers |
