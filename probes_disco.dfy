/**
 * The probe connect/disconnect tracker of sensors/probes_disco_sensor.py
 * (class ProbesDiscoSensor). It seeds a status per probe and, per ASN, a
 * table `{status: set of probe ids}` for IPv4 and for IPv6 from the probe
 * inventory, then updates the stored status as stream events arrive. Only a
 * disconnect can move a probe id between the Connected and Disconnected
 * sets, and only under its IPv4 ASN. A connect or disconnect event is
 * dispatched only when its update completes.
 *
 * The model keeps the source's defects: the IPv6 table is seeded under the
 * IPv4 ASN when the IPv6 ASN is new, and three of the four event branches
 * index the tables by the literal strings "asn_v4"/"asn_v6" (a key no table
 * ever holds), which raises KeyError. Exceptions are results, with the state
 * as the source leaves it when the exception is raised part-way.
 */
module ProbesDisco {
  import opened Wrappers
  import opened Decimal

  datatype Status = Connected | Disconnected

  /** `STATUS_MAP[code]`: 1 is Connected, 2 is Disconnected, anything else is a KeyError (None). */
  function StatusOf(code: int): (s: Option<Status>)
    ensures s == Some(Connected) <==> code == 1
    ensures s == Some(Disconnected) <==> code == 2
    ensures s.None? <==> code != 1 && code != 2
  {
    if code == 1 then Some(Connected) else if code == 2 then Some(Disconnected) else None
  }

  /** A key of an ASN table: an ASN number, or the literal string some branches index with. */
  datatype AsnKey = Asn(number: int) | Literal(name: string)

  /** The `{status: set(probe ids)}` dictionary of one ASN. */
  type StatusSets = map<Status, set<int>>

  /** `_ases_v4_state` / `_ases_v6_state`. */
  type AsnTable = map<AsnKey, StatusSets>

  /** A `_probes_state` record. */
  datatype ProbeState = ProbeState(prbId: int, asnV4: int, asnV6: int, status: Status)

  /** The inventory fields the tracker reads: `p[0]`, `p[1]`, `p[2]` and `p[12]` (ASNs 0 when absent). */
  datatype InventoryRecord = InventoryRecord(id: int, asnV4: int, asnV6: int, statusCode: int)

  /**
   * A stream event: `prb_id`, `event`, the `asn_v4`/`asn_v6` of its `probe`
   * record (0 for None, which the source treats the same way) and `timestamp`.
   */
  datatype ProbeUpdate = ProbeUpdate(prbId: int, event: string, asnV4: int, asnV6: int, timestamp: int)

  /** The Python exceptions the tracker can raise. */
  datatype PyError = KeyError | TypeError | UnboundLocalError

  /** The tracker's three dictionaries; `_probes_state` can hold None (see ApplyUpdate). */
  datatype Tracker = Tracker(probes: map<int, Option<ProbeState>>, v4: AsnTable, v6: AsnTable)

  /** `dict.get` on `_probes_state`. */
  function GetProbe(probes: map<int, Option<ProbeState>>, prbId: int): Option<ProbeState>
  {
    if prbId in probes then probes[prbId] else None
  }

  /** The ids under `status`, empty when the status key is absent. */
  function Members(sets: StatusSets, status: Status): set<int>
  {
    if status in sets then sets[status] else {}
  }

  /** `sets.setdefault(status, set()).add(id)`. */
  function AddId(sets: StatusSets, status: Status, id: int): (r: StatusSets)
    ensures r.Keys == sets.Keys + {status}
    ensures Members(r, status) == Members(sets, status) + {id}
    ensures forall s :: s != status ==> Members(r, s) == Members(sets, s)
  {
    sets[status := Members(sets, status) + {id}]
  }

  /** No table key is a literal string. */
  ghost predicate AsnKeysOnly(t: Tracker)
  {
    (forall k :: k in t.v4 ==> k.Asn?) && (forall k :: k in t.v6 ==> k.Asn?)
  }

  /** No ASN holds an empty dictionary (an empty dictionary would be falsy to `dict.get`). */
  ghost predicate NoEmptyEntries(table: AsnTable)
  {
    forall k :: k in table ==> table[k] != map[]
  }

  /** Every record is stored under its own probe id. */
  ghost predicate KeyedById(probes: map<int, Option<ProbeState>>)
  {
    forall id :: id in probes && probes[id].Some? ==> probes[id].value.prbId == id
  }

  ghost predicate TrackerInvariant(t: Tracker)
  {
    AsnKeysOnly(t) && NoEmptyEntries(t.v4) && NoEmptyEntries(t.v6) && KeyedById(t.probes)
  }

  // ---------------------------------------------------------------------------
  // Seeding from the inventory (`_create_state_dicts`)
  // ---------------------------------------------------------------------------

  /**
   * One ASN family of one inventory record: if the ASN is set and already has
   * a non-empty entry, add the id under the status; otherwise, if the ASN is
   * set, write the singleton `{status: {id}}` under `freshKey`.
   */
  function SeedFamily(table: AsnTable, asn: int, freshKey: AsnKey, status: Status, id: int): (r: AsnTable)
    ensures asn == 0 ==> r == table
    ensures r.Keys <= table.Keys + {freshKey}
    ensures NoEmptyEntries(table) ==> NoEmptyEntries(r)
    ensures asn != 0 && freshKey == Asn(asn) ==> Asn(asn) in r && id in Members(r[Asn(asn)], status)
    ensures freshKey == Asn(asn) ==>
              forall k, s :: k in table ==> k in r && Members(table[k], s) <= Members(r[k], s)
  {
    if asn != 0 && Asn(asn) in table && table[Asn(asn)] != map[] then
      table[Asn(asn) := AddId(table[Asn(asn)], status, id)]
    else if asn != 0 then
      var entry := map[status := {id}];
      assert status in entry;
      table[freshKey := entry]
    else
      table
  }

  /**
   * One iteration of `_create_state_dicts`; None when the status code is not
   * in STATUS_MAP (the KeyError is raised before anything is written). The
   * IPv6 singleton is written under the IPv4 ASN, as the source does.
   */
  function SeedRecord(t: Tracker, p: InventoryRecord): (r: Option<Tracker>)
    ensures r.None? <==> StatusOf(p.statusCode).None?
    ensures r.Some? ==> p.id in r.value.probes && r.value.probes[p.id] == Some(ProbeState(p.id, p.asnV4, p.asnV6, StatusOf(p.statusCode).value))
  {
    match StatusOf(p.statusCode)
    case None => None
    case Some(status) =>
      Some(Tracker(t.probes[p.id := Some(ProbeState(p.id, p.asnV4, p.asnV6, status))],
                   SeedFamily(t.v4, p.asnV4, Asn(p.asnV4), status, p.id),
                   SeedFamily(t.v6, p.asnV6, Asn(p.asnV4), status, p.id)))
  }

  /** The state after seeding, and whether every record was accepted. */
  datatype Seeded = Seeded(tracker: Tracker, ok: bool)

  /** `_create_state_dicts` over the whole inventory; stops at the first unknown status code. */
  function Seed(t: Tracker, inventory: seq<InventoryRecord>): Seeded
    decreases |inventory|
  {
    if inventory == [] then Seeded(t, true)
    else
      match SeedRecord(t, inventory[0])
      case None => Seeded(t, false)
      case Some(next) => Seed(next, inventory[1..])
  }

  /** One step of seeding: the first record either stops it or hands over its tracker. */
  lemma SeedUnfold(t: Tracker, inventory: seq<InventoryRecord>)
    requires inventory != []
    ensures SeedRecord(t, inventory[0]).None? ==> Seed(t, inventory) == Seeded(t, false)
    ensures SeedRecord(t, inventory[0]).Some? ==>
              Seed(t, inventory) == Seed(SeedRecord(t, inventory[0]).value, inventory[1..])
  {
  }

  /** Seeding succeeds iff every status code is 1 or 2. */
  lemma {:induction false} SeedOkIffKnownStatuses(t: Tracker, inventory: seq<InventoryRecord>)
    ensures Seed(t, inventory).ok <==> forall k :: 0 <= k < |inventory| ==> inventory[k].statusCode in {1, 2}
    decreases |inventory|
  {
    if inventory != [] {
      var r := SeedRecord(t, inventory[0]);
      if r.Some? {
        SeedOkIffKnownStatuses(r.value, inventory[1..]);
        assert forall k :: 1 <= k < |inventory| ==> inventory[k] == inventory[1..][k - 1];
      }
    }
  }

  /** Probes absent from the inventory keep their records. */
  lemma {:induction false} SeedKeepsOtherProbes(t: Tracker, inventory: seq<InventoryRecord>, id: int)
    requires forall k :: 0 <= k < |inventory| ==> inventory[k].id != id
    ensures var s := Seed(t, inventory).tracker;
      (id in s.probes <==> id in t.probes) && (id in t.probes ==> s.probes[id] == t.probes[id])
    decreases |inventory|
  {
    if inventory != [] {
      var r := SeedRecord(t, inventory[0]);
      if r.Some? {
        SeedKeepsOtherProbes(r.value, inventory[1..], id);
      }
    }
  }

  /**
   * After a successful seeding every inventory probe is recorded under its id
   * with its ASNs and mapped status (the last record wins for a repeated id).
   */
  lemma {:induction false} SeedRecordsEveryProbe(t: Tracker, inventory: seq<InventoryRecord>, k: nat)
    requires k < |inventory| && StatusOf(inventory[k].statusCode).Some?
    requires forall m :: k < m < |inventory| ==> inventory[m].id != inventory[k].id
    ensures var s := Seed(t, inventory);
      var p := inventory[k];
      s.ok ==>
        && p.id in s.tracker.probes
        && s.tracker.probes[p.id] == Some(ProbeState(p.id, p.asnV4, p.asnV6, StatusOf(p.statusCode).value))
    decreases |inventory|
  {
    var r := SeedRecord(t, inventory[0]);
    var rest := inventory[1..];
    assert forall m :: 0 <= m < |rest| ==> rest[m] == inventory[m + 1];
    if r.Some? {
      if k == 0 {
        SeedKeepsOtherProbes(r.value, rest, inventory[0].id);
      } else {
        SeedRecordsEveryProbe(r.value, rest, k - 1);
      }
    }
  }

  /**
   * After a successful seeding that started without empty IPv4 entries, every
   * probe with a non-zero IPv4 ASN is in that ASN's set for its status.
   */
  lemma {:induction false} SeedAttachesV4(t: Tracker, inventory: seq<InventoryRecord>, k: nat)
    requires NoEmptyEntries(t.v4)
    requires k < |inventory| && inventory[k].asnV4 != 0 && StatusOf(inventory[k].statusCode).Some?
    ensures var s := Seed(t, inventory);
      var p := inventory[k];
      s.ok ==> Asn(p.asnV4) in s.tracker.v4 && p.id in Members(s.tracker.v4[Asn(p.asnV4)], StatusOf(p.statusCode).value)
    decreases |inventory|
  {
    var r := SeedRecord(t, inventory[0]);
    var rest := inventory[1..];
    if r.Some? {
      if k == 0 {
        var p := inventory[0];
        SeedKeepsV4(r.value, rest, Asn(p.asnV4), StatusOf(p.statusCode).value, p.id);
      } else {
        assert rest[k - 1] == inventory[k];
        SeedAttachesV4(r.value, rest, k - 1);
      }
    }
  }

  /** Seeding one IPv4 family keeps every membership: only an absent ASN gets a fresh entry. */
  lemma SeedFamilyKeeps(table: AsnTable, asn: int, status: Status, id: int, key: AsnKey, s: Status, x: int)
    requires NoEmptyEntries(table)
    requires key in table && x in Members(table[key], s)
    ensures var r := SeedFamily(table, asn, Asn(asn), status, id);
      key in r && x in Members(r[key], s)
  {
  }

  /** IPv4 memberships survive the rest of the seeding. */
  lemma {:induction false} SeedKeepsV4(t: Tracker, inventory: seq<InventoryRecord>, key: AsnKey, s: Status, x: int)
    requires NoEmptyEntries(t.v4)
    requires key in t.v4 && x in Members(t.v4[key], s)
    ensures var r := Seed(t, inventory).tracker;
      key in r.v4 && x in Members(r.v4[key], s)
    decreases |inventory|
  {
    if inventory != [] {
      var p := inventory[0];
      var r := SeedRecord(t, p);
      if r.Some? {
        SeedFamilyKeeps(t.v4, p.asnV4, StatusOf(p.statusCode).value, p.id, key, s, x);
        SeedKeepsV4(r.value, inventory[1..], key, s, x);
      }
    }
  }

  /** A probe with IPv4 ASN 0 is attached to no IPv4 entry: seeding never creates key 0. */
  lemma {:induction false} SeedSkipsZeroV4(t: Tracker, inventory: seq<InventoryRecord>)
    requires Asn(0) !in t.v4
    ensures Asn(0) !in Seed(t, inventory).tracker.v4
    decreases |inventory|
  {
    if inventory != [] {
      var r := SeedRecord(t, inventory[0]);
      if r.Some? {
        SeedSkipsZeroV4(r.value, inventory[1..]);
      }
    }
  }

  /**
   * The IPv6 seeding as written: a probe whose non-zero IPv6 ASN has no entry
   * yet overwrites the entry of its IPv4 ASN with `{status: {id}}` and leaves
   * its own IPv6 ASN unattached; it is added under its IPv6 ASN only when
   * that entry already exists.
   */
  lemma SeedV6AsWritten(t: Tracker, p: InventoryRecord)
    requires StatusOf(p.statusCode).Some? && p.asnV6 != 0
    ensures var r := SeedRecord(t, p).value;
      var status := StatusOf(p.statusCode).value;
      if Asn(p.asnV6) in t.v6 && t.v6[Asn(p.asnV6)] != map[] then
        r.v6 == t.v6[Asn(p.asnV6) := AddId(t.v6[Asn(p.asnV6)], status, p.id)]
      else
        && r.v6 == t.v6[Asn(p.asnV4) := map[status := {p.id}]]
        && (p.asnV6 != p.asnV4 ==> (Asn(p.asnV6) in r.v6 <==> Asn(p.asnV6) in t.v6))
  {
  }

  /** Probe 1 with IPv4 ASN 100 and IPv6 ASN 200 lands in the IPv6 table under 100, not 200. */
  lemma SeedV6Example(inventory: seq<InventoryRecord>)
    requires inventory == [InventoryRecord(1, 100, 200, 1)]
    ensures var s := Seed(Tracker(map[], map[], map[]), inventory);
      && s.ok
      && s.tracker.v6 == map[Asn(100) := map[Connected := {1}]]
      && Asn(200) !in s.tracker.v6
      && s.tracker.v4 == map[Asn(100) := map[Connected := {1}]]
  {
    var t := Tracker(map[], map[], map[]);
    var r := SeedRecord(t, inventory[0]);
    assert r.Some?;
    assert inventory[1..] == [];
  }

  /** One inventory record keeps the tracker invariant. */
  lemma SeedRecordKeepsInvariant(t: Tracker, p: InventoryRecord)
    requires TrackerInvariant(t) && SeedRecord(t, p).Some?
    ensures TrackerInvariant(SeedRecord(t, p).value)
  {
  }

  /** Seeding keeps the tracker invariant. */
  lemma {:induction false} SeedKeepsInvariant(t: Tracker, inventory: seq<InventoryRecord>)
    requires TrackerInvariant(t)
    ensures TrackerInvariant(Seed(t, inventory).tracker)
    decreases |inventory|
  {
    if inventory != [] {
      var r := SeedRecord(t, inventory[0]);
      if r.Some? {
        SeedRecordKeepsInvariant(t, inventory[0]);
        SeedKeepsInvariant(r.value, inventory[1..]);
      }
    }
  }

  // ---------------------------------------------------------------------------
  // Stream events (`_update_probe_status`, `on_result_response`)
  // ---------------------------------------------------------------------------

  /** A table after a move, and whether the move completed. */
  datatype Moved = Moved(table: AsnTable, ok: bool)

  /**
   * `table[key].setdefault(src, set()).remove(id)` followed by
   * `table[key].setdefault(dst, set()).add(id)`. A missing key raises before
   * any change; an id missing from `src` raises after `setdefault` has
   * inserted the empty `src` set.
   */
  function Move(table: AsnTable, key: AsnKey, src: Status, dst: Status, id: int): (m: Moved)
    requires src != dst
    ensures m.ok <==> key in table && id in Members(table[key], src)
    ensures m.table.Keys == table.Keys
    ensures forall k :: k in table && k != key ==> m.table[k] == table[k]
    ensures !m.ok ==> forall k, s :: k in table ==> Members(m.table[k], s) == Members(table[k], s)
    ensures m.ok ==>
      && Members(m.table[key], src) == Members(table[key], src) - {id}
      && Members(m.table[key], dst) == Members(table[key], dst) + {id}
      && Members(m.table[key], src) + Members(m.table[key], dst) == Members(table[key], src) + Members(table[key], dst)
    ensures key in table ==> m.table[key].Keys == table[key].Keys + (if m.ok then {src, dst} else {src})
    ensures NoEmptyEntries(table) ==> NoEmptyEntries(m.table)
  {
    if key !in table then Moved(table, false)
    else
      var sets := table[key][src := Members(table[key], src)];
      if id !in sets[src] then Moved(table[key := sets], false)
      else Moved(table[key := AddId(sets[src := sets[src] - {id}], dst, id)], true)
  }

  /** The `if asn:` guard around a move: nothing to do for ASN 0 (or None). */
  function MoveIfSet(table: AsnTable, asn: int, key: AsnKey, src: Status, dst: Status, id: int): (m: Moved)
    requires src != dst
    ensures m.table.Keys == table.Keys
    ensures NoEmptyEntries(table) ==> NoEmptyEntries(m.table)
  {
    if asn != 0 then Move(table, key, src, dst, id) else Moved(table, true)
  }

  /** The state after an event, and the exception it raised, if any. */
  datatype Outcome = Outcome(tracker: Tracker, error: Option<PyError>)

  /**
   * A status change: the record's status is set first (in place, so it
   * survives a later exception), then the IPv4 move, then the IPv6 move.
   */
  function Transition(t: Tracker, u: ProbeUpdate, p: ProbeState, src: Status, dst: Status, v4Key: AsnKey, v6Key: AsnKey)
    : Outcome
    requires src != dst
  {
    var t1 := t.(probes := t.probes[u.prbId := Some(p.(status := dst))]);
    var m4 := MoveIfSet(t1.v4, u.asnV4, v4Key, src, dst, u.prbId);
    var t2 := t1.(v4 := m4.table);
    if !m4.ok then Outcome(t2, Some(KeyError))
    else
      var m6 := MoveIfSet(t2.v6, u.asnV6, v6Key, src, dst, u.prbId);
      Outcome(t2.(v6 := m6.table), if m6.ok then None else Some(KeyError))
  }

  /**
   * `_update_probe_status`. The disconnect branch moves the id under the
   * event's IPv4 ASN and under the literal key "asn_v6"; the connect branch
   * under the literal keys "asn_v4" and "asn_v6". An unknown probe makes
   * `p_state` None, so reading its status raises TypeError; for any other
   * event kind the (possibly None) `p_state` is stored back.
   */
  function ApplyUpdate(t: Tracker, u: ProbeUpdate): (o: Outcome)
    ensures o.error == Some(TypeError) <==>
      (u.event == "disconnect" || u.event == "connect") && GetProbe(t.probes, u.prbId).None?
    ensures o.error == Some(TypeError) ==> o.tracker == t
    ensures o.error.None? && (u.event == "disconnect" || u.event == "connect") ==>
      u.prbId in o.tracker.probes && o.tracker.probes[u.prbId].Some?
      && o.tracker.probes[u.prbId].value.status == (if u.event == "connect" then Connected else Disconnected)
    ensures forall id :: id != u.prbId ==>
      (id in o.tracker.probes <==> id in t.probes) && (id in t.probes ==> o.tracker.probes[id] == t.probes[id])
  {
    var pState := GetProbe(t.probes, u.prbId);
    if u.event == "disconnect" && pState.None? then Outcome(t, Some(TypeError))
    else if u.event == "disconnect" && pState.value.status == Connected then
      Transition(t, u, pState.value, Connected, Disconnected, Asn(u.asnV4), Literal("asn_v6"))
    else if u.event == "connect" && pState.None? then Outcome(t, Some(TypeError))
    else if u.event == "connect" && pState.value.status == Disconnected then
      Transition(t, u, pState.value, Disconnected, Connected, Literal("asn_v4"), Literal("asn_v6"))
    else
      assert pState.Some? && u.event == "connect" ==> pState.value.status == Connected;
      assert pState.Some? && u.event == "disconnect" ==> pState.value.status == Disconnected;
      Outcome(t.(probes := t.probes[u.prbId := pState]), None)
  }

  /**
   * A repeated event is a no-op: a disconnect for a probe that is not
   * Connected, or a connect for one that is not Disconnected, changes nothing.
   */
  lemma RepeatedEventIsNoOp(t: Tracker, u: ProbeUpdate)
    requires GetProbe(t.probes, u.prbId).Some?
    requires var status := GetProbe(t.probes, u.prbId).value.status;
      (u.event == "disconnect" && status != Connected) || (u.event == "connect" && status != Disconnected)
    ensures ApplyUpdate(t, u) == Outcome(t, None)
  {
    assert t.probes[u.prbId := t.probes[u.prbId]] == t.probes;
  }

  /** Replaying a disconnect that completed changes nothing. */
  lemma DisconnectTwiceIsIdempotent(t: Tracker, u: ProbeUpdate)
    requires u.event == "disconnect"
    requires ApplyUpdate(t, u).error.None?
    ensures var once := ApplyUpdate(t, u).tracker;
      ApplyUpdate(once, u) == Outcome(once, None)
  {
    RepeatedEventIsNoOp(ApplyUpdate(t, u).tracker, u);
  }

  /**
   * A disconnect for a Connected probe with an IPv4 ASN whose id is in that
   * ASN's Connected set: the status becomes Disconnected and the id moves
   * from Connected to Disconnected under the event's ASN; the union of the
   * two sets, the other ASNs, the IPv6 table and the other probes are
   * unchanged. With an IPv6 ASN as well, the move has already happened when
   * the lookup of the literal key "asn_v6" raises KeyError.
   */
  lemma DisconnectMovesV4(t: Tracker, u: ProbeUpdate)
    requires AsnKeysOnly(t)
    requires u.event == "disconnect" && u.asnV4 != 0
    requires GetProbe(t.probes, u.prbId).Some? && GetProbe(t.probes, u.prbId).value.status == Connected
    requires Asn(u.asnV4) in t.v4 && u.prbId in Members(t.v4[Asn(u.asnV4)], Connected)
    ensures var o := ApplyUpdate(t, u);
      var key := Asn(u.asnV4);
      && o.error == (if u.asnV6 != 0 then Some(KeyError) else None)
      && o.tracker.probes == t.probes[u.prbId := Some(t.probes[u.prbId].value.(status := Disconnected))]
      && key in o.tracker.v4
      && Members(o.tracker.v4[key], Connected) == Members(t.v4[key], Connected) - {u.prbId}
      && Members(o.tracker.v4[key], Disconnected) == Members(t.v4[key], Disconnected) + {u.prbId}
      && Members(o.tracker.v4[key], Connected) + Members(o.tracker.v4[key], Disconnected)
         == Members(t.v4[key], Connected) + Members(t.v4[key], Disconnected)
      && o.tracker.v4.Keys == t.v4.Keys
      && (forall k :: k in t.v4 && k != key ==> o.tracker.v4[k] == t.v4[k])
      && o.tracker.v6 == t.v6
  {
    assert Literal("asn_v6") !in t.v6;
  }

  /**
   * The IPv4 failures of a disconnect for a Connected probe: an ASN with no
   * entry, or an id not in its Connected set, raise KeyError after the status
   * has already been set to Disconnected; no set membership changes.
   */
  lemma DisconnectV4KeyError(t: Tracker, u: ProbeUpdate)
    requires u.event == "disconnect" && u.asnV4 != 0
    requires GetProbe(t.probes, u.prbId).Some? && GetProbe(t.probes, u.prbId).value.status == Connected
    requires Asn(u.asnV4) !in t.v4 || u.prbId !in Members(t.v4[Asn(u.asnV4)], Connected)
    ensures var o := ApplyUpdate(t, u);
      && o.error == Some(KeyError)
      && o.tracker.probes[u.prbId] == Some(t.probes[u.prbId].value.(status := Disconnected))
      && (forall k, s :: k in t.v4 ==> k in o.tracker.v4 && Members(o.tracker.v4[k], s) == Members(t.v4[k], s))
      && o.tracker.v6 == t.v6
  {
  }

  /**
   * A disconnect for a Connected probe with an IPv6 ASN always ends in
   * KeyError, after the status change: at the IPv4 move if that fails,
   * otherwise at the literal key "asn_v6". The IPv6 table is unchanged.
   */
  lemma DisconnectV6KeyError(t: Tracker, u: ProbeUpdate)
    requires AsnKeysOnly(t)
    requires u.event == "disconnect" && u.asnV6 != 0
    requires GetProbe(t.probes, u.prbId).Some? && GetProbe(t.probes, u.prbId).value.status == Connected
    ensures var o := ApplyUpdate(t, u);
      && o.error == Some(KeyError)
      && o.tracker.probes[u.prbId] == Some(t.probes[u.prbId].value.(status := Disconnected))
      && o.tracker.v6 == t.v6
  {
    assert Literal("asn_v6") !in t.v6;
  }

  /**
   * A connect for a Disconnected probe with either ASN set always ends in
   * KeyError at a literal key, after the status has been set to Connected;
   * neither table changes. With neither ASN set it completes and only the
   * status changes.
   */
  lemma ConnectAsWritten(t: Tracker, u: ProbeUpdate)
    requires AsnKeysOnly(t)
    requires u.event == "connect"
    requires GetProbe(t.probes, u.prbId).Some? && GetProbe(t.probes, u.prbId).value.status == Disconnected
    ensures var o := ApplyUpdate(t, u);
      && o.tracker == t.(probes := t.probes[u.prbId := Some(t.probes[u.prbId].value.(status := Connected))])
      && o.error == if u.asnV4 != 0 || u.asnV6 != 0 then Some(KeyError) else None
  {
    assert Literal("asn_v4") !in t.v4;
    assert Literal("asn_v6") !in t.v6;
  }

  /** Events keep the tracker invariant. */
  lemma ApplyUpdateKeepsInvariant(t: Tracker, u: ProbeUpdate)
    requires TrackerInvariant(t)
    ensures TrackerInvariant(ApplyUpdate(t, u).tracker)
  {
    var p := GetProbe(t.probes, u.prbId);
    if p.Some? {
      if u.event == "disconnect" && p.value.status == Connected {
        TransitionKeepsInvariant(t, u, p.value, Connected, Disconnected, Asn(u.asnV4), Literal("asn_v6"));
      } else if u.event == "connect" && p.value.status == Disconnected {
        TransitionKeepsInvariant(t, u, p.value, Disconnected, Connected, Literal("asn_v4"), Literal("asn_v6"));
      }
    }
  }

  /** A status change keeps the tracker invariant. */
  lemma TransitionKeepsInvariant(t: Tracker, u: ProbeUpdate, p: ProbeState, src: Status, dst: Status, v4Key: AsnKey, v6Key: AsnKey)
    requires TrackerInvariant(t) && src != dst
    requires u.prbId in t.probes && t.probes[u.prbId] == Some(p)
    ensures TrackerInvariant(Transition(t, u, p, src, dst, v4Key, v6Key).tracker)
  {
    assert p.prbId == u.prbId;
  }

  /** The trigger every connect/disconnect event is dispatched under. */
  const ProbesDiscoTrigger: string := "atlas.probes_disco"

  /** `"{prb_id}-{event}-{timestamp}".format(...)`. */
  function TraceTag(prbId: int, event: string, timestamp: int): string
  {
    IntToString(prbId) + "-" + event + "-" + IntToString(timestamp)
  }

  /** Splitting at the first '-' recovers both halves. */
  lemma SplitAtFirstDash(x: string, y: string, x': string, y': string)
    requires '-' !in x && '-' !in x'
    requires x + "-" + y == x' + "-" + y'
    ensures x == x' && y == y'
  {
    var s := x + "-" + y;
    assert s == x' + "-" + y';
    assert s[|x|] == '-' && s[|x'|] == '-';
    assert forall k :: 0 <= k < |x| ==> s[k] == x[k];
    assert forall k :: 0 <= k < |x'| ==> s[k] == x'[k];
    assert |x| == |x'|;
    assert x == s[..|x|] == x';
    assert y == s[|x| + 1..] == y';
  }

  /** Neither event kind that dispatches contains a '-'. */
  lemma NoDashInEventKind(event: string)
    requires event in {"connect", "disconnect"}
    ensures '-' !in event
  {
    if event == "connect" {
      assert '-' !in "connect";
    } else {
      assert '-' !in "disconnect";
    }
  }

  /**
   * The trace tag read as its first field, a dash, and the rest. Kept as a
   * lemma of its own: stated inline, the regrouping makes the proof of
   * TraceTagInjective several times more expensive.
   */
  lemma TagRegrouped(a: string, event: string, b: string)
    ensures a + "-" + event + "-" + b == a + "-" + (event + "-" + b)
  {
  }

  /** A non-negative number renders without a '-'. */
  lemma NoDashInNonNegative(n: int)
    requires n >= 0
    ensures '-' !in IntToString(n)
  {
    var a := IntToString(n);
    forall k | 0 <= k < |a| ensures a[k] != '-' {
      if k == 0 {
        assert a[0] != '-';
      }
    }
  }

  /**
   * Trace tags identify their event: for non-negative probe ids and
   * timestamps and the two event kinds, equal tags mean equal fields.
   */
  lemma TraceTagInjective(id: int, event: string, ts: int, id': int, event': string, ts': int)
    requires id >= 0 && ts >= 0 && id' >= 0 && ts' >= 0
    requires event in {"connect", "disconnect"} && event' in {"connect", "disconnect"}
    requires TraceTag(id, event, ts) == TraceTag(id', event', ts')
    ensures id == id' && event == event' && ts == ts'
  {
    var a, a' := IntToString(id), IntToString(id');
    var b, b' := IntToString(ts), IntToString(ts');
    NoDashInNonNegative(id);
    NoDashInNonNegative(id');
    NoDashInEventKind(event);
    NoDashInEventKind(event');
    TagRegrouped(a, event, b);
    TagRegrouped(a', event', b');
    SplitAtFirstDash(a, event + "-" + b, a', event' + "-" + b');
    SplitAtFirstDash(event, b, event', b');
    IntToStringInjective(id, id');
    IntToStringInjective(ts, ts');
  }

  /** What `dispatch` receives. */
  datatype Dispatch = Dispatch(trigger: string, payload: ProbeState, traceTag: string)

  datatype Response = Dispatched(dispatch: Dispatch) | Raised(error: PyError)

  datatype Responded = Responded(tracker: Tracker, response: Response)

  /**
   * `on_result_response`: update the state, then dispatch for a connect or
   * disconnect event; any other event kind reaches `dispatch` with its
   * locals unbound.
   */
  function Respond(t: Tracker, u: ProbeUpdate): (r: Responded)
    ensures r.tracker == ApplyUpdate(t, u).tracker
  {
    var o := ApplyUpdate(t, u);
    if o.error.Some? then Responded(o.tracker, Raised(o.error.value))
    else if u.event == "connect" || u.event == "disconnect" then
      Responded(o.tracker, Dispatched(Dispatch(ProbesDiscoTrigger, o.tracker.probes[u.prbId].value,
                                               TraceTag(u.prbId, u.event, u.timestamp))))
    else
      Responded(o.tracker, Raised(UnboundLocalError))
  }

  /**
   * Every connect or disconnect event that does not raise is dispatched as
   * `atlas.probes_disco` with the probe's record, whose status matches the
   * event, and its trace tag; every other event kind raises.
   */
  lemma RespondDispatches(t: Tracker, u: ProbeUpdate)
    ensures var r := Respond(t, u);
      && (u.event != "connect" && u.event != "disconnect" ==> r.response == Raised(UnboundLocalError))
      && (r.response.Dispatched? <==> (u.event == "connect" || u.event == "disconnect") && ApplyUpdate(t, u).error.None?)
      && (r.response.Dispatched? ==>
            && r.response.dispatch.trigger == "atlas.probes_disco"
            && r.response.dispatch.traceTag == TraceTag(u.prbId, u.event, u.timestamp)
            && r.response.dispatch.payload.status == (if u.event == "connect" then Connected else Disconnected)
            && Some(r.response.dispatch.payload) == r.tracker.probes[u.prbId])
  {
  }

  /** The sensor's state: `_probes_state`, `_ases_v4_state` and `_ases_v6_state`. */
  class ProbesDiscoSensor {
    var probesState: map<int, Option<ProbeState>>
    var asesV4State: AsnTable
    var asesV6State: AsnTable

    function State(): Tracker
      reads this
    {
      Tracker(probesState, asesV4State, asesV6State)
    }

    ghost predicate Valid()
      reads this
    {
      TrackerInvariant(State())
    }

    constructor()
      ensures Valid() && State() == Tracker(map[], map[], map[])
    {
      probesState := map[];
      asesV4State := map[];
      asesV6State := map[];
    }

    /**
     * The body of the `_create_state_dicts` loop for a record whose status
     * code is known: record the probe, then attach it to its IPv4 and IPv6
     * entries (a new IPv6 entry is keyed by the IPv4 ASN, as the source does).
     */
    method AddInventoryRecord(p: InventoryRecord, status: Status)
      requires StatusOf(p.statusCode) == Some(status)
      modifies this
      ensures SeedRecord(old(State()), p) == Some(State())
    {
      probesState := probesState[p.id := Some(ProbeState(p.id, p.asnV4, p.asnV6, status))];
      if p.asnV4 != 0 && Asn(p.asnV4) in asesV4State && asesV4State[Asn(p.asnV4)] != map[] {
        asesV4State := asesV4State[Asn(p.asnV4) := AddId(asesV4State[Asn(p.asnV4)], status, p.id)];
      } else if p.asnV4 != 0 {
        asesV4State := asesV4State[Asn(p.asnV4) := map[status := {p.id}]];
      }
      if p.asnV6 != 0 && Asn(p.asnV6) in asesV6State && asesV6State[Asn(p.asnV6)] != map[] {
        asesV6State := asesV6State[Asn(p.asnV6) := AddId(asesV6State[Asn(p.asnV6)], status, p.id)];
      } else if p.asnV6 != 0 {
        asesV6State := asesV6State[Asn(p.asnV4) := map[status := {p.id}]];
      }
    }

    /** `_create_state_dicts`: false when an unknown status code stopped it part-way. */
    method CreateStateDicts(inventory: seq<InventoryRecord>) returns (ok: bool)
      requires Valid()
      modifies this
      ensures Seed(old(State()), inventory) == Seeded(State(), ok)
      ensures Valid()
    {
      ghost var spec := Seed(State(), inventory);
      SeedKeepsInvariant(State(), inventory);
      var i := 0;
      while i < |inventory|
        invariant 0 <= i <= |inventory|
        invariant spec == Seed(State(), inventory[i..])
      {
        var p := inventory[i];
        ghost var before := State();
        SeedUnfold(before, inventory[i..]);
        assert inventory[i..][0] == p && inventory[i..][1..] == inventory[i + 1..];
        var status := StatusOf(p.statusCode);
        if status.None? {
          assert spec == Seeded(State(), false);
          return false;
        }
        AddInventoryRecord(p, status.value);
        assert spec == Seed(SeedRecord(before, p).value, inventory[i + 1..]);
        i := i + 1;
      }
      assert spec == Seeded(State(), true);
      return true;
    }

    /**
     * The body of one status-change branch of `_update_probe_status`: set the
     * record's status, then move the id under `v4Key` and under `v6Key` for
     * the ASNs the event carries.
     */
    method ChangeStatus(u: ProbeUpdate, p: ProbeState, src: Status, dst: Status, v4Key: AsnKey, v6Key: AsnKey)
      returns (error: Option<PyError>)
      requires src != dst
      modifies this
      ensures Transition(old(State()), u, p, src, dst, v4Key, v6Key) == Outcome(State(), error)
    {
      probesState := probesState[u.prbId := Some(p.(status := dst))];
      if u.asnV4 != 0 {
        var m := Move(asesV4State, v4Key, src, dst, u.prbId);
        asesV4State := m.table;
        if !m.ok {
          return Some(KeyError);
        }
      }
      if u.asnV6 != 0 {
        var m := Move(asesV6State, v6Key, src, dst, u.prbId);
        asesV6State := m.table;
        if !m.ok {
          return Some(KeyError);
        }
      }
      return None;
    }

    /** `_update_probe_status`: the exception raised, if any, with the state as the source leaves it. */
    method UpdateProbeStatus(u: ProbeUpdate) returns (error: Option<PyError>)
      requires Valid()
      modifies this
      ensures ApplyUpdate(old(State()), u) == Outcome(State(), error)
      ensures Valid()
    {
      ApplyUpdateKeepsInvariant(State(), u);
      var pState := GetProbe(probesState, u.prbId);
      if u.event == "disconnect" && pState.None? {
        return Some(TypeError);
      } else if u.event == "disconnect" && pState.value.status == Connected {
        // the IPv6 set is looked up under the literal key "asn_v6"
        error := ChangeStatus(u, pState.value, Connected, Disconnected, Asn(u.asnV4), Literal("asn_v6"));
      } else if u.event == "connect" && pState.None? {
        return Some(TypeError);
      } else if u.event == "connect" && pState.value.status == Disconnected {
        // both sets are looked up under the literal keys "asn_v4" and "asn_v6"
        error := ChangeStatus(u, pState.value, Disconnected, Connected, Literal("asn_v4"), Literal("asn_v6"));
      } else {
        probesState := probesState[u.prbId := pState];
        error := None;
      }
    }

    /** `on_result_response`: what is dispatched, or the exception raised. */
    method OnResultResponse(u: ProbeUpdate) returns (response: Response)
      requires Valid()
      modifies this
      ensures Respond(old(State()), u) == Responded(State(), response)
      ensures Valid()
    {
      var error := UpdateProbeStatus(u);
      if error.Some? {
        return Raised(error.value);
      }
      if u.event == "connect" || u.event == "disconnect" {
        var payload := probesState[u.prbId].value;
        return Dispatched(Dispatch(ProbesDiscoTrigger, payload, TraceTag(u.prbId, u.event, u.timestamp)));
      }
      return Raised(UnboundLocalError);
    }
  }
}
