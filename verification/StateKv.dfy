/** The key-value part of the chat state store: a table whose expired rows are
    purged lazily, proved to behave like a map whose entries vanish the moment
    they expire, whatever other keys and however many purges interleave. */
module StateKv {
  import opened Wrappers

  /** A row of chat_sdk_kv; the value is its JSON text, no expiry is NULL. */
  datatype KvRow = KvRow(value: string, expiresAt: Option<int>)

  type KvTable = map<string, KvRow>

  /** Not yet purged by the DELETE of `cleanup` at time t. */
  predicate Live(row: KvRow, t: int) {
    row.expiresAt.None? || row.expiresAt.value >= t
  }

  function Purge(kv: KvTable, t: int): KvTable {
    map k | k in kv && Live(kv[k], t) :: kv[k]
  }

  /** A missing time-to-live and one of zero both mean no expiry. */
  function Expiry(now: int, ttl: Option<int>): Option<int> {
    if ttl.Some? && ttl.value != 0 then Some(now + ttl.value) else None
  }

  /** The test that `get` and `setIfNotExists` make on a row they read: an expiry
      of 0 is falsy there and counts as none. */
  predicate ReadAsExpired(row: KvRow, now: int) {
    row.expiresAt.Some? && row.expiresAt.value != 0 && row.expiresAt.value < now
  }

  // ---------- The operations on the table ----------

  /** One operation with the clock readings it takes: `get` purges at t0 and tests
      at t1; `setIfNotExists` tests at t0 and stamps at t1. */
  datatype KvEvent =
    | Get(key: string, t0: int, t1: int)
    | Set(key: string, value: string, ttl: Option<int>, t0: int)
    | SetIfNotExists(key: string, value: string, ttl: Option<int>, t0: int, t1: int)
    | Delete(key: string, t0: int)
    | Cleanup(t0: int)
  {
    function End(): int {
      if Get? || SetIfNotExists? then t1 else t0
    }
  }

  datatype KvOutput = Found(value: Option<string>) | Inserted(changed: bool) | Done

  datatype KvStep = KvStep(table: KvTable, output: KvOutput)

  function Apply(kv: KvTable, e: KvEvent): KvStep {
    match e
    case Get(key, t0, t1) =>
      var kept := Purge(kv, t0);
      if key !in kept then KvStep(kept, Found(None))
      else if ReadAsExpired(kept[key], t1) then KvStep(kept - {key}, Found(None))
      else KvStep(kept, Found(Some(kept[key].value)))
    case Set(key, value, ttl, t0) =>
      KvStep(kv[key := KvRow(value, Expiry(t0, ttl))], Done)
    case SetIfNotExists(key, value, ttl, t0, t1) =>
      var kept := if key in kv && ReadAsExpired(kv[key], t0) then kv - {key} else kv;
      if key in kept then KvStep(kept, Inserted(false))
      else KvStep(kept[key := KvRow(value, Expiry(t1, ttl))], Inserted(true))
    case Delete(key, t0) =>
      KvStep(kv - {key}, Done)
    case Cleanup(t0) =>
      KvStep(Purge(kv, t0), Done)
  }

  function Run(kv: KvTable, events: seq<KvEvent>): (outs: seq<KvOutput>)
    ensures |outs| == |events|
    decreases |events|
  {
    if events == [] then []
    else
      var step := Apply(kv, events[0]);
      [step.output] + Run(step.table, events[1..])
  }

  // ---------- The eagerly expiring map ----------

  /** The reference: whatever has expired is gone before an operation looks. */
  function EagerApply(m: KvTable, e: KvEvent): KvStep {
    match e
    case Get(key, t0, t1) =>
      var now := Purge(m, t1);
      KvStep(now, Found(if key in now then Some(now[key].value) else None))
    case Set(key, value, ttl, t0) =>
      KvStep(Purge(m, t0)[key := KvRow(value, Expiry(t0, ttl))], Done)
    case SetIfNotExists(key, value, ttl, t0, t1) =>
      var now := Purge(m, t0);
      if key in now then KvStep(now, Inserted(false))
      else KvStep(now[key := KvRow(value, Expiry(t1, ttl))], Inserted(true))
    case Delete(key, t0) =>
      KvStep(Purge(m, t0) - {key}, Done)
    case Cleanup(t0) =>
      KvStep(Purge(m, t0), Done)
  }

  function EagerRun(m: KvTable, events: seq<KvEvent>): (outs: seq<KvOutput>)
    ensures |outs| == |events|
    decreases |events|
  {
    if events == [] then []
    else
      var step := EagerApply(m, events[0]);
      [step.output] + EagerRun(step.table, events[1..])
  }

  // ---------- When the two agree ----------

  /** Clock readings are positive and never decrease. */
  predicate Timed(events: seq<KvEvent>, now: int) {
    events == [] ||
    (now <= events[0].t0 <= events[0].End() && 0 < events[0].t0 && Timed(events[1..], events[0].End()))
  }

  /** No row is stamped to expire at time 0, that is, no time-to-live is exactly
      minus the current time. */
  predicate StampsNonZero(events: seq<KvEvent>) {
    forall i :: 0 <= i < |events| ==>
      && (events[i].Set? ==> Expiry(events[i].t0, events[i].ttl) != Some(0))
      && (events[i].SetIfNotExists? ==> Expiry(events[i].t1, events[i].ttl) != Some(0))
  }

  predicate NoZeroRow(kv: KvTable) {
    forall k :: k in kv ==> kv[k].expiresAt != Some(0)
  }

  /** The lookups of the two tables on the keys of `own` are the same from time t on. */
  ghost predicate SameView(kv: KvTable, m: KvTable, own: string -> bool, t: int) {
    forall k :: own(k) ==>
      && (k in kv && Live(kv[k], t) <==> k in m && Live(m[k], t))
      && (k in kv && Live(kv[k], t) ==> kv[k] == m[k])
  }

  lemma SameViewLater(kv: KvTable, m: KvTable, own: string -> bool, t: int, u: int)
    requires SameView(kv, m, own, t) && t <= u
    ensures SameView(kv, m, own, u)
  {
    forall k | own(k)
      ensures k in kv && Live(kv[k], u) <==> k in m && Live(m[k], u)
      ensures k in kv && Live(kv[k], u) ==> kv[k] == m[k]
    {
      assert k in kv && Live(kv[k], u) ==> Live(kv[k], t);
      assert k in m && Live(m[k], u) ==> Live(m[k], t);
    }
  }

  /** setIfNotExists agrees with the eager map exactly when the row it meets is not
      an expired one stamped 0. */
  lemma SetIfNotExistsAgreesIff(kv: KvTable, key: string, value: string, ttl: Option<int>, t0: int, t1: int)
    requires 0 < t0 <= t1
    ensures var e := SetIfNotExists(key, value, ttl, t0, t1);
      Apply(kv, e).output == EagerApply(kv, e).output
      <==> !(key in kv && kv[key].expiresAt == Some(0))
  {
  }

  /** The input on which laziness shows: a row stamped 0 blocks setIfNotExists
      until some `cleanup` happens to run. */
  lemma StampedZeroShows(t: int)
    requires 0 < t
    ensures
      var events := [Set("k", "a", Some(-t), t), SetIfNotExists("k", "b", None, t, t)];
      Run(map[], events) == [Done, Inserted(false)] && EagerRun(map[], events) == [Done, Inserted(true)]
  {
    var events := [Set("k", "a", Some(-t), t), SetIfNotExists("k", "b", None, t, t)];
    assert events[1..] == [SetIfNotExists("k", "b", None, t, t)];
    var row := KvRow("a", Some(0));
    assert Apply(map[], events[0]).table == map["k" := row];
    assert !Live(row, t) && Purge(map["k" := row], t) == map[];
  }

  predicate Concerns(e: KvEvent, own: string -> bool) {
    !e.Cleanup? && own(e.key)
  }

  lemma StepKeepsNonZero(kv: KvTable, m: KvTable, e: KvEvent)
    requires NoZeroRow(kv) && NoZeroRow(m) && StampsNonZero([e])
    ensures NoZeroRow(Apply(kv, e).table) && NoZeroRow(EagerApply(m, e).table)
  {
    assert [e][0] == e;
  }

  /** One step of the table and of the eager map keep the same view of the own
      keys, and an own operation gets the same answer from both. */
  lemma StepAgrees(kv: KvTable, m: KvTable, e: KvEvent, own: string -> bool, t: int)
    requires SameView(kv, m, own, t) && NoZeroRow(kv) && NoZeroRow(m)
    requires t <= e.t0 <= e.End() && 0 < e.t0 && StampsNonZero([e])
    ensures Concerns(e, own) ==> Apply(kv, e).output == EagerApply(m, e).output
    ensures Concerns(e, own) ==> SameView(Apply(kv, e).table, EagerApply(m, e).table, own, e.End())
    ensures !Concerns(e, own) ==> SameView(Apply(kv, e).table, m, own, e.End())
  {
    SameViewLater(kv, m, own, t, e.t0);
    SameViewLater(kv, m, own, t, e.End());
    assert [e][0] == e;
  }

  // ---------- Whole runs ----------

  /** The events of a run that are about the own keys. */
  function Only(events: seq<KvEvent>, own: string -> bool): seq<KvEvent> {
    if events == [] then []
    else (if Concerns(events[0], own) then [events[0]] else []) + Only(events[1..], own)
  }

  /** The answers those events get in the whole run. */
  function Visible(events: seq<KvEvent>, outs: seq<KvOutput>, own: string -> bool): seq<KvOutput>
    requires |events| == |outs|
  {
    if events == [] then []
    else (if Concerns(events[0], own) then [outs[0]] else []) + Visible(events[1..], outs[1..], own)
  }

  lemma StampsNonZeroTail(events: seq<KvEvent>)
    requires StampsNonZero(events) && events != []
    ensures StampsNonZero([events[0]]) && StampsNonZero(events[1..])
  {
    forall i | 0 <= i < |events[1..]| ensures events[1..][i] == events[i + 1] {
    }
  }

  /** The main result. In any run over the shared table, the operations on a set
      of own keys get exactly the answers that the eagerly expiring map gives when
      it sees those operations alone: no purge, wherever it runs, and no operation
      on any other key, is ever observable. */
  lemma {:induction false} RunRefinesEager(kv: KvTable, m: KvTable, events: seq<KvEvent>, own: string -> bool, t: int)
    requires Timed(events, t) && StampsNonZero(events)
    requires SameView(kv, m, own, t) && NoZeroRow(kv) && NoZeroRow(m)
    ensures Visible(events, Run(kv, events), own) == EagerRun(m, Only(events, own))
    decreases |events|
  {
    if events != [] {
      var e := events[0];
      StampsNonZeroTail(events);
      StepKeepsNonZero(kv, m, e);
      StepAgrees(kv, m, e, own, t);
      var kv', m' := Apply(kv, e).table, if Concerns(e, own) then EagerApply(m, e).table else m;
      RunRefinesEager(kv', m', events[1..], own, e.End());
      assert Run(kv, events)[1..] == Run(kv', events[1..]);
      if Concerns(e, own) {
        assert Only(events, own)[1..] == Only(events[1..], own);
        assert EagerRun(m, Only(events, own)) == [EagerApply(m, e).output] + EagerRun(m', Only(events[1..], own));
      } else {
        assert Only(events, own) == Only(events[1..], own);
      }
    }
  }

  /** For the whole key space this says that purging lazily is unobservable. */
  lemma PurgesAreInvisible(kv: KvTable, events: seq<KvEvent>, t: int)
    requires Timed(events, t) && StampsNonZero(events) && NoZeroRow(kv)
    ensures var all := (k: string) => true;
      Visible(events, Run(kv, events), all) == EagerRun(kv, Only(events, all))
  {
    RunRefinesEager(kv, kv, events, (k: string) => true, t);
  }

  // ---------- What a write means for later reads ----------

  function TableAfter(kv: KvTable, events: seq<KvEvent>): KvTable
    decreases |events|
  {
    if events == [] then kv else TableAfter(Apply(kv, events[0]).table, events[1..])
  }

  /** The operations write other keys only; reads and purges may touch this one. */
  predicate LeaveAlone(events: seq<KvEvent>, key: string) {
    forall i :: 0 <= i < |events| ==> events[i].Get? || events[i].Cleanup? || events[i].key != key
  }

  /** The time of the last clock reading, t before any. */
  function LastTime(events: seq<KvEvent>, t: int): int {
    if events == [] then t else LastTime(events[1..], events[0].End())
  }

  /** The row is there, or it has an expiry that is past. */
  predicate RowOrGone(kv: KvTable, key: string, row: KvRow, now: int) {
    (key in kv && kv[key] == row) || (key !in kv && row.expiresAt.Some? && row.expiresAt.value < now)
  }

  lemma StepKeepsRow(kv: KvTable, e: KvEvent, key: string, row: KvRow, now: int)
    requires LeaveAlone([e], key) && now <= e.t0 <= e.End() && RowOrGone(kv, key, row, now)
    ensures RowOrGone(Apply(kv, e).table, key, row, e.End())
  {
    assert [e][0] == e;
  }

  lemma {:induction false} RunKeepsRow(kv: KvTable, events: seq<KvEvent>, key: string, row: KvRow, now: int)
    requires LeaveAlone(events, key) && Timed(events, now) && RowOrGone(kv, key, row, now)
    ensures RowOrGone(TableAfter(kv, events), key, row, LastTime(events, now))
    decreases |events|
  {
    if events != [] {
      assert [events[0]][0] == events[0];
      StepKeepsRow(kv, events[0], key, row, now);
      assert forall i :: 0 <= i < |events[1..]| ==> events[1..][i] == events[i + 1];
      RunKeepsRow(Apply(kv, events[0]).table, events[1..], key, row, events[0].End());
    }
  }

  /** What a set at time t does to later reads, whatever happens to other keys and
      whenever purges run: the value is there exactly as long as its time-to-live has
      not passed, for ever when that is missing or 0. */
  lemma SetThenGet(kv: KvTable, key: string, value: string, ttl: Option<int>, t: int, later: seq<KvEvent>, u: int)
    requires LeaveAlone(later, key) && Timed(later, t) && LastTime(later, t) <= u
    ensures Apply(TableAfter(Apply(kv, Set(key, value, ttl, t)).table, later), Get(key, u, u)).output ==
      Found(if ttl.None? || ttl.value == 0 || u <= t + ttl.value then Some(value) else None)
  {
    TimeRises(later, t);
    RunKeepsRow(Apply(kv, Set(key, value, ttl, t)).table, later, key, KvRow(value, Expiry(t, ttl)), t);
  }

  lemma {:induction false} TimeRises(events: seq<KvEvent>, t: int)
    requires Timed(events, t)
    ensures t <= LastTime(events, t)
  {
    if events != [] {
      TimeRises(events[1..], events[0].End());
    }
  }

  /** A setIfNotExists inserts exactly when there is no row, or one whose expiry, not
      being 0, is past; then it is read like a set at its second clock reading, and
      otherwise nothing changes. */
  lemma SetIfNotExistsInserts(kv: KvTable, key: string, value: string, ttl: Option<int>, t0: int, t1: int)
    ensures var step := Apply(kv, SetIfNotExists(key, value, ttl, t0, t1));
      && (step.output == Inserted(true) <==>
            key !in kv || (kv[key].expiresAt.Some? && kv[key].expiresAt.value != 0 && kv[key].expiresAt.value < t0))
      && (step.output != Inserted(true) ==> step.output == Inserted(false) && step.table == kv)
  {
  }

  lemma SetIfNotExistsThenGet(kv: KvTable, key: string, value: string, ttl: Option<int>, t0: int, t: int, later: seq<KvEvent>, u: int)
    requires t0 <= t && LeaveAlone(later, key) && Timed(later, t) && LastTime(later, t) <= u
    requires Apply(kv, SetIfNotExists(key, value, ttl, t0, t)).output == Inserted(true)
    ensures Apply(TableAfter(Apply(kv, SetIfNotExists(key, value, ttl, t0, t)).table, later), Get(key, u, u)).output ==
      Found(if ttl.None? || ttl.value == 0 || u <= t + ttl.value then Some(value) else None)
  {
    TimeRises(later, t);
    RunKeepsRow(Apply(kv, SetIfNotExists(key, value, ttl, t0, t)).table, later, key, KvRow(value, Expiry(t, ttl)), t);
  }

  /** So a setIfNotExists after a set goes in exactly when the time-to-live has passed. */
  lemma SetThenSetIfNotExists(kv: KvTable, key: string, value: string, ttl: Option<int>, t: int, later: seq<KvEvent>,
                              other: string, otherTtl: Option<int>, u: int)
    requires LeaveAlone(later, key) && Timed(later, t) && LastTime(later, t) <= u && ttl != Some(-t)
    ensures Apply(TableAfter(Apply(kv, Set(key, value, ttl, t)).table, later), SetIfNotExists(key, other, otherTtl, u, u)).output ==
      Inserted(!(ttl.None? || ttl.value == 0 || u <= t + ttl.value))
  {
    TimeRises(later, t);
    RunKeepsRow(Apply(kv, Set(key, value, ttl, t)).table, later, key, KvRow(value, Expiry(t, ttl)), t);
  }

  lemma {:induction false} RunKeepsAbsent(kv: KvTable, events: seq<KvEvent>, key: string)
    requires LeaveAlone(events, key) && key !in kv
    ensures key !in TableAfter(kv, events)
    decreases |events|
  {
    if events != [] {
      assert forall i :: 0 <= i < |events[1..]| ==> events[1..][i] == events[i + 1];
      RunKeepsAbsent(Apply(kv, events[0]).table, events[1..], key);
    }
  }

  /** After a delete the key reads as missing until it is written again. */
  lemma DeleteThenGet(kv: KvTable, key: string, t: int, later: seq<KvEvent>, u: int)
    requires LeaveAlone(later, key)
    ensures Apply(TableAfter(Apply(kv, Delete(key, t)).table, later), Get(key, u, u)).output == Found(None)
  {
    RunKeepsAbsent(Apply(kv, Delete(key, t)).table, later, key);
  }
}
