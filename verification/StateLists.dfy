/** The lists of the chat state store: index-keyed rows with optional expiry and
    a length cap. Used as a queue they are a drop-oldest bounded FIFO. */
module StateLists {
  import opened Wrappers

  /** A row of chat_sdk_lists under one key. */
  datatype ListRow = ListRow(idx: int, value: string, expiresAt: Option<int>)

  /** The rows of each key in the order of their index. */
  type ListTable = map<string, seq<ListRow>>

  function RowsOf(lists: ListTable, k: string): seq<ListRow> {
    if k in lists then lists[k] else []
  }

  predicate Ordered(rows: seq<ListRow>) {
    && (forall i :: 0 <= i < |rows| ==> rows[i].idx >= 0)
    && (forall i, j :: 0 <= i < j < |rows| ==> rows[i].idx < rows[j].idx)
  }

  // ---------- The statements on the rows of one key ----------

  /** MAX(idx) + 1, or 0 when there is no row. */
  function NextIndex(rows: seq<ListRow>): int {
    if rows == [] then 0 else rows[|rows| - 1].idx + 1
  }

  /** DELETE ... idx <= cutoff. */
  function DropUpTo(rows: seq<ListRow>, cutoff: int): seq<ListRow> {
    if rows == [] then []
    else
      var rest := DropUpTo(rows[1..], cutoff);
      if rows[0].idx <= cutoff then rest else [rows[0]] + rest
  }

  predicate LiveRow(row: ListRow, t: int) {
    row.expiresAt.None? || row.expiresAt.value >= t
  }

  /** The DELETE of `cleanup`. */
  function PurgeRows(rows: seq<ListRow>, t: int): seq<ListRow> {
    if rows == [] then []
    else
      var rest := PurgeRows(rows[1..], t);
      if LiveRow(rows[0], t) then [rows[0]] + rest else rest
  }

  function PurgeLists(lists: ListTable, t: int): ListTable {
    map k | k in lists :: PurgeRows(lists[k], t)
  }

  /** Insert after the last row, then trim; a cap of 0 is no cap. */
  function Append(rows: seq<ListRow>, value: string, maxLength: int, expiresAt: Option<int>): seq<ListRow> {
    var next := NextIndex(rows);
    var grown := rows + [ListRow(next, value, expiresAt)];
    if maxLength != 0 && next - maxLength >= 0 then DropUpTo(grown, next - maxLength) else grown
  }

  predicate Shown(row: ListRow, t: int) {
    row.expiresAt.None? || row.expiresAt.value > t
  }

  /** What `getList` shows at time t. */
  function View(rows: seq<ListRow>, t: int): seq<string> {
    if rows == [] then []
    else
      var rest := View(rows[1..], t);
      if Shown(rows[0], t) then [rows[0].value] + rest else rest
  }

  function Values(rows: seq<ListRow>): (values: seq<string>)
    ensures |values| == |rows| && forall i :: 0 <= i < |rows| ==> values[i] == rows[i].value
  {
    if rows == [] then [] else [rows[0].value] + Values(rows[1..])
  }

  // ---------- The queue is a bounded FIFO ----------

  /** Consecutive indices and no expiry: what a key used only as a queue looks like. */
  predicate Queue(rows: seq<ListRow>) {
    && (rows != [] ==> rows[0].idx >= 0)
    && (forall i :: 0 <= i < |rows| ==> rows[i].expiresAt.None?)
    && (forall i :: 0 <= i < |rows| ==> rows[i].idx == rows[0].idx + i)
  }

  /** The last n of a sequence, or all of it when it is shorter. */
  function Last<T>(s: seq<T>, n: nat): seq<T> {
    if |s| <= n then s else s[|s| - n..]
  }

  /** The reference: a cap of 0 keeps everything, a negative one nothing. */
  function Bounded<T>(s: seq<T>, cap: int): seq<T> {
    if cap == 0 then s else if cap < 0 then [] else Last(s, cap)
  }

  lemma {:induction false} DropUpToSuffix(rows: seq<ListRow>, cutoff: int)
    requires forall i :: 0 <= i < |rows| ==> rows[i].idx == rows[0].idx + i
    ensures DropUpTo(rows, cutoff) ==
      if rows == [] || cutoff < rows[0].idx then rows
      else if rows[0].idx + |rows| - 1 <= cutoff then []
      else rows[cutoff + 1 - rows[0].idx..]
  {
    if rows != [] {
      var tail := rows[1..];
      assert forall i :: 0 <= i < |tail| ==> tail[i] == rows[i + 1];
      DropUpToSuffix(tail, cutoff);
    }
  }

  lemma SuffixOfQueue(rows: seq<ListRow>, n: nat)
    requires Queue(rows) && n <= |rows|
    ensures Queue(rows[n..]) && Values(rows[n..]) == Values(rows)[n..]
  {
    var tail := rows[n..];
    assert forall i :: 0 <= i < |tail| ==> tail[i] == rows[n + i];
  }

  lemma GrowQueue(rows: seq<ListRow>, row: ListRow)
    requires Queue(rows) && row.idx == NextIndex(rows) && row.expiresAt.None?
    ensures Queue(rows + [row]) && Values(rows + [row]) == Values(rows) + [row.value]
  {
    var grown := rows + [row];
    assert forall i :: 0 <= i < |grown| ==> grown[i].idx == grown[0].idx + i;
  }

  /** Trimming below the last index minus the cap leaves the last `cap` rows. */
  lemma TrimQueue(rows: seq<ListRow>, cap: int)
    requires Queue(rows) && rows != [] && cap != 0
    ensures DropUpTo(rows, rows[|rows| - 1].idx - cap) == Bounded(rows, cap)
  {
    DropUpToSuffix(rows, rows[|rows| - 1].idx - cap);
  }

  lemma BoundedQueue(rows: seq<ListRow>, cap: int)
    requires Queue(rows)
    ensures Queue(Bounded(rows, cap)) && Values(Bounded(rows, cap)) == Bounded(Values(rows), cap)
  {
    if 0 < cap < |rows| {
      SuffixOfQueue(rows, |rows| - cap);
    } else if cap < 0 {
      assert Values([]) == [];
    } else {
      assert Bounded(rows, cap) == rows && Bounded(Values(rows), cap) == Values(rows);
    }
  }

  lemma AppendIsBounded(rows: seq<ListRow>, value: string, cap: int)
    requires Queue(rows)
    ensures var grown := rows + [ListRow(NextIndex(rows), value, None)];
      Queue(grown) && Values(grown) == Values(rows) + [value] && Append(rows, value, cap, None) == Bounded(grown, cap)
  {
    var next := NextIndex(rows);
    var grown := rows + [ListRow(next, value, None)];
    GrowQueue(rows, ListRow(next, value, None));
    if cap != 0 {
      TrimQueue(grown, cap);
    }
  }

  /** After an enqueue the queue is exactly the last `cap` of what it was and the
      new entry. */
  lemma EnqueueRefines(rows: seq<ListRow>, value: string, cap: int)
    requires Queue(rows)
    ensures Queue(Append(rows, value, cap, None))
    ensures Values(Append(rows, value, cap, None)) == Bounded(Values(rows) + [value], cap)
  {
    AppendIsBounded(rows, value, cap);
    BoundedQueue(rows + [ListRow(NextIndex(rows), value, None)], cap);
  }

  lemma DequeueRefines(rows: seq<ListRow>)
    requires Queue(rows) && rows != []
    ensures Queue(rows[1..]) && Values(rows[1..]) == Values(rows)[1..]
  {
  }

  lemma {:induction false} PurgeKeepsQueue(rows: seq<ListRow>, t: int)
    requires forall i :: 0 <= i < |rows| ==> rows[i].expiresAt.None?
    ensures PurgeRows(rows, t) == rows
  {
    if rows != [] {
      PurgeKeepsQueue(rows[1..], t);
    }
  }

  datatype QueueEvent = Enqueue(entry: string, maxSize: int) | Dequeue | Depth | Cleanup(t: int)

  datatype QueueOutput = Size(depth: nat) | Taken(entry: Option<string>) | Quiet

  function QueueRun(rows: seq<ListRow>, events: seq<QueueEvent>): seq<QueueOutput>
    decreases |events|
  {
    if events == [] then []
    else match events[0]
      case Enqueue(entry, maxSize) =>
        var rows' := Append(rows, entry, maxSize, None);
        [Size(|rows'|)] + QueueRun(rows', events[1..])
      case Dequeue =>
        if rows == [] then [Taken(None)] + QueueRun(rows, events[1..])
        else [Taken(Some(rows[0].value))] + QueueRun(rows[1..], events[1..])
      case Depth => [Size(|rows|)] + QueueRun(rows, events[1..])
      case Cleanup(t) => [Quiet] + QueueRun(PurgeRows(rows, t), events[1..])
  }

  function FifoRun(content: seq<string>, events: seq<QueueEvent>): seq<QueueOutput>
    decreases |events|
  {
    if events == [] then []
    else match events[0]
      case Enqueue(entry, maxSize) =>
        var content' := Bounded(content + [entry], maxSize);
        [Size(|content'|)] + FifoRun(content', events[1..])
      case Dequeue =>
        if content == [] then [Taken(None)] + FifoRun(content, events[1..])
        else [Taken(Some(content[0]))] + FifoRun(content[1..], events[1..])
      case Depth => [Size(|content|)] + FifoRun(content, events[1..])
      case Cleanup(t) => [Quiet] + FifoRun(content, events[1..])
  }

  /** Every run of enqueues, dequeues, depth queries and purges gives the answers of
      the bounded FIFO, also after the queue empties and indices restart at 0. */
  lemma {:induction false} QueueRefinesFifo(rows: seq<ListRow>, events: seq<QueueEvent>)
    requires Queue(rows)
    ensures QueueRun(rows, events) == FifoRun(Values(rows), events)
    decreases |events|
  {
    if events != [] {
      match events[0]
      case Enqueue(entry, maxSize) =>
        EnqueueRefines(rows, entry, maxSize);
        QueueRefinesFifo(Append(rows, entry, maxSize, None), events[1..]);
      case Dequeue =>
        if rows != [] {
          DequeueRefines(rows);
          QueueRefinesFifo(rows[1..], events[1..]);
        } else {
          QueueRefinesFifo(rows, events[1..]);
        }
      case Depth =>
        QueueRefinesFifo(rows, events[1..]);
      case Cleanup(t) =>
        PurgeKeepsQueue(rows, t);
        QueueRefinesFifo(rows, events[1..]);
    }
  }

  // ---------- Lists with expiry ----------

  lemma {:induction false} ViewConcat(a: seq<ListRow>, b: seq<ListRow>, t: int)
    ensures View(a + b, t) == View(a, t) + View(b, t)
  {
    if a == [] {
      assert a + b == b;
    } else {
      assert (a + b)[1..] == a[1..] + b;
      ViewConcat(a[1..], b, t);
    }
  }

  /** A purge at time s shows in no later reading. */
  lemma {:induction false} PurgeInvisible(rows: seq<ListRow>, s: int, t: int)
    requires s <= t
    ensures View(PurgeRows(rows, s), t) == View(rows, t)
  {
    if rows != [] {
      PurgeInvisible(rows[1..], s, t);
      var rest := PurgeRows(rows[1..], s);
      if LiveRow(rows[0], s) {
        assert ([rows[0]] + rest)[1..] == rest;
      }
    }
  }

  /** Without a cap, appends are also unaffected by an earlier purge. */
  lemma UncappedAppendIgnoresPurge(rows: seq<ListRow>, value: string, expiresAt: Option<int>, s: int, t: int)
    requires s <= t
    ensures View(Append(PurgeRows(rows, s), value, 0, expiresAt), t) == View(Append(rows, value, 0, expiresAt), t)
  {
    PurgeInvisible(rows, s, t);
    var p := PurgeRows(rows, s);
    var a, b := ListRow(NextIndex(p), value, expiresAt), ListRow(NextIndex(rows), value, expiresAt);
    ViewConcat(p, [a], t);
    ViewConcat(rows, [b], t);
    assert View([a], t) == View([b], t);
  }

  lemma {:induction false} DropConcat(a: seq<ListRow>, b: seq<ListRow>, cutoff: int)
    ensures DropUpTo(a + b, cutoff) == DropUpTo(a, cutoff) + DropUpTo(b, cutoff)
  {
    if a == [] {
      assert a + b == b;
    } else {
      assert (a + b)[1..] == a[1..] + b;
      DropConcat(a[1..], b, cutoff);
    }
  }

  lemma {:induction false} DropNothing(rows: seq<ListRow>, cutoff: int)
    requires forall i :: 0 <= i < |rows| ==> rows[i].idx > cutoff
    ensures DropUpTo(rows, cutoff) == rows
  {
    if rows != [] {
      DropNothing(rows[1..], cutoff);
    }
  }

  lemma {:induction false} DropAll(rows: seq<ListRow>, cutoff: int)
    requires forall i :: 0 <= i < |rows| ==> rows[i].idx <= cutoff
    ensures DropUpTo(rows, cutoff) == []
  {
    if rows != [] {
      DropAll(rows[1..], cutoff);
    }
  }

  lemma {:induction false} DropPurged(rows: seq<ListRow>, cutoff: int, s: int)
    ensures DropUpTo(PurgeRows(rows, s), cutoff) == PurgeRows(DropUpTo(rows, cutoff), s)
  {
    if rows != [] {
      var row, dropped, purged := rows[0], DropUpTo(rows[1..], cutoff), PurgeRows(rows[1..], s);
      DropPurged(rows[1..], cutoff, s);
      assert ([row] + dropped)[1..] == dropped && ([row] + purged)[1..] == purged;
    }
  }

  lemma {:induction false} PurgedAreRows(rows: seq<ListRow>, s: int)
    ensures forall row :: row in PurgeRows(rows, s) ==> row in rows
  {
    if rows != [] {
      PurgedAreRows(rows[1..], s);
    }
  }

  lemma IndexBounds(rows: seq<ListRow>, s: int)
    requires Ordered(rows)
    ensures 0 <= NextIndex(PurgeRows(rows, s)) <= NextIndex(rows)
    ensures forall row :: row in rows ==> 0 <= row.idx < NextIndex(rows)
    ensures forall row :: row in PurgeRows(rows, s) ==> row in rows
  {
    var purged := PurgeRows(rows, s);
    PurgedAreRows(rows, s);
    if purged != [] {
      assert purged[|purged| - 1] in rows;
    }
  }

  /** With a positive cap an append drops the old rows up to its cutoff. */
  lemma CappedView(rows: seq<ListRow>, value: string, cap: int, expiresAt: Option<int>, t: int)
    requires cap > 0 && NextIndex(rows) >= 0 && forall row :: row in rows ==> row.idx >= 0
    ensures var row := ListRow(NextIndex(rows), value, expiresAt);
      View(Append(rows, value, cap, expiresAt), t) == View(DropUpTo(rows, NextIndex(rows) - cap), t) + View([row], t)
  {
    CappedAppend(rows, value, cap, expiresAt);
    ViewConcat(DropUpTo(rows, NextIndex(rows) - cap), [ListRow(NextIndex(rows), value, expiresAt)], t);
  }

  lemma CappedAppend(rows: seq<ListRow>, value: string, cap: int, expiresAt: Option<int>)
    requires cap > 0 && NextIndex(rows) >= 0 && forall row :: row in rows ==> row.idx >= 0
    ensures Append(rows, value, cap, expiresAt) ==
      DropUpTo(rows, NextIndex(rows) - cap) + [ListRow(NextIndex(rows), value, expiresAt)]
  {
    var next := NextIndex(rows);
    var row := ListRow(next, value, expiresAt);
    DropConcat(rows, [row], next - cap);
    DropNothing([row], next - cap);
    if next - cap < 0 {
      DropNothing(rows, next - cap);
    }
  }

  /** A row that shows at time t lies between the cutoffs. */
  predicate ShownBetween(rows: seq<ListRow>, lo: int, hi: int, t: int) {
    exists i :: 0 <= i < |rows| && Shown(rows[i], t) && lo < rows[i].idx <= hi
  }

  /** Moving the cutoff up changes the view exactly when it takes a shown row away. */
  lemma {:induction false} CutoffShowsIff(rows: seq<ListRow>, lo: int, hi: int, t: int)
    requires lo <= hi
    ensures |View(DropUpTo(rows, hi), t)| <= |View(DropUpTo(rows, lo), t)|
    ensures View(DropUpTo(rows, lo), t) == View(DropUpTo(rows, hi), t) <==> !ShownBetween(rows, lo, hi, t)
    ensures ShownBetween(rows, lo, hi, t) ==> |View(DropUpTo(rows, hi), t)| < |View(DropUpTo(rows, lo), t)|
  {
    if rows != [] {
      var row, tail := rows[0], rows[1..];
      CutoffShowsIff(tail, lo, hi, t);
      var low, high := DropUpTo(tail, lo), DropUpTo(tail, hi);
      assert ([row] + low)[1..] == low && ([row] + high)[1..] == high;
      ShownBetweenCons(row, tail, lo, hi, t);
      assert rows == [row] + tail;
    }
  }

  lemma ShownBetweenCons(row: ListRow, tail: seq<ListRow>, lo: int, hi: int, t: int)
    ensures ShownBetween([row] + tail, lo, hi, t) <==>
      (Shown(row, t) && lo < row.idx <= hi) || ShownBetween(tail, lo, hi, t)
  {
    var rows := [row] + tail;
    assert rows[0] == row && forall i :: 0 <= i < |tail| ==> rows[i + 1] == tail[i];
  }

  lemma OrderedTail(rows: seq<ListRow>)
    requires Ordered(rows) && rows != []
    ensures Ordered(rows[1..]) && rows[0].idx >= 0 && forall row :: row in rows[1..] ==> row.idx > rows[0].idx
  {
    var tail := rows[1..];
    assert forall i :: 0 <= i < |tail| ==> tail[i] == rows[i + 1];
  }

  lemma OrderedCons(row: ListRow, rest: seq<ListRow>)
    requires Ordered(rest) && row.idx >= 0 && forall r :: r in rest ==> r.idx > row.idx
    ensures Ordered([row] + rest)
  {
    assert forall i :: 0 <= i < |rest| ==> rest[i] in rest;
  }

  lemma {:induction false} DropKeepsOrder(rows: seq<ListRow>, cutoff: int)
    requires Ordered(rows)
    ensures Ordered(DropUpTo(rows, cutoff))
    ensures forall row :: row in DropUpTo(rows, cutoff) ==> row in rows
  {
    if rows != [] {
      OrderedTail(rows);
      DropKeepsOrder(rows[1..], cutoff);
      OrderedCons(rows[0], DropUpTo(rows[1..], cutoff));
    }
  }

  lemma {:induction false} PurgeKeepsOrder(rows: seq<ListRow>, s: int)
    requires Ordered(rows)
    ensures Ordered(PurgeRows(rows, s))
  {
    if rows != [] {
      OrderedTail(rows);
      PurgeKeepsOrder(rows[1..], s);
      PurgedAreRows(rows[1..], s);
      OrderedCons(rows[0], PurgeRows(rows[1..], s));
    }
  }

  /** Whatever the cap, appending keeps the indices of a list in order. */
  lemma AppendKeepsOrder(rows: seq<ListRow>, value: string, cap: int, expiresAt: Option<int>)
    requires Ordered(rows)
    ensures Ordered(Append(rows, value, cap, expiresAt))
  {
    DropKeepsOrder(rows + [ListRow(NextIndex(rows), value, expiresAt)], NextIndex(rows) - cap);
  }

  lemma AppendView(rows: seq<ListRow>, value: string, cap: int, expiresAt: Option<int>, t: int)
    requires Ordered(rows) && cap > 0
    ensures View(Append(rows, value, cap, expiresAt), t) ==
      View(DropUpTo(rows, NextIndex(rows) - cap), t) + View([ListRow(0, value, expiresAt)], t)
  {
    IndexBounds(rows, 0);
    CappedView(rows, value, cap, expiresAt, t);
    NewRowView(NextIndex(rows), 0, value, expiresAt, t);
  }

  lemma PurgedAppendView(rows: seq<ListRow>, value: string, cap: int, expiresAt: Option<int>, s: int, t: int)
    requires Ordered(rows) && s <= t && cap > 0
    ensures View(Append(PurgeRows(rows, s), value, cap, expiresAt), t) ==
      View(DropUpTo(rows, NextIndex(PurgeRows(rows, s)) - cap), t) + View([ListRow(0, value, expiresAt)], t)
  {
    PurgeKeepsOrder(rows, s);
    AppendView(PurgeRows(rows, s), value, cap, expiresAt, t);
    PurgedView(rows, NextIndex(PurgeRows(rows, s)) - cap, s, t);
  }

  lemma PurgeLowersNext(rows: seq<ListRow>, s: int)
    requires Ordered(rows)
    ensures NextIndex(PurgeRows(rows, s)) <= NextIndex(rows)
  {
    IndexBounds(rows, s);
  }

  lemma SameEnd(a: seq<string>, b: seq<string>, end: seq<string>)
    ensures a == b <==> a + end == b + end
  {
    if a + end == b + end {
      assert a == (a + end)[..|a|] && b == (b + end)[..|b|];
    }
  }

  lemma CutoffDecides(rows: seq<ListRow>, p: seq<ListRow>, q: seq<ListRow>, end: seq<string>, lo: int, hi: int, t: int)
    requires lo <= hi
    requires View(p, t) == View(DropUpTo(rows, lo), t) + end && View(q, t) == View(DropUpTo(rows, hi), t) + end
    ensures View(p, t) == View(q, t) <==> !ShownBetween(rows, lo, hi, t)
  {
    CutoffShowsIff(rows, lo, hi, t);
    SameEnd(View(DropUpTo(rows, lo), t), View(DropUpTo(rows, hi), t), end);
  }

  lemma PurgedView(rows: seq<ListRow>, cutoff: int, s: int, t: int)
    requires s <= t
    ensures View(DropUpTo(PurgeRows(rows, s), cutoff), t) == View(DropUpTo(rows, cutoff), t)
  {
    DropPurged(rows, cutoff, s);
    PurgeInvisible(DropUpTo(rows, cutoff), s, t);
  }

  lemma NewRowView(i: int, j: int, value: string, expiresAt: Option<int>, t: int)
    ensures View([ListRow(i, value, expiresAt)], t) == View([ListRow(j, value, expiresAt)], t)
  {
  }

  lemma NegativeCapKeepsNothing(rows: seq<ListRow>, value: string, cap: int, expiresAt: Option<int>)
    requires Ordered(rows) && cap < 0
    ensures Append(rows, value, cap, expiresAt) == []
  {
    DropAll(rows + [ListRow(NextIndex(rows), value, expiresAt)], NextIndex(rows) - cap);
  }

  /** A purge before an append shows in a later reading exactly when the cap is
      positive and some row that is still shown then has an index between the
      cutoffs that the append computes with and without the purge. */
  lemma CappedAppendAgreesIff(rows: seq<ListRow>, value: string, cap: int, expiresAt: Option<int>, s: int, t: int)
    requires Ordered(rows) && s <= t
    ensures
      View(Append(PurgeRows(rows, s), value, cap, expiresAt), t) == View(Append(rows, value, cap, expiresAt), t)
      <==> cap <= 0 || !ShownBetween(rows, NextIndex(PurgeRows(rows, s)) - cap, NextIndex(rows) - cap, t)
  {
    if cap > 0 {
      PurgeLowersNext(rows, s);
      AppendView(rows, value, cap, expiresAt, t);
      PurgedAppendView(rows, value, cap, expiresAt, s, t);
      CutoffDecides(rows, Append(PurgeRows(rows, s), value, cap, expiresAt), Append(rows, value, cap, expiresAt),
                    View([ListRow(0, value, expiresAt)], t), NextIndex(PurgeRows(rows, s)) - cap, NextIndex(rows) - cap, t);
    } else if cap == 0 {
      UncappedAppendIgnoresPurge(rows, value, expiresAt, s, t);
    } else {
      PurgeKeepsOrder(rows, s);
      NegativeCapKeepsNothing(rows, value, cap, expiresAt);
      NegativeCapKeepsNothing(PurgeRows(rows, s), value, cap, expiresAt);
    }
  }

  /** With a cap and expiries mixed on one list the moment of the purge shows: a
      trailing expired row still counts towards the cap until it is purged. */
  lemma CappedAppendSeesPurge()
    ensures
      var rows := [ListRow(0, "a", None), ListRow(1, "b", Some(5))];
      && View(Append(rows, "c", 2, None), 10) == ["c"]
      && View(Append(PurgeRows(rows, 9), "c", 2, None), 10) == ["a", "c"]
  {
    var a, b := ListRow(0, "a", None), ListRow(1, "b", Some(5));
    var rows := [a, b];
    assert rows[1..] == [b] && [b][1..] == [] && PurgeRows([b], 9) == [];
    assert PurgeRows(rows, 9) == [a];
    assert Append([a], "c", 2, None) == [a, ListRow(1, "c", None)];
    var c := ListRow(2, "c", None);
    assert DropUpTo([c], 0) == [c];
    assert [b, c][1..] == [c] && DropUpTo([b, c], 0) == [b, c];
    assert [a, b, c][1..] == [b, c] && DropUpTo([a, b, c], 0) == [b, c];
    assert rows + [c] == [a, b, c];
    assert View([c], 10) == ["c"];
    assert [a, ListRow(1, "c", None)][1..] == [ListRow(1, "c", None)];
    assert View([ListRow(1, "c", None)], 10) == ["c"];
  }

  // ---------- Reading a list ----------

  /** A reading shows, in order, the values without an expiry and those whose expiry
      lies ahead: one more row adds its value at the end or nothing. */
  lemma ViewGrows(rows: seq<ListRow>, row: ListRow, t: int)
    ensures View([], t) == []
    ensures View(rows + [row], t) == View(rows, t) + (if row.expiresAt.None? || t < row.expiresAt.value then [row.value] else [])
  {
    ViewConcat(rows, [row], t);
    assert [row][1..] == [];
  }

  /** An appended value is the last one read, exactly as long as its expiry lies ahead,
      and the time-to-live makes no difference to the values before it. */
  lemma AppendThenRead(rows: seq<ListRow>, value: string, cap: int, expiresAt: Option<int>, t: int)
    requires Ordered(rows) && cap >= 0
    ensures var before := View(Append(rows, value, cap, None), t);
      && before != [] && before[|before| - 1] == value
      && View(Append(rows, value, cap, expiresAt), t) ==
           if expiresAt.None? || t < expiresAt.value then before else before[..|before| - 1]
  {
    AppendedView(rows, value, cap, None, t);
    AppendedView(rows, value, cap, expiresAt, t);
    var head := if cap > 0 then View(DropUpTo(rows, NextIndex(rows) - cap), t) else View(rows, t);
    assert (head + [value])[..|head|] == head && head + [] == head;
  }

  lemma AppendedView(rows: seq<ListRow>, value: string, cap: int, expiresAt: Option<int>, t: int)
    requires Ordered(rows) && cap >= 0
    ensures var head := if cap > 0 then View(DropUpTo(rows, NextIndex(rows) - cap), t) else View(rows, t);
      View(Append(rows, value, cap, expiresAt), t) == head + (if expiresAt.None? || t < expiresAt.value then [value] else [])
  {
    var row := ListRow(NextIndex(rows), value, expiresAt);
    IndexBounds(rows, 0);
    if cap > 0 {
      CappedView(rows, value, cap, expiresAt, t);
    } else {
      ViewConcat(rows, [row], t);
    }
    OneRowView(row, t);
  }

  lemma OneRowView(row: ListRow, t: int)
    ensures View([row], t) == if row.expiresAt.None? || t < row.expiresAt.value then [row.value] else []
  {
    assert [row][1..] == [];
  }

  /** With a cap, exactly the rows whose index lies within the last `cap` indices stay. */
  lemma {:induction false} AppendKeepsIff(rows: seq<ListRow>, value: string, cap: int, expiresAt: Option<int>, row: ListRow)
    requires Ordered(rows) && cap >= 0
    ensures row in Append(rows, value, cap, expiresAt) <==>
      || row == ListRow(if rows == [] then 0 else rows[|rows| - 1].idx + 1, value, expiresAt)
      || (row in rows && (cap == 0 || row.idx > (if rows == [] then 0 else rows[|rows| - 1].idx + 1) - cap))
  {
    var next := NextIndex(rows);
    IndexBounds(rows, 0);
    DropMember(rows + [ListRow(next, value, expiresAt)], next - cap, row);
  }

  lemma {:induction false} DropMember(rows: seq<ListRow>, cutoff: int, row: ListRow)
    ensures row in DropUpTo(rows, cutoff) <==> row in rows && row.idx > cutoff
  {
    if rows != [] {
      DropMember(rows[1..], cutoff, row);
    }
  }

  /** A purge removes exactly the rows whose expiry is past. */
  lemma {:induction false} PurgeMember(rows: seq<ListRow>, t: int, row: ListRow)
    ensures row in PurgeRows(rows, t) <==> row in rows && !(row.expiresAt.Some? && row.expiresAt.value < t)
  {
    if rows != [] {
      PurgeMember(rows[1..], t, row);
    }
  }
}
