/** The state adapter itself: a class over shared tables whose methods are the SQL
    statements of the source, each tied to the specification of its table. */
module StateAdapter {
  import opened Wrappers
  import opened StateKv
  import opened StateLocks
  import opened StateLists
  import N = StateNamespaces

  /** The chat_sdk_* tables, shared by every adapter instance. */
  class ChatSdkDb {
    var kv: KvTable
    var subscriptions: set<string>
    var locks: LockTable
    var lists: ListTable

    constructor ()
      ensures kv == map[] && subscriptions == {} && locks == map[] && lists == map[]
    {
      kv, subscriptions, locks, lists := map[], {}, map[], map[];
    }
  }

  /** What a holder keeps: the raw thread id, its token and its own expiry. */
  class Lock {
    const threadId: string
    const token: string
    var expiresAt: int

    constructor (threadId: string, token: string, expiresAt: int)
      ensures this.threadId == threadId && this.token == token && this.expiresAt == expiresAt
    {
      this.threadId, this.token, this.expiresAt := threadId, token, expiresAt;
    }
  }

  class SqliteStateAdapter {
    const db: ChatSdkDb
    const namespace: Option<string>

    constructor (db: ChatSdkDb, namespace: Option<string>)
      ensures this.db == db && this.namespace == namespace
    {
      this.db, this.namespace := db, namespace;
    }

    function K(key: string): string {
      N.Key(namespace, key)
    }

    method Cleanup(now: int)
      modifies db
      ensures db.kv == Purge(old(db.kv), now)
      ensures db.locks == PurgeLocks(old(db.locks), now)
      ensures db.lists == PurgeLists(old(db.lists), now)
      ensures db.subscriptions == old(db.subscriptions)
      ensures forall k :: k in db.kv <==> k in old(db.kv) && !(old(db.kv)[k].expiresAt.Some? && old(db.kv)[k].expiresAt.value < now)
      ensures forall k :: k in db.kv ==> db.kv[k] == old(db.kv)[k]
      ensures forall k :: k in db.locks <==> k in old(db.locks) && old(db.locks)[k].expiresAt >= now
      ensures forall k :: k in db.locks ==> db.locks[k] == old(db.locks)[k]
    {
      db.kv := map k | k in db.kv && !(db.kv[k].expiresAt.Some? && db.kv[k].expiresAt.value < now) :: db.kv[k];
      db.locks := map k | k in db.locks && !(db.locks[k].expiresAt < now) :: db.locks[k];
      db.lists := PurgeLists(db.lists, now);
    }

    // ---------- Key-value ----------

    method Get(key: string, t0: int, t1: int) returns (value: Option<string>)
      modifies db
      ensures KvStep(db.kv, Found(value)) == Apply(old(db.kv), StateKv.Get(K(key), t0, t1))
      ensures db.locks == PurgeLocks(old(db.locks), t0) && db.lists == PurgeLists(old(db.lists), t0)
      ensures db.subscriptions == old(db.subscriptions)
      ensures value == if K(key) !in old(db.kv) then None
                       else
                         var row := old(db.kv)[K(key)];
                         if row.expiresAt.Some? && (row.expiresAt.value < t0 || (row.expiresAt.value != 0 && row.expiresAt.value < t1))
                         then None else Some(row.value)
    {
      Cleanup(t0);
      var k := K(key);
      if k !in db.kv {
        return None;
      }
      var row := db.kv[k];
      if row.expiresAt.Some? && row.expiresAt.value != 0 && row.expiresAt.value < t1 {
        db.kv := db.kv - {k};
        return None;
      }
      value := Some(row.value);
    }

    method Set(key: string, value: string, ttl: Option<int>, now: int)
      modifies db`kv
      ensures db.kv == Apply(old(db.kv), StateKv.Set(K(key), value, ttl, now)).table
      ensures db.kv == old(db.kv)[K(key) := KvRow(value, if ttl.Some? && ttl.value != 0 then Some(now + ttl.value) else None)]
    {
      db.kv := db.kv[K(key) := KvRow(value, Expiry(now, ttl))];
    }

    method SetIfNotExists(key: string, value: string, ttl: Option<int>, t0: int, t1: int) returns (changed: bool)
      modifies db`kv
      ensures KvStep(db.kv, Inserted(changed))
           == Apply(old(db.kv), StateKv.SetIfNotExists(K(key), value, ttl, t0, t1))
      ensures !changed <==>
        K(key) in old(db.kv) && var x := old(db.kv)[K(key)].expiresAt; x.None? || x.value == 0 || t0 <= x.value
      ensures db.kv == if changed
        then old(db.kv)[K(key) := KvRow(value, if ttl.Some? && ttl.value != 0 then Some(t1 + ttl.value) else None)]
        else old(db.kv)
    {
      var k := K(key);
      if k in db.kv {
        var expiresAt := db.kv[k].expiresAt;
        if expiresAt.Some? && expiresAt.value != 0 && expiresAt.value < t0 {
          db.kv := db.kv - {k};
        }
      }
      changed := k !in db.kv;
      if changed {
        db.kv := db.kv[k := KvRow(value, Expiry(t1, ttl))];
      }
    }

    method Delete(key: string, now: int)
      modifies db`kv
      ensures db.kv == Apply(old(db.kv), StateKv.Delete(K(key), now)).table
      ensures db.kv == old(db.kv) - {K(key)}
    {
      db.kv := db.kv - {K(key)};
    }

    // ---------- Subscriptions ----------

    method Subscribe(threadId: string)
      modifies db`subscriptions
      ensures db.subscriptions == old(db.subscriptions) + {K(threadId)}
    {
      db.subscriptions := db.subscriptions + {K(threadId)};
    }

    method Unsubscribe(threadId: string)
      modifies db`subscriptions
      ensures db.subscriptions == old(db.subscriptions) - {K(threadId)}
    {
      db.subscriptions := db.subscriptions - {K(threadId)};
    }

    // ---------- Locks ----------

    method AcquireLock(threadId: string, ttl: int, now: int, token: string) returns (lock: Lock?)
      modifies db`locks
      ensures db.locks == AfterAcquire(old(db.locks), K(threadId), token, ttl, now)
      ensures lock != null <==> CanAcquire(old(db.locks), K(threadId), now)
      ensures lock != null ==> fresh(lock) && lock.threadId == threadId && lock.token == token
      ensures lock != null ==> lock.expiresAt == now + ttl
      ensures lock != null <==> K(threadId) !in old(db.locks) || old(db.locks)[K(threadId)].expiresAt < now
      ensures db.locks == if lock != null then old(db.locks)[K(threadId) := LockRow(token, now + ttl)] else old(db.locks)
    {
      var expiresAt, k := now + ttl, K(threadId);
      if k in db.locks && db.locks[k].expiresAt < now {
        db.locks := db.locks - {k};
      }
      if k in db.locks {
        return null;
      }
      db.locks := db.locks[k := LockRow(token, expiresAt)];
      assert db.locks == AfterAcquire(old(db.locks), k, token, ttl, now);
      lock := new Lock(threadId, token, expiresAt);
    }

    method ReleaseLock(lock: Lock)
      modifies db`locks
      ensures db.locks == AfterRelease(old(db.locks), K(lock.threadId), lock.token)
      ensures K(lock.threadId) in db.locks ==> db.locks[K(lock.threadId)].token != lock.token
      ensures db.locks - {K(lock.threadId)} == old(db.locks) - {K(lock.threadId)}
      ensures K(lock.threadId) in old(db.locks) && old(db.locks)[K(lock.threadId)].token != lock.token ==> db.locks == old(db.locks)
    {
      var k := K(lock.threadId);
      if k in db.locks && db.locks[k].token == lock.token {
        db.locks := db.locks - {k};
      }
    }

    method ExtendLock(lock: Lock, ttl: int, now: int) returns (extended: bool)
      modifies db`locks, lock`expiresAt
      ensures db.locks == AfterExtend(old(db.locks), K(lock.threadId), lock.token, ttl, now)
      ensures extended <==> HoldsRow(old(db.locks), K(lock.threadId), lock.token)
      ensures lock.expiresAt == if extended then now + ttl else old(lock.expiresAt)
      ensures extended <==> K(lock.threadId) in old(db.locks) && old(db.locks)[K(lock.threadId)].token == lock.token
      ensures db.locks == if extended then old(db.locks)[K(lock.threadId) := LockRow(lock.token, now + ttl)] else old(db.locks)
    {
      var newExpiry, k := now + ttl, K(lock.threadId);
      extended := k in db.locks && db.locks[k].token == lock.token;
      if extended {
        db.locks := db.locks[k := LockRow(lock.token, newExpiry)];
        lock.expiresAt := newExpiry;
      }
    }

    method ForceReleaseLock(threadId: string)
      modifies db`locks
      ensures db.locks == old(db.locks) - {K(threadId)}
    {
      db.locks := db.locks - {K(threadId)};
    }

    // ---------- Lists and queues ----------

    method AppendToList(key: string, value: string, maxLength: int, ttl: Option<int>, now: int)
      modifies db`lists
      ensures db.lists == old(db.lists)[K(key) := Append(RowsOf(old(db.lists), K(key)), value, maxLength,
          if ttl.Some? && ttl.value != 0 then Some(now + ttl.value) else None)]
    {
      var expiresAt, k := Expiry(now, ttl), K(key);
      var rows := RowsOf(db.lists, k);
      var next := if rows == [] then 0 else rows[|rows| - 1].idx + 1;
      db.lists := db.lists[k := rows + [ListRow(next, value, expiresAt)]];
      if maxLength != 0 {
        var cutoff := next - maxLength;
        if cutoff >= 0 {
          db.lists := db.lists[k := DropUpTo(db.lists[k], cutoff)];
        }
      }
    }

    method GetList(key: string, now: int) returns (values: seq<string>)
      ensures values == View(RowsOf(db.lists, K(key)), now)
    {
      var rows := RowsOf(db.lists, K(key));
      values := [];
      for i := 0 to |rows|
        invariant values + View(rows[i..], now) == View(rows, now)
      {
        assert rows[i..][1..] == rows[i + 1..];
        if rows[i].expiresAt.None? || rows[i].expiresAt.value > now {
          values := values + [rows[i].value];
        }
      }
    }

    function QueueKey(threadId: string): string {
      "queue:" + threadId
    }

    ghost function QueueRows(threadId: string): seq<ListRow>
      reads db
    {
      RowsOf(db.lists, K(QueueKey(threadId)))
    }

    /** The queue holds the last maxSize of what it held and the new entry, the
        answer is its new size, and no other key changes. */
    method Enqueue(threadId: string, entry: string, maxSize: int, now: int) returns (depth: nat)
      requires Queue(QueueRows(threadId))
      modifies db`lists
      ensures Queue(QueueRows(threadId))
      ensures Values(QueueRows(threadId)) == Bounded(old(Values(QueueRows(threadId))) + [entry], maxSize)
      ensures var all := old(Values(QueueRows(threadId))) + [entry];
        maxSize >= 1 ==> Values(QueueRows(threadId)) == all[if |all| <= maxSize then 0 else |all| - maxSize..]
      ensures depth == |QueueRows(threadId)|
      ensures forall k :: k != K(QueueKey(threadId)) ==> RowsOf(db.lists, k) == RowsOf(old(db.lists), k)
    {
      EnqueueRefines(QueueRows(threadId), entry, maxSize);
      AppendToList(QueueKey(threadId), entry, maxSize, None, now);
      depth := QueueDepth(threadId);
    }

    /** The oldest entry, if any, is taken and the rest stay in order. */
    method Dequeue(threadId: string) returns (entry: Option<string>)
      requires Queue(QueueRows(threadId))
      modifies db`lists
      ensures Queue(QueueRows(threadId))
      ensures var was := old(Values(QueueRows(threadId)));
        if was == [] then entry == None && db.lists == old(db.lists)
        else entry == Some(was[0]) && Values(QueueRows(threadId)) == was[1..]
      ensures forall k :: k != K(QueueKey(threadId)) ==> RowsOf(db.lists, k) == RowsOf(old(db.lists), k)
    {
      var k := K(QueueKey(threadId));
      var rows := RowsOf(db.lists, k);
      if rows == [] {
        return None;
      }
      DequeueRefines(rows);
      db.lists := db.lists[k := rows[1..]];
      entry := Some(rows[0].value);
    }

    method QueueDepth(threadId: string) returns (depth: nat)
      ensures depth == |QueueRows(threadId)|
    {
      depth := |RowsOf(db.lists, K(QueueKey(threadId)))|;
    }
  }

  /** What an append at time t to a list means for a reading at time u, with nothing
      else done to the list: the value is read last, exactly as long as its
      time-to-live has not run out, for ever when that is missing or 0. */
  lemma AppendThenReadByTtl(rows: seq<ListRow>, value: string, cap: int, ttl: Option<int>, t: int, u: int)
    requires Ordered(rows) && cap >= 0
    ensures var forEver := View(Append(rows, value, cap, None), u);
      && forEver != [] && forEver[|forEver| - 1] == value
      && View(Append(rows, value, cap, Expiry(t, ttl)), u) ==
           if ttl.None? || ttl.value == 0 || u < t + ttl.value then forEver else forEver[..|forEver| - 1]
  {
    AppendThenRead(rows, value, cap, Expiry(t, ttl), u);
  }
}
