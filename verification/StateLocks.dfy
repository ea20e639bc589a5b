/** The locks of the chat state store: token rows with an expiry, proved mutually
    exclusive over every run. */
module StateLocks {
  /** A row of chat_sdk_locks. */
  datatype LockRow = LockRow(token: string, expiresAt: int)

  type LockTable = map<string, LockRow>

  function PurgeLocks(locks: LockTable, t: int): LockTable {
    map k | k in locks && locks[k].expiresAt >= t :: locks[k]
  }

  // ---------- The operations on the table ----------

  /** A fresh row goes in unless one is still there that has not expired. */
  predicate CanAcquire(locks: LockTable, k: string, now: int) {
    k in locks ==> locks[k].expiresAt < now
  }

  function AfterAcquire(locks: LockTable, k: string, token: string, ttl: int, now: int): LockTable {
    if CanAcquire(locks, k, now) then locks[k := LockRow(token, now + ttl)] else locks
  }

  predicate HoldsRow(locks: LockTable, k: string, token: string) {
    k in locks && locks[k].token == token
  }

  function AfterRelease(locks: LockTable, k: string, token: string): LockTable {
    if HoldsRow(locks, k, token) then locks - {k} else locks
  }

  function AfterExtend(locks: LockTable, k: string, token: string, ttl: int, now: int): LockTable {
    if HoldsRow(locks, k, token) then locks[k := LockRow(token, now + ttl)] else locks
  }

  // ---------- Runs ----------

  datatype LockEvent =
    | Acquire(k: string, token: string, ttl: int, now: int)
    | Release(token: string, now: int)
    | Extend(token: string, ttl: int, now: int)
    | ForceRelease(k: string, now: int)
    | PurgeExpired(now: int)

  datatype Status = Held | Released | Forced

  /** What is known of a lock object handed out earlier: its key, its own expiresAt
      field, and whether its holder or a force-release has given it up. */
  datatype Issued = Issued(k: string, expiresAt: int, status: Status)

  datatype World = World(locks: LockTable, issued: map<string, Issued>, now: int)

  /** Time does not go back, tokens are fresh, and only issued locks are released or extended. */
  predicate Enabled(w: World, e: LockEvent) {
    && w.now <= e.now
    && (e.Acquire? ==> e.token !in w.issued)
    && (e.Release? || e.Extend? ==> e.token in w.issued)
  }

  function Next(w: World, e: LockEvent): World
    requires Enabled(w, e)
  {
    match e
    case Acquire(k, token, ttl, now) =>
      World(AfterAcquire(w.locks, k, token, ttl, now),
            if CanAcquire(w.locks, k, now) then w.issued[token := Issued(k, now + ttl, Held)] else w.issued,
            now)
    case Release(token, now) =>
      World(AfterRelease(w.locks, w.issued[token].k, token),
            w.issued[token := w.issued[token].(status := Released)],
            now)
    case Extend(token, ttl, now) =>
      var k := w.issued[token].k;
      World(AfterExtend(w.locks, k, token, ttl, now),
            if HoldsRow(w.locks, k, token) then w.issued[token := w.issued[token].(expiresAt := now + ttl)] else w.issued,
            now)
    case ForceRelease(k, now) =>
      World(w.locks - {k},
            if k in w.locks && w.locks[k].token in w.issued
            then w.issued[w.locks[k].token := w.issued[w.locks[k].token].(status := Forced)]
            else w.issued,
            now)
    case PurgeExpired(now) =>
      World(PurgeLocks(w.locks, now), w.issued, now)
  }

  predicate Possible(w: World, events: seq<LockEvent>)
    decreases |events|
  {
    events == [] || (Enabled(w, events[0]) && Possible(Next(w, events[0]), events[1..]))
  }

  function After(w: World, events: seq<LockEvent>): World
    requires Possible(w, events)
    decreases |events|
  {
    if events == [] then w else After(Next(w, events[0]), events[1..])
  }

  /** Every row belongs to a held lock with the same expiry, and a held lock that
      has lost its row has expired. */
  predicate Inv(w: World) {
    && (forall k :: k in w.locks ==>
          var token := w.locks[k].token;
          token in w.issued && w.issued[token] == Issued(k, w.locks[k].expiresAt, Held))
    && (forall token :: token in w.issued && w.issued[token].status == Held ==>
          HoldsRow(w.locks, w.issued[token].k, token) || w.issued[token].expiresAt < w.now)
  }

  lemma NextKeepsInv(w: World, e: LockEvent)
    requires Inv(w) && Enabled(w, e)
    ensures Inv(Next(w, e))
  {
  }

  lemma {:induction false} RunKeepsInv(w: World, events: seq<LockEvent>)
    requires Inv(w) && Possible(w, events)
    ensures Inv(After(w, events)) && w.now <= After(w, events).now
    decreases |events|
  {
    if events != [] {
      NextKeepsInv(w, events[0]);
      RunKeepsInv(Next(w, events[0]), events[1..]);
    }
  }

  function EmptyAt(start: int): World {
    World(map[], map[], start)
  }

  /** When `acquireLock` succeeds at time t after any run, every earlier lock on
      that key has been released, force-released, or expired before t. */
  lemma AcquireExcludesEarlier(start: int, events: seq<LockEvent>, e: LockEvent, earlier: string)
    requires Possible(EmptyAt(start), events) && e.Acquire?
    requires var w := After(EmptyAt(start), events);
      Enabled(w, e) && CanAcquire(w.locks, e.k, e.now) && earlier in w.issued && w.issued[earlier].k == e.k
    ensures var was := After(EmptyAt(start), events).issued[earlier];
      was.status != Held || was.expiresAt < e.now
  {
    RunKeepsInv(EmptyAt(start), events);
  }

  /** And it fails only while some earlier lock on the key is held and unexpired. */
  lemma AcquireFailsOnlyWhenHeld(start: int, events: seq<LockEvent>, e: LockEvent)
    requires Possible(EmptyAt(start), events) && e.Acquire?
    requires var w := After(EmptyAt(start), events);
      Enabled(w, e) && !CanAcquire(w.locks, e.k, e.now)
    ensures var w := After(EmptyAt(start), events);
      exists token :: token in w.issued && w.issued[token].k == e.k && w.issued[token].status == Held
                   && w.issued[token].expiresAt >= e.now
  {
    RunKeepsInv(EmptyAt(start), events);
    var w := After(EmptyAt(start), events);
    assert w.locks[e.k].token in w.issued;
  }

  /** At no time do two held, unexpired locks share a key. */
  lemma MutualExclusion(start: int, events: seq<LockEvent>, a: string, b: string)
    requires Possible(EmptyAt(start), events)
    requires var w := After(EmptyAt(start), events);
      && a in w.issued && b in w.issued && w.issued[a].k == w.issued[b].k
      && w.issued[a].status == Held && w.issued[a].expiresAt >= w.now
      && w.issued[b].status == Held && w.issued[b].expiresAt >= w.now
    ensures a == b
  {
    RunKeepsInv(EmptyAt(start), events);
  }

  /** Once another lock has taken over the key, the old holder can neither delete
      nor prolong the new holder's row, at any later time. */
  lemma SupersededHolderIsHarmless(w: World, a: string, b: string, ttl: int, now: int)
    requires Inv(w) && w.now <= now && a != b
    requires a in w.issued && b in w.issued && w.issued[a].k == w.issued[b].k
    requires HoldsRow(w.locks, w.issued[b].k, b)
    ensures Next(w, Release(a, now)).locks == w.locks
    ensures Next(w, Extend(a, ttl, now)).locks == w.locks
    ensures Next(w, Extend(a, ttl, now)).issued == w.issued
  {
  }

  /** A lock that lost its key to another never gets it back. */
  lemma {:induction false} SupersededForever(w: World, events: seq<LockEvent>, a: string)
    requires Inv(w) && Possible(w, events) && a in w.issued && !HoldsRow(w.locks, w.issued[a].k, a)
    ensures a in After(w, events).issued && After(w, events).issued[a].k == w.issued[a].k
    ensures !HoldsRow(After(w, events).locks, w.issued[a].k, a)
    ensures After(w, events).issued[a].expiresAt == w.issued[a].expiresAt
    decreases |events|
  {
    if events != [] {
      NextKeepsInv(w, events[0]);
      SupersededForever(Next(w, events[0]), events[1..], a);
    }
  }
}
