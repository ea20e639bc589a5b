/** The host sweep of one session: acknowledgement sync, wake, SLA kill and crash
    cleanup over the two session tables, and what any run of it does to the retry
    state of a message. Times are milliseconds. */
module HostSweep {
  import opened Wrappers
  import opened StuckDecision

  const MAX_TRIES: nat := 5
  const BACKOFF_BASE_MS: nat := 5000

  datatype Status = Pending | Paused | Completed | Failed

  /** The process_after column: a text that is no time is neither in the future for
      the host nor due for SQLite. */
  datatype ProcessAfter = Unset | Unreadable | At(time: int)

  /** A row of messages_in. */
  datatype Message = Message(status: Status, tries: nat, processAfter: ProcessAfter, trigger: bool)

  datatype AckStatus = AckProcessing | AckCompleted | AckFailed

  /** A row of processing_ack. */
  datatype Ack = Ack(messageId: string, status: AckStatus, statusChanged: Option<int>)

  type Messages = map<string, Message>

  // ---------- Acknowledgement sync ----------

  function FinishedIds(acks: seq<Ack>): set<string> {
    if acks == [] then {}
    else (if acks[0].status.AckProcessing? then {} else {acks[0].messageId}) + FinishedIds(acks[1..])
  }

  function Synced(messages: Messages, acks: seq<Ack>): Messages {
    map id | id in messages ::
      if id in FinishedIds(acks) then messages[id].(status := Completed) else messages[id]
  }

  // ---------- Retry ----------

  function Pow2(n: nat): nat {
    if n == 0 then 1 else 2 * Pow2(n - 1)
  }

  function BackoffSec(tries: nat): nat {
    BACKOFF_BASE_MS * Pow2(tries) / 1000
  }

  /** SQLite's datetime() keeps whole seconds. */
  function FloorSec(t: int): int {
    t / 1000 * 1000
  }

  predicate Waiting(m: Message, now: int) {
    m.processAfter.At? && m.processAfter.time > now
  }

  /** What a reset at time `now` does to a claimed message, the database clock
      reading `sqlNow`. */
  function ResetMessage(m: Message, now: int, sqlNow: int): Message {
    if m.status != Pending || Waiting(m, now) then m
    else if m.tries >= MAX_TRIES then m.(status := Failed)
    else m.(tries := m.tries + 1, processAfter := At(FloorSec(sqlNow) + 1000 * BackoffSec(m.tries)))
  }

  /** The rows of getProcessingClaims. */
  function ProcessingClaims(acks: seq<Ack>): seq<Claim> {
    if acks == [] then []
    else
      var rest := ProcessingClaims(acks[1..]);
      if acks[0].status.AckProcessing? then [Claim(acks[0].messageId, acks[0].statusChanged)] + rest else rest
  }

  function ClaimedIds(claims: seq<Claim>): set<string> {
    set i | 0 <= i < |claims| :: claims[i].messageId
  }

  function ResetAll(messages: Messages, claims: seq<Claim>, now: int, sqlNow: int): Messages {
    map id | id in messages ::
      if id in ClaimedIds(claims) then ResetMessage(messages[id], now, sqlNow) else messages[id]
  }

  function DropProcessing(acks: seq<Ack>): seq<Ack> {
    if acks == [] then []
    else
      var rest := DropProcessing(acks[1..]);
      if acks[0].status.AckProcessing? then rest else [acks[0]] + rest
  }

  lemma BackoffAtLeast(tries: nat)
    ensures BackoffSec(tries) >= 5
  {
    PowerPositive(tries);
  }

  lemma {:induction false} PowerPositive(n: nat)
    ensures Pow2(n) >= 1
  {
    if n > 0 { PowerPositive(n - 1); }
  }

  /** Resetting once more, up to five seconds after the first reset stamped its
      rows, changes nothing. */
  lemma ResetMessageTwice(m: Message, now: int, sqlNow: int, again: int, sqlAgain: int)
    requires now <= again < FloorSec(sqlNow) + 5000
    ensures ResetMessage(ResetMessage(m, now, sqlNow), again, sqlAgain) == ResetMessage(m, now, sqlNow)
         || (Waiting(m, now) && !Waiting(m, again))
  {
    BackoffAtLeast(m.tries);
  }

  lemma {:induction false} DropLeavesNoClaim(acks: seq<Ack>)
    ensures ProcessingClaims(DropProcessing(acks)) == []
    ensures FinishedIds(DropProcessing(acks)) == FinishedIds(acks)
  {
    if acks != [] {
      DropLeavesNoClaim(acks[1..]);
      var rest := DropProcessing(acks[1..]);
      if !acks[0].status.AckProcessing? {
        assert ([acks[0]] + rest)[1..] == rest;
      }
    }
  }

  // ---------- One tick ----------

  predicate Due(m: Message, now: int) {
    m.status == Pending && m.trigger &&
    match m.processAfter
    case Unset => true
    case Unreadable => false
    case At(time) => FloorSec(time) <= FloorSec(now)
  }

  predicate AnyDue(messages: Messages, now: int) {
    exists id :: id in messages && Due(messages[id], now)
  }

  /** What a tick meets before it awaits the wake: its clock reading, whether the
      outbound database opens, and whether the container runs. */
  datatype Opening = Opening(dueClock: int, hasOutDb: bool, running: bool)

  /** What a tick remembers over the await. */
  datatype OpenTick = OpenTick(hasOutDb: bool, wasRunning: bool, justWoke: bool)

  /** What it meets afterwards: whether the container runs now, what it last reported,
      the clock readings, and whether the claims cannot be deleted. */
  datatype Closing = Closing(alive: bool, heartbeat: int, state: Option<ContainerState>, decideClock: int,
                             now: int, sqlNow: int, deleteFails: bool)

  datatype Opened = Opened(messages: Messages, tick: OpenTick)

  datatype Closed = Closed(messages: Messages, acks: seq<Ack>, killed: bool)

  function OpenSweep(messages: Messages, acks: seq<Ack>, o: Opening): Opened {
    var synced := if o.hasOutDb then Synced(messages, acks) else messages;
    Opened(synced, OpenTick(o.hasOutDb, o.running, AnyDue(synced, o.dueClock) && !o.running))
  }

  /** Without a wake there is no await, so the container is as it was. */
  predicate Fits(tick: OpenTick, c: Closing) {
    c.now <= c.sqlNow && (!tick.justWoke ==> c.alive == tick.wasRunning)
  }

  function CloseSweep(messages: Messages, acks: seq<Ack>, tick: OpenTick, c: Closing): Closed {
    var claims := ProcessingClaims(acks);
    var killed := c.alive && tick.hasOutDb && !tick.justWoke && Decide(c.decideClock, c.heartbeat, c.state, claims) != Spare;
    if killed || (!c.alive && tick.hasOutDb) then
      Closed(ResetAll(messages, claims, c.now, c.sqlNow), if c.deleteFails then acks else DropProcessing(acks), killed)
    else Closed(messages, acks, killed)
  }

  /** A tick that has just woken the container never kills it. */
  lemma FreshlyWokenIsSpared(messages: Messages, acks: seq<Ack>, tick: OpenTick, c: Closing)
    requires Fits(tick, c) && CloseSweep(messages, acks, tick, c).killed
    ensures tick.wasRunning && !tick.justWoke
  {
  }

  /** After a kill or a crash cleanup the old claims are gone, so they cannot have
      the next container killed. */
  lemma CleanupPreventsClaimKill(messages: Messages, acks: seq<Ack>, tick: OpenTick, c: Closing, r: Reading)
    requires tick.hasOutDb && !c.deleteFails && (CloseSweep(messages, acks, tick, c).killed || !c.alive)
    requires r.claims == ProcessingClaims(CloseSweep(messages, acks, tick, c).acks)
    ensures !Decide(r.now, r.heartbeat, r.state, r.claims).KillClaim?
  {
    DropLeavesNoClaim(acks);
  }

  /** The tables and the tick, as the second half of a sweep meets them. */
  datatype Watch = Watch(messages: Messages, acks: seq<Ack>, tick: OpenTick, closing: Closing)

  function ReadingOf(w: Watch): Reading {
    Reading(w.closing.decideClock, w.closing.heartbeat, w.closing.state, ProcessingClaims(w.acks))
  }

  predicate KilledBy(w: Watch) {
    CloseSweep(w.messages, w.acks, w.tick, w.closing).killed
  }

  /** Ticks at most `gap` apart that find the container running, have not just woken
      it and can read its database kill it within the tolerance plus one gap, once it
      has been silent since a claim. */
  lemma SweepsKillInTime(watches: seq<Watch>, c: int, declared: int, gap: int)
    requires |watches| > 0
    requires forall w :: w in watches ==> w.tick.hasOutDb && !w.tick.justWoke && w.closing.alive && SilentSince(ReadingOf(w), c, declared)
    requires forall j :: 0 <= j < |watches| - 1 ==>
      watches[j].closing.decideClock <= watches[j + 1].closing.decideClock <= watches[j].closing.decideClock + gap
    requires watches[0].closing.decideClock <= c + Max(CLAIM_STUCK_MS, declared) + gap
    requires watches[|watches| - 1].closing.decideClock > c + Max(CLAIM_STUCK_MS, declared)
    ensures exists i :: 0 <= i < |watches| && KilledBy(watches[i])
                     && watches[i].closing.decideClock <= c + Max(CLAIM_STUCK_MS, declared) + gap
  {
    var readings := seq(|watches|, i requires 0 <= i < |watches| => ReadingOf(watches[i]));
    assert forall j :: 0 <= j < |watches| ==> watches[j] in watches;
    SilentIsKilledInTime(readings, c, declared, gap);
    var k :| 0 <= k < |readings| && Killed(readings[k]) && readings[k].now <= c + Max(CLAIM_STUCK_MS, declared) + gap;
    assert KilledBy(watches[k]);
  }

  // ---------- The two session tables ----------

  class SessionDbs {
    var messages: Messages
    var acks: seq<Ack>

    constructor (messages: Messages, acks: seq<Ack>)
      ensures this.messages == messages && this.acks == acks
    {
      this.messages, this.acks := messages, acks;
    }

    method SyncProcessingAcks()
      modifies this`messages
      ensures messages == Synced(old(messages), acks)
    {
      ghost var before := messages;
      var i := 0;
      while i < |acks|
        invariant 0 <= i <= |acks|
        invariant Synced(messages, acks[i..]) == Synced(before, acks)
      {
        var ack := acks[i];
        assert acks[i..][0] == ack && acks[i..][1..] == acks[i + 1..];
        if !ack.status.AckProcessing? && ack.messageId in messages {
          messages := messages[ack.messageId := messages[ack.messageId].(status := Completed)];
        }
        i := i + 1;
      }
      assert messages == Synced(messages, acks[i..]);
    }

    /** Retry, or give up on, every claimed message that is pending and due; then
        drop the claims, unless the outbound database cannot be written. */
    method ResetStuckProcessingRows(now: int, sqlNow: int, deleteFails: bool)
      requires now <= sqlNow
      modifies this
      ensures messages == ResetAll(old(messages), ProcessingClaims(old(acks)), now, sqlNow)
      ensures acks == if deleteFails then old(acks) else DropProcessing(old(acks))
    {
      var claims := ProcessingClaims(acks);
      ghost var before := messages;
      for i := 0 to |claims|
        invariant acks == old(acks)
        invariant messages == ResetAll(before, claims[..i], now, sqlNow)
      {
        var id := claims[i].messageId;
        ClaimedIdsNext(claims, i);
        if id in messages {
          var msg := messages[id];
          ResetMessageSettles(before[id], now, sqlNow);
          if msg.status == Pending && !Waiting(msg, now) {
            if msg.tries >= MAX_TRIES {
              messages := messages[id := msg.(status := Failed)];
            } else {
              messages := messages[id := msg.(tries := msg.tries + 1,
                processAfter := At(FloorSec(sqlNow) + 1000 * BackoffSec(msg.tries)))];
            }
          }
        }
      }
      assert claims[..|claims|] == claims;
      if !deleteFails {
        acks := DropProcessing(acks);
      }
    }

    /** A tick for the session up to the await on the wake. */
    method StartSweep(o: Opening) returns (tick: OpenTick)
      modifies this`messages
      ensures Opened(messages, tick) == OpenSweep(old(messages), acks, o)
    {
      if o.hasOutDb {
        SyncProcessingAcks();
      }
      var justWoke := false;
      if AnyDue(messages, o.dueClock) && !o.running {
        justWoke := true;
      }
      tick := OpenTick(o.hasOutDb, o.running, justWoke);
    }

    /** The rest of the tick; the tables may have changed meanwhile. */
    method FinishSweep(tick: OpenTick, c: Closing) returns (killed: bool)
      requires Fits(tick, c)
      modifies this
      ensures Closed(messages, acks, killed) == CloseSweep(old(messages), old(acks), tick, c)
    {
      killed := false;
      if c.alive && tick.hasOutDb && !tick.justWoke {
        var decision := Decide(c.decideClock, c.heartbeat, c.state, ProcessingClaims(acks));
        if decision != Spare {
          killed := true;
          ResetStuckProcessingRows(c.now, c.sqlNow, c.deleteFails);
        }
      }
      if !c.alive && tick.hasOutDb {
        ResetStuckProcessingRows(c.now, c.sqlNow, c.deleteFails);
      }
    }
  }

  lemma ClaimedIdsNext(claims: seq<Claim>, i: nat)
    requires i < |claims|
    ensures ClaimedIds(claims[..i + 1]) == ClaimedIds(claims[..i]) + {claims[i].messageId}
  {
    var next := claims[..i + 1];
    assert next[i] == claims[i];
    forall id | id in ClaimedIds(claims[..i]) ensures id in ClaimedIds(next) {
      var j :| 0 <= j < i && claims[..i][j].messageId == id;
      assert next[j].messageId == id;
    }
    forall id | id in ClaimedIds(next) ensures id in ClaimedIds(claims[..i]) + {claims[i].messageId} {
      var j :| 0 <= j < i + 1 && next[j].messageId == id;
      if j < i { assert claims[..i][j].messageId == id; }
    }
  }

  /** A message that has just been reset is not reset by a second claim on it. */
  lemma ResetMessageSettles(m: Message, now: int, sqlNow: int)
    requires now <= sqlNow
    ensures ResetMessage(ResetMessage(m, now, sqlNow), now, sqlNow) == ResetMessage(m, now, sqlNow)
  {
    BackoffAtLeast(m.tries);
  }

  // ---------- Runs ----------

  /** The seconds granted by the five reschedules. */
  const SCHEDULE: seq<int> := [5, 10, 20, 40, 80]

  /** Anything that touches a session: the two halves of a sweep tick, with the other
      events between them while the wake is awaited; the container rewriting its own
      acknowledgements in any way (claims, completions, start-up cleanup); a new
      message; the scheduling module editing a live task. */
  datatype Event =
    | SweepStarts(o: Opening)
    | SweepEnds(c: Closing)
    | ContainerWrites(acks: seq<Ack>)
    | Arrive(id: string, processAfter: ProcessAfter, trigger: bool)
    | EditTask(id: string, status: Status, processAfter: ProcessAfter)

  /** The tables, the tick under way, and for each message the delays granted so far. */
  datatype World = World(messages: Messages, acks: seq<Ack>, tick: Option<OpenTick>, granted: map<string, seq<int>>)

  predicate Enabled(w: World, e: Event) {
    match e
    case SweepStarts(_) => w.tick.None?
    case SweepEnds(c) => w.tick.Some? && Fits(w.tick.value, c)
    case ContainerWrites(_) => true
    case Arrive(id, _, _) => id !in w.messages
    case EditTask(id, status, _) =>
      id in w.messages && w.messages[id].status in {Pending, Paused} && status in {Pending, Paused, Completed}
  }

  function Grants(before: Messages, after: Messages, granted: map<string, seq<int>>, sqlNow: int): map<string, seq<int>> {
    map id | id in granted ::
      if id in before && id in after then GrantOne(before[id], after[id], granted[id], sqlNow) else granted[id]
  }

  function Next(w: World, e: Event): World
    requires Enabled(w, e)
  {
    match e
    case SweepStarts(o) =>
      var half := OpenSweep(w.messages, w.acks, o);
      w.(messages := half.messages, tick := Some(half.tick))
    case SweepEnds(c) =>
      var closed := CloseSweep(w.messages, w.acks, w.tick.value, c);
      World(closed.messages, closed.acks, None, Grants(w.messages, closed.messages, w.granted, c.sqlNow))
    case ContainerWrites(acks) => w.(acks := acks)
    case Arrive(id, processAfter, trigger) =>
      w.(messages := w.messages[id := Message(Pending, 0, processAfter, trigger)], granted := w.granted[id := []])
    case EditTask(id, status, processAfter) =>
      w.(messages := w.messages[id := w.messages[id].(status := status, processAfter := processAfter)])
  }

  predicate Possible(w: World, events: seq<Event>)
    decreases |events|
  {
    events == [] || (Enabled(w, events[0]) && Possible(Next(w, events[0]), events[1..]))
  }

  function After(w: World, events: seq<Event>): World
    requires Possible(w, events)
    decreases |events|
  {
    if events == [] then w else After(Next(w, events[0]), events[1..])
  }

  predicate MessageInv(m: Message, granted: seq<int>) {
    && m.tries <= MAX_TRIES
    && (m.status == Failed ==> m.tries == MAX_TRIES)
    && granted == SCHEDULE[..m.tries]
  }

  predicate Inv(w: World) {
    && w.granted.Keys == w.messages.Keys
    && forall id :: id in w.messages ==> MessageInv(w.messages[id], w.granted[id])
  }

  lemma ScheduleIsBackoff(tries: nat)
    requires tries < MAX_TRIES
    ensures BackoffSec(tries) == SCHEDULE[tries]
    ensures SCHEDULE[..tries + 1] == SCHEDULE[..tries] + [BackoffSec(tries)]
  {
    assert Pow2(0) == 1 && Pow2(1) == 2 && Pow2(2) == 4 && Pow2(3) == 8 && Pow2(4) == 16;
  }

  lemma DelayIsBackoff(base: int, sec: int)
    ensures (base + 1000 * sec - base) / 1000 == sec
  {
  }

  function GrantOne(before: Message, after: Message, granted: seq<int>, sqlNow: int): seq<int> {
    if after.tries != before.tries && after.processAfter.At?
    then granted + [(after.processAfter.time - FloorSec(sqlNow)) / 1000]
    else granted
  }

  lemma ResetKeepsInv(m: Message, granted: seq<int>, now: int, sqlNow: int)
    requires MessageInv(m, granted)
    ensures var m' := ResetMessage(m, now, sqlNow);
      m.tries <= m'.tries <= m.tries + 1 && MessageInv(m', GrantOne(m, m', granted, sqlNow))
  {
    if m.tries < MAX_TRIES {
      ScheduleIsBackoff(m.tries);
      DelayIsBackoff(FloorSec(sqlNow), BackoffSec(m.tries));
    }
  }

  /** Whatever half a tick does to a message is at most a completion or a reset. */
  lemma OpeningOnMessage(messages: Messages, acks: seq<Ack>, o: Opening, id: string)
    requires id in messages
    ensures var m, after := messages[id], OpenSweep(messages, acks, o).messages;
      id in after && (after[id] == m || after[id] == m.(status := Completed))
  {
  }

  lemma ClosingOnMessage(messages: Messages, acks: seq<Ack>, tick: OpenTick, c: Closing, id: string)
    requires id in messages
    ensures var m, after := messages[id], CloseSweep(messages, acks, tick, c).messages;
      id in after && (after[id] == m || after[id] == ResetMessage(m, c.now, c.sqlNow))
  {
  }

  lemma SweepKeepsInv(w: World, e: Event, id: string)
    requires Inv(w) && Enabled(w, e) && (e.SweepStarts? || e.SweepEnds?) && id in w.messages
    ensures id in Next(w, e).messages
    ensures w.messages[id].tries <= Next(w, e).messages[id].tries <= w.messages[id].tries + 1
    ensures MessageInv(Next(w, e).messages[id], Next(w, e).granted[id])
  {
    if e.SweepStarts? {
      OpeningOnMessage(w.messages, w.acks, e.o, id);
    } else {
      ClosingOnMessage(w.messages, w.acks, w.tick.value, e.c, id);
      ResetKeepsInv(w.messages[id], w.granted[id], e.c.now, e.c.sqlNow);
    }
  }

  lemma NextKeepsInv(w: World, e: Event)
    requires Inv(w) && Enabled(w, e)
    ensures Inv(Next(w, e))
    ensures forall id :: id in w.messages ==>
      id in Next(w, e).messages && w.messages[id].tries <= Next(w, e).messages[id].tries <= w.messages[id].tries + 1
  {
    if e.SweepStarts? || e.SweepEnds? {
      forall id | id in w.messages
        ensures id in Next(w, e).messages
        ensures w.messages[id].tries <= Next(w, e).messages[id].tries <= w.messages[id].tries + 1
        ensures MessageInv(Next(w, e).messages[id], Next(w, e).granted[id])
      {
        SweepKeepsInv(w, e, id);
      }
    }
  }

  /** Over every interleaving of sweeps, container writes, arrivals and edits: tries
      never decrease and never pass five, a message fails only at five, and the
      delays it has been granted are the first of 5, 10, 20, 40 and 80 seconds. */
  lemma {:induction false} RunKeepsRetryLaw(w: World, events: seq<Event>)
    requires Inv(w) && Possible(w, events)
    ensures Inv(After(w, events))
    ensures forall id :: id in w.messages ==>
      id in After(w, events).messages && w.messages[id].tries <= After(w, events).messages[id].tries
    decreases |events|
  {
    if events != [] {
      NextKeepsInv(w, events[0]);
      RunKeepsRetryLaw(Next(w, events[0]), events[1..]);
    }
  }

  // ---------- What a tick does, field by field ----------

  predicate ClaimedNow(acks: seq<Ack>, id: string) {
    exists a :: a in acks && a.messageId == id && a.status == AckProcessing
  }

  predicate FinishedNow(acks: seq<Ack>, id: string) {
    exists a :: a in acks && a.messageId == id && (a.status == AckCompleted || a.status == AckFailed)
  }

  /** The limits on a running container, half an hour and a minute, stretched to a
      declared Bash timeout. */
  predicate OverLimit(acks: seq<Ack>, c: Closing) {
    var ceiling := if DeclaredMs(c.state) > 1800000 then DeclaredMs(c.state) else 1800000;
    var tolerance := if DeclaredMs(c.state) > 60000 then DeclaredMs(c.state) else 60000;
    || (c.heartbeat != 0 && c.decideClock - c.heartbeat > ceiling)
    || exists a :: a in acks && a.status == AckProcessing && a.statusChanged.Some?
                && c.decideClock - a.statusChanged.value > tolerance && c.heartbeat <= a.statusChanged.value
  }

  lemma {:induction false} ClaimsOf(acks: seq<Ack>)
    ensures forall claim :: claim in ProcessingClaims(acks) <==>
      exists a :: a in acks && a.status == AckProcessing && claim == Claim(a.messageId, a.statusChanged)
  {
    if acks != [] {
      ClaimsOf(acks[1..]);
      assert forall a :: a in acks <==> a == acks[0] || a in acks[1..];
    }
  }

  lemma {:induction false} FinishedIff(acks: seq<Ack>, id: string)
    ensures id in FinishedIds(acks) <==> FinishedNow(acks, id)
  {
    if acks != [] {
      FinishedIff(acks[1..], id);
      assert forall a :: a in acks <==> a == acks[0] || a in acks[1..];
      assert acks[0].status == AckProcessing || acks[0].status == AckCompleted || acks[0].status == AckFailed;
    }
  }

  lemma ClaimedIff(acks: seq<Ack>, id: string)
    ensures id in ClaimedIds(ProcessingClaims(acks)) <==> ClaimedNow(acks, id)
  {
    ClaimsOf(acks);
    var claims := ProcessingClaims(acks);
    if id in ClaimedIds(claims) {
      var i :| 0 <= i < |claims| && claims[i].messageId == id;
      assert claims[i] in claims;
    }
    if ClaimedNow(acks, id) {
      var a :| a in acks && a.messageId == id && a.status == AckProcessing;
      assert Claim(a.messageId, a.statusChanged) in claims;
    }
  }

  lemma OverLimitIff(acks: seq<Ack>, c: Closing)
    ensures Decide(c.decideClock, c.heartbeat, c.state, ProcessingClaims(acks)) != Spare <==> OverLimit(acks, c)
  {
    ClaimsOf(acks);
    DecideInNumbers(c.decideClock, c.heartbeat, c.state, ProcessingClaims(acks));
    if OverLimit(acks, c) && !(c.heartbeat != 0 && c.decideClock - c.heartbeat > (if DeclaredMs(c.state) > 1800000 then DeclaredMs(c.state) else 1800000)) {
      var tolerance := if DeclaredMs(c.state) > 60000 then DeclaredMs(c.state) else 60000;
      var a :| a in acks && a.status == AckProcessing && a.statusChanged.Some?
            && c.decideClock - a.statusChanged.value > tolerance && c.heartbeat <= a.statusChanged.value;
      assert Claim(a.messageId, a.statusChanged) in ProcessingClaims(acks);
    }
  }

  /** The tick ends with its container dead, or killed for being over a limit. */
  predicate Cleans(acks: seq<Ack>, tick: OpenTick, c: Closing) {
    tick.hasOutDb && (!c.alive || (!tick.justWoke && OverLimit(acks, c)))
  }

  /** The message is pending, and no time it waits for lies ahead. */
  predicate Retriable(m: Message, now: int) {
    m.status == Pending && !(m.processAfter.At? && m.processAfter.time > now)
  }

  /** The message is pending, asks to be processed, and its second has come. */
  predicate HasComeDue(m: Message, now: int) {
    && m.status == Pending && m.trigger
    && (m.processAfter == Unset || (m.processAfter.At? && m.processAfter.time / 1000 <= now / 1000))
  }

  /** The first half of a tick completes exactly the messages that the container has
      finished, and wakes exactly when none runs and some message is due. */
  lemma SweepStartDoes(w: World, o: Opening, id: string)
    requires Enabled(w, SweepStarts(o)) && id in w.messages
    ensures var w' := Next(w, SweepStarts(o));
      && id in w'.messages
      && w'.messages[id] == (if o.hasOutDb && FinishedNow(w.acks, id) then w.messages[id].(status := Completed) else w.messages[id])
      && w'.acks == w.acks && w'.tick.Some? && w'.tick.value.hasOutDb == o.hasOutDb
      && (w'.tick.value.justWoke <==> !o.running && exists x :: x in w'.messages && HasComeDue(w'.messages[x], o.dueClock))
  {
    FinishedIff(w.acks, id);
  }

  /** The second half retries exactly the claimed messages that can be, when the
      container is dead or killed: five seconds times two to the tries already made
      later, or never again after five. Nothing else changes. */
  lemma SweepEndDoes(w: World, c: Closing, id: string)
    requires Enabled(w, SweepEnds(c)) && id in w.messages
    ensures var m, after := w.messages[id], Next(w, SweepEnds(c)).messages;
      id in after && after[id] ==
        if !Cleans(w.acks, w.tick.value, c) || !ClaimedNow(w.acks, id) || !Retriable(m, c.now) then m
        else if m.tries >= 5 then m.(status := Failed)
        else m.(tries := m.tries + 1, processAfter := At(c.sqlNow / 1000 * 1000 + 5000 * [1, 2, 4, 8, 16][m.tries]))
  {
    ClaimedIff(w.acks, id);
    OverLimitIff(w.acks, c);
    assert Pow2(0) == 1 && Pow2(1) == 2 && Pow2(2) == 4 && Pow2(3) == 8 && Pow2(4) == 16;
  }

  /** The container is killed exactly when it runs, was not just woken, and is over a
      limit; a kill or a cleanup drops the claims in progress and no other row. */
  lemma SweepEndKills(messages: Messages, acks: seq<Ack>, tick: OpenTick, c: Closing)
    ensures var closed := CloseSweep(messages, acks, tick, c);
      && (closed.killed <==> c.alive && tick.hasOutDb && !tick.justWoke && OverLimit(acks, c))
      && (Cleans(acks, tick, c) && !c.deleteFails ==>
            forall a :: multiset(closed.acks)[a] == if a.status == AckProcessing then 0 else multiset(acks)[a])
      && (!Cleans(acks, tick, c) || c.deleteFails ==> closed.acks == acks)
  {
    OverLimitIff(acks, c);
    DroppedCount(acks);
  }

  lemma {:induction false} DroppedCount(acks: seq<Ack>)
    ensures forall a :: multiset(DropProcessing(acks))[a] == if a.status == AckProcessing then 0 else multiset(acks)[a]
  {
    if acks != [] {
      DroppedCount(acks[1..]);
      assert acks == [acks[0]] + acks[1..];
    }
  }

  // ---------- Crash loops over whole runs ----------

  /** The event is the end of a tick that retries the message, or gives up on it. */
  predicate Retries(w: World, e: Event, id: string) {
    && e.SweepEnds? && w.tick.Some? && id in w.messages
    && Cleans(w.acks, w.tick.value, e.c) && ClaimedNow(w.acks, id) && Retriable(w.messages[id], e.c.now)
  }

  function CountRetries(w: World, events: seq<Event>, id: string): nat
    requires Possible(w, events)
    decreases |events|
  {
    if events == [] then 0
    else (if Retries(w, events[0], id) then 1 else 0) + CountRetries(Next(w, events[0]), events[1..], id)
  }

  /** The sync of the event completes the message. */
  predicate Completes(w: World, e: Event, id: string) {
    e.SweepStarts? && e.o.hasOutDb && FinishedNow(w.acks, id)
  }

  predicate NeverCompleted(w: World, events: seq<Event>, id: string)
    requires Possible(w, events)
    decreases |events|
  {
    events == [] || (!Completes(w, events[0], id) && NeverCompleted(Next(w, events[0]), events[1..], id))
  }

  /** Tries made, the one that ended in failure included. */
  function Spent(m: Message): nat {
    m.tries + (if m.status == Failed then 1 else 0)
  }

  lemma StepSpends(w: World, e: Event, id: string)
    requires Inv(w) && Enabled(w, e) && id in w.messages && !Completes(w, e, id)
    ensures id in Next(w, e).messages
    ensures Spent(Next(w, e).messages[id]) == Spent(w.messages[id]) + (if Retries(w, e, id) then 1 else 0)
  {
    match e
    case SweepStarts(o) => SweepStartDoes(w, o, id);
    case SweepEnds(c) => SweepEndDoes(w, c, id);
    case _ =>
  }

  /** In every run in which no sync completes the message, each tick that cleans up
      after its container while the message is claimed and due spends exactly one try,
      and nothing else does. */
  lemma {:induction false} RetriesAreCounted(w: World, events: seq<Event>, id: string)
    requires Inv(w) && Possible(w, events) && id in w.messages && NeverCompleted(w, events, id)
    ensures id in After(w, events).messages
    ensures Spent(After(w, events).messages[id]) == Spent(w.messages[id]) + CountRetries(w, events, id)
    decreases |events|
  {
    if events != [] {
      NextKeepsInv(w, events[0]);
      StepSpends(w, events[0], id);
      RetriesAreCounted(Next(w, events[0]), events[1..], id);
    }
  }

  /** So a message that is claimed and due at six such ticks has failed, and before
      that it has not. */
  lemma SixCrashesFail(w: World, events: seq<Event>, id: string)
    requires Inv(w) && Possible(w, events) && id in w.messages && NeverCompleted(w, events, id)
    requires w.messages[id].status != Failed
    ensures id in After(w, events).messages
    ensures After(w, events).messages[id].status == Failed <==> w.messages[id].tries + CountRetries(w, events, id) >= 6
  {
    RetriesAreCounted(w, events, id);
    RunKeepsRetryLaw(w, events);
  }

  /** A second reset at any instant up to five seconds after the first stamped its
      rows changes no message, even if the claims could not be deleted, provided it
      comes before every wait that the first one honoured has run out. */
  lemma ResetTwice(messages: Messages, claims: seq<Claim>, now: int, sqlNow: int, again: int, sqlAgain: int)
    requires now <= again < FloorSec(sqlNow) + 5000
    requires forall id :: id in messages && Waiting(messages[id], now) ==> Waiting(messages[id], again)
    ensures ResetAll(ResetAll(messages, claims, now, sqlNow), claims, again, sqlAgain)
         == ResetAll(messages, claims, now, sqlNow)
  {
    forall id | id in messages
      ensures ResetMessage(ResetMessage(messages[id], now, sqlNow), again, sqlAgain) == ResetMessage(messages[id], now, sqlNow)
    {
      ResetMessageTwice(messages[id], now, sqlNow, again, sqlAgain);
    }
  }

  /** In particular a second reset at the very same instant. */
  lemma ResetIsIdempotent(messages: Messages, claims: seq<Claim>, now: int, sqlNow: int)
    requires now <= sqlNow
    ensures ResetAll(ResetAll(messages, claims, now, sqlNow), claims, now, sqlNow)
         == ResetAll(messages, claims, now, sqlNow)
  {
    ResetTwice(messages, claims, now, sqlNow, now, sqlNow);
  }

  /** Resets of one message at the given instants, one after the other. */
  function Resets(m: Message, instants: seq<int>): Message
    decreases |instants|
  {
    if instants == [] then m else Resets(ResetMessage(m, instants[0], instants[0]), instants[1..])
  }

  /** Each instant comes after the delay that the previous reset granted. */
  predicate EachDue(m: Message, instants: seq<int>)
    decreases |instants|
  {
    instants == [] ||
    (!Waiting(m, instants[0]) && EachDue(ResetMessage(m, instants[0], instants[0]), instants[1..]))
  }

  /** A message whose container keeps dying is not retried for ever: it has failed
      exactly when it has been reset more often than it had tries left. */
  lemma {:induction false} CrashLoopEnds(m: Message, instants: seq<int>)
    requires m.status == Pending && m.tries <= MAX_TRIES && EachDue(m, instants)
    ensures Resets(m, instants).status == Failed <==> m.tries + |instants| > MAX_TRIES
    decreases |instants|
  {
    if instants != [] {
      var m' := ResetMessage(m, instants[0], instants[0]);
      if m'.status == Failed {
        FailedStays(m', instants[1..]);
      } else {
        CrashLoopEnds(m', instants[1..]);
      }
    }
  }

  lemma {:induction false} FailedStays(m: Message, instants: seq<int>)
    requires m.status == Failed
    ensures Resets(m, instants) == m
    decreases |instants|
  {
    if instants != [] {
      FailedStays(m, instants[1..]);
    }
  }
}
