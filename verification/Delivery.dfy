/** Outbound delivery: any number of poll chains drain sessions concurrently,
    interleaving wherever the source awaits. One event is one segment between two
    awaits. */
module Delivery {
  type Id = string
  type Session = string
  type Chain = nat

  const MAX_DELIVERY_ATTEMPTS: nat := 3

  /** The status column of the delivered table. */
  datatype Verdict = Delivered | GaveUp

  type Attempts = map<Id, nat>
  type Verdicts = map<Id, Verdict>

  function Count(m: map<Id, nat>, id: Id): nat {
    if id in m then m[id] else 0
  }

  /** The due messages that the delivered table does not know, in order. */
  function Undelivered(due: seq<Id>, verdicts: Verdicts): seq<Id> {
    if due == [] then []
    else
      var rest := Undelivered(due[1..], verdicts);
      if due[0] in verdicts then rest else [due[0]] + rest
  }

  /** How an attempt ends: whether the adapter call returned, and whether the
      delivered table can be written. */
  datatype Ending = Ending(sent: bool, writable: bool)

  /** INSERT OR IGNORE. */
  function Record(verdicts: Verdicts, id: Id, v: Verdict): Verdicts {
    if id in verdicts then verdicts else verdicts[id := v]
  }

  datatype Settled = Settled(attempts: Attempts, verdicts: Verdicts, aborted: bool)

  /** The code after the awaited delivery, try and catch arm together. A table that
      cannot be written turns a sent message into a failed attempt, and lets the
      error of giving up escape from the drain. */
  function Settle(attempts: Attempts, verdicts: Verdicts, id: Id, e: Ending): Settled {
    if e.sent && e.writable then
      Settled(attempts - {id}, Record(verdicts, id, Delivered), false)
    else
      var n := Count(attempts, id) + 1;
      if n < MAX_DELIVERY_ATTEMPTS then Settled(attempts[id := n], verdicts, false)
      else if e.writable then Settled(attempts - {id}, Record(verdicts, id, GaveUp), false)
      else Settled(attempts[id := n], verdicts, true)
  }

  // ---------- The module state of the source ----------

  class DeliveryHost {
    var deliveryAttempts: Attempts
    var inflightDeliveries: set<Session>
    var delivered: Verdicts

    constructor ()
      ensures deliveryAttempts == map[] && inflightDeliveries == {} && delivered == map[]
    {
      deliveryAttempts, inflightDeliveries, delivered := map[], {}, map[];
    }

    /** Re-entry is refused; otherwise the guard is set and the snapshot read. */
    method Enter(session: Session, due: seq<Id>) returns (entered: bool, snapshot: seq<Id>)
      modifies this`inflightDeliveries
      ensures entered <==> session !in old(inflightDeliveries)
      ensures inflightDeliveries == old(inflightDeliveries) + {session}
      ensures entered ==> snapshot == Undelivered(due, delivered)
    {
      if session in inflightDeliveries {
        return false, [];
      }
      inflightDeliveries := inflightDeliveries + {session};
      snapshot := [];
      for i := 0 to |due|
        invariant snapshot + Undelivered(due[i..], delivered) == Undelivered(due, delivered)
      {
        assert due[i..][1..] == due[i + 1..];
        if due[i] !in delivered {
          snapshot := snapshot + [due[i]];
        }
      }
      entered := true;
    }

    method Finish(id: Id, e: Ending) returns (aborted: bool)
      modifies this`deliveryAttempts, this`delivered
      ensures Settled(deliveryAttempts, delivered, aborted) == Settle(old(deliveryAttempts), old(delivered), id, e)
      ensures forall x :: x != id ==> Count(deliveryAttempts, x) == old(Count(deliveryAttempts, x))
      ensures delivered - {id} == old(delivered) - {id}
      ensures id !in old(delivered) ==>
        if !e.writable then id !in delivered
        else if e.sent then id in delivered && delivered[id] == Delivered
        else if old(Count(deliveryAttempts, id)) >= 2 then id in delivered && delivered[id] == GaveUp
        else id !in delivered
      ensures Count(deliveryAttempts, id) == if e.writable && (e.sent || old(Count(deliveryAttempts, id)) >= 2) then 0 else old(Count(deliveryAttempts, id)) + 1
      ensures aborted <==> !e.writable && old(Count(deliveryAttempts, id)) >= 2
    {
      aborted := false;
      if e.sent && e.writable {
        delivered := Record(delivered, id, Delivered);
        deliveryAttempts := deliveryAttempts - {id};
      } else {
        var attempts := Count(deliveryAttempts, id) + 1;
        deliveryAttempts := deliveryAttempts[id := attempts];
        if attempts >= MAX_DELIVERY_ATTEMPTS {
          if e.writable {
            delivered := Record(delivered, id, GaveUp);
            deliveryAttempts := deliveryAttempts - {id};
          } else {
            aborted := true;
          }
        }
      }
    }

    method Leave(session: Session)
      modifies this`inflightDeliveries
      ensures inflightDeliveries == old(inflightDeliveries) - {session}
    {
      inflightDeliveries := inflightDeliveries - {session};
    }
  }

  // ---------- The interleaved system ----------

  /** A chain inside a session: its snapshot, how far it is, whether it awaits a
      delivery, and how many attempts each snapshot message had left at the start. */
  datatype Drain = Drain(session: Session, snapshot: seq<Id>, pos: nat, awaiting: bool, quota: seq<nat>)

  /** The module state, the open drains, and the history of one process lifetime:
      attempts begun, messages sent, which chain last opened a session that is still
      open, and which chain began the attempt of a message that is still under way. */
  datatype Host = Host(attempts: Attempts, inflight: set<Session>, verdicts: Verdicts,
                       chains: map<Chain, Drain>,
                       tried: map<Id, nat>, sent: map<Id, nat>,
                       holder: map<Session, Chain>, current: map<Id, Chain>)

  datatype Event =
    | EnterSession(chain: Chain, session: Session, due: seq<Id>)
    | Begin(chain: Chain)
    | End(chain: Chain, ending: Ending)
    | LeaveSession(chain: Chain)

  predicate Distinct(s: seq<Id>) {
    forall i, j :: 0 <= i < j < |s| ==> s[i] != s[j]
  }

  /** Message ids are unique: every id has one owning session. */
  predicate Owned(s: seq<Id>, session: Session, owner: Id -> Session) {
    forall i :: 0 <= i < |s| ==> owner(s[i]) == session
  }

  function Remaining(h: Host, id: Id): nat {
    if id in h.verdicts || Count(h.attempts, id) >= MAX_DELIVERY_ATTEMPTS then 0
    else MAX_DELIVERY_ATTEMPTS - Count(h.attempts, id)
  }

  function Quota(h: Host, s: seq<Id>): seq<nat> {
    seq(|s|, i requires 0 <= i < |s| => Remaining(h, s[i]))
  }

  predicate Enabled(h: Host, e: Event, owner: Id -> Session) {
    match e
    case EnterSession(chain, session, due) => chain !in h.chains && Distinct(due) && Owned(due, session, owner)
    case Begin(chain) => chain in h.chains && !h.chains[chain].awaiting && h.chains[chain].pos < |h.chains[chain].snapshot|
    case End(chain, _) => chain in h.chains && h.chains[chain].awaiting && h.chains[chain].pos < |h.chains[chain].snapshot|
    case LeaveSession(chain) => chain in h.chains && !h.chains[chain].awaiting && h.chains[chain].pos >= |h.chains[chain].snapshot|
  }

  function Next(h: Host, e: Event, owner: Id -> Session): Host
    requires Enabled(h, e, owner)
  {
    match e
    case EnterSession(chain, session, due) =>
      if session in h.inflight then h
      else
        var snapshot := Undelivered(due, h.verdicts);
        h.(inflight := h.inflight + {session},
           chains := h.chains[chain := Drain(session, snapshot, 0, false, Quota(h, snapshot))],
           holder := h.holder[session := chain])
    case Begin(chain) =>
      var d := h.chains[chain];
      var id := d.snapshot[d.pos];
      h.(chains := h.chains[chain := d.(awaiting := true)],
         tried := h.tried[id := Count(h.tried, id) + 1],
         current := h.current[id := chain])
    case End(chain, ending) =>
      var d := h.chains[chain];
      var id := d.snapshot[d.pos];
      var s := Settle(h.attempts, h.verdicts, id, ending);
      h.(attempts := s.attempts, verdicts := s.verdicts,
         chains := h.chains[chain := d.(awaiting := false, pos := if s.aborted then |d.snapshot| else d.pos + 1)],
         sent := if ending.sent then h.sent[id := Count(h.sent, id) + 1] else h.sent,
         current := h.current - {id})
    case LeaveSession(chain) =>
      var session := h.chains[chain].session;
      h.(inflight := h.inflight - {session}, chains := h.chains - {chain}, holder := h.holder - {session})
  }

  predicate Possible(h: Host, events: seq<Event>, owner: Id -> Session)
    decreases |events|
  {
    events == [] || (Enabled(h, events[0], owner) && Possible(Next(h, events[0], owner), events[1..], owner))
  }

  function After(h: Host, events: seq<Event>, owner: Id -> Session): Host
    requires Possible(h, events, owner)
    decreases |events|
  {
    if events == [] then h else After(Next(h, events[0], owner), events[1..], owner)
  }

  /** After an attempt the drain goes on to the next message of its snapshot, unless
      that was the last, or a third failure could not be recorded. */
  lemma DrainGoesOn(h: Host, chain: Chain, e: Ending, owner: Id -> Session)
    requires Enabled(h, End(chain, e), owner)
    ensures var d, h' := h.chains[chain], Next(h, End(chain, e), owner);
      && (Enabled(h', Begin(chain), owner) <==>
            d.pos + 1 < |d.snapshot| && (e.writable || Count(h.attempts, d.snapshot[d.pos]) + 1 < 3))
      && (Enabled(h', Begin(chain), owner) ==> h'.chains[chain].snapshot[h'.chains[chain].pos] == d.snapshot[d.pos + 1])
      && h'.inflight == h.inflight && h'.chains.Keys == h.chains.Keys
  {
  }

  /** Whether the end of an attempt calls for a verdict, and whether it gets one. */
  predicate CallsForVerdict(attempts: Attempts, id: Id, e: Ending) {
    e.sent || Count(attempts, id) + 1 >= MAX_DELIVERY_ATTEMPTS
  }

  predicate Records(attempts: Attempts, id: Id, e: Ending) {
    e.writable && CallsForVerdict(attempts, id, e)
  }

  /** The message whose attempt an event ends. */
  function Ended(h: Host, e: Event, owner: Id -> Session): Id
    requires Enabled(h, e, owner) && e.End?
  {
    h.chains[e.chain].snapshot[h.chains[e.chain].pos]
  }

  predicate StepRecords(h: Host, e: Event, owner: Id -> Session)
    requires Enabled(h, e, owner)
  {
    e.End? && CallsForVerdict(h.attempts, Ended(h, e, owner), e.ending) ==> e.ending.writable
  }

  /** The delivered table can be written whenever an attempt calls for a verdict. */
  predicate Recordable(h: Host, events: seq<Event>, owner: Id -> Session)
    requires Possible(h, events, owner)
    decreases |events|
  {
    events == [] || (StepRecords(h, events[0], owner) && Recordable(Next(h, events[0], owner), events[1..], owner))
  }

  // ---------- What holds whatever can be written ----------

  /** The guard set is exactly the sessions being drained, each by one chain. */
  predicate GuardInv(h: Host) {
    && h.inflight == h.holder.Keys
    && (forall c :: c in h.chains ==> h.chains[c].session in h.holder && h.holder[h.chains[c].session] == c)
    && (forall s :: s in h.holder ==> h.holder[s] in h.chains && h.chains[h.holder[s]].session == s)
  }

  /** What is left of a snapshot is undecided. */
  predicate DrainOpen(h: Host, d: Drain, owner: Id -> Session) {
    && Distinct(d.snapshot) && Owned(d.snapshot, d.session, owner)
    && d.pos <= |d.snapshot|
    && (d.awaiting ==> d.pos < |d.snapshot|)
    && (forall j :: d.pos <= j < |d.snapshot| ==> d.snapshot[j] !in h.verdicts)
  }

  predicate Awaits(d: Drain, id: Id) {
    d.awaiting && d.pos < |d.snapshot| && d.snapshot[d.pos] == id
  }

  /** A message is under way exactly when one chain awaits it. */
  ghost predicate CurrentInv(h: Host) {
    && (forall c, id :: c in h.chains && Awaits(h.chains[c], id) ==> id in h.current && h.current[id] == c)
    && (forall id :: id in h.current ==> h.current[id] in h.chains && Awaits(h.chains[h.current[id]], id))
  }

  ghost predicate BaseInv(h: Host, owner: Id -> Session) {
    && GuardInv(h)
    && (forall c :: c in h.chains ==> DrainOpen(h, h.chains[c], owner))
    && CurrentInv(h)
  }

  lemma {:induction false} UndeliveredFacts(due: seq<Id>, verdicts: Verdicts, session: Session, owner: Id -> Session)
    requires Distinct(due) && Owned(due, session, owner)
    ensures var s := Undelivered(due, verdicts);
      && Distinct(s) && Owned(s, session, owner)
      && (forall i :: 0 <= i < |s| ==> s[i] in due && s[i] !in verdicts)
  {
    if due != [] {
      var tail := due[1..];
      assert forall i :: 0 <= i < |tail| ==> tail[i] == due[i + 1];
      UndeliveredFacts(tail, verdicts, session, owner);
      FactsCons(due[0], due, Undelivered(tail, verdicts), verdicts, session, owner);
    }
  }

  lemma FactsCons(id: Id, due: seq<Id>, rest: seq<Id>, verdicts: Verdicts, session: Session, owner: Id -> Session)
    requires Distinct(due) && due != [] && id == due[0] && owner(id) == session
    requires Distinct(rest) && Owned(rest, session, owner)
    requires forall i :: 0 <= i < |rest| ==> rest[i] in due[1..] && rest[i] !in verdicts
    ensures forall i :: 0 <= i < |rest| ==> rest[i] in due
    ensures Distinct([id] + rest) && Owned([id] + rest, session, owner)
  {
    assert forall i :: 0 <= i < |rest| ==> rest[i] != id;
  }

  /** Drains of different chains share no message. */
  lemma SnapshotsApart(h: Host, owner: Id -> Session, c: Chain, d: Chain, i: nat, j: nat)
    requires BaseInv(h, owner) && c in h.chains && d in h.chains && c != d
    requires i < |h.chains[c].snapshot| && j < |h.chains[d].snapshot|
    ensures h.chains[c].snapshot[i] != h.chains[d].snapshot[j]
  {
    assert DrainOpen(h, h.chains[c], owner) && DrainOpen(h, h.chains[d], owner);
  }

  lemma HeadIsFree(h: Host, chain: Chain, owner: Id -> Session)
    requires BaseInv(h, owner) && Enabled(h, Begin(chain), owner)
    ensures var d := h.chains[chain];
      d.snapshot[d.pos] !in h.verdicts && d.snapshot[d.pos] !in h.current
  {
    var d := h.chains[chain];
    var id := d.snapshot[d.pos];
    assert DrainOpen(h, d, owner);
    if id in h.current {
      var b := h.current[id];
      SnapshotsApart(h, owner, chain, b, d.pos, h.chains[b].pos);
    }
  }

  lemma OpenKept(h: Host, h': Host, owner: Id -> Session)
    requires (forall c :: c in h.chains ==> DrainOpen(h, h.chains[c], owner)) && h'.verdicts == h.verdicts
    ensures forall c :: c in h.chains ==> DrainOpen(h', h.chains[c], owner)
  {
    forall c | c in h.chains ensures DrainOpen(h', h.chains[c], owner) {
      assert DrainOpen(h, h.chains[c], owner);
    }
  }

  lemma GuardWith(h: Host, h': Host, c: Chain, d: Drain)
    requires GuardInv(h) && c !in h.chains && d.session !in h.inflight
    requires h'.inflight == h.inflight + {d.session} && h'.chains == h.chains[c := d] && h'.holder == h.holder[d.session := c]
    ensures GuardInv(h')
  {
    forall b | b in h'.chains ensures h'.chains[b].session in h'.holder && h'.holder[h'.chains[b].session] == b {
      if b != c { assert b in h.chains && h.chains[b].session in h.holder; }
    }
  }

  lemma EnterKeepsGuard(h: Host, e: Event, owner: Id -> Session)
    requires GuardInv(h) && Enabled(h, e, owner) && e.EnterSession?
    ensures GuardInv(Next(h, e, owner))
  {
    var h' := Next(h, e, owner);
    if e.session !in h.inflight {
      GuardWith(h, h', e.chain, h'.chains[e.chain]);
    }
  }

  lemma EnterKeepsCurrent(h: Host, e: Event, owner: Id -> Session)
    requires CurrentInv(h) && Enabled(h, e, owner) && e.EnterSession?
    ensures CurrentInv(Next(h, e, owner))
  {
    var h' := Next(h, e, owner);
    forall c, id | c in h'.chains && Awaits(h'.chains[c], id) ensures id in h'.current && h'.current[id] == c {
      assert c in h.chains && Awaits(h.chains[c], id);
    }
  }

  lemma EnterKeepsBase(h: Host, e: Event, owner: Id -> Session)
    requires BaseInv(h, owner) && Enabled(h, e, owner) && e.EnterSession?
    ensures BaseInv(Next(h, e, owner), owner)
  {
    var h' := Next(h, e, owner);
    if e.session !in h.inflight {
      EnterKeepsGuard(h, e, owner);
      EnterKeepsCurrent(h, e, owner);
      OpenKept(h, h', owner);
      UndeliveredFacts(e.due, h.verdicts, e.session, owner);
      forall c | c in h'.chains ensures DrainOpen(h', h'.chains[c], owner) {
        if c != e.chain { assert DrainOpen(h', h.chains[c], owner); }
      }
    }
  }

  lemma BeginKeepsGuard(h: Host, e: Event, owner: Id -> Session)
    requires GuardInv(h) && Enabled(h, e, owner) && e.Begin?
    ensures GuardInv(Next(h, e, owner))
  {
  }

  lemma BeginKeepsCurrent(h: Host, e: Event, owner: Id -> Session)
    requires CurrentInv(h) && Enabled(h, e, owner) && e.Begin?
    requires h.chains[e.chain].snapshot[h.chains[e.chain].pos] !in h.current
    ensures CurrentInv(Next(h, e, owner))
  {
    var h' := Next(h, e, owner);
    forall c, id | c in h'.chains && Awaits(h'.chains[c], id) ensures id in h'.current && h'.current[id] == c {
      assert c != e.chain ==> Awaits(h.chains[c], id);
    }
    forall id | id in h'.current ensures h'.current[id] in h'.chains && Awaits(h'.chains[h'.current[id]], id) {
      if id in h.current { assert Awaits(h.chains[h.current[id]], id); }
    }
  }

  lemma BeginKeepsBase(h: Host, e: Event, owner: Id -> Session)
    requires BaseInv(h, owner) && Enabled(h, e, owner) && e.Begin?
    ensures BaseInv(Next(h, e, owner), owner)
  {
    var h' := Next(h, e, owner);
    HeadIsFree(h, e.chain, owner);
    BeginKeepsGuard(h, e, owner);
    BeginKeepsCurrent(h, e, owner);
    OpenKept(h, h', owner);
    forall c | c in h'.chains ensures DrainOpen(h', h'.chains[c], owner) {
      assert DrainOpen(h', h.chains[c], owner);
    }
  }

  lemma LeaveKeepsCurrent(h: Host, e: Event, owner: Id -> Session)
    requires CurrentInv(h) && Enabled(h, e, owner) && e.LeaveSession?
    ensures CurrentInv(Next(h, e, owner))
  {
    var h' := Next(h, e, owner);
    forall c, id | c in h'.chains && Awaits(h'.chains[c], id) ensures id in h'.current && h'.current[id] == c {
      assert c in h.chains && Awaits(h.chains[c], id);
    }
    forall id | id in h'.current ensures h'.current[id] in h'.chains && Awaits(h'.chains[h'.current[id]], id) {
      assert Awaits(h.chains[h.current[id]], id);
    }
  }

  lemma LeaveKeepsGuard(h: Host, e: Event, owner: Id -> Session)
    requires GuardInv(h) && Enabled(h, e, owner) && e.LeaveSession?
    ensures GuardInv(Next(h, e, owner))
  {
  }

  lemma LeaveKeepsBase(h: Host, e: Event, owner: Id -> Session)
    requires BaseInv(h, owner) && Enabled(h, e, owner) && e.LeaveSession?
    ensures BaseInv(Next(h, e, owner), owner)
  {
    LeaveKeepsGuard(h, e, owner);
    LeaveKeepsCurrent(h, e, owner);
    OpenKept(h, Next(h, e, owner), owner);
  }

  lemma CurrentWithout(h: Host, h': Host, chain: Chain, d: Drain, done: Id)
    requires CurrentInv(h) && chain in h.chains && Awaits(h.chains[chain], done)
    requires h'.chains == h.chains[chain := d] && !d.awaiting && h'.current == h.current - {done}
    ensures CurrentInv(h')
  {
    assert h.current[done] == chain;
    forall c, id | c in h'.chains && Awaits(h'.chains[c], id) ensures id in h'.current && h'.current[id] == c {
      assert Awaits(h.chains[c], id);
      assert h.current[id] == c;
    }
    forall id | id in h'.current ensures h'.current[id] in h'.chains && Awaits(h'.chains[h'.current[id]], id) {
      assert Awaits(h.chains[h.current[id]], id);
    }
  }

  lemma EndKeepsCurrent(h: Host, e: Event, owner: Id -> Session)
    requires CurrentInv(h) && Enabled(h, e, owner) && e.End?
    ensures CurrentInv(Next(h, e, owner))
  {
    var h', d := Next(h, e, owner), h.chains[e.chain];
    var done := d.snapshot[d.pos];
    assert Awaits(d, done);
    CurrentWithout(h, h', e.chain, h'.chains[e.chain], done);
  }

  /** At most the message whose attempt ended gets a verdict. */
  predicate DecidesOnly(h: Host, h': Host, id: Id) {
    h'.verdicts == h.verdicts || (id !in h.verdicts && h'.verdicts - {id} == h.verdicts)
  }

  lemma OtherDrainStaysOpen(h: Host, h': Host, owner: Id -> Session, b: Chain, c: Chain)
    requires BaseInv(h, owner) && b in h.chains && c in h.chains && b != c
    requires h.chains[c].pos < |h.chains[c].snapshot| && DecidesOnly(h, h', h.chains[c].snapshot[h.chains[c].pos])
    ensures DrainOpen(h', h.chains[b], owner)
  {
    assert DrainOpen(h, h.chains[b], owner);
    forall j | h.chains[b].pos <= j < |h.chains[b].snapshot| ensures h.chains[b].snapshot[j] !in h'.verdicts {
      SnapshotsApart(h, owner, b, c, j, h.chains[c].pos);
      assert h.chains[b].snapshot[j] !in h.verdicts;
    }
  }

  lemma OwnDrainStaysOpen(h: Host, h': Host, d: Drain, pos: nat, owner: Id -> Session)
    requires DrainOpen(h, d, owner) && d.pos < pos <= |d.snapshot| && DecidesOnly(h, h', d.snapshot[d.pos])
    ensures DrainOpen(h', d.(awaiting := false, pos := pos), owner)
  {
    forall j | pos <= j < |d.snapshot| ensures d.snapshot[j] !in h'.verdicts {
      assert d.snapshot[j] !in h.verdicts && d.snapshot[j] != d.snapshot[d.pos];
    }
  }

  lemma EndFacts(h: Host, e: Event, owner: Id -> Session)
    requires Enabled(h, e, owner) && e.End? && Ended(h, e, owner) !in h.verdicts
    ensures var h', d, id := Next(h, e, owner), h.chains[e.chain], Ended(h, e, owner);
      && DecidesOnly(h, h', id)
      && (id in h'.verdicts <==> Records(h.attempts, id, e.ending))
      && d.pos < h'.chains[e.chain].pos <= |d.snapshot|
      && h'.chains == h.chains[e.chain := d.(awaiting := false, pos := h'.chains[e.chain].pos)]
  {
  }

  lemma EndKeepsGuard(h: Host, e: Event, owner: Id -> Session)
    requires GuardInv(h) && Enabled(h, e, owner) && e.End?
    ensures GuardInv(Next(h, e, owner))
  {
  }

  lemma EndKeepsOpen(h: Host, h': Host, c: Chain, pos: nat, owner: Id -> Session)
    requires BaseInv(h, owner) && c in h.chains && h.chains[c].pos < pos <= |h.chains[c].snapshot|
    requires h'.chains == h.chains[c := h.chains[c].(awaiting := false, pos := pos)]
    requires DecidesOnly(h, h', h.chains[c].snapshot[h.chains[c].pos])
    ensures forall b :: b in h'.chains ==> DrainOpen(h', h'.chains[b], owner)
  {
    forall b | b in h'.chains ensures DrainOpen(h', h'.chains[b], owner) {
      if b == c {
        assert DrainOpen(h, h.chains[c], owner);
        OwnDrainStaysOpen(h, h', h.chains[c], pos, owner);
      } else {
        OtherDrainStaysOpen(h, h', owner, b, c);
      }
    }
  }

  lemma EndedIsOpen(h: Host, e: Event, owner: Id -> Session)
    requires BaseInv(h, owner) && Enabled(h, e, owner) && e.End?
    ensures Ended(h, e, owner) !in h.verdicts && owner(Ended(h, e, owner)) == h.chains[e.chain].session
    ensures forall j :: h.chains[e.chain].pos < j < |h.chains[e.chain].snapshot| ==> h.chains[e.chain].snapshot[j] != Ended(h, e, owner)
  {
    assert DrainOpen(h, h.chains[e.chain], owner);
  }

  lemma EndKeepsBase(h: Host, e: Event, owner: Id -> Session)
    requires BaseInv(h, owner) && Enabled(h, e, owner) && e.End?
    ensures BaseInv(Next(h, e, owner), owner)
  {
    EndedIsOpen(h, e, owner);
    EndFacts(h, e, owner);
    EndKeepsGuard(h, e, owner);
    EndKeepsCurrent(h, e, owner);
    EndKeepsOpen(h, Next(h, e, owner), e.chain, Next(h, e, owner).chains[e.chain].pos, owner);
  }

  lemma NextKeepsBase(h: Host, e: Event, owner: Id -> Session)
    requires BaseInv(h, owner) && Enabled(h, e, owner)
    ensures BaseInv(Next(h, e, owner), owner)
  {
    match e
    case EnterSession(_, _, _) => EnterKeepsBase(h, e, owner);
    case Begin(_) => BeginKeepsBase(h, e, owner);
    case End(_, _) => EndKeepsBase(h, e, owner);
    case LeaveSession(_) => LeaveKeepsBase(h, e, owner);
  }

  lemma {:induction false} RunKeepsBase(h: Host, events: seq<Event>, owner: Id -> Session)
    requires BaseInv(h, owner) && Possible(h, events, owner)
    ensures BaseInv(After(h, events, owner), owner)
    decreases |events|
  {
    if events != [] {
      NextKeepsBase(h, events[0], owner);
      RunKeepsBase(Next(h, events[0], owner), events[1..], owner);
    }
  }

  lemma EndKeepsVerdict(h: Host, e: Event, owner: Id -> Session, id: Id)
    requires BaseInv(h, owner) && Enabled(h, e, owner) && id in h.verdicts && e.End?
    ensures var h' := Next(h, e, owner);
      && id in h'.verdicts && h'.verdicts[id] == h.verdicts[id]
      && Count(h'.tried, id) == Count(h.tried, id) && Count(h'.sent, id) == Count(h.sent, id)
  {
    EndedIsOpen(h, e, owner);
    EndFacts(h, e, owner);
    var h' := Next(h, e, owner);
    assert id in h'.verdicts && h'.verdicts[id] == (h'.verdicts - {Ended(h, e, owner)})[id];
  }

  lemma StepKeepsVerdict(h: Host, e: Event, owner: Id -> Session, id: Id)
    requires BaseInv(h, owner) && Enabled(h, e, owner) && id in h.verdicts
    ensures var h' := Next(h, e, owner);
      && id in h'.verdicts && h'.verdicts[id] == h.verdicts[id]
      && Count(h'.tried, id) == Count(h.tried, id) && Count(h'.sent, id) == Count(h.sent, id)
  {
    if e.Begin? { HeadIsFree(h, e.chain, owner); }
    if e.End? { EndKeepsVerdict(h, e, owner, id); }
  }

  /** Once a message has a verdict no later segment attempts or sends it again,
      whatever can be written. */
  lemma {:induction false} DecidedIsFinal(h: Host, events: seq<Event>, owner: Id -> Session, id: Id)
    requires BaseInv(h, owner) && Possible(h, events, owner) && id in h.verdicts
    ensures var h' := After(h, events, owner);
      && id in h'.verdicts && h'.verdicts[id] == h.verdicts[id]
      && Count(h'.tried, id) == Count(h.tried, id) && Count(h'.sent, id) == Count(h.sent, id)
    decreases |events|
  {
    if events != [] {
      var e := events[0];
      NextKeepsBase(h, e, owner);
      StepKeepsVerdict(h, e, owner, id);
      DecidedIsFinal(Next(h, e, owner), events[1..], owner, id);
    }
  }

  // ---------- What holds while verdicts can be recorded ----------

  /** What is left of a snapshot is untouched since the start; what has been done
      has fewer attempts left. */
  predicate QuotaInv(h: Host, d: Drain) {
    && d.pos <= |d.snapshot| == |d.quota|
    && (forall j :: d.pos <= j < |d.snapshot| ==> Remaining(h, d.snapshot[j]) == d.quota[j])
    && (forall j :: 0 <= j < d.pos ==> Remaining(h, d.snapshot[j]) < d.quota[j])
  }

  predicate CountInv(h: Host, id: Id) {
    && (id !in h.verdicts ==>
          && Count(h.attempts, id) < MAX_DELIVERY_ATTEMPTS
          && Count(h.tried, id) == Count(h.attempts, id) + (if id in h.current then 1 else 0)
          && Count(h.sent, id) == 0)
    && (id in h.verdicts ==>
          && id !in h.current
          && Count(h.tried, id) <= MAX_DELIVERY_ATTEMPTS
          && (h.verdicts[id] == GaveUp ==> Count(h.sent, id) == 0)
          && Count(h.sent, id) <= 1)
  }

  ghost predicate Inv(h: Host, owner: Id -> Session) {
    && BaseInv(h, owner)
    && (forall c :: c in h.chains ==> QuotaInv(h, h.chains[c]))
    && (forall id :: CountInv(h, id))
  }

  predicate SameLedger(h: Host, h': Host) {
    h'.attempts == h.attempts && h'.verdicts == h.verdicts
  }

  lemma QuotasKept(h: Host, h': Host)
    requires (forall c :: c in h.chains ==> QuotaInv(h, h.chains[c])) && SameLedger(h, h')
    ensures forall c :: c in h.chains ==> QuotaInv(h', h.chains[c])
  {
    forall c | c in h.chains ensures QuotaInv(h', h.chains[c]) {
      assert QuotaInv(h, h.chains[c]);
    }
  }

  lemma CountsKept(h: Host, h': Host)
    requires (forall id :: CountInv(h, id)) && SameLedger(h, h')
    requires h'.tried == h.tried && h'.sent == h.sent && h'.current == h.current
    ensures forall id :: CountInv(h', id)
  {
    forall id ensures CountInv(h', id) {
      assert CountInv(h, id);
    }
  }

  lemma EnterKeepsQuotas(h: Host, e: Event, owner: Id -> Session)
    requires (forall c :: c in h.chains ==> QuotaInv(h, h.chains[c])) && Enabled(h, e, owner) && e.EnterSession?
    ensures forall c :: c in Next(h, e, owner).chains ==> QuotaInv(Next(h, e, owner), Next(h, e, owner).chains[c])
  {
    var h' := Next(h, e, owner);
    QuotasKept(h, h');
    forall c | c in h'.chains ensures QuotaInv(h', h'.chains[c]) {
      if c in h.chains { assert QuotaInv(h', h.chains[c]); }
    }
  }

  lemma EnterKeepsInv(h: Host, e: Event, owner: Id -> Session)
    requires Inv(h, owner) && Enabled(h, e, owner) && e.EnterSession?
    ensures Inv(Next(h, e, owner), owner)
  {
    EnterKeepsBase(h, e, owner);
    CountsKept(h, Next(h, e, owner));
    EnterKeepsQuotas(h, e, owner);
  }

  lemma BeginKeepsCounts(h: Host, e: Event, owner: Id -> Session)
    requires Inv(h, owner) && Enabled(h, e, owner) && e.Begin?
    ensures forall id :: CountInv(Next(h, e, owner), id)
  {
    HeadIsFree(h, e.chain, owner);
    forall id ensures CountInv(Next(h, e, owner), id) {
      assert CountInv(h, id);
    }
  }

  lemma BeginKeepsQuotas(h: Host, e: Event, owner: Id -> Session)
    requires (forall c :: c in h.chains ==> QuotaInv(h, h.chains[c])) && Enabled(h, e, owner) && e.Begin?
    ensures forall c :: c in Next(h, e, owner).chains ==> QuotaInv(Next(h, e, owner), Next(h, e, owner).chains[c])
  {
    var h' := Next(h, e, owner);
    QuotasKept(h, h');
    forall c | c in h'.chains ensures QuotaInv(h', h'.chains[c]) {
      assert QuotaInv(h', h.chains[c]);
    }
  }

  lemma BeginKeepsInv(h: Host, e: Event, owner: Id -> Session)
    requires Inv(h, owner) && Enabled(h, e, owner) && e.Begin?
    ensures Inv(Next(h, e, owner), owner)
  {
    BeginKeepsBase(h, e, owner);
    BeginKeepsCounts(h, e, owner);
    BeginKeepsQuotas(h, e, owner);
  }

  lemma LeaveKeepsInv(h: Host, e: Event, owner: Id -> Session)
    requires Inv(h, owner) && Enabled(h, e, owner) && e.LeaveSession?
    ensures Inv(Next(h, e, owner), owner)
  {
    var h' := Next(h, e, owner);
    LeaveKeepsBase(h, e, owner);
    CountsKept(h, h');
    QuotasKept(h, h');
  }

  /** An attempt that ends with its verdict recorded, if it calls for one, uses up
      one of the attempts left. */
  lemma SettleLowers(h: Host, id: Id, e: Ending, h': Host)
    requires id !in h.verdicts && Count(h.attempts, id) < MAX_DELIVERY_ATTEMPTS
    requires CallsForVerdict(h.attempts, id, e) ==> e.writable
    requires var s := Settle(h.attempts, h.verdicts, id, e); h'.attempts == s.attempts && h'.verdicts == s.verdicts
    ensures Lowers(h, h', id)
    ensures !Settle(h.attempts, h.verdicts, id, e).aborted
    ensures forall x :: x != id ==> Count(h'.attempts, x) == Count(h.attempts, x)
    ensures forall x :: x != id && x in h.verdicts ==> h'.verdicts[x] == h.verdicts[x]
  {
  }

  /** From h to h', only this message has fewer attempts left or got a verdict. */
  ghost predicate Lowers(h: Host, h': Host, id: Id) {
    && Remaining(h', id) < Remaining(h, id)
    && forall x :: x != id ==> Remaining(h', x) == Remaining(h, x) && (x in h'.verdicts <==> x in h.verdicts)
  }

  function MovedOn(d: Drain): Drain {
    d.(awaiting := false, pos := d.pos + 1)
  }

  /** The drain whose attempt ended moves on. */
  lemma OwnQuotaMovesOn(h: Host, h': Host, d: Drain, owner: Id -> Session)
    requires QuotaInv(h, d) && DrainOpen(h, d, owner) && d.awaiting && Lowers(h, h', d.snapshot[d.pos])
    ensures QuotaInv(h', MovedOn(d))
  {
  }

  lemma OtherQuotaStays(h: Host, h': Host, owner: Id -> Session, b: Chain, c: Chain)
    requires Inv(h, owner) && b in h.chains && c in h.chains && b != c
    requires h.chains[c].pos < |h.chains[c].snapshot| && Lowers(h, h', h.chains[c].snapshot[h.chains[c].pos])
    ensures QuotaInv(h', h.chains[b])
  {
    assert QuotaInv(h, h.chains[b]);
    forall j | 0 <= j < |h.chains[b].snapshot| ensures h.chains[b].snapshot[j] != h.chains[c].snapshot[h.chains[c].pos] {
      SnapshotsApart(h, owner, b, c, j, h.chains[c].pos);
    }
  }

  lemma QuotasAfterEnd(h: Host, h': Host, owner: Id -> Session, c: Chain)
    requires Inv(h, owner) && c in h.chains && h.chains[c].awaiting && h.chains[c].pos < |h.chains[c].snapshot|
    requires h'.chains == h.chains[c := MovedOn(h.chains[c])] && Lowers(h, h', h.chains[c].snapshot[h.chains[c].pos])
    ensures forall b :: b in h'.chains ==> QuotaInv(h', h'.chains[b])
  {
    forall b | b in h'.chains ensures QuotaInv(h', h'.chains[b]) {
      if b != c {
        OtherQuotaStays(h, h', owner, b, c);
      } else {
        assert QuotaInv(h, h.chains[c]) && DrainOpen(h, h.chains[c], owner);
        OwnQuotaMovesOn(h, h', h.chains[c], owner);
      }
    }
  }

  lemma EndMovesOn(h: Host, e: Event, owner: Id -> Session)
    requires Enabled(h, e, owner) && e.End? && StepRecords(h, e, owner)
    requires Ended(h, e, owner) !in h.verdicts && CountInv(h, Ended(h, e, owner))
    ensures var h', d := Next(h, e, owner), h.chains[e.chain];
      h'.chains == h.chains[e.chain := MovedOn(d)] && Lowers(h, h', Ended(h, e, owner))
  {
    SettleLowers(h, Ended(h, e, owner), e.ending, Next(h, e, owner));
  }

  lemma EndKeepsCount(h: Host, e: Event, owner: Id -> Session, x: Id)
    requires Enabled(h, e, owner) && e.End? && StepRecords(h, e, owner) && CountInv(h, x) && CountInv(h, Ended(h, e, owner))
    requires Ended(h, e, owner) !in h.verdicts && Ended(h, e, owner) in h.current
    ensures CountInv(Next(h, e, owner), x)
  {
    SettleLowers(h, Ended(h, e, owner), e.ending, Next(h, e, owner));
  }

  lemma EndKeepsCounts(h: Host, e: Event, owner: Id -> Session)
    requires Inv(h, owner) && Enabled(h, e, owner) && e.End? && StepRecords(h, e, owner)
    ensures forall id :: CountInv(Next(h, e, owner), id)
  {
    EndedIsOpen(h, e, owner);
    assert Awaits(h.chains[e.chain], Ended(h, e, owner));
    forall x ensures CountInv(Next(h, e, owner), x) {
      EndKeepsCount(h, e, owner, x);
    }
  }

  lemma EndKeepsInv(h: Host, e: Event, owner: Id -> Session)
    requires Inv(h, owner) && Enabled(h, e, owner) && e.End? && StepRecords(h, e, owner)
    ensures Inv(Next(h, e, owner), owner)
  {
    EndKeepsBase(h, e, owner);
    EndKeepsCounts(h, e, owner);
    EndedIsOpen(h, e, owner);
    assert CountInv(h, Ended(h, e, owner));
    EndMovesOn(h, e, owner);
    QuotasAfterEnd(h, Next(h, e, owner), owner, e.chain);
  }

  // ---------- Whole runs ----------

  /** A freshly started process: nothing counted, nothing guarded; the delivered
      table is whatever earlier processes left. */
  function Started(verdicts: Verdicts): Host {
    Host(map[], {}, verdicts, map[], map[], map[], map[], map[])
  }

  lemma StartedInv(verdicts: Verdicts, owner: Id -> Session)
    ensures Inv(Started(verdicts), owner)
  {
  }

  lemma NextKeepsInv(h: Host, e: Event, owner: Id -> Session)
    requires Inv(h, owner) && Enabled(h, e, owner) && StepRecords(h, e, owner)
    ensures Inv(Next(h, e, owner), owner)
  {
    match e
    case EnterSession(_, _, _) => EnterKeepsInv(h, e, owner);
    case Begin(_) => BeginKeepsInv(h, e, owner);
    case End(_, _) => EndKeepsInv(h, e, owner);
    case LeaveSession(_) => LeaveKeepsInv(h, e, owner);
  }

  lemma {:induction false} RunKeepsInv(h: Host, events: seq<Event>, owner: Id -> Session)
    requires Inv(h, owner) && Possible(h, events, owner) && Recordable(h, events, owner)
    ensures Inv(After(h, events, owner), owner)
    decreases |events|
  {
    if events != [] {
      NextKeepsInv(h, events[0], owner);
      RunKeepsInv(Next(h, events[0], owner), events[1..], owner);
    }
  }

  /** In every interleaving since the process started in which the verdicts called
      for could be recorded: each session has at most one open drain, no message has
      been attempted more than three times or sent more than once, and one that was
      sent is in the delivered table. */
  lemma DeliveryIsSafe(verdicts: Verdicts, events: seq<Event>, owner: Id -> Session, id: Id, c: Chain, d: Chain)
    requires Possible(Started(verdicts), events, owner) && Recordable(Started(verdicts), events, owner)
    ensures var h := After(Started(verdicts), events, owner);
      && Count(h.tried, id) <= MAX_DELIVERY_ATTEMPTS
      && Count(h.sent, id) <= 1
      && (Count(h.sent, id) == 1 ==> id in h.verdicts && h.verdicts[id] == Delivered)
      && (c in h.chains && d in h.chains && h.chains[c].session == h.chains[d].session ==> c == d)
  {
    StartedInv(verdicts, owner);
    RunKeepsInv(Started(verdicts), events, owner);
    assert CountInv(After(Started(verdicts), events, owner), id);
  }

  /** What a verdict says about the history of its message. */
  predicate Meaning(h: Host, id: Id) {
    id in h.verdicts ==>
      match h.verdicts[id]
      case Delivered => Count(h.sent, id) == 1
      case GaveUp => Count(h.sent, id) == 0 && Count(h.tried, id) == 3
  }

  lemma EndKeepsMeaning(h: Host, e: Event, owner: Id -> Session, id: Id)
    requires Enabled(h, e, owner) && e.End? && StepRecords(h, e, owner) && id == Ended(h, e, owner)
    requires id !in h.verdicts && id in h.current && CountInv(h, id)
    ensures Meaning(Next(h, e, owner), id)
  {
  }

  lemma StepKeepsMeaning(h: Host, e: Event, owner: Id -> Session, id: Id)
    requires Inv(h, owner) && Enabled(h, e, owner) && StepRecords(h, e, owner) && Meaning(h, id)
    ensures Meaning(Next(h, e, owner), id)
  {
    assert CountInv(h, id);
    if id in h.verdicts {
      StepKeepsVerdict(h, e, owner, id);
    } else if e.End? {
      EndedIsOpen(h, e, owner);
      EndFacts(h, e, owner);
      if id == Ended(h, e, owner) {
        assert Awaits(h.chains[e.chain], id);
        EndKeepsMeaning(h, e, owner, id);
      }
    }
  }

  lemma {:induction false} RunKeepsMeaning(h: Host, events: seq<Event>, owner: Id -> Session, id: Id)
    requires Inv(h, owner) && Possible(h, events, owner) && Recordable(h, events, owner) && Meaning(h, id)
    ensures Meaning(After(h, events, owner), id)
    decreases |events|
  {
    if events != [] {
      NextKeepsInv(h, events[0], owner);
      StepKeepsMeaning(h, events[0], owner, id);
      RunKeepsMeaning(Next(h, events[0], owner), events[1..], owner, id);
    }
  }

  /** Over every recordable run, a message without a verdict at the start is recorded
      as delivered exactly when it was sent, once, and as given up exactly when three
      attempts were made, none is under way, and none was sent. */
  lemma VerdictsTellTheTruth(verdicts: Verdicts, events: seq<Event>, owner: Id -> Session, id: Id)
    requires Possible(Started(verdicts), events, owner) && Recordable(Started(verdicts), events, owner)
    requires id !in verdicts
    ensures var h := After(Started(verdicts), events, owner);
      && (id in h.verdicts && h.verdicts[id] == Delivered <==> Count(h.sent, id) == 1)
      && (id in h.verdicts && h.verdicts[id] == GaveUp <==>
            Count(h.sent, id) == 0 && Count(h.tried, id) == 3 && forall c :: c in h.chains ==> !Awaits(h.chains[c], id))
  {
    var start, h := Started(verdicts), After(Started(verdicts), events, owner);
    StartedInv(verdicts, owner);
    RunKeepsInv(start, events, owner);
    RunKeepsMeaning(start, events, owner, id);
    assert CountInv(h, id);
    assert id in h.current ==> Awaits(h.chains[h.current[id]], id);
  }

  function Sum(s: seq<nat>): nat {
    if s == [] then 0 else s[0] + Sum(s[1..])
  }

  lemma {:induction false} SumLowers(s: seq<nat>, t: seq<nat>)
    requires |s| == |t| && forall i :: 0 <= i < |s| ==> s[i] < t[i]
    ensures Sum(s) + |s| <= Sum(t)
  {
    if s != [] {
      SumLowers(s[1..], t[1..]);
    }
  }

  /** When a drain completes, the attempts left on its snapshot have dropped by at
      least one for every message in it. */
  lemma CompletedDrainLowers(h: Host, chain: Chain, owner: Id -> Session)
    requires Inv(h, owner) && Enabled(h, LeaveSession(chain), owner)
    ensures var d := h.chains[chain];
      Sum(Quota(h, d.snapshot)) + |d.snapshot| <= Sum(d.quota)
  {
    var d := h.chains[chain];
    assert QuotaInv(h, d);
    SumLowers(Quota(h, d.snapshot), d.quota);
  }

  // ---------- A table that cannot be written ----------

  /** Some attempt of the message ended in the run with its verdict recorded. */
  predicate SomeRecorded(h: Host, events: seq<Event>, owner: Id -> Session, id: Id)
    requires Possible(h, events, owner)
    decreases |events|
  {
    events != [] &&
    ((events[0].End? && Ended(h, events[0], owner) == id && Records(h.attempts, id, events[0].ending))
     || SomeRecorded(Next(h, events[0], owner), events[1..], owner, id))
  }

  lemma {:induction false} DecidedIff(h: Host, events: seq<Event>, owner: Id -> Session, id: Id)
    requires BaseInv(h, owner) && Possible(h, events, owner)
    ensures id in After(h, events, owner).verdicts <==> id in h.verdicts || SomeRecorded(h, events, owner, id)
    decreases |events|
  {
    if events != [] {
      var e := events[0];
      NextKeepsBase(h, e, owner);
      if e.End? {
        EndedIsOpen(h, e, owner);
        EndFacts(h, e, owner);
      }
      DecidedIff(Next(h, e, owner), events[1..], owner, id);
    }
  }

  lemma {:induction false} UndeliveredIff(due: seq<Id>, verdicts: Verdicts, id: Id)
    ensures id in Undelivered(due, verdicts) <==> id in due && id !in verdicts
  {
    if due != [] {
      UndeliveredIff(due[1..], verdicts, id);
    }
  }

  /** The snapshot keeps the order of the due messages: one more of them goes last. */
  lemma {:induction false} SnapshotKeepsOrder(due: seq<Id>, verdicts: Verdicts, id: Id)
    ensures Undelivered(due + [id], verdicts) == Undelivered(due, verdicts) + (if id in verdicts then [] else [id])
  {
    if due == [] {
      assert due + [id] == [id] && [id][1..] == [];
    } else {
      assert (due + [id])[1..] == due[1..] + [id];
      SnapshotKeepsOrder(due[1..], verdicts, id);
    }
  }

  /** After any run, a due message is in the snapshot of the next drain of its session
      exactly when it had no verdict at the start and no attempt of it ended, sent or
      for the third time, while the table could be written. */
  lemma SnapshotIff(verdicts: Verdicts, events: seq<Event>, owner: Id -> Session, e: Event, id: Id)
    requires Possible(Started(verdicts), events, owner)
    requires var h := After(Started(verdicts), events, owner); Enabled(h, e, owner) && e.EnterSession? && e.session !in h.inflight
    ensures id in Next(After(Started(verdicts), events, owner), e, owner).chains[e.chain].snapshot
       <==> id in e.due && id !in verdicts && !SomeRecorded(Started(verdicts), events, owner, id)
  {
    StartedInv(verdicts, owner);
    DecidedIff(Started(verdicts), events, owner, id);
    UndeliveredIff(e.due, After(Started(verdicts), events, owner).verdicts, id);
  }

  lemma OneMore(h: Host, e: Event, rest: seq<Event>, owner: Id -> Session)
    requires Enabled(h, e, owner) && Possible(Next(h, e, owner), rest, owner)
    ensures Possible(h, [e] + rest, owner)
    ensures After(h, [e] + rest, owner) == After(Next(h, e, owner), rest, owner)
  {
    assert ([e] + rest)[0] == e && ([e] + rest)[1..] == rest;
  }

  /** The host after a chain has delivered the next message of its snapshot. */
  lemma DeliverNext(h: Host, c: Chain, owner: Id -> Session, id: Id)
    requires BaseInv(h, owner) && Enabled(h, Begin(c), owner) && id !in h.verdicts
    requires h.chains[c].snapshot[h.chains[c].pos] != id
    ensures var h1 := Next(h, Begin(c), owner);
      && Enabled(h1, End(c, Ending(true, true)), owner)
      && var h2 := Next(h1, End(c, Ending(true, true)), owner);
      && BaseInv(h2, owner) && c in h2.chains && h2.chains[c] == MovedOn(h.chains[c])
      && id !in h2.verdicts && Count(h2.tried, id) == Count(h.tried, id) && Count(h2.sent, id) == Count(h.sent, id)
  {
    var h1 := Next(h, Begin(c), owner);
    NextKeepsBase(h, Begin(c), owner);
    NextKeepsBase(h1, End(c, Ending(true, true)), owner);
    HeadIsFree(h, c, owner);
  }

  /** A session that is not being drained can attempt and send an undecided message. */
  lemma SendsOnce(h: Host, c: Chain, owner: Id -> Session, id: Id, s: Session) returns (events: seq<Event>)
    requires c !in h.chains && s !in h.inflight && id !in h.verdicts && owner(id) == s
    ensures Possible(h, events, owner)
    ensures var h' := After(h, events, owner);
      Count(h'.tried, id) == Count(h.tried, id) + 1 && Count(h'.sent, id) == Count(h.sent, id) + 1
  {
    var e1, e2, e3 := EnterSession(c, s, [id]), Begin(c), End(c, Ending(true, true));
    assert Undelivered([id], h.verdicts) == [id] by { assert [id][1..] == []; }
    var h1 := Next(h, e1, owner);
    var h2 := Next(h1, e2, owner);
    OneMore(h2, e3, [], owner);
    OneMore(h1, e2, [e3] + [], owner);
    events := [e1] + ([e2] + ([e3] + []));
    OneMore(h, e1, [e2] + ([e3] + []), owner);
  }

  /** An open drain that has the message behind it can run to its end, and the next
      one can then attempt and send the message. */
  lemma {:induction false} SendsAfterDrain(h: Host, c: Chain, owner: Id -> Session, id: Id, s: Session) returns (events: seq<Event>)
    requires BaseInv(h, owner) && c in h.chains && !h.chains[c].awaiting && h.chains[c].session == s
    requires id !in h.verdicts && owner(id) == s
    requires forall j :: h.chains[c].pos <= j < |h.chains[c].snapshot| ==> h.chains[c].snapshot[j] != id
    ensures Possible(h, events, owner)
    ensures var h' := After(h, events, owner);
      Count(h'.tried, id) == Count(h.tried, id) + 1 && Count(h'.sent, id) == Count(h.sent, id) + 1
    decreases |h.chains[c].snapshot| - h.chains[c].pos
  {
    if h.chains[c].pos >= |h.chains[c].snapshot| {
      var rest := SendsOnce(Next(h, LeaveSession(c), owner), c, owner, id, s);
      OneMore(h, LeaveSession(c), rest, owner);
      events := [LeaveSession(c)] + rest;
    } else {
      var h1 := Next(h, Begin(c), owner);
      DeliverNext(h, c, owner, id);
      var rest := SendsAfterDrain(Next(h1, End(c, Ending(true, true)), owner), c, owner, id, s);
      OneMore(h1, End(c, Ending(true, true)), rest, owner);
      OneMore(h, Begin(c), [End(c, Ending(true, true))] + rest, owner);
      events := [Begin(c)] + ([End(c, Ending(true, true))] + rest);
    }
  }

  ghost predicate CanSendAgain(h: Host, owner: Id -> Session, id: Id) {
    exists events :: Possible(h, events, owner) && Count(After(h, events, owner).sent, id) > Count(h.sent, id)
  }

  ghost predicate CanAttemptAgain(h: Host, owner: Id -> Session, id: Id) {
    exists events :: Possible(h, events, owner) && Count(After(h, events, owner).tried, id) > Count(h.tried, id)
  }

  lemma UnrecordedCanSendAgain(h: Host, e: Event, owner: Id -> Session)
    requires BaseInv(h, owner) && Enabled(h, e, owner) && e.End?
    requires !Records(h.attempts, Ended(h, e, owner), e.ending)
    ensures CanSendAgain(Next(h, e, owner), owner, Ended(h, e, owner))
    ensures CanAttemptAgain(Next(h, e, owner), owner, Ended(h, e, owner))
  {
    var id, h', c, s := Ended(h, e, owner), Next(h, e, owner), e.chain, h.chains[e.chain].session;
    EndedIsOpen(h, e, owner);
    EndFacts(h, e, owner);
    NextKeepsBase(h, e, owner);
    var events := SendsAfterDrain(h', c, owner, id, s);
    assert Possible(h', events, owner);
  }

  /** After the end of an attempt, in any reachable host, the message can be attempted
      and sent again exactly when no verdict was recorded: the table could not be
      written, or the attempt failed and was not the third. */
  lemma AgainIff(h: Host, e: Event, owner: Id -> Session)
    requires BaseInv(h, owner) && Enabled(h, e, owner) && e.End?
    ensures var id := Ended(h, e, owner);
      && (CanAttemptAgain(Next(h, e, owner), owner, id) <==> !Records(h.attempts, id, e.ending))
      && (CanSendAgain(Next(h, e, owner), owner, id) <==> !Records(h.attempts, id, e.ending))
  {
    var id, h' := Ended(h, e, owner), Next(h, e, owner);
    if Records(h.attempts, id, e.ending) {
      EndedIsOpen(h, e, owner);
      EndFacts(h, e, owner);
      NextKeepsBase(h, e, owner);
      forall events | Possible(h', events, owner)
        ensures Count(After(h', events, owner).tried, id) == Count(h'.tried, id)
        ensures Count(After(h', events, owner).sent, id) == Count(h'.sent, id)
      {
        DecidedIsFinal(h', events, owner, id);
      }
    } else {
      UnrecordedCanSendAgain(h, e, owner);
    }
  }

  // ---------- Without a writable table nothing is bounded ----------

  /** One whole drain of a session with a single message, its table not writable. */
  function OneDrain(chain: Chain, sent: bool): seq<Event> {
    [EnterSession(chain, "s", ["m"]), Begin(chain), End(chain, Ending(sent, false)), LeaveSession(chain)]
  }

  function Drains(from: nat, n: nat, sent: bool): seq<Event>
    requires from <= n
    decreases n - from
  {
    if from == n then [] else OneDrain(from, sent) + Drains(from + 1, n, sent)
  }

  function Times(n: nat): map<Id, nat> {
    if n == 0 then map[] else map["m" := n]
  }

  /** The host after n such drains. */
  function Unrecorded(n: nat, sent: bool): Host {
    Host(Times(n), {}, map[], map[], Times(n), if sent then Times(n) else map[], map[], map[])
  }

  lemma OneDrainRuns(h: Host, chain: Chain, sent: bool, owner: Id -> Session, h1: Host, h2: Host, h3: Host, h4: Host, rest: seq<Event>)
    requires Enabled(h, EnterSession(chain, "s", ["m"]), owner) && h1 == Next(h, EnterSession(chain, "s", ["m"]), owner)
    requires Enabled(h1, Begin(chain), owner) && h2 == Next(h1, Begin(chain), owner)
    requires Enabled(h2, End(chain, Ending(sent, false)), owner) && h3 == Next(h2, End(chain, Ending(sent, false)), owner)
    requires Enabled(h3, LeaveSession(chain), owner) && h4 == Next(h3, LeaveSession(chain), owner)
    requires Possible(h4, rest, owner)
    ensures Possible(h, OneDrain(chain, sent) + rest, owner)
    ensures After(h, OneDrain(chain, sent) + rest, owner) == After(h4, rest, owner)
  {
    var e1, e2, e3, e4 := EnterSession(chain, "s", ["m"]), Begin(chain), End(chain, Ending(sent, false)), LeaveSession(chain);
    var r4 := [e4] + rest;
    var r3 := [e3] + r4;
    var r2 := [e2] + r3;
    OneMore(h3, e4, rest, owner);
    OneMore(h2, e3, r4, owner);
    OneMore(h1, e2, r3, owner);
    OneMore(h, e1, r2, owner);
    assert OneDrain(chain, sent) + rest == [e1] + r2;
  }

  function Entered(n: nat, sent: bool): Host {
    var quota := Quota(Unrecorded(n, sent), ["m"]);
    Unrecorded(n, sent).(inflight := {"s"}, chains := map[n := Drain("s", ["m"], 0, false, quota)], holder := map["s" := n])
  }

  function Begun(n: nat, sent: bool): Host {
    var h := Entered(n, sent);
    h.(chains := map[n := h.chains[n].(awaiting := true)], tried := Times(n + 1), current := map["m" := n])
  }

  function AfterEnd(n: nat, sent: bool): Host {
    var h := Entered(n, sent);
    h.(chains := map[n := h.chains[n].(pos := 1)], attempts := Times(n + 1), tried := Times(n + 1),
       sent := if sent then Times(n + 1) else map[])
  }

  lemma StepEnter(n: nat, sent: bool, owner: Id -> Session)
    requires owner("m") == "s"
    ensures Next(Unrecorded(n, sent), EnterSession(n, "s", ["m"]), owner) == Entered(n, sent)
  {
    assert Undelivered(["m"], map[]) == ["m"] by { assert ["m"][1..] == []; }
  }

  lemma StepBegin(n: nat, sent: bool, owner: Id -> Session)
    ensures Next(Entered(n, sent), Begin(n), owner) == Begun(n, sent)
  {
  }

  lemma StepEnd(n: nat, sent: bool, owner: Id -> Session)
    ensures Next(Begun(n, sent), End(n, Ending(sent, false)), owner) == AfterEnd(n, sent)
  {
  }

  lemma StepLeave(n: nat, sent: bool, owner: Id -> Session)
    ensures Next(AfterEnd(n, sent), LeaveSession(n), owner) == Unrecorded(n + 1, sent)
  {
  }

  lemma UnrecordedDrain(n: nat, sent: bool, owner: Id -> Session, rest: seq<Event>)
    requires owner("m") == "s" && Possible(Unrecorded(n + 1, sent), rest, owner)
    ensures Possible(Unrecorded(n, sent), OneDrain(n, sent) + rest, owner)
    ensures After(Unrecorded(n, sent), OneDrain(n, sent) + rest, owner) == After(Unrecorded(n + 1, sent), rest, owner)
  {
    StepEnter(n, sent, owner);
    StepBegin(n, sent, owner);
    StepEnd(n, sent, owner);
    StepLeave(n, sent, owner);
    OneDrainRuns(Unrecorded(n, sent), n, sent, owner, Entered(n, sent), Begun(n, sent), AfterEnd(n, sent), Unrecorded(n + 1, sent), rest);
  }

  lemma {:induction false} DrainsRun(from: nat, n: nat, sent: bool, owner: Id -> Session)
    requires owner("m") == "s" && from <= n
    ensures Possible(Unrecorded(from, sent), Drains(from, n, sent), owner)
    ensures After(Unrecorded(from, sent), Drains(from, n, sent), owner) == Unrecorded(n, sent)
    decreases n - from
  {
    if from < n {
      DrainsRun(from + 1, n, sent, owner);
      UnrecordedDrain(from, sent, owner, Drains(from + 1, n, sent));
    }
  }

  /** With an unwritable table a message is attempted any number of times, past the
      limit of three, and sent as often if its attempts succeed. */
  lemma UnwritableTableRepeats(n: nat, sent: bool, owner: Id -> Session)
    requires owner("m") == "s"
    ensures Possible(Started(map[]), Drains(0, n, sent), owner)
    ensures var h := After(Started(map[]), Drains(0, n, sent), owner);
      Count(h.tried, "m") == n && Count(h.sent, "m") == if sent then n else 0
  {
    assert Unrecorded(0, sent) == Started(map[]);
    DrainsRun(0, n, sent, owner);
  }
}
