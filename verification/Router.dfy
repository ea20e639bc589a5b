/** Inbound routing: the fan-out of one event over the wirings of its chat, where
    the existence of a session is the subscription state of a sticky wiring. */
module Router {
  import opened Wrappers
  import opened Sessions

  datatype EngageMode = Pattern(pattern: Option<string>) | Mention | MentionSticky | Unknown

  datatype IgnoredPolicy = Drop | Accumulate

  datatype Wiring = Wiring(agent: string, chat: string, engage: EngageMode, policy: IgnoredPolicy, sessionMode: SessionMode)

  /** What the router knows of the world: the agent groups that exist, and the
      outcome of a regular expression on a text, none when it does not compile. */
  datatype Env = Env(agentGroups: set<string>, matcher: (string, string) -> Option<bool>)

  /** An event of a chat after the adapter's thread policy: a threadless adapter has
      no thread. The gates refuse the listed agents. */
  datatype Inbound = Inbound(chat: string, isGroup: bool, threaded: bool, thread: Option<string>,
                             text: string, isMention: bool,
                             accessRefused: set<string>, scopeRefused: set<string>)

  function EvaluateEngage(table: seq<Session>, w: Wiring, e: Inbound, env: Env): bool {
    match w.engage
    case Pattern(pattern) =>
      var pat := if pattern.Some? then pattern.value else ".";
      if pat == "." then true
      else
        var outcome := env.matcher(pat, e.text);
        if outcome.None? then true else outcome.value
    case Mention => e.isMention
    case MentionSticky =>
      if e.isMention then true
      else if !e.isGroup then false
      else FindForAgent(table, w.agent, e.chat, e.thread).Some?
    case Unknown => false
  }

  /** A threaded adapter in a group chat forces one session per thread. */
  function EffectiveMode(w: Wiring, e: Inbound): SessionMode {
    if e.threaded && w.sessionMode != AgentShared && e.isGroup then PerThread else w.sessionMode
  }

  datatype Outcome = NoAgent | Engaged | Accumulated | Ignored

  datatype Routed = Routed(table: seq<Session>, outcome: Outcome)

  predicate Passes(w: Wiring, e: Inbound) {
    w.agent !in e.accessRefused && w.agent !in e.scopeRefused
  }

  /** One wiring's turn, up to the await on the container. */
  function RouteOne(table: seq<Session>, w: Wiring, e: Inbound, env: Env, id: string): Routed {
    if w.agent !in env.agentGroups then Routed(table, NoAgent)
    else
      var engages := EvaluateEngage(table, w, e, env);
      var resolved := Resolve(table, id, w.agent, Some(e.chat), e.thread, EffectiveMode(w, e)).table;
      if engages && Passes(w, e) then Routed(resolved, Engaged)
      else if w.policy.Accumulate? && !engages then Routed(resolved, Accumulated)
      else Routed(table, Ignored)
  }

  /** One wiring's turn on one event; turns of different events may interleave,
      because the router awaits the container between them. */
  datatype Turn = Turn(w: Wiring, e: Inbound, id: string)

  function Play(table: seq<Session>, turns: seq<Turn>, env: Env): seq<Session>
    decreases |turns|
  {
    if turns == [] then table
    else Play(RouteOne(table, turns[0].w, turns[0].e, env, turns[0].id).table, turns[1..], env)
  }

  // ---------- The fan-out loop ----------

  /** A fan-out: the wirings, the ids their sessions would get, and the turns of other
      events that run before each wiring, while the loop awaits the one before. */
  datatype FanOutRun = FanOutRun(wirings: seq<Wiring>, e: Inbound, ids: seq<string>, between: seq<seq<Turn>>)
  {
    predicate Valid() {
      |wirings| == |ids| == |between|
    }
  }

  /** The sessions and the outcomes after the first n wirings, each evaluated on the
      sessions as the turns before it left them. */
  function RouteFirst(table: seq<Session>, f: FanOutRun, env: Env, n: nat): (r: (seq<Session>, seq<Outcome>))
    requires f.Valid() && n <= |f.wirings|
    ensures |r.1| == n
  {
    if n == 0 then (table, [])
    else
      var before := RouteFirst(table, f, env, n - 1);
      var one := RouteOne(Play(before.0, f.between[n - 1], env), f.wirings[n - 1], f.e, env, f.ids[n - 1]);
      (one.table, before.1 + [one.outcome])
  }

  function CountOf(outcomes: seq<Outcome>, o: Outcome): nat {
    multiset(outcomes)[o]
  }

  /** A wiring for which the platform is asked to carry the thread. */
  predicate Subscribes(w: Wiring, e: Inbound) {
    w.engage.MentionSticky? && e.threaded && e.thread.Some? && e.isGroup
  }

  class RouterState {
    var sessions: seq<Session>

    constructor ()
      ensures sessions == []
    {
      sessions := [];
    }

    /** Every wiring has its turn. The event is dropped when nobody took it, and the
        thread is subscribed when some sticky wiring engages on it. */
    method FanOut(f: FanOutRun, env: Env)
      returns (engagedCount: nat, accumulatedCount: nat, dropped: bool, subscribed: bool)
      requires f.Valid()
      modifies this
      ensures sessions == RouteFirst(old(sessions), f, env, |f.wirings|).0
      ensures var outcomes := RouteFirst(old(sessions), f, env, |f.wirings|).1;
        && engagedCount == CountOf(outcomes, Engaged)
        && accumulatedCount == CountOf(outcomes, Accumulated)
        && (dropped <==> Engaged !in outcomes && Accumulated !in outcomes)
        && (subscribed <==> SomeSubscribes(f.wirings, outcomes, f.e))
    {
      engagedCount, accumulatedCount, subscribed := 0, 0, false;
      ghost var outcomes: seq<Outcome> := [];
      ghost var start := sessions;
      for i := 0 to |f.wirings|
        invariant (sessions, outcomes) == RouteFirst(start, f, env, i)
        invariant |outcomes| == i && Tally(f.wirings, outcomes, f.e, engagedCount, accumulatedCount, subscribed)
      {
        sessions := Play(sessions, f.between[i], env);
        var one := RouteOne(sessions, f.wirings[i], f.e, env, f.ids[i]);
        sessions := one.table;
        TallyAppend(f.wirings, outcomes, one.outcome, f.e, engagedCount, accumulatedCount, subscribed);
        if one.outcome == Engaged {
          engagedCount := engagedCount + 1;
          if !subscribed && Subscribes(f.wirings[i], f.e) {
            subscribed := true;
          }
        } else if one.outcome == Accumulated {
          accumulatedCount := accumulatedCount + 1;
        }
        outcomes := outcomes + [one.outcome];
      }
      dropped := engagedCount + accumulatedCount == 0;
      CountZero(outcomes, Engaged);
      CountZero(outcomes, Accumulated);
    }
  }

  predicate Tally(wirings: seq<Wiring>, outcomes: seq<Outcome>, e: Inbound, engaged: nat, accumulated: nat, subscribed: bool)
    requires |outcomes| <= |wirings|
  {
    && engaged == CountOf(outcomes, Engaged) && accumulated == CountOf(outcomes, Accumulated)
    && (subscribed <==> SomeSubscribes(wirings, outcomes, e))
  }

  lemma TallyAppend(wirings: seq<Wiring>, outcomes: seq<Outcome>, o: Outcome, e: Inbound, engaged: nat, accumulated: nat, subscribed: bool)
    requires |outcomes| < |wirings| && Tally(wirings, outcomes, e, engaged, accumulated, subscribed)
    ensures Tally(wirings, outcomes + [o], e,
                  engaged + (if o == Engaged then 1 else 0), accumulated + (if o == Accumulated then 1 else 0),
                  subscribed || (o == Engaged && Subscribes(wirings[|outcomes|], e)))
  {
    CountAppend(outcomes, o);
    SubscribesAppend(wirings, outcomes, o, e);
  }

  predicate SomeSubscribes(wirings: seq<Wiring>, outcomes: seq<Outcome>, e: Inbound)
    requires |outcomes| <= |wirings|
  {
    exists i :: 0 <= i < |outcomes| && outcomes[i] == Engaged && Subscribes(wirings[i], e)
  }

  lemma SubscribesAppend(wirings: seq<Wiring>, outcomes: seq<Outcome>, o: Outcome, e: Inbound)
    requires |outcomes| < |wirings|
    ensures SomeSubscribes(wirings, outcomes + [o], e) <==>
      SomeSubscribes(wirings, outcomes, e) || (o == Engaged && Subscribes(wirings[|outcomes|], e))
  {
    var all := outcomes + [o];
    assert all[|outcomes|] == o && forall j :: 0 <= j < |outcomes| ==> all[j] == outcomes[j];
  }

  lemma CountAppend(outcomes: seq<Outcome>, o: Outcome)
    ensures forall x :: CountOf(outcomes + [o], x) == CountOf(outcomes, x) + (if x == o then 1 else 0)
  {
  }

  lemma CountZero(outcomes: seq<Outcome>, o: Outcome)
    ensures CountOf(outcomes, o) == 0 <==> o !in outcomes
  {
    assert o in multiset(outcomes) <==> o in outcomes;
  }

  // ---------- Sticky wirings ----------

  predicate HasSession(table: seq<Session>, agent: string, chat: string, thread: Option<string>) {
    exists s :: s in table && Matches(s, agent, chat, thread)
  }

  /** Some turn so far was a mention in that thread which passed both gates. */
  predicate Mentioned(turns: seq<Turn>, w: Wiring, thread: Option<string>) {
    exists i :: 0 <= i < |turns| && turns[i].w == w && turns[i].e.isMention && Passes(w, turns[i].e) && turns[i].e.thread == thread
  }

  /** The wiring under study: sticky, dropping what it ignores, and not sharing one
      session per agent. */
  predicate StickyWiring(w: Wiring, env: Env) {
    w.engage.MentionSticky? && w.policy.Drop? && w.sessionMode != AgentShared && w.agent in env.agentGroups && w.chat != ""
  }

  /** Its events come from a group chat through one adapter, and no other wiring
      joins the same agent to the same chat. */
  predicate TurnOk(t: Turn, w: Wiring, threaded: bool) {
    && t.e.chat == t.w.chat
    && (t.w == w ==> t.e.isGroup && t.e.threaded == threaded && (!threaded ==> t.e.thread == None))
    && (t.w != w ==> t.w.agent != w.agent || t.w.chat != w.chat)
  }

  /** The sessions of the chat are its passed mentions. An empty thread id is left
      out: it is stored as such but looked up as no thread. */
  ghost predicate StickyInv(table: seq<Session>, past: seq<Turn>, w: Wiring) {
    forall thread: Option<string> :: thread != Some("") ==>
      (HasSession(table, w.agent, w.chat, thread) <==> Mentioned(past, w, thread))
  }

  lemma HasAppended(table: seq<Session>, s: Session, agent: string, chat: string, thread: Option<string>)
    ensures HasSession(table + [s], agent, chat, thread) <==> HasSession(table, agent, chat, thread) || Matches(s, agent, chat, thread)
  {
    assert s in table + [s];
    assert forall x :: x in table + [s] <==> x in table || x == s;
  }

  lemma MentionedAppended(past: seq<Turn>, t: Turn, w: Wiring, thread: Option<string>)
    ensures Mentioned(past + [t], w, thread) <==>
      Mentioned(past, w, thread) || (t.w == w && t.e.isMention && Passes(w, t.e) && t.e.thread == thread)
  {
    var all := past + [t];
    assert all[|past|] == t && forall i :: 0 <= i < |past| ==> all[i] == past[i];
  }

  /** A turn of another wiring creates no session for this agent and chat. */
  lemma OtherTurn(table: seq<Session>, t: Turn, env: Env, w: Wiring, thread: Option<string>)
    requires t.e.chat == t.w.chat && (t.w.agent != w.agent || t.w.chat != w.chat)
    ensures HasSession(RouteOne(table, t.w, t.e, env, t.id).table, w.agent, w.chat, thread)
       <==> HasSession(table, w.agent, w.chat, thread)
  {
    var r := Resolve(table, t.id, t.w.agent, Some(t.e.chat), t.e.thread, EffectiveMode(t.w, t.e));
    if r.created {
      HasAppended(table, r.session, w.agent, w.chat, thread);
    }
  }

  /** The turns are of other agents, or of other chats. */
  predicate Elsewhere(turns: seq<Turn>, w: Wiring) {
    forall i :: 0 <= i < |turns| ==>
      turns[i].e.chat == turns[i].w.chat && (turns[i].w.agent != w.agent || turns[i].w.chat != w.chat)
  }

  lemma {:induction false} PlayElsewhere(table: seq<Session>, turns: seq<Turn>, env: Env, w: Wiring, thread: Option<string>)
    requires Elsewhere(turns, w)
    ensures HasSession(Play(table, turns, env), w.agent, w.chat, thread) <==> HasSession(table, w.agent, w.chat, thread)
    decreases |turns|
  {
    if turns != [] {
      var t := turns[0];
      OtherTurn(table, t, env, w, thread);
      assert forall i :: 0 <= i < |turns[1..]| ==> turns[1..][i] == turns[i + 1];
      PlayElsewhere(RouteOne(table, t.w, t.e, env, t.id).table, turns[1..], env, w, thread);
    }
  }

  /** None of the first n wirings is of the agent, nor any turn between them. */
  predicate Apart(f: FanOutRun, n: nat, w: Wiring)
    requires f.Valid() && n <= |f.wirings|
  {
    forall j :: 0 <= j < n ==> f.wirings[j].chat == f.e.chat && f.wirings[j].agent != w.agent && Elsewhere(f.between[j], w)
  }

  lemma {:induction false} OthersCreateNone(table: seq<Session>, f: FanOutRun, env: Env, n: nat, w: Wiring, thread: Option<string>)
    requires f.Valid() && n <= |f.wirings| && Apart(f, n, w)
    ensures HasSession(RouteFirst(table, f, env, n).0, w.agent, w.chat, thread) <==> HasSession(table, w.agent, w.chat, thread)
  {
    if n > 0 {
      OthersCreateNone(table, f, env, n - 1, w, thread);
      var before := RouteFirst(table, f, env, n - 1).0;
      PlayElsewhere(before, f.between[n - 1], env, w, thread);
      OtherTurn(Play(before, f.between[n - 1], env), Turn(f.wirings[n - 1], f.e, f.ids[n - 1]), env, w, thread);
    }
  }

  lemma OutcomeDependsOnOwnSession(t1: seq<Session>, t2: seq<Session>, w: Wiring, e: Inbound, env: Env, id: string)
    requires HasSession(t1, w.agent, e.chat, LookupThread(e.thread)) <==> HasSession(t2, w.agent, e.chat, LookupThread(e.thread))
    ensures RouteOne(t1, w, e, env, id).outcome == RouteOne(t2, w, e, env, id).outcome
  {
  }

  lemma {:induction false} OutcomeAt(table: seq<Session>, f: FanOutRun, env: Env, n: nat, i: nat)
    requires f.Valid() && i < n <= |f.wirings|
    ensures RouteFirst(table, f, env, n).1[i] ==
      RouteOne(Play(RouteFirst(table, f, env, i).0, f.between[i], env), f.wirings[i], f.e, env, f.ids[i]).outcome
    decreases n
  {
    if i < n - 1 {
      OutcomeAt(table, f, env, n - 1, i);
    }
  }

  /** The wirings of a chat do not see each other: with one wiring per agent, and no
      other event of that agent and chat in between, each of them ends as it would had
      it been evaluated alone at the start, so their order is of no account. */
  lemma FanOutIsIndependent(table: seq<Session>, f: FanOutRun, env: Env, i: nat)
    requires f.Valid() && i < |f.wirings| && f.wirings[i].chat == f.e.chat
    requires Apart(f, i, f.wirings[i]) && Elsewhere(f.between[i], f.wirings[i])
    ensures RouteFirst(table, f, env, |f.wirings|).1[i] == RouteOne(table, f.wirings[i], f.e, env, f.ids[i]).outcome
  {
    var w, thread, before := f.wirings[i], LookupThread(f.e.thread), RouteFirst(table, f, env, i).0;
    OutcomeAt(table, f, env, |f.wirings|, i);
    OthersCreateNone(table, f, env, i, w, thread);
    PlayElsewhere(before, f.between[i], env, w, thread);
    OutcomeDependsOnOwnSession(Play(before, f.between[i], env), table, w, f.e, env, f.ids[i]);
  }

  /** A turn of the sticky wiring engages on a mention, or when the looked-up thread
      already has a session; a passed mention leaves its own thread with one. */
  lemma OwnTurn(table: seq<Session>, t: Turn, env: Env, w: Wiring, threaded: bool, thread: Option<string>)
    requires StickyWiring(w, env) && t.w == w && TurnOk(t, w, threaded) && thread != Some("")
    ensures EvaluateEngage(table, w, t.e, env) <==>
      t.e.isMention || HasSession(table, w.agent, w.chat, LookupThread(t.e.thread))
    ensures HasSession(RouteOne(table, w, t.e, env, t.id).table, w.agent, w.chat, thread) <==>
      HasSession(table, w.agent, w.chat, thread) || (t.e.isMention && Passes(w, t.e) && t.e.thread == thread)
  {
    var mode := EffectiveMode(w, t.e);
    var r := Resolve(table, t.id, w.agent, Some(t.e.chat), t.e.thread, mode);
    if r.created {
      HasAppended(table, r.session, w.agent, w.chat, thread);
    }
  }

  lemma TurnKeepsStickyInv(table: seq<Session>, past: seq<Turn>, t: Turn, env: Env, w: Wiring, threaded: bool)
    requires StickyWiring(w, env) && TurnOk(t, w, threaded) && StickyInv(table, past, w)
    ensures StickyInv(RouteOne(table, t.w, t.e, env, t.id).table, past + [t], w)
  {
    var table' := RouteOne(table, t.w, t.e, env, t.id).table;
    forall thread: Option<string> | thread != Some("")
      ensures HasSession(table', w.agent, w.chat, thread) <==> Mentioned(past + [t], w, thread)
    {
      MentionedAppended(past, t, w, thread);
      if t.w == w {
        OwnTurn(table, t, env, w, threaded, thread);
      } else {
        OtherTurn(table, t, env, w, thread);
      }
    }
  }

  lemma {:induction false} PlayKeepsStickyInv(table: seq<Session>, past: seq<Turn>, turns: seq<Turn>, env: Env, w: Wiring, threaded: bool)
    requires StickyWiring(w, env) && StickyInv(table, past, w)
    requires forall i :: 0 <= i < |turns| ==> TurnOk(turns[i], w, threaded)
    ensures StickyInv(Play(table, turns, env), past + turns, w)
    decreases |turns|
  {
    if turns == [] {
      assert past + turns == past;
    } else {
      var t := turns[0];
      TurnKeepsStickyInv(table, past, t, env, w, threaded);
      assert forall i :: 0 <= i < |turns[1..]| ==> turns[1..][i] == turns[i + 1];
      PlayKeepsStickyInv(RouteOne(table, t.w, t.e, env, t.id).table, past + [t], turns[1..], env, w, threaded);
      assert past + [t] + turns[1..] == past + turns;
    }
  }

  /** After any run in which the chat starts without sessions, a sticky wiring
      engages on an event exactly when it is a mention, or an earlier mention that
      passed both gates was in the thread that the lookup asks for. */
  lemma StickyLaw(table: seq<Session>, turns: seq<Turn>, t: Turn, env: Env, w: Wiring, threaded: bool)
    requires StickyWiring(w, env) && t.w == w && TurnOk(t, w, threaded)
    requires forall s :: s in table ==> !(s.agent == w.agent && s.chat == Some(w.chat))
    requires forall i :: 0 <= i < |turns| ==> TurnOk(turns[i], w, threaded)
    ensures EvaluateEngage(Play(table, turns, env), w, t.e, env) <==>
      t.e.isMention || Mentioned(turns, w, LookupThread(t.e.thread))
  {
    assert StickyInv(table, [], w);
    PlayKeepsStickyInv(table, [], turns, env, w, threaded);
    assert [] + turns == turns;
    OwnTurn(Play(table, turns, env), t, env, w, threaded, LookupThread(t.e.thread));
  }

  /** So follow-ups in a thread are picked up exactly after a passed mention in that
      same thread, unless its id is the empty string: there a mention engages once
      and its follow-ups go by the mentions outside any thread. */
  lemma EmptyThreadIsNotSticky(env: Env, w: Wiring, id: string, mention: Inbound, follow: Inbound)
    requires StickyWiring(w, env) && env.agentGroups != {}
    requires mention == Inbound(w.chat, true, true, Some(""), "", true, {}, {})
    requires follow == mention.(isMention := false)
    ensures Mentioned([Turn(w, mention, id)], w, follow.thread)
    ensures !EvaluateEngage(Play([], [Turn(w, mention, id)], env), w, follow, env)
  {
    var turns := [Turn(w, mention, id)];
    assert turns[0].e.thread == follow.thread;
    StickyLaw([], turns, Turn(w, follow, id), env, w, true);
  }

  // ---------- What a wiring's turn comes to ----------

  /** When a wiring engages: a pattern when it is missing or ".", when it matches, or
      when it is no regular expression; a mention wiring on mentions; a sticky one also,
      in a group, in a thread that has a session; an unknown mode never. */
  lemma EngagesIff(table: seq<Session>, w: Wiring, e: Inbound, env: Env)
    ensures EvaluateEngage(table, w, e, env) <==>
      match w.engage
      case Pattern(None) => true
      case Pattern(Some(pattern)) => pattern == "." || env.matcher(pattern, e.text) != Some(false)
      case Mention => e.isMention
      case MentionSticky => e.isMention ||
        (e.isGroup && exists s :: s in table && s.active && s.agent == w.agent && s.chat == Some(e.chat)
                               && s.thread == (if e.thread == Some("") then None else e.thread))
      case Unknown => false
  {
  }

  /** What comes of it: nothing without an agent group; the event is delivered when the
      wiring engages and neither gate refuses, and stored when it does not engage and
      accumulates. A refused event is never stored. */
  lemma OutcomeIs(table: seq<Session>, w: Wiring, e: Inbound, env: Env, id: string)
    ensures var outcome := RouteOne(table, w, e, env, id).outcome;
      && (outcome == NoAgent <==> w.agent !in env.agentGroups)
      && (outcome == Engaged <==>
            && w.agent in env.agentGroups && EvaluateEngage(table, w, e, env)
            && w.agent !in e.accessRefused && w.agent !in e.scopeRefused)
      && (outcome == Accumulated <==>
            w.agent in env.agentGroups && !EvaluateEngage(table, w, e, env) && w.policy == Accumulate)
  {
  }

  /** Where it goes: to the session of the event's own thread on a threaded adapter in a
      group chat, unless the wiring shares one session per agent, and to the session of
      the wiring's own mode otherwise. Nothing else touches the sessions. */
  lemma DeliversTo(table: seq<Session>, w: Wiring, e: Inbound, env: Env, id: string)
    ensures var r := RouteOne(table, w, e, env, id);
      r.table == match r.outcome
        case NoAgent => table
        case Ignored => table
        case _ =>
          if e.threaded && e.isGroup && w.sessionMode != AgentShared
          then Resolve(table, id, w.agent, Some(e.chat), e.thread, PerThread).table
          else Resolve(table, id, w.agent, Some(e.chat), e.thread, w.sessionMode).table
  {
  }

  /** The platform is asked to carry a thread only for a sticky wiring of a threaded
      adapter in a group chat. */
  lemma SubscribesIff(w: Wiring, e: Inbound)
    ensures Subscribes(w, e) <==> w.engage == MentionSticky && e.threaded && e.isGroup && e.thread != None
  {
  }
}
