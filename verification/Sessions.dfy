/** Session resolution: find or create the session of an agent in a chat. */
module Sessions {
  import opened Wrappers

  datatype SessionMode = Shared | PerThread | AgentShared

  /** A row of the sessions table. */
  datatype Session = Session(id: string, agent: string, chat: Option<string>, thread: Option<string>, active: bool)

  /** A missing and an empty thread id are both looked up as NULL. */
  function LookupThread(thread: Option<string>): Option<string> {
    if thread == Some("") then None else thread
  }

  predicate Matches(s: Session, agent: string, chat: string, thread: Option<string>) {
    s.active && s.agent == agent && s.chat == Some(chat) && s.thread == thread
  }

  /** findSessionForAgent: the first active row of the agent, chat and thread. */
  function FindForAgent(table: seq<Session>, agent: string, chat: string, thread: Option<string>): (found: Option<Session>)
    ensures found.Some? ==> found.value in table && Matches(found.value, agent, chat, LookupThread(thread))
    ensures found.Some? <==> exists s :: s in table && Matches(s, agent, chat, LookupThread(thread))
  {
    if table == [] then None
    else if Matches(table[0], agent, chat, LookupThread(thread)) then Some(table[0])
    else
      var rest := FindForAgent(table[1..], agent, chat, thread);
      assert forall s :: s in table ==> s == table[0] || s in table[1..];
      rest
  }

  /** findSessionByAgentGroup: the newest active row of the agent. */
  function FindByAgent(table: seq<Session>, agent: string): (found: Option<Session>)
    ensures found.Some? ==> found.value in table && found.value.active && found.value.agent == agent
    ensures found.None? ==> forall s :: s in table ==> !(s.active && s.agent == agent)
  {
    if table == [] then None
    else
      var last := table[|table| - 1];
      if last.active && last.agent == agent then Some(last)
      else
        assert forall s :: s in table ==> s == last || s in table[..|table| - 1];
        FindByAgent(table[..|table| - 1], agent)
  }

  datatype Resolution = Resolution(session: Session, created: bool, table: seq<Session>)

  function Lookup(table: seq<Session>, agent: string, chat: Option<string>, thread: Option<string>, mode: SessionMode): Option<Session> {
    if mode.AgentShared? then FindByAgent(table, agent)
    else if chat.Some? && chat.value != "" then
      FindForAgent(table, agent, chat.value, if mode.Shared? then None else thread)
    else None
  }

  /** Find or create; `id` is the fresh id that a creation uses. */
  function Resolve(table: seq<Session>, id: string, agent: string, chat: Option<string>, thread: Option<string>, mode: SessionMode): Resolution {
    match Lookup(table, agent, chat, thread, mode)
    case Some(existing) => Resolution(existing, false, table)
    case None =>
      var session := Session(id, agent, chat, if mode.PerThread? then thread else None, true);
      Resolution(session, true, table + [session])
  }

  class SessionManager {
    var sessions: seq<Session>

    constructor ()
      ensures sessions == []
    {
      sessions := [];
    }

    method ResolveSession(id: string, agent: string, chat: Option<string>, thread: Option<string>, mode: SessionMode)
      returns (session: Session, created: bool)
      modifies this
      ensures Resolution(session, created, sessions) == Resolve(old(sessions), id, agent, chat, thread, mode)
    {
      if mode == AgentShared {
        var existing := FindByAgent(sessions, agent);
        if existing.Some? {
          return existing.value, false;
        }
      } else if chat.Some? && chat.value != "" {
        var lookupThread := if mode == Shared then None else thread;
        var existing := FindForAgent(sessions, agent, chat.value, lookupThread);
        if existing.Some? {
          return existing.value, false;
        }
      }
      session := Session(id, agent, chat, if mode == PerThread then thread else None, true);
      sessions := sessions + [session];
      created := true;
    }
  }

  // ---------- One session per key ----------

  predicate SameKey(s: Session, t: Session) {
    s.active && t.active && s.chat.Some? && s.agent == t.agent && s.chat == t.chat && s.thread == t.thread
  }

  /** No two active sessions of one agent, chat and thread. */
  predicate KeyUnique(table: seq<Session>) {
    forall i, j :: 0 <= i < j < |table| ==> !SameKey(table[i], table[j])
  }

  /** The calls whose lookup asks for the very key that they would create. */
  predicate Sound(chat: Option<string>, thread: Option<string>, mode: SessionMode) {
    mode.AgentShared? || (chat.Some? && chat.value != "" && (mode.Shared? || thread != Some("")))
  }

  lemma ResolveKeepsUnique(table: seq<Session>, id: string, agent: string, chat: Option<string>, thread: Option<string>, mode: SessionMode)
    requires KeyUnique(table) && Sound(chat, thread, mode)
    ensures KeyUnique(Resolve(table, id, agent, chat, thread, mode).table)
  {
    var r := Resolve(table, id, agent, chat, thread, mode);
    if r.created {
      forall i | 0 <= i < |table| ensures !SameKey(table[i], r.session) {
        assert table[i] in table;
      }
    }
  }

  datatype Call = Call(id: string, agent: string, chat: Option<string>, thread: Option<string>, mode: SessionMode)

  /** Calls, and sessions being closed. */
  datatype Event = Resolved(call: Call) | Closed(index: nat)

  function Apply(table: seq<Session>, e: Event): seq<Session> {
    match e
    case Resolved(c) => Resolve(table, c.id, c.agent, c.chat, c.thread, c.mode).table
    case Closed(i) => if i < |table| then table[i := table[i].(active := false)] else table
  }

  function ApplyAll(table: seq<Session>, events: seq<Event>): seq<Session>
    decreases |events|
  {
    if events == [] then table else ApplyAll(Apply(table, events[0]), events[1..])
  }

  /** Over any run of sound calls and closings the keys stay unique. */
  lemma {:induction false} RunKeepsUnique(table: seq<Session>, events: seq<Event>)
    requires KeyUnique(table)
    requires forall i :: 0 <= i < |events| && events[i].Resolved? ==>
      Sound(events[i].call.chat, events[i].call.thread, events[i].call.mode)
    ensures KeyUnique(ApplyAll(table, events))
    decreases |events|
  {
    if events != [] {
      var e := events[0];
      if e.Resolved? {
        ResolveKeepsUnique(table, e.call.id, e.call.agent, e.call.chat, e.call.thread, e.call.mode);
      }
      assert forall i :: 0 <= i < |events[1..]| ==> events[1..][i] == events[i + 1];
      RunKeepsUnique(Apply(table, e), events[1..]);
    }
  }

  /** Asking again gives the same session and creates nothing, whatever the table. */
  ghost predicate Stable(agent: string, chat: Option<string>, thread: Option<string>, mode: SessionMode) {
    forall table, id, again ::
      var r := Resolve(table, id, agent, chat, thread, mode);
      Resolve(r.table, again, agent, chat, thread, mode) == Resolution(r.session, false, r.table)
  }

  lemma FindAppended(table: seq<Session>, s: Session, agent: string, chat: string, thread: Option<string>)
    requires FindForAgent(table, agent, chat, thread).None? && Matches(s, agent, chat, LookupThread(thread))
    ensures FindForAgent(table + [s], agent, chat, thread) == Some(s)
  {
    if table != [] {
      assert (table + [s])[1..] == table[1..] + [s];
      assert table[0] in table && forall t :: t in table[1..] ==> t in table;
      FindAppended(table[1..], s, agent, chat, thread);
    }
  }

  lemma SoundIsStable(table: seq<Session>, id: string, again: string, agent: string, chat: Option<string>, thread: Option<string>, mode: SessionMode)
    requires Sound(chat, thread, mode)
    ensures var r := Resolve(table, id, agent, chat, thread, mode);
      Resolve(r.table, again, agent, chat, thread, mode) == Resolution(r.session, false, r.table)
  {
    var r := Resolve(table, id, agent, chat, thread, mode);
    if r.created && !mode.AgentShared? {
      FindAppended(table, r.session, agent, chat.value, if mode.Shared? then None else thread);
    }
  }

  /** Resolution is stable exactly for the sound calls: a missing or empty chat, and
      an empty thread id with one session per thread, create a duplicate each time. */
  lemma StableIff(agent: string, chat: Option<string>, thread: Option<string>, mode: SessionMode)
    ensures Stable(agent, chat, thread, mode) <==> Sound(chat, thread, mode)
  {
    if Sound(chat, thread, mode) {
      forall table, id, again
        ensures var r := Resolve(table, id, agent, chat, thread, mode);
          Resolve(r.table, again, agent, chat, thread, mode) == Resolution(r.session, false, r.table)
      {
        SoundIsStable(table, id, again, agent, chat, thread, mode);
      }
    } else {
      var r := Resolve([], "a", agent, chat, thread, mode);
      assert r.table == [r.session];
      if chat.Some? && chat.value != "" {
        assert FindForAgent([r.session], agent, chat.value, thread).None?;
      }
      assert Resolve(r.table, "b", agent, chat, thread, mode).created;
    }
  }

  // ---------- What each mode shares ----------

  /** A call of an agent-shared wiring creates a session exactly when the agent has no
      active one; any other call exactly when there is no active one of the agent and
      chat, in no thread for a shared wiring and in the given one otherwise. */
  lemma CreatesIff(table: seq<Session>, id: string, agent: string, chat: Option<string>, thread: Option<string>, mode: SessionMode)
    ensures Resolve(table, id, agent, chat, thread, mode).created <==>
      match mode
      case AgentShared => forall s :: s in table && s.active ==> s.agent != agent
      case Shared =>
        chat.Some? && chat.value != "" ==>
          forall s :: s in table && s.active && s.agent == agent && s.chat == chat ==> s.thread != None
      case PerThread =>
        chat.Some? && chat.value != "" ==>
          forall s :: s in table && s.active && s.agent == agent && s.chat == chat ==>
            s.thread != (if thread == Some("") then None else thread)
  {
  }

  /** What is created carries the agent, the chat, and the thread only if it has one
      session per thread; what is found is an active session of the agent. */
  lemma ResolvesTo(table: seq<Session>, id: string, agent: string, chat: Option<string>, thread: Option<string>, mode: SessionMode)
    ensures var r := Resolve(table, id, agent, chat, thread, mode);
      && r.session in r.table && r.session.active && r.session.agent == agent
      && (!r.created ==> r.table == table)
      && (!r.created && mode != AgentShared ==> r.session.chat == chat)
      && (r.created ==> r.table == table + [r.session] && r.session.id == id && r.session.chat == chat)
      && (r.created ==> r.session.thread == match mode case PerThread => thread case _ => None)
  {
    var r := Resolve(table, id, agent, chat, thread, mode);
    assert r.created ==> r.table[|table|] == r.session;
  }

  /** An agent-shared wiring has one session across all chats and threads. */
  lemma AgentSharedAcrossChats(table: seq<Session>, id: string, again: string, agent: string,
                               chat: Option<string>, thread: Option<string>, chat': Option<string>, thread': Option<string>)
    ensures var r := Resolve(table, id, agent, chat, thread, AgentShared);
      Resolve(r.table, again, agent, chat', thread', AgentShared) == Resolution(r.session, false, r.table)
  {
  }

  /** A shared wiring has one session per chat, across its threads. */
  lemma SharedAcrossThreads(table: seq<Session>, id: string, again: string, agent: string, chat: string, thread: Option<string>, thread': Option<string>)
    requires chat != ""
    ensures var r := Resolve(table, id, agent, Some(chat), thread, Shared);
      Resolve(r.table, again, agent, Some(chat), thread', Shared) == Resolution(r.session, false, r.table)
  {
    var r := Resolve(table, id, agent, Some(chat), thread, Shared);
    if r.created {
      FindAppended(table, r.session, agent, chat, None);
    }
  }

  /** One session per thread keeps different threads, and different chats, apart. */
  lemma PerThreadApart(table: seq<Session>, id: string, again: string, agent: string,
                       chat: string, thread: Option<string>, chat': string, thread': Option<string>)
    requires chat != "" && chat' != "" && thread != Some("") && thread' != Some("") && (chat != chat' || thread != thread')
    ensures var r := Resolve(table, id, agent, Some(chat), thread, PerThread);
      var r' := Resolve(r.table, again, agent, Some(chat'), thread', PerThread);
      && r.session.chat == Some(chat) && r.session.thread == thread
      && r'.session.chat == Some(chat') && r'.session.thread == thread'
  {
  }

  /** Of several active sessions of an agent the newest is found, and of several for a
      thread the first. */
  lemma {:induction false} NewestIsFound(table: seq<Session>, i: nat)
    requires i < |table| && table[i].active
    requires forall j :: i < j < |table| ==> !(table[j].active && table[j].agent == table[i].agent)
    ensures FindByAgent(table, table[i].agent) == Some(table[i])
    decreases |table|
  {
    if i < |table| - 1 {
      var init := table[..|table| - 1];
      assert init[i] == table[i];
      NewestIsFound(init, i);
    }
  }
}
