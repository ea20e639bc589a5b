/** The namespace prefix that lets several adapter instances share the state
    tables, and the isolation it gives. */
module StateNamespaces {
  import opened Wrappers
  import opened StateKv

  /** The key that reaches the table. A missing and an empty namespace both leave
      the caller's key as it is. */
  function Key(namespace: Option<string>, key: string): string {
    if namespace.Some? && namespace.value != "" then namespace.value + ":" + key else key
  }

  /** What the bridge accepts as an instance name, as far as keys are concerned. */
  predicate ValidName(name: string) {
    name != "" && ':' !in name
  }

  /** The table key belongs to the named namespace. */
  predicate InSpace(k: string, name: string) {
    |name| < |k| && k[..|name|] == name && k[|name|] == ':'
  }

  lemma KeyInSpace(name: string, other: string, key: string)
    requires ValidName(name) && ValidName(other)
    ensures InSpace(Key(Some(other), key), name) <==> name == other
  {
    var k := Key(Some(other), key);
    assert k[..|other|] == other && k[|other|] == ':';
    assert |name| < |other| ==> k[|name|] == other[|name|];
  }

  /** Named keys collide only when both the name and the key are the same. */
  lemma KeyInjective(name: string, other: string, a: string, b: string)
    requires ValidName(name) && ValidName(other)
    ensures Key(Some(name), a) == Key(Some(other), b) <==> name == other && a == b
  {
    KeyInSpace(name, name, a);
    KeyInSpace(name, other, b);
    assert Key(Some(name), a)[|name| + 1..] == a;
    assert Key(Some(name), b)[|name| + 1..] == b;
  }

  /** The unprefixed default instance meets a named key exactly on the keys that
      spell out that name and a colon. */
  lemma DefaultCollidesIff(name: string, key: string)
    requires ValidName(name)
    ensures InSpace(Key(None, key), name) <==> exists rest :: key == Key(Some(name), rest)
  {
    if InSpace(key, name) {
      assert key == Key(Some(name), key[|name| + 1..]);
    }
    if rest :| key == Key(Some(name), rest) {
      KeyInSpace(name, name, rest);
    }
  }

  /** An operation as one adapter issues it, with the caller's own key. */
  datatype Issued = Issued(namespace: Option<string>, event: KvEvent)

  function OnTable(i: Issued): KvEvent {
    match i.event
    case Get(key, t0, t1) => Get(Key(i.namespace, key), t0, t1)
    case Set(key, value, ttl, t0) => Set(Key(i.namespace, key), value, ttl, t0)
    case SetIfNotExists(key, value, ttl, t0, t1) => SetIfNotExists(Key(i.namespace, key), value, ttl, t0, t1)
    case Delete(key, t0) => Delete(Key(i.namespace, key), t0)
    case Cleanup(t0) => Cleanup(t0)
  }

  function AllOnTable(issued: seq<Issued>): (events: seq<KvEvent>)
    ensures |events| == |issued|
  {
    if issued == [] then [] else [OnTable(issued[0])] + AllOnTable(issued[1..])
  }

  // ---------- Instances ----------

  /** The instance an operation comes from: none is the unprefixed default one. */
  function Instance(i: Issued): Option<string> {
    if i.namespace == Some("") then None else i.namespace
  }

  predicate IsFrom(i: Issued, who: Option<string>) {
    Instance(i) == who && !i.event.Cleanup?
  }

  /** The operations, purges aside, of one instance. */
  function IssuedBy(issued: seq<Issued>, who: Option<string>): seq<Issued> {
    if issued == [] then []
    else
      var rest := IssuedBy(issued[1..], who);
      if IsFrom(issued[0], who) then [issued[0]] + rest else rest
  }

  /** The answers that one instance gets in the whole run. */
  function AnswersTo(issued: seq<Issued>, outs: seq<KvOutput>, who: Option<string>): seq<KvOutput>
    requires |issued| == |outs|
  {
    if issued == [] then []
    else (if IsFrom(issued[0], who) then [outs[0]] else []) + AnswersTo(issued[1..], outs[1..], who)
  }

  /** Every named instance has a name that the bridge accepts. */
  predicate NamesOk(issued: seq<Issued>) {
    forall i :: 0 <= i < |issued| && Instance(issued[i]).Some? ==> ValidName(Instance(issued[i]).value)
  }

  /** An operation of the default instance on a key that spells out the name. */
  predicate Collides(i: Issued, name: string) {
    Instance(i).None? && !i.event.Cleanup? && InSpace(i.event.key, name)
  }

  lemma ConcernsIff(i: Issued, name: string)
    requires ValidName(name) && (Instance(i).Some? ==> ValidName(Instance(i).value))
    ensures Concerns(OnTable(i), (k: string) => InSpace(k, name)) <==> IsFrom(i, Some(name)) || Collides(i, name)
  {
    if !i.event.Cleanup? && Instance(i).Some? {
      KeyInSpace(name, i.namespace.value, i.event.key);
    }
  }

  function InSpaceOnly(issued: seq<Issued>, name: string): seq<KvEvent> {
    Only(AllOnTable(issued), (k: string) => InSpace(k, name))
  }

  lemma {:induction false} OwnAreInSpace(issued: seq<Issued>, name: string)
    requires NamesOk(issued) && ValidName(name)
    ensures |AllOnTable(IssuedBy(issued, Some(name)))| <= |InSpaceOnly(issued, name)|
    ensures (exists i :: 0 <= i < |issued| && Collides(issued[i], name)) ==>
      |AllOnTable(IssuedBy(issued, Some(name)))| < |InSpaceOnly(issued, name)|
  {
    if issued != [] {
      OwnAreInSpace(issued[1..], name);
      ConcernsIff(issued[0], name);
      assert AllOnTable(issued)[1..] == AllOnTable(issued[1..]);
      if i :| 0 <= i < |issued| && Collides(issued[i], name) {
        assert i > 0 ==> issued[1..][i - 1] == issued[i];
      }
    }
  }

  lemma {:induction false} NoCollisionOwnOperations(issued: seq<Issued>, name: string)
    requires NamesOk(issued) && ValidName(name)
    requires forall i :: 0 <= i < |issued| ==> !Collides(issued[i], name)
    ensures InSpaceOnly(issued, name) == AllOnTable(IssuedBy(issued, Some(name)))
  {
    if issued != [] {
      var i := issued[0];
      NoCollisionOwnOperations(issued[1..], name);
      ConcernsIff(i, name);
      assert AllOnTable(issued)[1..] == AllOnTable(issued[1..]);
      if IsFrom(i, Some(name)) {
        var mine := IssuedBy(issued, Some(name));
        assert mine[0] == i && mine[1..] == IssuedBy(issued[1..], Some(name));
      }
    }
  }

  /** The table operations in a name's key space are exactly those that its own
      instance issued, unless the default instance uses a key that spells it out. */
  lemma OwnOperationsIff(issued: seq<Issued>, name: string)
    requires NamesOk(issued) && ValidName(name)
    ensures InSpaceOnly(issued, name) == AllOnTable(IssuedBy(issued, Some(name)))
       <==> forall i :: 0 <= i < |issued| ==> !Collides(issued[i], name)
  {
    if forall i :: 0 <= i < |issued| ==> !Collides(issued[i], name) {
      NoCollisionOwnOperations(issued, name);
    } else {
      OwnAreInSpace(issued, name);
    }
  }

  // ---------- Which foreign operations are harmless ----------

  /** It reads, or purges, or has another key, or inserts a row that has expired. */
  predicate Harmless(e: KvEvent, own: string -> bool) {
    || !Concerns(e, own)
    || e.Get?
    || (e.SetIfNotExists? && e.ttl.Some? && e.ttl.value < 0)
  }

  predicate TimedOne(e: KvEvent) {
    0 < e.t0 <= e.End() && StampsNonZero([e])
  }

  lemma HarmlessKeepsView(kv: KvTable, e: KvEvent, own: string -> bool)
    requires Harmless(e, own) && TimedOne(e) && NoZeroRow(kv)
    ensures SameView(Apply(kv, e).table, kv, own, e.End())
  {
    assert [e][0] == e;
  }

  /** The lookup of a key at time u. */
  function Answer(kv: KvTable, key: string, u: int): KvOutput {
    Apply(kv, Get(key, u, u)).output
  }

  lemma ViewAnswers(kv: KvTable, m: KvTable, own: string -> bool, key: string, t: int, u: int)
    requires SameView(kv, m, own, t) && NoZeroRow(kv) && NoZeroRow(m) && 0 < t <= u && own(key)
    ensures Answer(kv, key, u) == Answer(m, key, u)
  {
    SameViewLater(kv, m, own, t, u);
  }

  /** A table on which an operation that is not harmless changes a later answer. */
  function Witness(e: KvEvent): KvTable
    requires !e.Cleanup?
  {
    match e
    case Set(key, value, _, _) => map[key := KvRow(value + "'", None)]
    case SetIfNotExists(_, _, _, _, _) => map[]
    case _ => map[e.key := KvRow("", None)]
  }

  lemma HarmfulShows(e: KvEvent, own: string -> bool)
    requires !Harmless(e, own) && TimedOne(e)
    ensures NoZeroRow(Witness(e)) && own(e.key)
    ensures Answer(Apply(Witness(e), e).table, e.key, e.End()) != Answer(Witness(e), e.key, e.End())
  {
    assert [e][0] == e;
    if e.Set? {
      assert |e.value + "'"| != |e.value|;
    }
  }

  /** A foreign operation leaves every later answer on the own keys alone, whatever
      the table, exactly when it is harmless. */
  lemma HarmlessIff(e: KvEvent, own: string -> bool)
    requires TimedOne(e)
    ensures Harmless(e, own) <==>
      forall kv, key, u :: NoZeroRow(kv) && own(key) && e.End() <= u ==> Answer(Apply(kv, e).table, key, u) == Answer(kv, key, u)
  {
    if Harmless(e, own) {
      forall kv, key, u | NoZeroRow(kv) && own(key) && e.End() <= u
        ensures Answer(Apply(kv, e).table, key, u) == Answer(kv, key, u)
      {
        HarmlessKeepsView(kv, e, own);
        StepKeepsNonZero(kv, kv, e);
        ViewAnswers(Apply(kv, e).table, kv, own, key, e.End(), u);
      }
    } else {
      HarmfulShows(e, own);
    }
  }

  // ---------- Isolation over whole runs ----------

  /** The instance keeps to its own keys, and the others do it no harm. */
  predicate Undisturbed(issued: seq<Issued>, who: Option<string>, own: string -> bool) {
    forall i :: 0 <= i < |issued| ==>
      if IsFrom(issued[i], who) then own(OnTable(issued[i]).key) else Harmless(OnTable(issued[i]), own)
  }

  lemma StepUndisturbed(kv: KvTable, m: KvTable, i: Issued, who: Option<string>, own: string -> bool, t: int)
    requires Undisturbed([i], who, own) && TimedOne(OnTable(i)) && t <= OnTable(i).t0
    requires SameView(kv, m, own, t) && NoZeroRow(kv) && NoZeroRow(m)
    ensures var e := OnTable(i);
      if IsFrom(i, who) then
        Apply(kv, e).output == EagerApply(m, e).output && SameView(Apply(kv, e).table, EagerApply(m, e).table, own, e.End())
      else SameView(Apply(kv, e).table, m, own, e.End())
  {
    var e := OnTable(i);
    assert [i][0] == i;
    if IsFrom(i, who) {
      StepAgrees(kv, m, e, own, t);
    } else {
      HarmlessKeepsView(kv, e, own);
      SameViewLater(kv, m, own, t, e.End());
    }
  }

  lemma UndisturbedTail(issued: seq<Issued>, who: Option<string>, own: string -> bool)
    requires Undisturbed(issued, who, own) && issued != []
    ensures Undisturbed([issued[0]], who, own) && Undisturbed(issued[1..], who, own)
  {
    assert forall i :: 0 <= i < |issued[1..]| ==> issued[1..][i] == issued[i + 1];
    assert [issued[0]][0] == issued[0];
  }

  /** An undisturbed instance gets the answers of an eagerly expiring map that only
      it uses, however the others interleave. */
  lemma {:induction false} UndisturbedIsIsolated(kv: KvTable, m: KvTable, issued: seq<Issued>, who: Option<string>, own: string -> bool, t: int)
    requires Undisturbed(issued, who, own)
    requires Timed(AllOnTable(issued), t) && StampsNonZero(AllOnTable(issued))
    requires SameView(kv, m, own, t) && NoZeroRow(kv) && NoZeroRow(m)
    ensures AnswersTo(issued, Run(kv, AllOnTable(issued)), who) == EagerRun(m, AllOnTable(IssuedBy(issued, who)))
    decreases |issued|
  {
    if issued != [] {
      var i, rest := issued[0], issued[1..];
      var e, events := OnTable(i), AllOnTable(issued);
      assert events[0] == e && events[1..] == AllOnTable(rest);
      UndisturbedTail(issued, who, own);
      StampsNonZeroTail(events);
      StepUndisturbed(kv, m, i, who, own, t);
      StepKeepsNonZero(kv, m, e);
      var kv', m' := Apply(kv, e).table, if IsFrom(i, who) then EagerApply(m, e).table else m;
      UndisturbedIsIsolated(kv', m', rest, who, own, e.End());
      assert Run(kv, events)[1..] == Run(kv', AllOnTable(rest));
      if IsFrom(i, who) {
        var mine := [i] + IssuedBy(rest, who);
        assert mine[1..] == IssuedBy(rest, who);
        assert AllOnTable(mine) == [e] + AllOnTable(IssuedBy(rest, who));
        assert ([e] + AllOnTable(IssuedBy(rest, who)))[1..] == AllOnTable(IssuedBy(rest, who));
      }
    }
  }

  /** A named instance is isolated from every other one, the default instance
      included, as long as no operation of the latter on a key that spells out the
      name does harm. */
  lemma NamespacesAreIsolated(kv: KvTable, issued: seq<Issued>, name: string, t: int)
    requires NamesOk(issued) && ValidName(name)
    requires forall i :: 0 <= i < |issued| && Collides(issued[i], name) ==> Harmless(OnTable(issued[i]), (k: string) => InSpace(k, name))
    requires Timed(AllOnTable(issued), t) && StampsNonZero(AllOnTable(issued)) && NoZeroRow(kv)
    ensures AnswersTo(issued, Run(kv, AllOnTable(issued)), Some(name)) == EagerRun(kv, AllOnTable(IssuedBy(issued, Some(name))))
  {
    var own := (k: string) => InSpace(k, name);
    forall i | 0 <= i < |issued|
      ensures if IsFrom(issued[i], Some(name)) then own(OnTable(issued[i]).key) else Harmless(OnTable(issued[i]), own)
    {
      ConcernsIff(issued[i], name);
    }
    UndisturbedIsIsolated(kv, kv, issued, Some(name), own, t);
  }

  /** The keys that no named instance among the given ones reaches. */
  predicate OutsideSpaces(k: string, names: set<string>) {
    forall name :: name in names ==> !InSpace(k, name)
  }

  /** The default instance is isolated from the named ones, as long as it keeps to
      keys that spell out none of their names. */
  lemma DefaultIsIsolated(kv: KvTable, issued: seq<Issued>, names: set<string>, t: int)
    requires forall name :: name in names ==> ValidName(name)
    requires forall i :: 0 <= i < |issued| && Instance(issued[i]).Some? ==> Instance(issued[i]).value in names
    requires forall i :: 0 <= i < |issued| && IsFrom(issued[i], None) ==> OutsideSpaces(issued[i].event.key, names)
    requires Timed(AllOnTable(issued), t) && StampsNonZero(AllOnTable(issued)) && NoZeroRow(kv)
    ensures AnswersTo(issued, Run(kv, AllOnTable(issued)), None) == EagerRun(kv, AllOnTable(IssuedBy(issued, None)))
  {
    var own := (k: string) => OutsideSpaces(k, names);
    forall i | 0 <= i < |issued|
      ensures if IsFrom(issued[i], None) then own(OnTable(issued[i]).key) else Harmless(OnTable(issued[i]), own)
    {
      if Instance(issued[i]).Some? && !issued[i].event.Cleanup? {
        var name := Instance(issued[i]).value;
        KeyInSpace(name, name, issued[i].event.key);
        assert !own(OnTable(issued[i]).key);
      }
    }
    UndisturbedIsIsolated(kv, kv, issued, None, own, t);
  }

  /** The run of the next lemma. */
  function Overwriting(t: int): seq<Issued> {
    [Issued(Some("b"), Set("k", "mine", None, t)), Issued(None, Set("b:k", "yours", None, t)), Issued(Some("b"), Get("k", t, t))]
  }

  lemma OverwritingOnTable(t: int)
    ensures AllOnTable(Overwriting(t)) == [Set("b:k", "mine", None, t), Set("b:k", "yours", None, t), Get("b:k", t, t)]
    ensures AllOnTable(IssuedBy(Overwriting(t), Some("b"))) == [Set("b:k", "mine", None, t), Get("b:k", t, t)]
  {
    var a, b, c := Overwriting(t)[0], Overwriting(t)[1], Overwriting(t)[2];
    assert "b" + ":" + "k" == "b:k";
    assert Overwriting(t)[1..] == [b, c] && [b, c][1..] == [c] && [c][1..] == [];
    assert AllOnTable([c]) == [OnTable(c)] && AllOnTable([b, c]) == [OnTable(b), OnTable(c)];
    assert IssuedBy([c], Some("b")) == [c] && IssuedBy([b, c], Some("b")) == [c];
    assert [a, c][1..] == [c] && AllOnTable([a, c]) == [OnTable(a), OnTable(c)];
  }

  lemma OverwritingAnswers(t: int, o: seq<KvOutput>)
    requires |o| == 3
    ensures AnswersTo(Overwriting(t), o, Some("b")) == [o[0], o[2]]
  {
    var b, c := Overwriting(t)[1], Overwriting(t)[2];
    assert Overwriting(t)[1..] == [b, c] && [b, c][1..] == [c] && [c][1..] == [];
    assert AnswersTo([c], o[1..][1..], Some("b")) == [o[2]];
    assert AnswersTo([b, c], o[1..], Some("b")) == [o[2]];
  }

  /** The default instance overwrites what a named one stored. */
  lemma DefaultDisturbsNamed(t: int)
    requires 0 < t
    ensures AnswersTo(Overwriting(t), Run(map[], AllOnTable(Overwriting(t))), Some("b")) == [Done, Found(Some("yours"))]
    ensures EagerRun(map[], AllOnTable(IssuedBy(Overwriting(t), Some("b")))) == [Done, Found(Some("mine"))]
  {
    var a, b, c := Set("b:k", "mine", None, t), Set("b:k", "yours", None, t), Get("b:k", t, t);
    OverwritingOnTable(t);
    assert [a, b, c][1..] == [b, c] && [b, c][1..] == [c] && [a, c][1..] == [c];
    var mine, yours := map["b:k" := KvRow("mine", None)], map["b:k" := KvRow("yours", None)];
    assert Apply(map[], a).table == mine && Apply(mine, b).table == yours;
    assert Run(yours, [c]) == [Found(Some("yours"))];
    assert Run(mine, [b, c]) == [Done, Found(Some("yours"))];
    assert Run(map[], [a, b, c]) == [Done, Done, Found(Some("yours"))];
    assert EagerApply(map[], a).table == mine;
    assert EagerRun(mine, [c]) == [Found(Some("mine"))];
    OverwritingAnswers(t, Run(map[], [a, b, c]));
  }
}
