/** Which migrations an upgrade runs, and in which order. */
module Migrations {
  /** The numeric parts of a dotted version. */
  type Version = seq<int>

  /** A migration directory: its name, and the parts of the name. Different names
      can stand for versions that compare equal. */
  datatype Migration = Migration(name: string, version: Version)

  /** Missing parts count as zero. */
  function Part(v: Version, i: nat): int {
    if i < |v| then v[i] else 0
  }

  function Longest(a: Version, b: Version): nat {
    if |a| < |b| then |b| else |a|
  }

  /** The first difference from a position on, or zero. */
  function CompareFrom(a: Version, b: Version, i: nat): int
    decreases Longest(a, b) - i
  {
    if i >= Longest(a, b) then 0
    else
      var diff := Part(a, i) - Part(b, i);
      if diff != 0 then diff else CompareFrom(a, b, i + 1)
  }

  function Compare(a: Version, b: Version): int {
    CompareFrom(a, b, 0)
  }

  method CompareSemver(a: Version, b: Version) returns (r: int)
    ensures r == Compare(a, b)
    ensures r == 0 <==> forall i: nat :: Part(a, i) == Part(b, i)
    ensures r != 0 ==> exists i: nat :: Part(a, i) - Part(b, i) == r && forall j :: 0 <= j < i ==> Part(a, j) == Part(b, j)
  {
    for i := 0 to Longest(a, b)
      invariant CompareFrom(a, b, i) == Compare(a, b)
      invariant forall j :: 0 <= j < i ==> Part(a, j) == Part(b, j)
    {
      var diff := Part(a, i) - Part(b, i);
      if diff != 0 { return diff; }
    }
    return 0;
  }

  // ---------- A total preorder ----------

  predicate FirstDifference(a: Version, b: Version, i: nat) {
    Part(a, i) != Part(b, i) && forall j :: 0 <= j < i ==> Part(a, j) == Part(b, j)
  }

  lemma {:induction false} CompareAtDifference(a: Version, b: Version, from: nat, i: nat)
    requires from <= i && FirstDifference(a, b, i)
    ensures CompareFrom(a, b, from) == Part(a, i) - Part(b, i)
    decreases i - from
  {
    if from < i {
      CompareAtDifference(a, b, from + 1, i);
    }
  }

  lemma {:induction false} ZeroIffSame(a: Version, b: Version, from: nat)
    requires forall j :: 0 <= j < from ==> Part(a, j) == Part(b, j)
    ensures CompareFrom(a, b, from) == 0 ==> forall i: nat :: Part(a, i) == Part(b, i)
    ensures CompareFrom(a, b, from) != 0 ==> exists i: nat :: FirstDifference(a, b, i)
    decreases Longest(a, b) - from
  {
    if from < Longest(a, b) {
      if Part(a, from) == Part(b, from) {
        ZeroIffSame(a, b, from + 1);
      } else {
        assert FirstDifference(a, b, from);
      }
    }
  }

  lemma SameIsZero(a: Version, b: Version)
    requires forall i: nat :: Part(a, i) == Part(b, i)
    ensures Compare(a, b) == 0
  {
    ZeroIffSame(a, b, 0);
  }

  /** Swapping the versions negates the result, so any two are comparable. */
  lemma CompareNegates(a: Version, b: Version)
    ensures Compare(b, a) == -Compare(a, b)
  {
    ZeroIffSame(a, b, 0);
    if Compare(a, b) == 0 {
      SameIsZero(b, a);
    } else {
      var i: nat :| FirstDifference(a, b, i);
      assert FirstDifference(b, a, i);
      CompareAtDifference(a, b, 0, i);
      CompareAtDifference(b, a, 0, i);
    }
  }

  /** Versions that compare equal compare alike with every other version. */
  lemma CompareCongruent(a: Version, b: Version, c: Version)
    requires Compare(a, b) == 0
    ensures Compare(a, c) == Compare(b, c)
  {
    ZeroIffSame(a, b, 0);
    ZeroIffSame(a, c, 0);
    if Compare(a, c) == 0 {
      SameIsZero(b, c);
    } else {
      var i: nat :| FirstDifference(a, c, i);
      assert FirstDifference(b, c, i);
      CompareAtDifference(a, c, 0, i);
      CompareAtDifference(b, c, 0, i);
    }
  }

  lemma CompareTransitive(a: Version, b: Version, c: Version)
    requires Compare(a, b) <= 0 && Compare(b, c) <= 0
    ensures Compare(a, c) <= 0
    ensures Compare(a, b) < 0 || Compare(b, c) < 0 ==> Compare(a, c) < 0
  {
    if Compare(a, b) == 0 {
      CompareCongruent(a, b, c);
    } else if Compare(b, c) == 0 {
      CompareNegates(b, c);
      CompareCongruent(c, b, a);
      CompareNegates(a, b);
      CompareNegates(a, c);
    } else {
      ZeroIffSame(a, b, 0);
      ZeroIffSame(b, c, 0);
      var i: nat :| FirstDifference(a, b, i);
      var j: nat :| FirstDifference(b, c, j);
      CompareAtDifference(a, b, 0, i);
      CompareAtDifference(b, c, 0, j);
      var k := if i < j then i else j;
      assert FirstDifference(a, c, k);
      CompareAtDifference(a, c, 0, k);
    }
  }

  // ---------- The selection ----------

  /** Above the first version and up to the second. */
  predicate Between(v: Version, from: Version, to: Version) {
    Compare(v, from) > 0 && Compare(v, to) <= 0
  }

  function Due(migrations: seq<Migration>, from: Version, to: Version): seq<Migration> {
    if migrations == [] then []
    else (if Between(migrations[0].version, from, to) then [migrations[0]] else []) + Due(migrations[1..], from, to)
  }

  predicate Sorted(ms: seq<Migration>) {
    forall i, j :: 0 <= i < j < |ms| ==> Compare(ms[i].version, ms[j].version) <= 0
  }

  /** The migrations whose version compares equal to a given one, in their order. */
  function Class(ms: seq<Migration>, v: Version): seq<Migration> {
    if ms == [] then []
    else (if Compare(ms[0].version, v) == 0 then [ms[0]] else []) + Class(ms[1..], v)
  }

  /** In order, with equal versions left in the order they came in. */
  ghost predicate IsStableSort(out: seq<Migration>, input: seq<Migration>) {
    Sorted(out) && forall v :: Class(out, v) == Class(input, v)
  }

  /** What an upgrade runs, given the directory's entries in the order they are read. */
  ghost predicate IsSelection(out: seq<Migration>, migrations: seq<Migration>, from: Version, to: Version) {
    IsStableSort(out, Due(migrations, from, to))
  }

  lemma {:induction false} ClassConcat(a: seq<Migration>, b: seq<Migration>, v: Version)
    ensures Class(a + b, v) == Class(a, v) + Class(b, v)
  {
    if a == [] {
      assert a + b == b;
    } else {
      assert (a + b)[1..] == a[1..] + b;
      ClassConcat(a[1..], b, v);
    }
  }

  lemma {:induction false} InOwnClass(ms: seq<Migration>, m: Migration, v: Version)
    ensures m in Class(ms, v) <==> m in ms && Compare(m.version, v) == 0
  {
    if ms != [] {
      InOwnClass(ms[1..], m, v);
    }
  }

  /** A class is taken into a selection whole or not at all. */
  lemma {:induction false} ClassOfDue(ms: seq<Migration>, from: Version, to: Version, v: Version)
    ensures Class(Due(ms, from, to), v) == if Between(v, from, to) then Class(ms, v) else []
  {
    if ms != [] {
      var m := ms[0];
      ClassOfDue(ms[1..], from, to, v);
      if Compare(m.version, v) == 0 {
        CompareCongruent(m.version, v, from);
        CompareCongruent(m.version, v, to);
      }
      ClassConcat(if Between(m.version, from, to) then [m] else [], Due(ms[1..], from, to), v);
      assert [m][1..] == [];
      assert Class([m], v) == (if Compare(m.version, v) == 0 then [m] else []) + [];
    }
  }

  // ---------- A stable sort exists, and there is only one ----------

  lemma {:induction false} StableSortIsUnique(x: seq<Migration>, y: seq<Migration>)
    requires Sorted(x) && Sorted(y) && forall v :: Class(x, v) == Class(y, v)
    ensures x == y
  {
    if x == [] {
      NoClassNoElement(x, y);
    } else if y == [] {
      NoClassNoElement(y, x);
    } else {
      SameHead(x, y);
      forall v ensures Class(x[1..], v) == Class(y[1..], v) {
        assert Class(x, v) == Class(y, v);
        var head := if Compare(x[0].version, v) == 0 then [x[0]] else [];
        assert Class(x[1..], v) == Class(x, v)[|head|..] == Class(y[1..], v);
      }
      StableSortIsUnique(x[1..], y[1..]);
    }
  }

  lemma NoClassNoElement(x: seq<Migration>, y: seq<Migration>)
    requires x == [] && forall v :: Class(x, v) == Class(y, v)
    ensures y == []
  {
    if y != [] {
      assert Class(x, y[0].version) == Class(y, y[0].version);
      SameIsZero(y[0].version, y[0].version);
      assert false;
    }
  }

  lemma SameHead(x: seq<Migration>, y: seq<Migration>)
    requires x != [] && y != [] && Sorted(x) && Sorted(y)
    requires forall v :: Class(x, v) == Class(y, v)
    ensures x[0] == y[0]
  {
    var a, b := x[0].version, y[0].version;
    HeadIsLeast(x, y);
    HeadIsLeast(y, x);
    CompareNegates(a, b);
    SameIsZero(a, a);
    assert Class(x, a) == Class(y, a);
    assert Class(x, a)[0] == x[0] && Class(y, a)[0] == y[0];
  }

  lemma HeadIsLeast(x: seq<Migration>, y: seq<Migration>)
    requires x != [] && y != [] && Sorted(x) && forall v :: Class(x, v) == Class(y, v)
    ensures Compare(x[0].version, y[0].version) <= 0
  {
    SameIsZero(y[0].version, y[0].version);
    InOwnClass(y, y[0], y[0].version);
    assert Class(x, y[0].version) == Class(y, y[0].version);
    InOwnClass(x, y[0], y[0].version);
    SameIsZero(x[0].version, x[0].version);
    var i :| 0 <= i < |x| && x[i] == y[0];
  }

  /** Before the elements it is not greater than. */
  function Insert(m: Migration, ms: seq<Migration>): seq<Migration> {
    if ms == [] || Compare(m.version, ms[0].version) <= 0 then [m] + ms
    else [ms[0]] + Insert(m, ms[1..])
  }

  function Sort(ms: seq<Migration>): seq<Migration> {
    if ms == [] then [] else Insert(ms[0], Sort(ms[1..]))
  }

  lemma {:induction false} InsertKeepsElements(m: Migration, ms: seq<Migration>)
    ensures forall x :: x in Insert(m, ms) <==> x == m || x in ms
  {
    if ms != [] {
      InsertKeepsElements(m, ms[1..]);
    }
  }

  lemma {:induction false} InsertSorts(m: Migration, ms: seq<Migration>)
    requires Sorted(ms)
    ensures Sorted(Insert(m, ms))
  {
    if ms != [] {
      var first := ms[0].version;
      if Compare(m.version, first) <= 0 {
        forall i | 0 <= i < |ms| ensures Compare(m.version, ms[i].version) <= 0 {
          SameIsZero(first, first);
          CompareTransitive(m.version, first, ms[i].version);
        }
      } else {
        InsertSorts(m, ms[1..]);
        InsertKeepsElements(m, ms[1..]);
        CompareNegates(m.version, first);
        var rest := Insert(m, ms[1..]);
        forall i | 0 <= i < |rest| ensures Compare(first, rest[i].version) <= 0 {
          assert rest[i] in rest;
        }
      }
    }
  }

  lemma {:induction false} InsertKeepsClass(m: Migration, ms: seq<Migration>, v: Version)
    requires Sorted(ms)
    ensures Class(Insert(m, ms), v) == Class([m] + ms, v)
  {
    if ms != [] && Compare(m.version, ms[0].version) > 0 {
      InsertKeepsClass(m, ms[1..], v);
      if Compare(m.version, v) == 0 && Compare(ms[0].version, v) == 0 {
        CompareNegates(m.version, v);
        CompareCongruent(ms[0].version, v, m.version);
        CompareNegates(ms[0].version, m.version);
        assert false;
      }
      assert ([m] + ms)[1..] == ms && ([m] + ms[1..])[1..] == ms[1..];
    }
  }

  lemma {:induction false} SortIsStable(ms: seq<Migration>)
    ensures IsStableSort(Sort(ms), ms)
  {
    if ms != [] {
      SortIsStable(ms[1..]);
      InsertSorts(ms[0], Sort(ms[1..]));
      forall v ensures Class(Sort(ms), v) == Class(ms, v) {
        InsertKeepsClass(ms[0], Sort(ms[1..]), v);
        assert ([ms[0]] + Sort(ms[1..]))[1..] == Sort(ms[1..]);
      }
    }
  }

  function Select(migrations: seq<Migration>, from: Version, to: Version): seq<Migration> {
    Sort(Due(migrations, from, to))
  }

  /** Whatever stable sort the runtime uses, it runs these. */
  lemma SelectionIs(out: seq<Migration>, migrations: seq<Migration>, from: Version, to: Version)
    ensures IsSelection(out, migrations, from, to) <==> out == Select(migrations, from, to)
  {
    SortIsStable(Due(migrations, from, to));
    if IsSelection(out, migrations, from, to) {
      StableSortIsUnique(out, Select(migrations, from, to));
    }
  }

  lemma {:induction false} DueIsBetween(ms: seq<Migration>, from: Version, to: Version, m: Migration)
    ensures m in Due(ms, from, to) <==> m in ms && Between(m.version, from, to)
  {
    if ms != [] {
      DueIsBetween(ms[1..], from, to, m);
    }
  }

  lemma {:induction false} InsertKeepsAll(m: Migration, ms: seq<Migration>)
    ensures multiset(Insert(m, ms)) == multiset{m} + multiset(ms)
  {
    if ms != [] && Compare(m.version, ms[0].version) > 0 {
      InsertKeepsAll(m, ms[1..]);
      assert ms == [ms[0]] + ms[1..];
    }
  }

  lemma {:induction false} SortKeepsAll(ms: seq<Migration>)
    ensures multiset(Sort(ms)) == multiset(ms)
  {
    if ms != [] {
      SortKeepsAll(ms[1..]);
      InsertKeepsAll(ms[0], Sort(ms[1..]));
      assert ms == [ms[0]] + ms[1..];
    }
  }

  lemma {:induction false} DueCount(ms: seq<Migration>, from: Version, to: Version, m: Migration)
    ensures multiset(Due(ms, from, to))[m] ==
      if Compare(m.version, from) > 0 && Compare(m.version, to) <= 0 then multiset(ms)[m] else 0
  {
    if ms != [] {
      DueCount(ms[1..], from, to, m);
      assert ms == [ms[0]] + ms[1..];
    }
  }

  /** What runs, exactly as often as it is listed. */
  lemma SelectedIff(migrations: seq<Migration>, from: Version, to: Version, m: Migration)
    ensures m in Select(migrations, from, to) <==>
      m in migrations && Compare(m.version, from) > 0 && Compare(m.version, to) <= 0
    ensures multiset(Select(migrations, from, to))[m] ==
      if Compare(m.version, from) > 0 && Compare(m.version, to) <= 0 then multiset(migrations)[m] else 0
  {
    var due := Due(migrations, from, to);
    SortIsStable(due);
    SameIsZero(m.version, m.version);
    InOwnClass(Sort(due), m, m.version);
    InOwnClass(due, m, m.version);
    DueIsBetween(migrations, from, to, m);
    SortKeepsAll(due);
    DueCount(migrations, from, to, m);
  }

  /** And in which order: by version, oldest first. */
  lemma SelectedInOrder(migrations: seq<Migration>, from: Version, to: Version, i: nat, j: nat)
    requires i < j < |Select(migrations, from, to)|
    ensures Compare(Select(migrations, from, to)[i].version, Select(migrations, from, to)[j].version) <= 0
  {
    SortIsStable(Due(migrations, from, to));
  }

  /** Upgrading by way of a version in between runs the same migrations in the same
      order as upgrading at once. */
  lemma UpgradesCompose(migrations: seq<Migration>, a: Version, b: Version, c: Version)
    requires Compare(a, b) <= 0 && Compare(b, c) <= 0
    ensures Select(migrations, a, b) + Select(migrations, b, c) == Select(migrations, a, c)
  {
    var x, y := Select(migrations, a, b), Select(migrations, b, c);
    SortIsStable(Due(migrations, a, b));
    SortIsStable(Due(migrations, b, c));
    forall v ensures Class(x + y, v) == Class(Due(migrations, a, c), v) {
      ClassConcat(x, y, v);
      ClassOfDue(migrations, a, b, v);
      ClassOfDue(migrations, b, c, v);
      ClassOfDue(migrations, a, c, v);
      BetweenSplits(v, a, b, c);
    }
    forall i, j | 0 <= i < |x| && 0 <= j < |y| ensures Compare(x[i].version, y[j].version) <= 0 {
      SelectedIff(migrations, a, b, x[i]);
      SelectedIff(migrations, b, c, y[j]);
      CompareNegates(y[j].version, b);
      CompareTransitive(x[i].version, b, y[j].version);
    }
    SelectionIs(x + y, migrations, a, c);
  }

  lemma BetweenSplits(v: Version, a: Version, b: Version, c: Version)
    requires Compare(a, b) <= 0 && Compare(b, c) <= 0
    ensures Between(v, a, c) <==> Between(v, a, b) || Between(v, b, c)
    ensures !(Between(v, a, b) && Between(v, b, c))
  {
    CompareNegates(v, a);
    CompareNegates(v, b);
    if Compare(v, b) <= 0 {
      CompareTransitive(v, b, c);
    } else {
      CompareTransitive(a, b, v);
    }
  }
}
