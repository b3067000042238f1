/**
 * The entity/component registry: one storage per component name mapping
 * entities to their components, a per-entity component counter and an id
 * counter. Counter cells hold JavaScript numbers, so a cell that was never
 * written reads `undefined` and arithmetic on it gives NaN.
 */
module Ecs {
  import opened Wrappers

  /** Entities are plain numbers; only 0, 1, 2, ... are ever created. */
  type Entity = int

  datatype Component<V> = Component(value: V)

  type Storage<V> = map<Entity, Component<V>>

  /** A counter cell as JavaScript sees it. */
  datatype Count = Undefined | NaN | Num(n: int) {
    /** `++`: undefined and NaN become NaN. */
    function Incr(): (r: Count)
      ensures Num? <==> r.Num?
      ensures Num? ==> r.n == n + 1
      ensures !Num? ==> r == NaN
    {
      if Num? then Num(n + 1) else NaN
    }

    /** `--`: undefined and NaN become NaN. */
    function Decr(): (r: Count)
      ensures Num? <==> r.Num?
      ensures Num? ==> r.n == n - 1
      ensures !Num? ==> r == NaN
    {
      if Num? then Num(n - 1) else NaN
    }

    /** `=== 0`, which holds for the number 0 only. */
    predicate IsZero() {
      this == Num(0)
    }
  }

  /** The counter cell of entity e. */
  function CountOf(counter: map<Entity, Count>, e: Entity): (r: Count)
    ensures e in counter ==> r == counter[e]
    ensures e !in counter ==> r == Undefined
  {
    if e in counter then counter[e] else Undefined
  }

  /** `Error` carries its message; `TypeError` is reading a storage name the registry does not have. */
  datatype RegistryError = Error(message: string) | TypeError

  const RetrieveMessage: string := "entity does not have any component to retrieve"
  const RemoveMessage: string := "entity does not have any component to remove"

  ghost predicate NoDuplicates(s: seq<string>) {
    forall i, j :: 0 <= i < j < |s| ==> s[i] != s[j]
  }

  /** The names in order of first occurrence: the key order of an object filled with them. */
  function Dedup(s: seq<string>): (r: seq<string>)
    ensures NoDuplicates(r)
    ensures forall n :: n in r <==> n in s
  {
    if s == [] then []
    else
      var d := Dedup(s[..|s| - 1]);
      if s[|s| - 1] in d then d else d + [s[|s| - 1]]
  }

  /** The index of the first occurrence of n in s. */
  function FirstIndex(s: seq<string>, n: string): (k: nat)
    requires n in s
    ensures k < |s| && s[k] == n
    ensures forall m :: 0 <= m < k ==> s[m] != n
  {
    if s[0] == n then 0 else 1 + FirstIndex(s[1..], n)
  }

  /** Appending to s does not move the first occurrence of a name already in s. */
  lemma {:induction false} FirstIndexOfPrefix(s: seq<string>, x: string, n: string)
    requires n in s
    ensures FirstIndex(s + [x], n) == FirstIndex(s, n)
  {
    if s[0] != n {
      assert (s + [x])[1..] == s[1..] + [x];
      FirstIndexOfPrefix(s[1..], x, n);
    }
  }

  /** Dedup keeps the names in the order of their first occurrence, which is the order `destroy` walks them. */
  lemma {:induction false} DedupFirstOccurrenceOrder(s: seq<string>)
    ensures forall i, j :: 0 <= i < j < |Dedup(s)| ==>
      FirstIndex(s, Dedup(s)[i]) < FirstIndex(s, Dedup(s)[j])
  {
    if s != [] {
      var p, x := s[..|s| - 1], s[|s| - 1];
      assert s == p + [x];
      var d := Dedup(p);
      DedupFirstOccurrenceOrder(p);
      forall n | n in d
        ensures FirstIndex(s, n) == FirstIndex(p, n) < |p|
      {
        FirstIndexOfPrefix(p, x, n);
      }
      if x !in d {
        assert FirstIndex(s, x) == |p|;
      }
    }
  }

  /**
   * The storage walk of `destroy`: in storage order, delete e, lower the
   * count if something was deleted, and stop once the count is 0.
   * Yields the storages and the final count.
   */
  function DestroyWalk<V>(names: seq<string>, st: map<string, Storage<V>>, e: Entity, count: Count)
    : (r: (map<string, Storage<V>>, Count))
    requires forall n :: n in names ==> n in st
    ensures r.0.Keys == st.Keys
    ensures count.Num? ==> r.1.Num?
    decreases |names|
  {
    if names == [] then (st, count)
    else
      var n := names[0];
      var st1 := st[n := st[n] - {e}];
      var count1 := if e in st[n] then count.Decr() else count;
      if count1.IsZero() then (st1, count1)
      else DestroyWalk(names[1..], st1, e, count1)
  }

  /**
   * The walk only ever deletes e: every storage ends as it was or as it was
   * without e, and a storage outside the walked names is unchanged.
   */
  lemma {:induction false} DestroyWalkFrame<V>(names: seq<string>, st: map<string, Storage<V>>, e: Entity, count: Count)
    requires forall n :: n in names ==> n in st
    ensures var r := DestroyWalk(names, st, e, count);
      && (forall n :: n in st ==> r.0[n] == st[n] || r.0[n] == st[n] - {e})
      && (forall n :: n in st && n !in names ==> r.0[n] == st[n])
    decreases |names|
  {
    if names != [] {
      var n := names[0];
      var st1 := st[n := st[n] - {e}];
      var count1 := if e in st[n] then count.Decr() else count;
      if !count1.IsZero() {
        DestroyWalkFrame(names[1..], st1, e, count1);
        assert forall m :: m in st1 ==> st1[m] - {e} == st[m] - {e};
      }
    }
  }

  /** The walk from position i of the names, unfolded by one storage. */
  lemma DestroyWalkAt<V>(names: seq<string>, i: nat, st: map<string, Storage<V>>, e: Entity, count: Count)
    requires i < |names| && forall n :: n in names ==> n in st
    ensures var st1 := st[names[i] := st[names[i]] - {e}];
      var count1 := if e in st[names[i]] then count.Decr() else count;
      DestroyWalk(names[i..], st, e, count) ==
        if count1.IsZero() then (st1, count1) else DestroyWalk(names[i + 1..], st1, e, count1)
  {
    assert names[i..][0] == names[i] && names[i..][1..] == names[i + 1..];
  }

  /** The loop of `destroy` over the storages, with its early exit. */
  method WalkStorages<V>(names: seq<string>, storages: map<string, Storage<V>>, entity: Entity, count: Count)
    returns (st: map<string, Storage<V>>, componentCount: Count)
    requires forall n :: n in names ==> n in storages
    ensures (st, componentCount) == DestroyWalk(names, storages, entity, count)
  {
    st, componentCount := storages, count;
    ghost var result := DestroyWalk(names, st, entity, componentCount);
    var i := 0;
    while i < |names|
      invariant 0 <= i <= |names|
      invariant forall n :: n in names ==> n in st
      invariant DestroyWalk(names[i..], st, entity, componentCount) == result
    {
      var name := names[i];
      DestroyWalkAt(names, i, st, entity, componentCount);
      var deleted := entity in st[name];
      st := st[name := st[name] - {entity}];
      if deleted {
        componentCount := componentCount.Decr();
      }
      if componentCount.IsZero() {
        assert (st, componentCount) == result;
        break;
      }
      i := i + 1;
    }
    assert (st, componentCount) == result;
  }

  /** How many of the named storages hold a component of e. */
  function Holding<V>(names: seq<string>, st: map<string, Storage<V>>, e: Entity): nat
    requires forall n :: n in names ==> n in st
  {
    if names == [] then 0
    else (if e in st[names[0]] then 1 else 0) + Holding(names[1..], st, e)
  }

  lemma {:induction false} HoldingFrame<V>(names: seq<string>, st: map<string, Storage<V>>,
                                          st': map<string, Storage<V>>, e: Entity)
    requires forall n :: n in names ==> n in st && n in st' && (e in st[n] <==> e in st'[n])
    ensures Holding(names, st, e) == Holding(names, st', e)
    decreases |names|
  {
    if names != [] {
      HoldingFrame(names[1..], st, st', e);
    }
  }

  /** No named storage holds e exactly when the holding count is 0. */
  lemma {:induction false} HoldingZero<V>(names: seq<string>, st: map<string, Storage<V>>, e: Entity)
    requires forall n :: n in names ==> n in st
    ensures Holding(names, st, e) == 0 <==> forall n :: n in names ==> e !in st[n]
    decreases |names|
  {
    if names != [] {
      HoldingZero(names[1..], st, e);
      assert forall n :: n in names ==> n == names[0] || n in names[1..];
    }
  }

  /**
   * `destroy` lowers a numeric count by exactly the number of deletions it
   * makes, and either that count ends at 0 or no storage holds e any more.
   */
  lemma {:induction false} DestroyCount<V>(names: seq<string>, st: map<string, Storage<V>>, e: Entity, k: int)
    requires NoDuplicates(names)
    requires forall n :: n in names ==> n in st
    ensures var r := DestroyWalk(names, st, e, Num(k));
      && r.1 == Num(k - (Holding(names, st, e) - Holding(names, r.0, e)))
      && (r.1 == Num(0) || Holding(names, r.0, e) == 0)
    decreases |names|
  {
    if names != [] {
      var n := names[0];
      var rest := names[1..];
      var st1 := st[n := st[n] - {e}];
      var k1 := if e in st[n] then k - 1 else k;
      assert n !in rest;
      HoldingFrame(rest, st, st1, e);
      assert NoDuplicates(rest) by {
        forall i, j | 0 <= i < j < |rest|
          ensures rest[i] != rest[j]
        {
          assert rest[i] == names[i + 1] && rest[j] == names[j + 1];
        }
      }
      var r := DestroyWalk(names, st, e, Num(k));
      if k1 == 0 {
        assert r == (st1, Num(0));
        assert Holding(names, st1, e) == Holding(rest, st1, e);
      } else {
        assert r == DestroyWalk(rest, st1, e, Num(k1));
        DestroyCount(rest, st1, e, k1);
        DestroyWalkFrame(rest, st1, e, Num(k1));
        assert r.0[n] == st1[n];
        assert Holding(names, r.0, e) == Holding(rest, r.0, e);
      }
    }
  }

  /** A walk that starts from a positive count never takes it below 0. */
  lemma {:induction false} DestroyWalkStaysNonNegative<V>(names: seq<string>, st: map<string, Storage<V>>, e: Entity, k: int)
    requires 1 <= k
    requires forall n :: n in names ==> n in st
    ensures DestroyWalk(names, st, e, Num(k)).1.Num?
    ensures DestroyWalk(names, st, e, Num(k)).1.n >= 0
    decreases |names|
  {
    if names != [] {
      var n := names[0];
      var st1 := st[n := st[n] - {e}];
      var k1 := if e in st[n] then k - 1 else k;
      if k1 != 0 {
        DestroyWalkStaysNonNegative(names[1..], st1, e, k1);
      }
    }
  }

  /**
   * The early exit of `destroy`: with a count k between 1 and the number of
   * storages holding e, the walk stops after exactly k deletions, so the count
   * ends at 0 and the storages after the k-th deleting one still hold e.
   */
  lemma DestroyStopsAtZero<V>(names: seq<string>, st: map<string, Storage<V>>, e: Entity, k: int)
    requires NoDuplicates(names)
    requires forall n :: n in names ==> n in st
    requires 1 <= k <= Holding(names, st, e)
    ensures var r := DestroyWalk(names, st, e, Num(k));
      r.1 == Num(0) && Holding(names, r.0, e) == Holding(names, st, e) - k
  {
    DestroyCount(names, st, e, k);
    DestroyWalkStaysNonNegative(names, st, e, k);
  }

  /**
   * Where `destroy` deletes: walking the storages in order from a count
   * k >= 1, a storage loses e exactly when fewer than k of the storages
   * before it held e; every storage after the k-th holder keeps e.
   */
  lemma {:induction false} DestroyWalkDeletesFirstHolders<V>(names: seq<string>, st: map<string, Storage<V>>,
                                                           e: Entity, k: int, i: nat)
    requires NoDuplicates(names)
    requires forall n :: n in names ==> n in st
    requires 1 <= k && i < |names|
    ensures DestroyWalk(names, st, e, Num(k)).0[names[i]] ==
      if Holding(names[..i], st, e) < k then st[names[i]] - {e} else st[names[i]]
    decreases |names|
  {
    var n := names[0];
    var rest := names[1..];
    var st1 := st[n := st[n] - {e}];
    var k1 := if e in st[n] then k - 1 else k;
    assert n !in rest;
    assert NoDuplicates(rest) by {
      forall x, y | 0 <= x < y < |rest|
        ensures rest[x] != rest[y]
      {
        assert rest[x] == names[x + 1] && rest[y] == names[y + 1];
      }
    }
    if i == 0 {
      if k1 != 0 {
        DestroyWalkFrame(rest, st1, e, Num(k1));
      }
    } else {
      var m := names[i];
      assert m == rest[i - 1] && m != n;
      var before := rest[..i - 1];
      assert names[..i][1..] == before;
      assert Holding(names[..i], st, e) == (if e in st[n] then 1 else 0) + Holding(before, st, e);
      if k1 != 0 {
        DestroyWalkDeletesFirstHolders(rest, st1, e, k1, i - 1);
        assert forall x :: x in before ==> x in rest;
        HoldingFrame(before, st, st1, e);
      }
    }
  }

  /**
   * When the count of e agrees with the storages, `destroy` removes every
   * component of e and leaves its count at 0.
   */
  lemma DestroyConsistentEntity<V>(names: seq<string>, st: map<string, Storage<V>>, e: Entity)
    requires NoDuplicates(names)
    requires forall n :: n in names ==> n in st
    ensures var r := DestroyWalk(names, st, e, Num(Holding(names, st, e)));
      r.1 == Num(0) && forall n :: n in names ==> e !in r.0[n]
  {
    var r := DestroyWalk(names, st, e, Num(Holding(names, st, e)));
    DestroyCount(names, st, e, Holding(names, st, e));
    HoldingZero(names, r.0, e);
  }

  class Registry<V> {
    /** The storage names in iteration order. */
    var names: seq<string>
    var storages: map<string, Storage<V>>
    var entityComponentCounter: map<Entity, Count>
    var entityIdIncrement: nat

    /** Each storage is named once, and every created entity has a numeric count. */
    ghost predicate Valid()
      reads this
    {
      && NoDuplicates(names)
      && (forall n :: n in names <==> n in storages)
      && (forall e: Entity :: 0 <= e < entityIdIncrement ==> e in entityComponentCounter && entityComponentCounter[e].Num?)
    }

    /** One empty storage per distinct component name; no entities. */
    constructor(componentNames: seq<string>)
      ensures names == Dedup(componentNames)
      ensures forall n :: n in storages <==> n in componentNames
      ensures forall n :: n in storages ==> storages[n] == map[]
      ensures entityComponentCounter == map[] && entityIdIncrement == 0
      ensures Valid()
    {
      var ns: seq<string> := [];
      var st: map<string, Storage<V>> := map[];
      for i := 0 to |componentNames|
        invariant ns == Dedup(componentNames[..i])
        invariant forall n :: n in st <==> n in componentNames[..i]
        invariant forall n :: n in st ==> st[n] == map[]
      {
        var name := componentNames[i];
        assert componentNames[..i + 1][..i] == componentNames[..i];
        if name !in st {
          ns := ns + [name];
        }
        st := st[name := map[]];
      }
      assert componentNames[..|componentNames|] == componentNames;
      names, storages := ns, st;
      entityIdIncrement := 0;
      entityComponentCounter := map[];
    }

    function GetComponentCount(entity: Entity): (r: Count)
      reads this
      ensures r == CountOf(entityComponentCounter, entity)
      ensures Valid() && 0 <= entity < entityIdIncrement ==> r.Num?
    {
      CountOf(entityComponentCounter, entity)
    }

    /** A new entity with no components: ids are handed out 0, 1, 2, ... */
    method Create() returns (entity: Entity)
      requires Valid()
      modifies this
      ensures entity == old(entityIdIncrement) && entityIdIncrement == old(entityIdIncrement) + 1
      ensures entityComponentCounter == old(entityComponentCounter)[entity := Num(0)]
      ensures names == old(names) && storages == old(storages)
      ensures GetComponentCount(entity) == Num(0) && Valid()
    {
      entityComponentCounter := entityComponentCounter[entityIdIncrement := Num(0)];
      entity := entityIdIncrement;
      entityIdIncrement := entityIdIncrement + 1;
    }

    /** Delete the entity's components storage by storage until its count reaches 0. */
    method Destroy(entity: Entity)
      requires Valid()
      modifies this
      ensures var w := DestroyWalk(old(names), old(storages), entity, CountOf(old(entityComponentCounter), entity));
        storages == w.0 && entityComponentCounter == old(entityComponentCounter)[entity := w.1]
      ensures forall n :: n in storages ==> storages[n] - {entity} == old(storages)[n] - {entity}
      ensures names == old(names) && entityIdIncrement == old(entityIdIncrement)
      ensures Valid()
    {
      var st, componentCount := WalkStorages(names, storages, entity, CountOf(entityComponentCounter, entity));
      DestroyWalkFrame(names, storages, entity, CountOf(entityComponentCounter, entity));
      storages := st;
      entityComponentCounter := entityComponentCounter[entity := componentCount];
    }

    /** Store a component for the entity, replacing any previous one, and count it. */
    method Insert(entity: Entity, name: string, value: V) returns (r: Result<Component<V>, RegistryError>)
      requires Valid()
      modifies this
      ensures name !in old(storages) ==> r == Failure(TypeError) && unchanged(this)
      ensures name in old(storages) ==>
        && r == Success(Component(value))
        && storages == old(storages)[name := old(storages)[name][entity := Component(value)]]
        && entityComponentCounter == old(entityComponentCounter)[entity := CountOf(old(entityComponentCounter), entity).Incr()]
      ensures r.Success? ==>
        (Get(entity, name) == Success(Some(Component(value))) <==> !GetComponentCount(entity).IsZero())
      ensures names == old(names) && entityIdIncrement == old(entityIdIncrement)
      ensures Valid()
    {
      if name !in storages {
        return Failure(TypeError);
      }
      var component := Component(value);
      storages := storages[name := storages[name][entity := component]];
      entityComponentCounter := entityComponentCounter[entity := CountOf(entityComponentCounter, entity).Incr()];
      return Success(component);
    }

    /** The entity's component in the named storage, when its count is not 0. */
    function Get(entity: Entity, name: string): (r: Result<Option<Component<V>>, RegistryError>)
      reads this
      ensures GetComponentCount(entity).IsZero() ==> r == Failure(Error(RetrieveMessage))
      ensures !GetComponentCount(entity).IsZero() && name !in storages ==> r == Failure(TypeError)
      ensures !GetComponentCount(entity).IsZero() && name in storages ==>
        r.Success? && (r.value.Some? <==> entity in storages[name]) &&
        (r.value.Some? ==> r.value.value == storages[name][entity])
    {
      if CountOf(entityComponentCounter, entity).IsZero() then Failure(Error(RetrieveMessage))
      else if name !in storages then Failure(TypeError)
      else if entity in storages[name] then Success(Some(storages[name][entity]))
      else Success(None)
    }

    /** Delete the entity's component from the named storage and lower its count, deleted or not. */
    method Remove(entity: Entity, name: string) returns (r: Outcome<RegistryError>)
      requires Valid()
      modifies this
      ensures CountOf(old(entityComponentCounter), entity).IsZero() ==>
        r == Fail(Error(RemoveMessage)) && unchanged(this)
      ensures !CountOf(old(entityComponentCounter), entity).IsZero() && name !in old(storages) ==>
        r == Fail(TypeError) && unchanged(this)
      ensures !CountOf(old(entityComponentCounter), entity).IsZero() && name in old(storages) ==>
        && r == Pass
        && storages == old(storages)[name := old(storages)[name] - {entity}]
        && entityComponentCounter == old(entityComponentCounter)[entity := CountOf(old(entityComponentCounter), entity).Decr()]
      ensures r.Pass? ==> Get(entity, name) == Success(None) || Get(entity, name) == Failure(Error(RetrieveMessage))
      ensures names == old(names) && entityIdIncrement == old(entityIdIncrement)
      ensures Valid()
    {
      var count := CountOf(entityComponentCounter, entity);
      if count.IsZero() {
        return Fail(Error(RemoveMessage));
      }
      if name !in storages {
        return Fail(TypeError);
      }
      storages := storages[name := storages[name] - {entity}];
      entityComponentCounter := entityComponentCounter[entity := count.Decr()];
      return Pass;
    }

    /** Empty the named storage; counters are not touched. */
    method Clear(name: string) returns (r: Outcome<RegistryError>)
      requires Valid()
      modifies this
      ensures name !in old(storages) ==> r == Fail(TypeError) && unchanged(this)
      ensures name in old(storages) ==> r == Pass && storages == old(storages)[name := map[]]
      ensures names == old(names) && entityComponentCounter == old(entityComponentCounter)
      ensures entityIdIncrement == old(entityIdIncrement)
      ensures Valid()
    {
      if name !in storages {
        return Fail(TypeError);
      }
      storages := storages[name := map[]];
      return Pass;
    }

    /** Empty every storage; counters are not touched. */
    method ClearAll()
      requires Valid()
      modifies this
      ensures storages.Keys == old(storages).Keys
      ensures forall n :: n in storages ==> storages[n] == map[]
      ensures names == old(names) && entityComponentCounter == old(entityComponentCounter)
      ensures entityIdIncrement == old(entityIdIncrement)
      ensures Valid()
    {
      var st := storages;
      for i := 0 to |names|
        invariant st.Keys == storages.Keys
        invariant forall n :: n in st ==> st[n] == if n in names[..i] then map[] else storages[n]
      {
        assert names[..i + 1] == names[..i] + [names[i]];
        st := st[names[i] := map[]];
      }
      assert names[..|names|] == names;
      storages := st;
    }
  }
}
