/** Converging a schema: mark its rows locked, open what it names, sweep what is still
    locked, build what is missing and bring every fixed-count build to its number of
    instances. */
module Converge {

  const DYNAMIC_INSTANCES: int := -1
  const LOCKED: int := -2

  /** The unique key of a build row. */
  datatype Key = Key(schema: string, format: string, challenge: string, seed: int)

  /** `built`: the flag is recorded, so the build is finalized. */
  datatype Row = Row(count: int, built: bool)

  /** Instances refer to their build's row; ids are drawn in order. */
  datatype Db = Db(rows: map<Key, Row>, instances: map<nat, Key>, next: nat)

  datatype Spec = Spec(seeds: seq<int>, count: int)

  datatype Schema = Schema(name: string, format: string, challenges: map<string, Spec>)

  /** Which of the calls a converge makes fail. */
  datatype Faults = Faults(lock: bool, open: Key -> bool, stop: nat -> bool, destroy: Key -> bool,
                           lookup: string -> bool, drift: string -> bool, execute: Key -> bool, finalize: Key -> bool,
                           list: Key -> bool, launch: nat -> bool)

  function KeyOf(schema: Schema, challenge: string, seed: int): Key {
    Key(schema.name, schema.format, challenge, seed)
  }

  /** The schema names this build. */
  predicate Names(schema: Schema, k: Key) {
    && k.schema == schema.name && k.format == schema.format
    && k.challenge in schema.challenges && k.seed in schema.challenges[k.challenge].seeds
  }

  function AllNamed(schema: Schema): (ks: set<Key>)
    ensures forall k :: k in ks <==> Names(schema, k)
  {
    var ks := set c, s | c in schema.challenges && s in schema.challenges[c].seeds :: KeyOf(schema, c, s);
    assert forall k :: Names(schema, k) ==> k == KeyOf(schema, k.challenge, k.seed);
    ks
  }

  function CountFor(schema: Schema, k: Key): int
    requires k.challenge in schema.challenges
  {
    schema.challenges[k.challenge].count
  }

  /** A count below LOCKED makes convergeBuildInstances index its list before the first
      element, which panics, once there is a service build to converge. */
  ghost predicate Panics(schema: Schema, service: set<string>) {
    exists c :: c in schema.challenges && c in service
      && schema.challenges[c].seeds != [] && schema.challenges[c].count < LOCKED
  }

  ghost predicate Valid(db: Db) {
    && (forall id :: id in db.instances ==> id < db.next && db.instances[id] in db.rows)
  }

  function Of(db: Db, k: Key): set<nat> {
    set id | id in db.instances && db.instances[id] == k
  }

  /** What belongs to other schemas. */
  function OtherRows(db: Db, name: string): map<Key, Row> {
    map k | k in db.rows && k.schema != name :: db.rows[k]
  }

  function OtherInstances(db: Db, name: string): map<nat, Key> {
    map id | id in db.instances && db.instances[id].schema != name :: db.instances[id]
  }

  ghost predicate Apart(a: Db, b: Db, name: string) {
    OtherRows(a, name) == OtherRows(b, name) && OtherInstances(a, name) == OtherInstances(b, name)
  }

  // ---------------------------------------------------------------- database steps

  /** lockSchema. */
  function Locked(db: Db, name: string): Db {
    db.(rows := map k | k in db.rows :: if k.schema == name then db.rows[k].(count := LOCKED) else db.rows[k])
  }

  /** openBuild: insert, or on conflict only change the instance count. */
  function Opened(db: Db, k: Key, count: int): Db {
    db.(rows := db.rows[k := Row(count, k in db.rows && db.rows[k].built)])
  }

  function Swept(db: Db, name: string): set<Key> {
    set k | k in db.rows && k.schema == name && db.rows[k].count == LOCKED
  }

  function SweptInstances(db: Db, name: string): set<nat> {
    set id | id in db.instances && db.instances[id] in Swept(db, name)
  }

  lemma SameForOthers(a: Db, b: Db, name: string)
    requires forall k: Key :: k.schema != name ==>
               (k in a.rows <==> k in b.rows) && (k in a.rows ==> a.rows[k] == b.rows[k])
    requires forall id :: id in a.instances && a.instances[id].schema != name ==>
               id in b.instances && b.instances[id] == a.instances[id]
    requires forall id :: id in b.instances && b.instances[id].schema != name ==>
               id in a.instances && b.instances[id] == a.instances[id]
    ensures Apart(a, b, name)
  {
  }

  function KeysOf(schema: Schema, challenge: string, seeds: seq<int>): (ks: set<Key>)
    ensures forall k :: k in ks <==> k == KeyOf(schema, challenge, k.seed) && k.seed in seeds
  {
    set s | s in seeds :: KeyOf(schema, challenge, s)
  }

  /** The keys one challenge of the schema contributes. */
  function Group(schema: Schema, challenge: string): set<Key>
    requires challenge in schema.challenges
  {
    KeysOf(schema, challenge, schema.challenges[challenge].seeds)
  }

  function OpenedRows(db: Db, schema: Schema, ks: set<Key>): map<Key, Row> {
    map k | k in ks && Names(schema, k) :: Row(CountFor(schema, k), k in db.rows && db.rows[k].built)
  }

  function OpenedSet(db: Db, schema: Schema, ks: set<Key>): Db {
    db.(rows := db.rows + OpenedRows(db, schema, ks))
  }

  function BuiltRows(schema: Schema, ks: set<Key>): map<Key, Row> {
    map k | k in ks && Names(schema, k) :: Row(CountFor(schema, k), true)
  }

  /** Those already built when their row was opened. */
  function BuiltAmong(db: Db, ks: set<Key>): set<Key> {
    set k | k in ks && k in db.rows && db.rows[k].built
  }

  /** The rows an error-free converge leaves: other schemas' as they were, and for this
      one a built row with the wanted count for every build it names. */
  function Converged(db: Db, schema: Schema): map<Key, Row> {
    OtherRows(db, schema.name) + BuiltRows(schema, AllNamed(schema) - LostToLock(db, schema))
  }

  /** A spec count equal to LOCKED cannot be told from the mark of the sweep, so a
      build that is already there is swept; one still to be built is opened again. */
  function LostToLock(db: Db, schema: Schema): set<Key> {
    set k | k in BuiltAmong(db, AllNamed(schema)) && CountFor(schema, k) == LOCKED
  }

  lemma OpenedOneMore(db: Db, schema: Schema, ks: set<Key>, k: Key)
    requires Names(schema, k)
    ensures Opened(OpenedSet(db, schema, ks), k, CountFor(schema, k)) == OpenedSet(db, schema, ks + {k})
  {
    OpenedKeepsBuilt(db, schema, ks, k);
    var row := Row(CountFor(schema, k), k in db.rows && db.rows[k].built);
    assert OpenedRows(db, schema, ks + {k}) == OpenedRows(db, schema, ks)[k := row];
    SameMap(Opened(OpenedSet(db, schema, ks), k, CountFor(schema, k)).rows, OpenedSet(db, schema, ks + {k}).rows);
  }

  lemma OpenedKeepsBuilt(db: Db, schema: Schema, ks: set<Key>, k: Key)
    ensures BuiltAmong(OpenedSet(db, schema, ks), {k}) == BuiltAmong(db, {k})
    ensures var now := OpenedSet(db, schema, ks);
            (k in now.rows && now.rows[k].built) == (k in db.rows && db.rows[k].built)
  {
  }

  ghost function AfterSweep(db: Db, schema: Schema): map<Key, Row> {
    var present := OpenedSet(Locked(db, schema.name), schema, AllNamed(schema));
    present.rows - Swept(present, schema.name)
  }

  function SparedRow(db: Db, schema: Schema, k: Key): Row
    requires if k.schema != schema.name then k in db.rows else Names(schema, k)
  {
    if k.schema != schema.name then db.rows[k] else Row(CountFor(schema, k), k in db.rows && db.rows[k].built)
  }

  lemma SweptRow(db: Db, schema: Schema, k: Key)
    ensures k in AfterSweep(db, schema) <==>
              if k.schema != schema.name then k in db.rows else Names(schema, k) && CountFor(schema, k) != LOCKED
    ensures k in AfterSweep(db, schema) ==> AfterSweep(db, schema)[k] == SparedRow(db, schema, k)
  {
  }

  ghost function AfterBuild(db: Db, schema: Schema): map<Key, Row> {
    AfterSweep(db, schema) + BuiltRows(schema, AllNamed(schema) - BuiltAmong(db, AllNamed(schema)))
  }

  lemma RowAgrees(db: Db, schema: Schema, k: Key)
    ensures k in AfterBuild(db, schema) <==> k in Converged(db, schema)
    ensures k in AfterBuild(db, schema) ==> AfterBuild(db, schema)[k] == Converged(db, schema)[k]
  {
    SweptRow(db, schema, k);
  }

  lemma SameMap(a: map<Key, Row>, b: map<Key, Row>)
    requires forall k :: k in a <==> k in b
    requires forall k :: k in a ==> a[k] == b[k]
    ensures a == b
  {
  }

  /** Mark, open, sweep, build: the rows end up as wanted. */
  lemma SweepLeavesTheNamed(db: Db, schema: Schema)
    ensures AfterBuild(db, schema) == Converged(db, schema)
  {
    forall k: Key
      ensures k in AfterBuild(db, schema) <==> k in Converged(db, schema)
      ensures k in AfterBuild(db, schema) ==> AfterBuild(db, schema)[k] == Converged(db, schema)[k]
    {
      RowAgrees(db, schema, k);
    }
    SameMap(AfterBuild(db, schema), Converged(db, schema));
  }

  function Launched(db: Db, k: Key): Db {
    db.(instances := db.instances[db.next := k], next := db.next + 1)
  }

  lemma LaunchedFacts(db: Db, k: Key)
    requires Valid(db) && k in db.rows
    ensures Valid(Launched(db, k)) && Apart(Launched(db, k), db, k.schema) && OnlyOf(Launched(db, k), db, k)
    ensures |Of(Launched(db, k), k)| == |Of(db, k)| + 1
  {
    assert db.next !in db.instances;
    SameForOthers(Launched(db, k), db, k.schema);
    assert Of(Launched(db, k), k) == Of(db, k) + {db.next};
  }

  class Manager {
    var db: Db
    const external: bool
    const known: set<string>     // the challenges recorded here
    const service: set<string>   // those whose builds need instances

    constructor (d: Db, external: bool, known: set<string>, service: set<string>)
      ensures db == d && this.external == external && this.known == known && this.service == service
    {
      db, this.external, this.known, this.service := d, external, known, service;
    }

    method LockSchema(name: string, fails: bool) returns (ok: bool)
      requires Valid(db)
      modifies this
      ensures Valid(db) && Apart(db, old(db), name)
      ensures ok == !fails && db == if ok then Locked(old(db), name) else old(db)
    {
      ok := !fails;
      if ok {
        db := Locked(db, name);
      }
      SameForOthers(db, old(db), name);
    }

    method OpenBuild(k: Key, count: int, fails: bool) returns (ok: bool, built: bool)
      requires Valid(db)
      modifies this
      ensures Valid(db) && Apart(db, old(db), k.schema)
      ensures ok == !fails && db == if ok then Opened(old(db), k, count) else old(db)
      ensures built == (ok && k in old(db).rows && old(db).rows[k].built)
    {
      ok, built := !fails, false;
      if ok {
        db := Opened(db, k, count);
        built := db.rows[k].built;
      }
      SameForOthers(db, old(db), k.schema);
    }

    /** stopInstance, as far as the records go. */
    method StopInstance(id: nat, ghost name: string, fails: bool) returns (ok: bool)
      requires Valid(db) && (id in db.instances ==> db.instances[id].schema == name)
      modifies this
      ensures Valid(db) && Apart(db, old(db), name)
      ensures ok == !fails && db == if ok then old(db).(instances := old(db).instances - {id}) else old(db)
    {
      ok := !fails;
      if ok {
        db := db.(instances := db.instances - {id});
      }
      SameForOthers(db, old(db), name);
    }

    /** destroyImages, as far as the records go: a row with instances is kept. */
    method DestroyBuild(k: Key, fails: bool) returns (ok: bool)
      requires Valid(db)
      modifies this
      ensures Valid(db) && Apart(db, old(db), k.schema)
      ensures ok == (!fails && Of(old(db), k) == {})
      ensures db == if ok then old(db).(rows := old(db).rows - {k}) else old(db)
    {
      ok := !fails && Of(db, k) == {};
      if ok {
        assert forall id :: id in db.instances && db.instances[id] == k ==> id in Of(db, k);
        db := db.(rows := db.rows - {k});
      }
      SameForOthers(db, old(db), k.schema);
    }

    /** The first half of cleanupSchemaResources. */
    method StopSwept(name: string, stop: nat -> bool) returns (ok: bool)
      requires Valid(db)
      modifies this
      ensures Valid(db) && Apart(db, old(db), name) && db.rows == old(db).rows && db.next == old(db).next
      ensures ok ==> db.instances == old(db).instances - SweptInstances(old(db), name)
    {
      var todo := SweptInstances(db, name);
      ghost var was, all := db, todo;
      while todo != {}
        invariant Valid(db) && Apart(db, was, name) && db.rows == was.rows && db.next == was.next
        invariant todo <= all && db.instances == was.instances - (all - todo)
        decreases todo
      {
        var id :| id in todo;
        ok := StopInstance(id, name, stop(id));
        if !ok {
          return;
        }
        assert all - (todo - {id}) == (all - todo) + {id};
        todo := todo - {id};
      }
      assert all - {} == all;
      ok := true;
    }

    /** The second half. */
    method DestroySwept(name: string, destroy: Key -> bool) returns (ok: bool)
      requires Valid(db)
      modifies this
      ensures Valid(db) && Apart(db, old(db), name) && db.instances == old(db).instances && db.next == old(db).next
      ensures Spares(db, old(db), name)
      ensures ok ==> db.rows == old(db).rows - Swept(old(db), name)
    {
      var todo := Swept(db, name);
      ghost var was, all := db, todo;
      while todo != {}
        invariant Valid(db) && Apart(db, was, name) && db.instances == was.instances && db.next == was.next
        invariant todo <= all && db.rows == was.rows - (all - todo)
        decreases todo
      {
        var k :| k in todo;
        ok := DestroyBuild(k, destroy(k));
        if !ok {
          return;
        }
        assert all - (todo - {k}) == (all - todo) + {k};
        todo := todo - {k};
      }
      assert all - {} == all;
      ok := true;
    }

    /** cleanupSchemaResources. */
    method Cleanup(name: string, f: Faults) returns (ok: bool)
      requires Valid(db)
      modifies this
      ensures Valid(db) && Apart(db, old(db), name) && db.next == old(db).next
      ensures Spares(db, old(db), name)
      ensures ok ==> db.rows == old(db).rows - Swept(old(db), name)
      ensures ok ==> db.instances == old(db).instances - SweptInstances(old(db), name)
    {
      ok := StopSwept(name, f.stop);
      if ok {
        ok := DestroySwept(name, f.destroy);
      }
    }

    // --------------------------------------------------------------- instances

    method StopSurplus(k: Key, target: nat, stop: nat -> bool) returns (ok: bool)
      requires Valid(db) && |Of(db, k)| >= target
      modifies this
      ensures Valid(db) && Apart(db, old(db), k.schema) && db.rows == old(db).rows
      ensures OnlyOf(db, old(db), k)
      ensures ok ==> |Of(db, k)| == target
    {
      var left := Of(db, k);
      ghost var was := db;
      ok := true;
      while |left| > target
        invariant Valid(db) && Apart(db, was, k.schema) && db.rows == was.rows && OnlyOf(db, was, k)
        invariant left <= Of(db, k) && |left| >= target
        invariant ok ==> left == Of(db, k)
        decreases |left|
      {
        var id :| id in left;
        var stopped := StopInstance(id, k.schema, stop(id));
        ok := ok && stopped;
        left := left - {id};
      }
    }

    method LaunchMissing(k: Key, target: nat, launch: nat -> bool) returns (ok: bool)
      requires Valid(db) && (|Of(db, k)| < target ==> k in db.rows)
      modifies this
      ensures Valid(db) && Apart(db, old(db), k.schema) && db.rows == old(db).rows
      ensures OnlyOf(db, old(db), k)
      ensures ok && |Of(old(db), k)| <= target ==> |Of(db, k)| == target
      ensures |Of(old(db), k)| >= target ==> db == old(db)
    {
      var n := |Of(db, k)|;
      ghost var was, start := db, n;
      ok := true;
      while n < target
        invariant Valid(db) && Apart(db, was, k.schema) && db.rows == was.rows && OnlyOf(db, was, k)
        invariant n == |Of(db, k)| && (start <= target ==> n <= target) && (n < target ==> k in db.rows)
        invariant start >= target ==> db == was
      {
        if launch(db.next) {
          return false;
        }
        Launch(k);
        n := n + 1;
      }
    }

    /** newInstance, as far as the records go. */
    method Launch(k: Key)
      requires Valid(db) && k in db.rows
      modifies this
      ensures Valid(db) && Apart(db, old(db), k.schema) && db.rows == old(db).rows
      ensures OnlyOf(db, old(db), k) && |Of(db, k)| == |Of(old(db), k)| + 1
    {
      LaunchedFacts(db, k);
      db := Launched(db, k);
    }

    /** convergeBuildInstances. */
    method ConvergeBuildInstances(k: Key, target: int, f: Faults) returns (ok: bool, panicked: bool)
      requires Valid(db) && (target > 0 ==> k in db.rows)
      modifies this
      ensures Valid(db) && Apart(db, old(db), k.schema) && db.rows == old(db).rows
      ensures OnlyOf(db, old(db), k)
      ensures ok ==> |Of(db, k)| == target
      ensures |Of(old(db), k)| == target || panicked ==> db == old(db)
      ensures panicked <==> target < 0 && !f.list(k)
    {
      ok, panicked := false, false;
      if f.list(k) {
        return;
      }
      if target < 0 {
        panicked := true;
      } else if |Of(db, k)| > target {
        ok := StopSurplus(k, target, f.stop);
      } else {
        ok := LaunchMissing(k, target, f.launch);
      }
    }

    // ------------------------------------------------------------------ converge

    /** requireHandedOver: the challenges that are short. */
    method RequireHandedOver(schema: Schema) returns (short: set<string>)
      ensures short == {} <==> HandedOver(db, known, schema)
    {
      short := {};
      var todo := schema.challenges.Keys;
      while todo != {}
        invariant todo <= schema.challenges.Keys
        invariant short <= schema.challenges.Keys - todo
        invariant forall c :: c in schema.challenges.Keys - todo ==> (c in short <==> Short(schema, c))
        decreases todo
      {
        var c :| c in todo;
        if Short(schema, c) {
          short := short + {c};
        }
        todo := todo - {c};
      }
      assert forall c :: c in schema.challenges ==> (c in short <==> Short(schema, c));
    }

    predicate Short(schema: Schema, c: string)
      requires c in schema.challenges
      reads this
    {
      var seeds := schema.challenges[c].seeds;
      seeds != [] && (c !in known || exists s :: s in seeds && !Stored(db, KeyOf(schema, c, s)))
    }

    method OpenNamed(schema: Schema, k: Key, soFar: bool, ghost was: Db, ghost done: set<Key>, before: set<Key>,
                     fails: bool)
      returns (ok: bool, complete: set<Key>)
      requires Valid(db) && Names(schema, k) && Present(db, schema, before)
      requires soFar ==> Through(db, was, schema, done, before)
      modifies this
      ensures Valid(db) && Apart(db, old(db), schema.name) && Present(db, schema, complete)
      ensures ok ==> soFar && Through(db, was, schema, done + {k}, complete)
    {
      var built;
      ok, built := OpenBuild(k, CountFor(schema, k), fails);
      ok, complete := ok && soFar, if built then before + {k} else before;
      if ok {
        OpenedOneMore(was, schema, done, k);
        OpenedKeepsBuilt(was, schema, done, k);
        BuiltGrows(was, done, k);
      }
    }

    /** The opening loop for one challenge; `complete` gains the builds found built. */
    method OpenChallenge(schema: Schema, c: string, soFar: bool, ghost was: Db, ghost done: set<Key>,
                         before: set<Key>, f: Faults)
      returns (ok: bool, complete: set<Key>)
      requires Valid(db) && c in schema.challenges && Present(db, schema, before)
      requires soFar ==> Through(db, was, schema, done, before)
      modifies this
      ensures Valid(db) && Apart(db, old(db), schema.name) && Present(db, schema, complete)
      ensures ok ==> soFar && Through(db, was, schema, done + Group(schema, c), complete)
    {
      var seeds := schema.challenges[c].seeds;
      ok, complete := soFar, before;
      ghost var start, all := db, done;
      for i := 0 to |seeds|
        invariant all == done + KeysOf(schema, c, seeds[..i])
        invariant Valid(db) && Apart(db, start, schema.name) && Present(db, schema, complete)
        invariant ok ==> soFar && Through(db, was, schema, all, complete)
      {
        var k := KeyOf(schema, c, seeds[i]);
        assert KeysOf(schema, c, seeds[..i + 1]) == KeysOf(schema, c, seeds[..i]) + {k};
        ok, complete := OpenNamed(schema, k, ok, was, all, complete, f.open(k));
        all := all + {k};
      }
      assert seeds[..|seeds|] == seeds;
    }

    method OpenAll(schema: Schema, f: Faults) returns (ok: bool, complete: set<Key>)
      requires Valid(db)
      modifies this
      ensures Valid(db) && Apart(db, old(db), schema.name) && Present(db, schema, complete)
      ensures ok ==> Through(db, old(db), schema, AllNamed(schema), complete)
    {
      ok, complete := true, {};
      ghost var was, done := db, {};
      var todo := schema.challenges.Keys;
      assert OpenedSet(was, schema, {}) == was;
      while todo != {}
        invariant todo <= schema.challenges.Keys && done == NamedIn(schema, schema.challenges.Keys - todo)
        invariant Valid(db) && Apart(db, was, schema.name) && Present(db, schema, complete)
        invariant ok ==> Through(db, was, schema, done, complete)
        decreases todo
      {
        var c :| c in todo;
        NamedGrows(schema, schema.challenges.Keys - todo, c);
        assert schema.challenges.Keys - (todo - {c}) == (schema.challenges.Keys - todo) + {c};
        ok, complete := OpenChallenge(schema, c, ok, was, done, complete, f);
        done := done + Group(schema, c);
        todo := todo - {c};
      }
      assert done == AllNamed(schema);
    }

    /** The body of generateBuilds' loop. */
    method BuildOne(schema: Schema, k: Key, f: Faults) returns (ok: bool)
      requires Valid(db) && Names(schema, k)
      modifies this
      ensures Valid(db) && Apart(db, old(db), schema.name) && db.instances == old(db).instances
      ensures db.rows - {k} == old(db).rows - {k}
      ensures ok ==> db.rows == old(db).rows[k := Row(CountFor(schema, k), true)]
    {
      var built;
      ok, built := OpenBuild(k, CountFor(schema, k), f.open(k));
      if !ok {
        return;
      }
      if f.execute(k) {
        ok := DestroyBuild(k, false);
        return false;
      }
      if f.finalize(k) {
        return false;
      }
      db := db.(rows := db.rows[k := Row(CountFor(schema, k), true)]);
      SameForOthers(db, old(db), schema.name);
    }

    /** generateBuilds for one challenge. */
    method GenerateBuilds(schema: Schema, c: string, complete: set<Key>, f: Faults) returns (ok: bool)
      requires Valid(db) && c in schema.challenges
      modifies this
      ensures Valid(db) && Apart(db, old(db), schema.name) && db.instances == old(db).instances
      ensures OutsideSame(db, old(db), Group(schema, c) - complete)
      ensures ok ==> db.rows == old(db).rows + BuiltRows(schema, Group(schema, c) - complete)
      ensures Group(schema, c) <= complete ==> db == old(db)
    {
      if Group(schema, c) <= complete {
        assert BuiltRows(schema, Group(schema, c) - complete) == map[];
        return external || schema.challenges[c].seeds == [] || !f.lookup(c);
      }
      if external || f.lookup(c) || f.drift(c) {
        return false;
      }
      ok := BuildPending(schema, c, complete, f);
    }

    method BuildPending(schema: Schema, c: string, complete: set<Key>, f: Faults) returns (ok: bool)
      requires Valid(db) && c in schema.challenges
      modifies this
      ensures Valid(db) && Apart(db, old(db), schema.name) && db.instances == old(db).instances
      ensures OutsideSame(db, old(db), Group(schema, c) - complete)
      ensures ok ==> db.rows == old(db).rows + BuiltRows(schema, Group(schema, c) - complete)
    {
      var seeds := schema.challenges[c].seeds;
      ghost var was, done, pending := db, {}, Group(schema, c) - complete;
      assert BuiltRows(schema, done) == map[];
      for i := 0 to |seeds|
        invariant Valid(db) && Apart(db, was, schema.name) && db.instances == was.instances
        invariant done == KeysOf(schema, c, seeds[..i]) - complete && OutsideSame(db, was, pending)
        invariant db.rows == was.rows + BuiltRows(schema, done)
      {
        var k := KeyOf(schema, c, seeds[i]);
        KeysGrow(schema, c, seeds, i, complete);
        if k !in complete {
          ghost var before := db;
          ok := BuildOne(schema, k, f);
          OutsideStep(db, before, was, pending, k);
          if !ok {
            return;
          }
          BuiltOneMore(was.rows, schema, done, k);
          done := done + {k};
        }
      }
      assert seeds[..|seeds|] == seeds;
      ok := true;
    }

    /** The instance loop for one challenge, its target settled. */
    method ConvergeEach(schema: Schema, c: string, target: int, f: Faults) returns (ok: bool, panicked: bool)
      requires Valid(db) && c in schema.challenges && (target > 0 ==> Group(schema, c) <= db.rows.Keys)
      modifies this
      ensures Valid(db) && Apart(db, old(db), schema.name) && db.rows == old(db).rows
      ensures SameOutside(db, old(db), Group(schema, c))
      ensures ok ==> AtTarget(db, Group(schema, c), target)
      ensures AtTarget(old(db), Group(schema, c), target) ==> db == old(db)
      ensures panicked ==> !ok && target < 0 && schema.challenges[c].seeds != []
    {
      var seeds := schema.challenges[c].seeds;
      ghost var was, settled := db, AtTarget(db, Group(schema, c), target);
      ok, panicked := true, false;
      for i := 0 to |seeds|
        invariant Valid(db) && Apart(db, was, schema.name) && db.rows == was.rows
        invariant SameOutside(db, was, Group(schema, c))
        invariant ok ==> AtTarget(db, KeysOf(schema, c, seeds[..i]), target)
        invariant settled ==> db == was
      {
        var k := KeyOf(schema, c, seeds[i]);
        ghost var before := db;
        var good;
        good, panicked := ConvergeBuildInstances(k, target, f);
        if panicked {
          return false, true;
        }
        OneMoreAtTarget(db, before, schema, c, seeds, i, target);
        SameOutsideStep(db, before, was, Group(schema, c), k);
        ok := ok && good;
      }
      assert seeds[..|seeds|] == seeds;
    }

    /** The instance loop for one challenge. */
    method ConvergeInstances(schema: Schema, c: string, f: Faults) returns (ok: bool, panicked: bool)
      requires Valid(db) && c in schema.challenges
      requires schema.challenges[c].count > 0 ==> Group(schema, c) <= db.rows.Keys
      modifies this
      ensures Valid(db) && Apart(db, old(db), schema.name) && db.rows == old(db).rows
      ensures SameOutside(db, old(db), Group(schema, c))
      ensures ok ==> AllRight(db, old(db), schema, service, Group(schema, c))
      ensures AllRight(old(db), old(db), schema, service, Group(schema, c)) ==> db == old(db)
      ensures panicked ==> !ok && Panics(schema, service)
    {
      var target := schema.challenges[c].count;
      if c !in service {
        target := 0;
      } else if target == DYNAMIC_INSTANCES || target == LOCKED {
        return true, false;
      }
      ok, panicked := ConvergeEach(schema, c, target, f);
    }

    method ConvergeChallenge(schema: Schema, c: string, complete: set<Key>, f: Faults)
      returns (ok: bool, panicked: bool)
      requires Valid(db) && c in schema.challenges && Kept(db, schema, complete)
      modifies this
      ensures Valid(db) && Apart(db, old(db), schema.name) && Kept(db, schema, complete)
      ensures SameOutside(db, old(db), Group(schema, c))
      ensures ok ==> db.rows == old(db).rows + BuiltRows(schema, Group(schema, c) - complete)
      ensures ok ==> AllRight(db, old(db), schema, service, Group(schema, c))
      ensures Group(schema, c) <= complete && AllRight(old(db), old(db), schema, service, Group(schema, c))
              ==> db == old(db)
      ensures panicked ==> !ok && Panics(schema, service)
    {
      ghost var was := db;
      panicked := false;
      ok := GenerateBuilds(schema, c, complete, f);
      KeptOutside(db, was, schema, complete, Group(schema, c) - complete);
      assert forall k :: Of(db, k) == Of(was, k);
      if !ok || schema.challenges[c].seeds == [] {
        return;
      }
      if f.lookup(c) {
        ok := false;
        return;
      }
      GroupPresent(db, was, schema, c, complete);
      ok, panicked := ConvergeInstances(schema, c, f);
    }

    /** The last loop of convergeSchema. */
    method ConvergeAll(schema: Schema, complete: set<Key>, f: Faults) returns (ok: bool, panicked: bool)
      requires Valid(db) && Kept(db, schema, complete)
      modifies this
      ensures Valid(db) && Apart(db, old(db), schema.name)
      ensures ok ==> db.rows == old(db).rows + BuiltRows(schema, AllNamed(schema) - complete)
      ensures ok ==> AllRight(db, old(db), schema, service, AllNamed(schema))
      ensures AllNamed(schema) <= complete && AllRight(old(db), old(db), schema, service, AllNamed(schema))
              ==> db == old(db)
      ensures panicked ==> !ok && Panics(schema, service)
    {
      ok, panicked := true, false;
      ghost var was := db;
      ghost var settled := AllNamed(schema) <= complete && AllRight(db, db, schema, service, AllNamed(schema));
      var todo := schema.challenges.Keys;
      ghost var done: set<string> := {};
      assert BuiltRows(schema, NamedIn(schema, done) - complete) == map[];
      while todo != {}
        invariant done !! todo && done + todo == schema.challenges.Keys
        invariant Valid(db) && Apart(db, was, schema.name) && Kept(db, schema, complete)
        invariant ok ==> db.rows == was.rows + BuiltRows(schema, NamedIn(schema, done) - complete)
        invariant Untouched(db, was, NamedIn(schema, todo))
        invariant ok ==> AllRight(db, was, schema, service, NamedIn(schema, done))
        invariant settled ==> db == was
        decreases todo
      {
        var c :| c in todo;
        ghost var before := db;
        var good;
        good, panicked := ConvergeChallenge(schema, c, complete, f);
        GroupIsNamed(before, schema, service, c);
        if panicked {
          return false, true;
        }
        StillUntouched(db, before, was, schema, todo, c);
        ok := ok && good;
        if ok {
          RightStep(db, before, was, schema, service, done, todo, c);
          RowsStep(was.rows, schema, done, c, complete);
        }
        todo, done := todo - {c}, done + {c};
      }
      assert NamedIn(schema, schema.challenges.Keys) == AllNamed(schema);
    }

    /** convergeSchema. Converging what is already as the schema wants it changes nothing. */
    method ConvergeSchema(schema: Schema, f: Faults) returns (ok: bool, panicked: bool)
      requires Valid(db)
      modifies this
      ensures Valid(db) && Apart(db, old(db), schema.name)
      ensures external && !HandedOver(old(db), known, schema) ==> !ok && !panicked && db == old(db)
      ensures ok ==> db.rows == Converged(old(db), schema)
      ensures ok ==> forall k :: Names(schema, k) ==>
                InstancesRight(Of(db, k), if CountFor(schema, k) == LOCKED then {} else Of(old(db), k),
                               CountFor(schema, k), k.challenge in service)
      ensures ok && AsWanted(old(db), schema, service) ==> db == old(db)
      ensures panicked ==> !ok && Panics(schema, service)
    {
      ok, panicked := false, false;
      if external {
        var short := RequireHandedOver(schema);
        if short != {} {
          return;
        }
      }
      ghost var was := db;
      ok := LockSchema(schema.name, f.lock);
      if !ok {
        return;
      }
      var complete;
      ok, complete := OpenAll(schema, f);
      ghost var present := db;
      var swept := Cleanup(schema.name, f);
      ok := ok && swept;
      ghost var spared := db;
      KeptBySweep(db, present, schema, complete);
      var good;
      good, panicked := ConvergeAll(schema, complete, f);
      ok := ok && good;
      if ok {
        SweptState(spared, present, was, schema, complete);
        SweepLeavesTheNamed(was, schema);
      }
    }

    /** DeleteSchema, as far as builds and instances go. */
    method DeleteSchema(name: string, f: Faults) returns (ok: bool)
      requires Valid(db)
      modifies this
      ensures Valid(db) && Apart(db, old(db), name)
      ensures ok ==> db.rows == OtherRows(old(db), name) && db.instances == OtherInstances(old(db), name)
    {
      ghost var was := db;
      ok := LockSchema(name, f.lock);
      if ok {
        LockSweepsAll(was, name);
        ok := Cleanup(name, f);
      }
    }
  }

  lemma LockSweepsAll(db: Db, name: string)
    requires Valid(db)
    ensures var locked := Locked(db, name);
            && locked.rows - Swept(locked, name) == OtherRows(db, name)
            && locked.instances - SweptInstances(locked, name) == OtherInstances(db, name)
  {
    var locked := Locked(db, name);
    assert forall k :: k in Swept(locked, name) <==> k in db.rows && k.schema == name;
  }

  /** The schema's rows are its named builds, built and with their counts, and their
      instances as many as they should be. */
  ghost predicate AsWanted(db: Db, schema: Schema, service: set<string>) {
    db.rows == Converged(db, schema) && AllRight(db, db, schema, service, AllNamed(schema))
  }

  /** What an error-free sweep leaves. */
  lemma SweptState(spared: Db, present: Db, was: Db, schema: Schema, complete: set<Key>)
    requires Valid(was) && Through(present, Locked(was, schema.name), schema, AllNamed(schema), complete)
    requires spared.rows == present.rows - Swept(present, schema.name) && spared.next == present.next
    requires spared.instances == present.instances - SweptInstances(present, schema.name)
    ensures complete == BuiltAmong(was, AllNamed(schema)) && spared.rows == AfterSweep(was, schema)
    ensures forall k :: Names(schema, k) && CountFor(schema, k) != LOCKED ==> Of(spared, k) == Of(was, k)
    ensures was.rows == Converged(was, schema) ==> spared == was && AllNamed(schema) <= complete
  {
    LockKeepsBuilt(was, schema.name, AllNamed(schema));
    forall k | Names(schema, k) && CountFor(schema, k) != LOCKED ensures Of(spared, k) == Of(was, k) {
      SparedInstances(spared, present, was, schema, k);
    }
    if was.rows == Converged(was, schema) {
      NothingToSweep(present, was, schema);
    }
  }

  /** With the rows already as wanted, everything named is built and nothing is swept. */
  lemma NothingToSweep(present: Db, was: Db, schema: Schema)
    requires was.rows == Converged(was, schema)
    requires present == OpenedSet(Locked(was, schema.name), schema, AllNamed(schema))
    ensures BuiltAmong(was, AllNamed(schema)) == AllNamed(schema)
    ensures Swept(present, schema.name) == {} && SweptInstances(present, schema.name) == {}
    ensures AfterSweep(was, schema) == was.rows
  {
    AllAreBuilt(was, schema);
    assert BuiltRows(schema, AllNamed(schema) - BuiltAmong(was, AllNamed(schema))) == map[];
    SweepLeavesTheNamed(was, schema);
    forall k | k in present.rows ensures k !in Swept(present, schema.name) {
      SweptRow(was, schema, k);
      assert k in was.rows || Names(schema, k);
    }
  }

  lemma AllAreBuilt(was: Db, schema: Schema)
    requires was.rows == Converged(was, schema)
    ensures BuiltAmong(was, AllNamed(schema)) == AllNamed(schema)
  {
    forall k | Names(schema, k) ensures Stored(was, k) {
      LockedSpecLosesBuiltRows(was, schema, k);
    }
  }

  lemma GroupIsNamed(db: Db, schema: Schema, service: set<string>, c: string)
    requires c in schema.challenges
    ensures Group(schema, c) <= AllNamed(schema)
    ensures AllRight(db, db, schema, service, AllNamed(schema)) ==> AllRight(db, db, schema, service, Group(schema, c))
  {
  }

  lemma KeptOutside(a: Db, b: Db, schema: Schema, complete: set<Key>, ks: set<Key>)
    requires Kept(b, schema, complete) && OutsideSame(a, b, ks) && ks !! complete
    ensures Kept(a, schema, complete)
  {
    forall k | k in complete && k in b.rows ensures k in a.rows {
      assert k in b.rows - ks;
    }
  }

  lemma GroupPresent(a: Db, b: Db, schema: Schema, c: string, complete: set<Key>)
    requires c in schema.challenges && Kept(a, schema, complete)
    requires a.rows == b.rows + BuiltRows(schema, Group(schema, c) - complete)
    ensures schema.challenges[c].count > 0 ==> Group(schema, c) <= a.rows.Keys
  {
    forall k | k in Group(schema, c) && schema.challenges[c].count > 0 ensures k in a.rows {
      if k !in complete {
        assert k in BuiltRows(schema, Group(schema, c) - complete);
      }
    }
  }

  lemma BuiltMore(rows: map<Key, Row>, schema: Schema, a: set<Key>, b: set<Key>)
    ensures (rows + BuiltRows(schema, a)) + BuiltRows(schema, b) == rows + BuiltRows(schema, a + b)
  {
    assert BuiltRows(schema, a + b) == BuiltRows(schema, a) + BuiltRows(schema, b);
  }

  lemma KeptBySweep(a: Db, b: Db, schema: Schema, complete: set<Key>)
    requires Present(b, schema, complete) && Spares(a, b, schema.name)
    ensures Kept(a, schema, complete)
  {
  }

  lemma LockKeepsBuilt(db: Db, name: string, ks: set<Key>)
    ensures BuiltAmong(Locked(db, name), ks) == BuiltAmong(db, ks)
  {
  }

  /** The sweep leaves alone the instances of a build whose count is not LOCKED. */
  lemma SparedInstances(spared: Db, present: Db, was: Db, schema: Schema, k: Key)
    requires Names(schema, k) && CountFor(schema, k) != LOCKED
    requires present == OpenedSet(Locked(was, schema.name), schema, AllNamed(schema))
    requires spared.instances == present.instances - SweptInstances(present, schema.name)
    ensures Of(spared, k) == Of(was, k)
  {
    assert k in OpenedRows(Locked(was, schema.name), schema, AllNamed(schema));
    assert present.rows[k].count == CountFor(schema, k);
    assert k !in Swept(present, schema.name);
  }

  /** Each of these builds has its row, with the count the schema gives. */
  ghost predicate Present(db: Db, schema: Schema, ks: set<Key>) {
    forall k :: k in ks ==> k in db.rows && Names(schema, k) && db.rows[k].count == CountFor(schema, k)
  }

  /** Exactly these builds were opened, and `complete` of them were built already. */
  ghost predicate Through(db: Db, was: Db, schema: Schema, done: set<Key>, complete: set<Key>) {
    db == OpenedSet(was, schema, done) && complete == BuiltAmong(was, done)
  }

  lemma BuiltGrows(db: Db, ks: set<Key>, k: Key)
    ensures BuiltAmong(db, ks + {k}) == BuiltAmong(db, ks) + if Stored(db, k) then {k} else {}
  {
  }

  /** The builds found complete still have their rows, unless the schema asks for LOCKED. */
  ghost predicate Kept(db: Db, schema: Schema, complete: set<Key>) {
    forall k :: k in complete ==> Names(schema, k) && (CountFor(schema, k) != LOCKED ==> k in db.rows)
  }

  /** Rows outside a set of builds are as they were. */
  ghost predicate OutsideSame(a: Db, b: Db, ks: set<Key>) {
    a.rows - ks == b.rows - ks
  }

  lemma OutsideStep(a: Db, b: Db, was: Db, ks: set<Key>, k: Key)
    requires a.rows - {k} == b.rows - {k} && OutsideSame(b, was, ks) && k in ks
    ensures OutsideSame(a, was, ks)
  {
    assert a.rows - ks == (a.rows - {k}) - ks;
    assert b.rows - ks == (b.rows - {k}) - ks;
  }

  lemma KeysGrow(schema: Schema, c: string, seeds: seq<int>, i: nat, complete: set<Key>)
    requires i < |seeds|
    ensures KeysOf(schema, c, seeds[..i + 1]) - complete
         == (KeysOf(schema, c, seeds[..i]) - complete) + ({KeyOf(schema, c, seeds[i])} - complete)
  {
  }

  lemma BuiltOneMore(rows: map<Key, Row>, schema: Schema, ks: set<Key>, k: Key)
    requires Names(schema, k)
    ensures (rows + BuiltRows(schema, ks))[k := Row(CountFor(schema, k), true)] == rows + BuiltRows(schema, ks + {k})
  {
    assert BuiltRows(schema, ks + {k}) == BuiltRows(schema, ks)[k := Row(CountFor(schema, k), true)];
  }

  /** The builds a schema names of some of its challenges. */
  function NamedIn(schema: Schema, cs: set<string>): set<Key> {
    set k | k in AllNamed(schema) && k.challenge in cs
  }

  lemma NamedGrows(schema: Schema, cs: set<string>, c: string)
    requires c in schema.challenges
    ensures NamedIn(schema, cs + {c}) == NamedIn(schema, cs) + Group(schema, c)
  {
  }

  /** The instances of a build the schema names, `was` being those it had before. */
  ghost predicate InstancesRight(now: set<nat>, was: set<nat>, count: int, service: bool) {
    && (!service ==> now == {})
    && (service ==> count >= LOCKED)
    && (service && count >= 0 ==> |now| == count)
    && (service && count == DYNAMIC_INSTANCES ==> now == was)
  }

  /** There is a finalized build in the row. */
  predicate Stored(db: Db, k: Key) {
    k in db.rows && db.rows[k].built
  }

  lemma RowsStep(rows: map<Key, Row>, schema: Schema, done: set<string>, c: string, complete: set<Key>)
    requires c in schema.challenges
    ensures (rows + BuiltRows(schema, NamedIn(schema, done) - complete))
            + BuiltRows(schema, Group(schema, c) - complete)
         == rows + BuiltRows(schema, NamedIn(schema, done + {c}) - complete)
  {
    NamedGrows(schema, done, c);
    BuiltMore(rows, schema, NamedIn(schema, done) - complete, Group(schema, c) - complete);
    assert (NamedIn(schema, done) - complete) + (Group(schema, c) - complete) == NamedIn(schema, done + {c}) - complete;
  }

  ghost predicate AllRight(db: Db, was: Db, schema: Schema, service: set<string>, ks: set<Key>) {
    forall k :: k in ks ==>
      && k.challenge in schema.challenges
      && InstancesRight(Of(db, k), Of(was, k), CountFor(schema, k), k.challenge in service)
  }

  /** Builds outside a set have the instances they had. */
  ghost predicate SameOutside(db: Db, was: Db, ks: set<Key>) {
    forall k :: k !in ks ==> Of(db, k) == Of(was, k)
  }

  ghost predicate AtTarget(db: Db, ks: set<Key>, target: int) {
    forall k :: k in ks ==> |Of(db, k)| == target
  }

  lemma SameOutsideStep(db: Db, before: Db, was: Db, ks: set<Key>, k: Key)
    requires SameOutside(before, was, ks) && OnlyOf(db, before, k) && k in ks
    ensures SameOutside(db, was, ks)
  {
    forall k' | k' !in ks ensures Of(db, k') == Of(was, k') {
      OnlyOfKeeps(db, before, k, k');
    }
  }

  lemma OneMoreAtTarget(db: Db, before: Db, schema: Schema, c: string, seeds: seq<int>, i: nat, target: int)
    requires i < |seeds| && OnlyOf(db, before, KeyOf(schema, c, seeds[i]))
    ensures AtTarget(before, KeysOf(schema, c, seeds[..i]), target) && |Of(db, KeyOf(schema, c, seeds[i]))| == target
            ==> AtTarget(db, KeysOf(schema, c, seeds[..i + 1]), target)
  {
    var k := KeyOf(schema, c, seeds[i]);
    assert KeysOf(schema, c, seeds[..i + 1]) == KeysOf(schema, c, seeds[..i]) + {k};
    forall k' | k' in KeysOf(schema, c, seeds[..i]) && k' != k ensures Of(db, k') == Of(before, k') {
      OnlyOfKeeps(db, before, k, k');
    }
  }

  ghost predicate Untouched(db: Db, was: Db, ks: set<Key>) {
    forall k :: k in ks ==> Of(db, k) == Of(was, k)
  }

  lemma StillUntouched(db: Db, before: Db, was: Db, schema: Schema, todo: set<string>, c: string)
    requires c in todo && c in schema.challenges && Untouched(before, was, NamedIn(schema, todo))
    requires SameOutside(db, before, Group(schema, c))
    ensures Untouched(db, was, NamedIn(schema, todo - {c}))
  {
  }

  lemma RightStep(db: Db, before: Db, was: Db, schema: Schema, service: set<string>,
                  done: set<string>, todo: set<string>, c: string)
    requires c in todo && c in schema.challenges && done !! todo && Untouched(before, was, NamedIn(schema, todo))
    requires SameOutside(db, before, Group(schema, c))
    requires AllRight(before, was, schema, service, NamedIn(schema, done))
    requires AllRight(db, before, schema, service, Group(schema, c))
    ensures AllRight(db, was, schema, service, NamedIn(schema, done + {c}))
  {
    NamedGrows(schema, done, c);
    forall k | k in NamedIn(schema, done + {c}) ensures AllRight(db, was, schema, service, {k}) {
      if k in Group(schema, c) {
        assert k in NamedIn(schema, todo);
      }
    }
  }

  /** Every build the schema names was handed over. */
  ghost predicate HandedOver(db: Db, known: set<string>, schema: Schema) {
    forall c :: c in schema.challenges && schema.challenges[c].seeds != [] ==>
      c in known && forall s :: s in schema.challenges[c].seeds ==>
        Stored(db, KeyOf(schema, c, s))
  }

  /** The sweep spares the rows that are not locked. */
  ghost predicate Spares(a: Db, b: Db, name: string) {
    forall k :: k in b.rows && k !in Swept(b, name) ==> k in a.rows && a.rows[k] == b.rows[k]
  }

  /** Only the instances of one build changed. */
  ghost predicate OnlyOf(a: Db, b: Db, k: Key) {
    forall id :: (id in a.instances && a.instances[id] != k) || (id in b.instances && b.instances[id] != k) ==>
                   id in a.instances && id in b.instances && a.instances[id] == b.instances[id]
  }

  lemma OnlyOfKeeps(a: Db, b: Db, k: Key, k': Key)
    requires OnlyOf(a, b, k) && k' != k
    ensures Of(a, k') == Of(b, k')
  {
  }

  // ------------------------------------------------------------------- what it means

  /** Without LOCKED in the schema the converged rows are exactly the named builds, each
      built and with its count, and the rows of every other schema as they were. */
  lemma ConvergedIsExact(db: Db, schema: Schema)
    requires forall c :: c in schema.challenges ==> schema.challenges[c].count != LOCKED
    ensures forall k :: k in Converged(db, schema) <==>
              if k.schema == schema.name then Names(schema, k) else k in db.rows
    ensures forall k :: k in Converged(db, schema) ==>
              Converged(db, schema)[k] == if k.schema == schema.name then Row(CountFor(schema, k), true) else db.rows[k]
  {
    assert LostToLock(db, schema) == {};
  }

  /** A named build is missing after an error-free converge exactly when the schema asks
      for LOCKED and the build was there already. */
  lemma LockedSpecLosesBuiltRows(db: Db, schema: Schema, k: Key)
    requires Names(schema, k)
    ensures k !in Converged(db, schema) <==> CountFor(schema, k) == LOCKED && Stored(db, k)
  {
    assert k !in OtherRows(db, schema.name);
  }

  /** For instance: a built row that a schema names again, with LOCKED as its count. */
  lemma LockedSpecExample()
    ensures var k := Key("event", "flag{%s}", "web", 1);
            var db := Db(map[k := Row(1, true)], map[], 0);
            var schema := Schema("event", "flag{%s}", map["web" := Spec([1], LOCKED)]);
            Valid(db) && Names(schema, k) && k !in Converged(db, schema)
  {
    var k := Key("event", "flag{%s}", "web", 1);
    var db := Db(map[k := Row(1, true)], map[], 0);
    var schema := Schema("event", "flag{%s}", map["web" := Spec([1], LOCKED)]);
    LockedSpecLosesBuiltRows(db, schema, k);
  }

  /** Converging twice is converging once, LOCKED aside. */
  lemma ConvergeIsIdempotent(db: Db, schema: Schema, again: Db)
    requires forall c :: c in schema.challenges ==> schema.challenges[c].count != LOCKED
    requires again.rows == Converged(db, schema)
    ensures Converged(again, schema) == again.rows
  {
    ConvergedIsExact(db, schema);
    ConvergedIsExact(again, schema);
    SameMap(Converged(again, schema), again.rows);
  }
}
