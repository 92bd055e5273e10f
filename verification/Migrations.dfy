/**
  The migration manager over an abstract schema: a migration is a pair of scripts, which may fail
  halfway, and the tracking table holds the names of the applied versions.
*/
module Migrations {
  /** A version number, ordered as a number. */
  datatype Version = Version(number: int)

  /** A script ran through, or it failed and left this schema behind. */
  datatype Step<S> = Done(schema: S) | Broke(schema: S)

  datatype Migration<!S> = Migration(version: Version, name: string, up: S -> Step<S>, down: S -> Step<S>)

  type Registry<!S> = reg: map<Version, Migration<S>> | forall v :: v in reg ==> reg[v].version == v
    witness map[]

  /** The tracking table: the names of the applied versions, both columns unique. */
  type Table = map<Version, string>

  datatype Db<S> = Db(schema: S, applied: Table)

  /** What a call leaves in the database, and whether it raised RuntimeError. */
  datatype Result<S> = Result(db: Db<S>, raised: bool)

  // ---- versions in order -----------------------------------------------------------------------

  predicate Ascending(vs: seq<Version>) {
    forall i, j :: 0 <= i < j < |vs| ==> vs[i].number < vs[j].number
  }

  function Insert(x: Version, vs: seq<Version>): (r: seq<Version>)
    requires Ascending(vs) && x !in vs
    ensures Ascending(r) && forall y :: y in r <==> y in vs || y == x
  {
    if vs == [] || x.number < vs[0].number then [x] + vs
    else
      var r := Insert(x, vs[1..]);
      assert forall y :: y in vs <==> y == vs[0] || y in vs[1..];
      assert forall y :: y in [vs[0]] + r <==> y == vs[0] || y in r;
      assert forall j :: 0 <= j < |r| ==> r[j] in r;
      [vs[0]] + r
  }

  /** `vs` lists exactly the members of `s`, in ascending order. */
  ghost predicate Lists(vs: seq<Version>, s: set<Version>) {
    Ascending(vs) && forall v :: v in vs <==> v in s
  }

  /** `sorted` over version keys. */
  method Sorted(s: set<Version>) returns (vs: seq<Version>)
    ensures Lists(vs, s)
  {
    vs := [];
    var left := s;
    while left != {}
      invariant left <= s && Lists(vs, s - left)
      decreases left
    {
      var x :| x in left;
      vs := Insert(x, vs);
      left := left - {x};
    }
  }

  lemma {:induction false} ListUnique(a: seq<Version>, b: seq<Version>, s: set<Version>)
    requires Lists(a, s) && Lists(b, s)
    ensures a == b
  {
    assert a != [] ==> a[0] in b;
    assert b != [] ==> b[0] in a;
    if a == [] {
    } else {
      assert a[0] == b[0];
      forall v
        ensures v in a[1..] <==> v in b[1..]
      {
        assert v in a <==> v == a[0] || v in a[1..];
        assert v in b <==> v == b[0] || v in b[1..];
      }
      ListUnique(a[1..], b[1..], s - {a[0]});
    }
  }

  lemma {:induction false} SomeList(s: set<Version>) returns (vs: seq<Version>)
    ensures Lists(vs, s)
  {
    if s == {} {
      vs := [];
    } else {
      var x :| x in s;
      vs := SomeList(s - {x});
      assert s == (s - {x}) + {x};
      vs := Insert(x, vs);
    }
  }

  /** The members of `s` in ascending order. */
  ghost function Listing(s: set<Version>): (vs: seq<Version>)
    ensures Lists(vs, s)
  {
    assert exists vs :: Lists(vs, s) by {
      var vs := SomeList(s);
    }
    var vs :| Lists(vs, s);
    vs
  }

  /** `n` is `MAX(version)`, or 0 for an empty table. */
  ghost predicate IsCurrent(applied: set<Version>, n: int) {
    if applied == {} then n == 0
    else Version(n) in applied && forall v :: v in applied ==> v.number <= n
  }

  ghost function Current(applied: set<Version>): (n: int)
    ensures IsCurrent(applied, n)
  {
    var vs := Listing(applied);
    if vs == [] then
      assert forall v :: v !in applied;
      0
    else
      assert vs[|vs| - 1] in applied;
      vs[|vs| - 1].number
  }

  // ---- running migrations ----------------------------------------------------------------------

  /** What the up scripts of `vs` make of a schema, in order. */
  function UpAll<S>(reg: Registry<S>, vs: seq<Version>, s: S): S
    requires forall v :: v in vs ==> v in reg
  {
    if vs == [] then s else UpAll(reg, vs[1..], reg[vs[0]].up(s).schema)
  }

  /** The row of a migration can be inserted: neither its version nor its name is in the table. */
  predicate Enters<S>(applied: Table, m: Migration<S>) {
    m.version !in applied && m.name !in applied.Values
  }

  /**
    The loop of `migrate`. Running a script commits what was inserted before it, so a failure at
    one version takes back nothing of the versions before it, nor what the failing script did.
  */
  function RunUp<S>(reg: Registry<S>, vs: seq<Version>, db: Db<S>): Result<S>
    requires forall v :: v in vs ==> v in reg
  {
    if vs == [] then Result(db, false)
    else
      var m := reg[vs[0]];
      var ran := m.up(db.schema);
      if ran.Broke? || !Enters(db.applied, m) then Result(Db(ran.schema, db.applied), true)
      else RunUp(reg, vs[1..], Db(ran.schema, db.applied[vs[0] := m.name]))
  }

  /** The loop of `rollback`, which commits in the same way. */
  function RunDown<S>(reg: Registry<S>, vs: seq<Version>, db: Db<S>): Result<S>
    requires forall v :: v in vs ==> v in reg
    decreases |vs|
  {
    if vs == [] then Result(db, false)
    else
      var v := vs[|vs| - 1];
      var ran := reg[v].down(db.schema);
      if ran.Broke? then Result(Db(ran.schema, db.applied), true)
      else RunDown(reg, vs[..|vs| - 1], Db(ran.schema, db.applied - {v}))
  }

  function UpTo<S>(reg: Registry<S>, n: int): set<Version> {
    set v | v in reg && v.number <= n
  }

  function Above<S>(reg: Registry<S>, n: int): set<Version> {
    set v | v in reg && v.number > n
  }

  /** The table rows of these versions. */
  function Entries<S>(reg: Registry<S>, vs: set<Version>): Table {
    map v | v in vs && v in reg :: reg[v].name
  }

  ghost function Pending<S>(reg: Registry<S>, db: Db<S>): (vs: seq<Version>)
    ensures forall v :: v in vs ==> v in reg
  {
    Listing(Above(reg, Current(db.applied.Keys)))
  }

  /** `migrate`: the up scripts of the versions above the current one, in ascending order. */
  ghost function Migrated<S>(reg: Registry<S>, db: Db<S>): Result<S> {
    RunUp(reg, Pending(reg, db), db)
  }

  /** `rollback(target)`: the down scripts of every registered version above the target, last first. */
  ghost function RolledBack<S>(reg: Registry<S>, db: Db<S>, target: int): Result<S> {
    if target >= Current(db.applied.Keys) then Result(db, false)
    else RunDown(reg, Listing(Above(reg, target)), db)
  }

  // ---- what the theorems assume ------------------------------------------------------------------

  /** Versions are positive and names are unique. */
  ghost predicate WellNamed<S>(reg: Registry<S>) {
    && (forall v :: v in reg ==> v.number > 0)
    && forall v, w :: v in reg && w in reg && reg[v].name == reg[w].name ==> v == w
  }

  /** From `s` the up script runs through and the down script undoes it. */
  predicate Reverses<S(==)>(m: Migration<S>, s: S) {
    m.up(s).Done? && m.down(m.up(s).schema) == Done(s)
  }

  /** Each migration of `vs` is undone by its down script from the schema at which the others before it arrive. */
  predicate ReversesAlong<S(==)>(reg: Registry<S>, vs: seq<Version>, s: S)
    requires forall v :: v in vs ==> v in reg
  {
    vs == [] || (Reverses(reg[vs[0]], s) && ReversesAlong(reg, vs[1..], reg[vs[0]].up(s).schema))
  }

  /** The table holds the registered versions up to the current one. */
  ghost predicate Consistent<S>(reg: Registry<S>, applied: Table) {
    applied == Entries(reg, UpTo(reg, Current(applied.Keys)))
  }

  /** The up scripts of `vs` all run through from this schema. */
  predicate RunsThrough<S>(reg: Registry<S>, vs: seq<Version>, s: S)
    requires forall v :: v in vs ==> v in reg
  {
    vs == [] || (reg[vs[0]].up(s).Done? && RunsThrough(reg, vs[1..], reg[vs[0]].up(s).schema))
  }

  /** The first up script to fail on the way, if one does, changes nothing. */
  predicate UpFailsCleanly<S(==)>(reg: Registry<S>, vs: seq<Version>, s: S)
    requires forall v :: v in vs ==> v in reg
  {
    vs == [] ||
    var ran := reg[vs[0]].up(s);
    if ran.Done? then UpFailsCleanly(reg, vs[1..], ran.schema) else ran.schema == s
  }

  /** The first up script to fail on the way, if one does, fails again from what it left and changes it no further. */
  predicate UpFailsAgain<S(==)>(reg: Registry<S>, vs: seq<Version>, s: S)
    requires forall v :: v in vs ==> v in reg
  {
    vs == [] ||
    var ran := reg[vs[0]].up(s);
    if ran.Done? then UpFailsAgain(reg, vs[1..], ran.schema) else reg[vs[0]].up(ran.schema) == ran
  }

  /** On the way back each down script undoes its up script, until one fails and changes nothing. */
  predicate DownFailsCleanly<S(==)>(reg: Registry<S>, vs: seq<Version>, s: S)
    requires forall v :: v in vs ==> v in reg
    decreases |vs|
  {
    vs == [] ||
    var front, there := vs[..|vs| - 1], UpAll(reg, vs, s);
    var ran := reg[vs[|vs| - 1]].down(there);
    if ran.Done? then ran.schema == UpAll(reg, front, s) && DownFailsCleanly(reg, front, s) else ran.schema == there
  }

  /** `db` is what the registered versions in its table make of the schema `base`. */
  ghost predicate Grown<S>(reg: Registry<S>, base: S, db: Db<S>) {
    && db.applied.Keys <= reg.Keys
    && RunsThrough(reg, Listing(db.applied.Keys), base)
    && db.schema == UpAll(reg, Listing(db.applied.Keys), base)
  }

  /** All migrations run through on the schema `base` and are undone by their down scripts where the run meets them. */
  ghost predicate Reversible<S>(reg: Registry<S>, base: S) {
    ReversesAlong(reg, Listing(reg.Keys), base)
  }

  // ---- the class -------------------------------------------------------------------------------

  class MigrationManager<S> {
    var registry: Registry<S>
    var schema: S
    var applied: Table  // as committed

    constructor (schema: S)
      ensures registry == map[] && Now() == Db(schema, map[])
    {
      this.schema := schema;
      registry, applied := map[], map[];
    }

    function Now(): Db<S>
      reads this
    {
      Db(schema, applied)
    }

    /** Refuses a version that is already registered. */
    method Register(m: Migration<S>) returns (ok: bool)
      modifies this`registry
      ensures ok <==> m.version !in old(registry)
      ensures registry == if ok then old(registry)[m.version := m] else old(registry)
    {
      if m.version in registry {
        return false;
      }
      registry := registry[m.version := m];
      return true;
    }

    method GetCurrentVersion() returns (n: int)
      ensures n == Current(applied.Keys)
    {
      var vs := Sorted(applied.Keys);
      ListUnique(vs, Listing(applied.Keys), applied.Keys);
      n := if vs == [] then 0 else vs[|vs| - 1].number;
    }

    method GetPending() returns (pending: seq<Version>)
      ensures pending == Listing(Above(registry, Current(applied.Keys)))
    {
      var current := GetCurrentVersion();
      pending := Sorted(Above(registry, current));
      ListUnique(pending, Listing(Above(registry, current)), Above(registry, current));
    }

    /** `open` is the table as the connection sees it; a script commits it, an exception rolls it back. */
    method Migrate() returns (raised: bool)
      modifies this`schema, this`applied
      ensures Result(Now(), raised) == Migrated(registry, old(Now()))
    {
      var pending := GetPending();
      var open := applied;
      assert AllIn(registry, pending) && pending[0..] == pending;
      for i := 0 to |pending|
        invariant AllIn(registry, pending[i..])
        invariant Migrated(registry, old(Now())) == RunUp(registry, pending[i..], Db(schema, open))
      {
        NextUp(registry, pending, i, Db(schema, open));
        var m := registry[pending[i]];
        applied := open;
        var ran := m.up(schema);
        schema := ran.schema;
        if ran.Broke? || !Enters(open, m) {
          return true;
        }
        open := open[m.version := m.name];
      }
      applied := open;
      return false;
    }

    method Rollback(target: int) returns (raised: bool)
      modifies this`schema, this`applied
      ensures Result(Now(), raised) == RolledBack(registry, old(Now()), target)
    {
      var current := GetCurrentVersion();
      if target >= current {
        return false;
      }
      var down := Sorted(Above(registry, target));
      ListUnique(down, Listing(Above(registry, target)), Above(registry, target));
      assert AllIn(registry, down);
      raised := RunDownScripts(down);
    }

    /** The loop of `rollback`. */
    method RunDownScripts(down: seq<Version>) returns (raised: bool)
      requires AllIn(registry, down)
      modifies this`schema, this`applied
      ensures Result(Now(), raised) == RunDown(registry, down, old(Now()))
    {
      var open := applied;
      assert down[..|down|] == down;
      for i := |down| downto 0
        invariant AllIn(registry, down[..i])
        invariant RunDown(registry, down, old(Now())) == RunDown(registry, down[..i], Db(schema, open))
      {
        NextDown(registry, down, i, Db(schema, open));
        applied := open;
        var ran := registry[down[i]].down(schema);
        schema := ran.schema;
        if ran.Broke? {
          return true;
        }
        open := open - {down[i]};
      }
      applied := open;
      return false;
    }
  }

  function Members(vs: seq<Version>): set<Version> {
    set v | v in vs
  }

  ghost predicate AllIn<S>(reg: Registry<S>, vs: seq<Version>) {
    forall v :: v in vs ==> v in reg
  }

  lemma NextUp<S>(reg: Registry<S>, vs: seq<Version>, i: nat, db: Db<S>)
    requires i < |vs| && AllIn(reg, vs[i..])
    ensures vs[i] in reg && AllIn(reg, vs[i + 1..])
    ensures var m := reg[vs[i]];
      var ran := m.up(db.schema);
      RunUp(reg, vs[i..], db) ==
        if ran.Broke? || !Enters(db.applied, m) then Result(Db(ran.schema, db.applied), true)
        else RunUp(reg, vs[i + 1..], Db(ran.schema, db.applied[vs[i] := m.name]))
  {
    assert vs[i..][0] == vs[i] && vs[i] in vs[i..] && vs[i..][1..] == vs[i + 1..];
  }

  lemma NextDown<S>(reg: Registry<S>, vs: seq<Version>, i: nat, db: Db<S>)
    requires i < |vs| && AllIn(reg, vs[..i + 1])
    ensures vs[i] in reg && AllIn(reg, vs[..i])
    ensures var ran := reg[vs[i]].down(db.schema);
      RunDown(reg, vs[..i + 1], db) ==
        if ran.Broke? then Result(Db(ran.schema, db.applied), true)
        else RunDown(reg, vs[..i], Db(ran.schema, db.applied - {vs[i]}))
  {
    assert vs[..i + 1] == vs[..i] + [vs[i]] && vs[i] in vs[..i + 1];
  }

  // ---- where a run stops -----------------------------------------------------------------------

  /** The row of `v` is new to the table that holds these rows. */
  ghost predicate NewRow<S>(reg: Registry<S>, v: Version, rows: Table) {
    v in reg && v !in rows && reg[v].name !in rows.Values
  }

  /**
    From any registry and table: the first `k` up scripts ran through, in order, each on what the
    one before it left, and have their rows, which were new; the next one, if there is one, broke
    or has a row that is not new, and what it made of the schema stays.
  */
  ghost predicate StoppedUp<S>(reg: Registry<S>, vs: seq<Version>, db: Db<S>, k: nat, r: Result<S>)
    requires AllIn(reg, vs)
  {
    && k <= |vs| && r.raised == (k < |vs|) && RunsThrough(reg, vs[..k], db.schema)
    && r.db.applied == db.applied + Entries(reg, Members(vs[..k]))
    && (forall i :: 0 <= i < k ==> NewRow(reg, vs[i], db.applied + Entries(reg, Members(vs[..i]))))
    && if k == |vs| then r.db.schema == UpAll(reg, vs, db.schema)
       else
         var ran := reg[vs[k]].up(UpAll(reg, vs[..k], db.schema));
         r.db.schema == ran.schema && (ran.Broke? || !NewRow(reg, vs[k], r.db.applied))
  }

  lemma {:induction false} RunUpStops<S>(reg: Registry<S>, vs: seq<Version>, db: Db<S>) returns (k: nat)
    requires AllIn(reg, vs)
    ensures StoppedUp(reg, vs, db, k, RunUp(reg, vs, db))
  {
    k := 0;
    assert db.applied + Entries(reg, Members(vs[..0])) == db.applied;
    if vs == [] {
    } else {
      var ran := reg[vs[0]].up(db.schema);
      if ran.Done? && NewRow(reg, vs[0], db.applied) {
        var db1 := Db(ran.schema, db.applied[vs[0] := reg[vs[0]].name]);
        k := RunUpStops(reg, vs[1..], db1);
        StopsOneLater(reg, vs, db, k, RunUp(reg, vs[1..], db1));
        k := k + 1;
      }
    }
  }

  lemma StopsOneLater<S>(reg: Registry<S>, vs: seq<Version>, db: Db<S>, j: nat, r: Result<S>)
    requires vs != [] && AllIn(reg, vs) && reg[vs[0]].up(db.schema).Done? && NewRow(reg, vs[0], db.applied)
    requires var db1 := Db(reg[vs[0]].up(db.schema).schema, db.applied[vs[0] := reg[vs[0]].name]);
      StoppedUp(reg, vs[1..], db1, j, r)
    ensures StoppedUp(reg, vs, db, j + 1, r)
  {
    hide Entries, Members, NewRow;
    var rest := vs[1..];
    PassedFirst(reg, vs, db.schema, j);
    RowFirst(reg, db.applied, vs, j);
    RowsLater(reg, db.applied, vs, j);
    if j == |rest| {
      assert vs[..j + 1] == vs && rest[..j] == rest;
    } else {
      assert vs[j + 1] == rest[j];
    }
  }

  /** Past the first version, what the others make of a schema. */
  lemma PassedFirst<S>(reg: Registry<S>, vs: seq<Version>, s: S, j: nat)
    requires j < |vs| && AllIn(reg, vs)
    ensures var ran := reg[vs[0]].up(s);
      && UpAll(reg, vs[..j + 1], s) == UpAll(reg, vs[1..][..j], ran.schema)
      && (RunsThrough(reg, vs[..j + 1], s) <==> ran.Done? && RunsThrough(reg, vs[1..][..j], ran.schema))
  {
    assert vs[..j + 1][0] == vs[0] && vs[..j + 1][1..] == vs[1..][..j];
  }

  lemma RowFirst<S>(reg: Registry<S>, applied: Table, vs: seq<Version>, i: nat)
    requires i < |vs| && AllIn(reg, vs)
    ensures applied + Entries(reg, Members(vs[..i + 1]))
         == applied[vs[0] := reg[vs[0]].name] + Entries(reg, Members(vs[1..][..i]))
  {
    assert vs[..i + 1] == [vs[0]] + vs[1..][..i];
    assert Members(vs[..i + 1]) == {vs[0]} + Members(vs[1..][..i]);
  }

  lemma RowsLater<S>(reg: Registry<S>, applied: Table, vs: seq<Version>, j: nat)
    requires j < |vs| && AllIn(reg, vs) && NewRow(reg, vs[0], applied)
    requires var applied1 := applied[vs[0] := reg[vs[0]].name];
      forall i :: 0 <= i < j ==> NewRow(reg, vs[1..][i], applied1 + Entries(reg, Members(vs[1..][..i])))
    ensures forall i :: 0 <= i < j + 1 ==> NewRow(reg, vs[i], applied + Entries(reg, Members(vs[..i])))
  {
    var applied1 := applied[vs[0] := reg[vs[0]].name];
    assert applied + Entries(reg, Members(vs[..0])) == applied;
    hide Entries, Members, NewRow;
    forall i | 0 <= i < j + 1
      ensures NewRow(reg, vs[i], applied + Entries(reg, Members(vs[..i])))
    {
      if i > 0 {
        RowFirst(reg, applied, vs, i - 1);
        assert NewRow(reg, vs[1..][i - 1], applied1 + Entries(reg, Members(vs[1..][..i - 1])));
        assert vs[1..][i - 1] == vs[i];
      }
    }
  }

  /** What the down scripts of `vs` make of a schema, last first. */
  function DownAll<S>(reg: Registry<S>, vs: seq<Version>, s: S): S
    requires forall v :: v in vs ==> v in reg
    decreases |vs|
  {
    if vs == [] then s else DownAll(reg, vs[..|vs| - 1], reg[vs[|vs| - 1]].down(s).schema)
  }

  /** After the down scripts behind position `i`, that of the version there runs through. */
  ghost predicate RanDown<S>(reg: Registry<S>, vs: seq<Version>, s: S, i: nat)
    requires AllIn(reg, vs) && i < |vs|
  {
    reg[vs[i]].down(DownAll(reg, vs[i + 1..], s)).Done?
  }

  /**
    From any registry and table: the down scripts of the versions from position `k` on ran
    through, last first, and lost their rows; the one before them, if there is one, broke, and
    what it made of the schema stays.
  */
  ghost predicate StoppedDown<S>(reg: Registry<S>, vs: seq<Version>, db: Db<S>, k: nat, r: Result<S>)
    requires AllIn(reg, vs)
  {
    && k <= |vs| && r.raised == (k > 0) && r.db.applied == db.applied - Members(vs[k..])
    && (forall i: nat :: k <= i < |vs| ==> RanDown(reg, vs, db.schema, i))
    && if k == 0 then r.db.schema == DownAll(reg, vs, db.schema)
       else reg[vs[k - 1]].down(DownAll(reg, vs[k..], db.schema)) == Broke(r.db.schema)
  }

  lemma {:induction false} RunDownStops<S>(reg: Registry<S>, vs: seq<Version>, db: Db<S>) returns (k: nat)
    requires AllIn(reg, vs)
    ensures StoppedDown(reg, vs, db, k, RunDown(reg, vs, db))
    decreases |vs|
  {
    k := |vs|;
    assert vs[|vs|..] == [] && db.applied - Members(vs[|vs|..]) == db.applied;
    if vs == [] {
    } else {
      var n := |vs| - 1;
      var ran := reg[vs[n]].down(db.schema);
      if ran.Done? {
        var db1 := Db(ran.schema, db.applied - {vs[n]});
        k := RunDownStops(reg, vs[..n], db1);
        StopsOneEarlier(reg, vs, db, k, RunDown(reg, vs[..n], db1));
      }
    }
  }

  lemma StopsOneEarlier<S>(reg: Registry<S>, vs: seq<Version>, db: Db<S>, k: nat, r: Result<S>)
    requires vs != [] && AllIn(reg, vs) && reg[vs[|vs| - 1]].down(db.schema).Done?
    requires var v := vs[|vs| - 1];
      StoppedDown(reg, vs[..|vs| - 1], Db(reg[v].down(db.schema).schema, db.applied - {v}), k, r)
    ensures StoppedDown(reg, vs, db, k, r)
  {
    hide Members, DownAll, RanDown;
    var n := |vs| - 1;
    var front, s1 := vs[..n], reg[vs[n]].down(db.schema).schema;
    assert vs[k..] == front[k..] + [vs[n]];
    RemoveLast(db.applied, front[k..], vs[n]);
    PassedLast(reg, vs, db.schema, k);
    assert vs[0..] == vs && front[0..] == front;
    forall i: nat | k <= i < |vs|
      ensures RanDown(reg, vs, db.schema, i)
    {
      if i < n {
        assert RanDown(reg, front, s1, i);
      }
      RanDownEarlier(reg, vs, db.schema, i);
    }
  }

  lemma RanDownEarlier<S>(reg: Registry<S>, vs: seq<Version>, s: S, i: nat)
    requires AllIn(reg, vs) && i < |vs|
    ensures var n := |vs| - 1;
      RanDown(reg, vs, s, i) <==>
      if i == n then reg[vs[n]].down(s).Done? else RanDown(reg, vs[..n], reg[vs[n]].down(s).schema, i)
  {
    var n := |vs| - 1;
    if i == n {
      assert vs[n + 1..] == [];
    } else {
      PassedLast(reg, vs, s, i + 1);
      assert vs[..n][i] == vs[i];
    }
  }

  /** Past the last version, what the down scripts from position `i` on make of a schema. */
  lemma PassedLast<S>(reg: Registry<S>, vs: seq<Version>, s: S, i: nat)
    requires i < |vs| && AllIn(reg, vs)
    ensures var n := |vs| - 1;
      DownAll(reg, vs[i..], s) == DownAll(reg, vs[..n][i..], reg[vs[n]].down(s).schema)
  {
    assert vs[i..][..|vs[i..]| - 1] == vs[..|vs| - 1][i..];
  }

  /** Where `migrate` stops, for any registry and table. */
  lemma MigrateExact<S>(reg: Registry<S>, db: Db<S>)
    ensures Lists(Pending(reg, db), set v | v in reg && v.number > Current(db.applied.Keys))
    ensures exists k: nat :: StoppedUp(reg, Pending(reg, db), db, k, Migrated(reg, db))
  {
    var k := RunUpStops(reg, Pending(reg, db), db);
    assert StoppedUp(reg, Pending(reg, db), db, k, Migrated(reg, db));
  }

  /** Where `rollback` stops, for any registry and table: nowhere unless the target is below the current version. */
  lemma RollbackExact<S>(reg: Registry<S>, db: Db<S>, target: int, down: seq<Version>)
    requires Lists(down, set v | v in reg && v.number > target)
    ensures target >= Current(db.applied.Keys) ==> RolledBack(reg, db, target) == Result(db, false)
    ensures target < Current(db.applied.Keys) ==>
              exists k: nat :: StoppedDown(reg, down, db, k, RolledBack(reg, db, target))
  {
    ListUnique(down, Listing(Above(reg, target)), Above(reg, target));
    var k := RunDownStops(reg, down, db);
    if target < Current(db.applied.Keys) {
      assert RolledBack(reg, db, target) == RunDown(reg, down, db);
      assert StoppedDown(reg, down, db, k, RolledBack(reg, db, target));
    }
  }

  // ---- the theorems ----------------------------------------------------------------------------

  lemma {:induction false} UpConcat<S>(reg: Registry<S>, a: seq<Version>, b: seq<Version>, s: S)
    requires forall v :: v in a ==> v in reg
    requires forall v :: v in b ==> v in reg
    ensures forall v :: v in a + b ==> v in reg
    ensures UpAll(reg, a + b, s) == UpAll(reg, b, UpAll(reg, a, s))
  {
    if a == [] {
      assert a + b == b;
    } else {
      assert a[0] in a && (a + b)[1..] == a[1..] + b;
      UpConcat(reg, a[1..], b, reg[a[0]].up(s).schema);
    }
  }

  lemma {:induction false} RunsThroughConcat<S>(reg: Registry<S>, a: seq<Version>, b: seq<Version>, s: S)
    requires forall v :: v in a ==> v in reg
    requires forall v :: v in b ==> v in reg
    ensures forall v :: v in a + b ==> v in reg
    ensures RunsThrough(reg, a + b, s) <==> RunsThrough(reg, a, s) && RunsThrough(reg, b, UpAll(reg, a, s))
  {
    if a == [] {
      assert a + b == b;
    } else {
      assert a[0] in a && (a + b)[1..] == a[1..] + b;
      RunsThroughConcat(reg, a[1..], b, reg[a[0]].up(s).schema);
    }
  }

  lemma {:induction false} ReversesConcat<S>(reg: Registry<S>, a: seq<Version>, b: seq<Version>, s: S)
    requires forall v :: v in a ==> v in reg
    requires forall v :: v in b ==> v in reg
    ensures forall v :: v in a + b ==> v in reg
    ensures ReversesAlong(reg, a + b, s) <==> ReversesAlong(reg, a, s) && ReversesAlong(reg, b, UpAll(reg, a, s))
  {
    if a == [] {
      assert a + b == b;
    } else {
      assert a[0] in a && (a + b)[1..] == a[1..] + b;
      ReversesConcat(reg, a[1..], b, reg[a[0]].up(s).schema);
    }
  }

  lemma {:induction false} ReversesRunsThrough<S>(reg: Registry<S>, vs: seq<Version>, s: S)
    requires AllIn(reg, vs) && ReversesAlong(reg, vs, s)
    ensures RunsThrough(reg, vs, s)
  {
    if vs == [] {
    } else {
      ReversesRunsThrough(reg, vs[1..], reg[vs[0]].up(s).schema);
    }
  }

  /** The conditions on failing scripts, past versions that run through. */
  lemma {:induction false} FailsConcat<S>(reg: Registry<S>, a: seq<Version>, b: seq<Version>, s: S)
    requires AllIn(reg, a) && AllIn(reg, b) && RunsThrough(reg, a, s)
    ensures AllIn(reg, a + b)
    ensures UpFailsCleanly(reg, a + b, s) <==> UpFailsCleanly(reg, b, UpAll(reg, a, s))
    ensures UpFailsAgain(reg, a + b, s) <==> UpFailsAgain(reg, b, UpAll(reg, a, s))
  {
    if a == [] {
      assert a + b == b;
    } else {
      assert a[0] in a && (a + b)[1..] == a[1..] + b;
      FailsConcat(reg, a[1..], b, reg[a[0]].up(s).schema);
    }
  }

  /** Running a list of versions down undoes running it up from `s`, and takes them out of the table. */
  lemma {:induction false} DownUndoesUp<S>(reg: Registry<S>, vs: seq<Version>, s: S, applied: Table)
    requires (forall v :: v in vs ==> v in reg) && ReversesAlong(reg, vs, s)
    ensures RunDown(reg, vs, Db(UpAll(reg, vs, s), applied)) == Result(Db(s, applied - Members(vs)), false)
    decreases |vs|
  {
    if vs == [] {
      assert applied - Members(vs) == applied;
    } else {
      var front, last := vs[..|vs| - 1], vs[|vs| - 1];
      assert vs == front + [last] && last in vs;
      UpConcat(reg, front, [last], s);
      ReversesConcat(reg, front, [last], s);
      DownUndoesUp(reg, front, s, applied - {last});
      RemoveLast(applied, front, last);
    }
  }

  lemma RemoveLast(applied: Table, front: seq<Version>, last: Version)
    ensures applied - {last} - Members(front) == applied - Members(front + [last])
  {
    assert Members(front + [last]) == Members(front) + {last};
  }

  /** The listing of all versions is that of the versions up to `n` followed by that of the others. */
  lemma ListingSplits<S>(reg: Registry<S>, n: int)
    ensures Listing(reg.Keys) == Listing(UpTo(reg, n)) + Listing(Above(reg, n))
  {
    var low, high := Listing(UpTo(reg, n)), Listing(Above(reg, n));
    forall i, j | 0 <= i < |low| && 0 <= j < |high|
      ensures low[i].number < high[j].number
    {
      assert low[i] in low && high[j] in high;
    }
    assert forall v :: v in low + high <==> v in low || v in high;
    ListUnique(low + high, Listing(reg.Keys), reg.Keys);
  }

  // ---- databases as prefixes of the registered versions ---------------------------------------------

  /** The versions `p` have been run on `base` and entered in the table, and nothing else. */
  ghost predicate At<S>(reg: Registry<S>, base: S, p: seq<Version>, db: Db<S>) {
    && AllIn(reg, p) && db.applied == Entries(reg, Members(p))
    && RunsThrough(reg, p, base) && db.schema == UpAll(reg, p, base)
  }

  /** A beginning of the listing of all versions makes a consistent table. */
  lemma PrefixIsTable<S>(reg: Registry<S>, p: seq<Version>)
    requires WellNamed(reg) && p <= Listing(reg.Keys)
    ensures AllIn(reg, p) && Entries(reg, Members(p)).Keys == Members(p) && Listing(Members(p)) == p
    ensures Members(p) == UpTo(reg, Current(Members(p)))
    ensures Listing(Above(reg, Current(Members(p)))) == Listing(reg.Keys)[|p|..]
  {
    var all := Listing(reg.Keys);
    assert forall v :: v in p ==> v in all;
    ListUnique(Listing(Members(p)), p, Members(p));
    PrefixCurrent(reg, p);
    var n := Current(Members(p));
    ListingSplits(reg, n);
    assert Listing(UpTo(reg, n)) == p;
  }

  lemma PrefixCurrent<S>(reg: Registry<S>, p: seq<Version>)
    requires WellNamed(reg) && p <= Listing(reg.Keys)
    ensures Members(p) == UpTo(reg, Current(Members(p)))
  {
    var all, n := Listing(reg.Keys), Current(Members(p));
    if p == [] {
      assert Members(p) == {};
    } else {
      CurrentIsLast(p, n);
      PrefixByNumber(all, p, n);
    }
  }

  lemma CurrentIsLast(p: seq<Version>, n: int)
    requires p != [] && Ascending(p) && IsCurrent(Members(p), n)
    ensures n == p[|p| - 1].number
  {
    assert p[|p| - 1] in Members(p);
  }

  lemma PrefixByNumber(all: seq<Version>, p: seq<Version>, n: int)
    requires Ascending(all) && p <= all && p != [] && n == p[|p| - 1].number
    ensures forall v :: v in p <==> v in all && v.number <= n
  {
    forall v | v in all && v.number <= n
      ensures v in p
    {
      var i :| 0 <= i < |all| && all[i] == v;
      assert i < |p| by {
        assert all[|p| - 1] == p[|p| - 1];
      }
      assert p[i] == v;
    }
    forall v | v in p
      ensures v in all && v.number <= n
    {
      var i :| 0 <= i < |p| && p[i] == v;
      assert all[i] == v && all[|p| - 1] == p[|p| - 1];
    }
  }

  /** A consistent and grown database is at a beginning of the listing. */
  lemma TableIsPrefix<S>(reg: Registry<S>, base: S, db: Db<S>) returns (p: seq<Version>)
    requires Consistent(reg, db.applied) && Grown(reg, base, db)
    ensures p <= Listing(reg.Keys) && At(reg, base, p, db) && Pending(reg, db) == Listing(reg.Keys)[|p|..]
  {
    var n := Current(db.applied.Keys);
    p := Listing(UpTo(reg, n));
    assert db.applied.Keys == UpTo(reg, n) == Members(p);
    ListingSplits(reg, n);
  }

  lemma PrefixIsGrown<S>(reg: Registry<S>, base: S, p: seq<Version>, db: Db<S>)
    requires WellNamed(reg) && p <= Listing(reg.Keys) && At(reg, base, p, db)
    ensures Consistent(reg, db.applied) && Grown(reg, base, db) && db.applied.Keys == Members(p)
    ensures Pending(reg, db) == Listing(reg.Keys)[|p|..]
  {
    PrefixIsTable(reg, p);
  }

  lemma PrefixNext<S>(reg: Registry<S>, base: S, p: seq<Version>, v: Version, db: Db<S>)
    requires WellNamed(reg) && AllIn(reg, p) && v in reg && v !in p && At(reg, base, p, db)
    ensures Enters(db.applied, reg[v])
    ensures reg[v].up(db.schema).Done? ==>
              At(reg, base, p + [v], Db(reg[v].up(db.schema).schema, db.applied[v := reg[v].name]))
  {
    UpConcat(reg, p, [v], base);
    RunsThroughConcat(reg, p, [v], base);
    assert Members(p + [v]) == Members(p) + {v};
  }

  lemma PrefixBack<S>(reg: Registry<S>, base: S, p: seq<Version>, v: Version, db: Db<S>)
    requires AllIn(reg, p) && v in reg && v !in p && At(reg, base, p + [v], db)
    ensures RunsThrough(reg, p, base) && reg[v].up(UpAll(reg, p, base)) == Done(db.schema)
    ensures db.applied - {v} == Entries(reg, Members(p))
  {
    UpConcat(reg, p, [v], base);
    RunsThroughConcat(reg, p, [v], base);
    assert Members(p + [v]) == Members(p) + {v};
  }

  /** A run up ends after the versions `q`, which run through; the one after them, if there is one, does not. */
  ghost predicate StopsAfter<S>(reg: Registry<S>, base: S, all: seq<Version>, q: seq<Version>, r: Result<S>)
    requires AllIn(reg, all) && q <= all
  {
    && AllIn(reg, q) && r.db.applied == Entries(reg, Members(q)) && RunsThrough(reg, q, base)
    && r.raised == (q != all)
    && if q == all then r.db.schema == UpAll(reg, q, base)
       else reg[all[|q|]].up(UpAll(reg, q, base)) == Broke(r.db.schema)
  }

  /** Running versions up from a prefix ends at a longer one. */
  lemma {:induction false} UpFromPrefix<S>(
    reg: Registry<S>, base: S, p: seq<Version>, vs: seq<Version>, db: Db<S>) returns (q: seq<Version>)
    requires WellNamed(reg) && Ascending(p + vs) && AllIn(reg, p + vs) && AllIn(reg, vs) && At(reg, base, p, db)
    ensures p <= q <= p + vs && StopsAfter(reg, base, p + vs, q, RunUp(reg, vs, db))
    decreases |vs|
  {
    if vs == [] {
      q := p;
      assert p + vs == p;
    } else {
      var v := vs[0];
      FirstAfter(reg, p, vs);
      PrefixNext(reg, base, p, v, db);
      if reg[v].up(db.schema).Broke? {
        q := p;
      } else {
        q := UpFromPrefix(reg, base, p + [v], vs[1..], Db(reg[v].up(db.schema).schema, db.applied[v := reg[v].name]));
      }
    }
  }

  lemma FirstAfter<S>(reg: Registry<S>, p: seq<Version>, vs: seq<Version>)
    requires vs != [] && Ascending(p + vs) && AllIn(reg, p + vs)
    ensures AllIn(reg, p) && vs[0] in reg && vs[0] !in p && AllIn(reg, vs[1..])
    ensures p + vs == p + [vs[0]] + vs[1..] && (p + vs)[|p|] == vs[0] && p <= p + vs && p != p + vs
  {
    assert (p + vs)[|p|] == vs[0] && |p + vs| > |p|;
    forall k | 0 <= k < |p|
      ensures p[k] in reg && p[k] != vs[0]
    {
      assert (p + vs)[k] == p[k];
    }
    forall v | v in vs
      ensures v in reg
    {
      assert v in p + vs;
    }
  }

  lemma BeforeLast<S>(reg: Registry<S>, a: seq<Version>, v: Version)
    requires Ascending(a + [v]) && AllIn(reg, a + [v])
    ensures Ascending(a) && AllIn(reg, a) && v in reg && v !in a
  {
    assert (a + [v])[|a|] == v;
    forall k | 0 <= k < |a|
      ensures a[k] != v && a[k] in reg
    {
      assert (a + [v])[k] == a[k];
    }
    forall i, j | 0 <= i < j < |a|
      ensures a[i].number < a[j].number
    {
      assert (a + [v])[i] == a[i] && (a + [v])[j] == a[j];
    }
  }

  /** Running versions down from the end of a prefix ends at a shorter one, if what fails fails cleanly. */
  lemma {:induction false} DownToPrefix<S>(
    reg: Registry<S>, base: S, p: seq<Version>, vs: seq<Version>, db: Db<S>) returns (q: seq<Version>)
    requires Ascending(p + vs) && AllIn(reg, p + vs) && AllIn(reg, vs) && At(reg, base, p + vs, db)
    requires DownFailsCleanly(reg, p + vs, base)
    ensures p <= q <= p + vs && At(reg, base, q, RunDown(reg, vs, db).db)
    ensures RunDown(reg, vs, db).raised <==> q != p
    decreases |vs|
  {
    if vs == [] {
      q := p;
      assert p + vs == p;
    } else {
      var front, v := vs[..|vs| - 1], vs[|vs| - 1];
      LastOf(p, vs);
      BeforeLast(reg, p + front, v);
      PrefixBack(reg, base, p + front, v, db);
      if reg[v].down(db.schema).Broke? {
        q := p + vs;
      } else {
        q := DownToPrefix(reg, base, p, front, Db(reg[v].down(db.schema).schema, db.applied - {v}));
      }
    }
  }

  lemma LastOf(p: seq<Version>, vs: seq<Version>)
    requires vs != []
    ensures var front := vs[..|vs| - 1];
      && p + vs == p + front + [vs[|vs| - 1]] && (p + vs)[..|p + vs| - 1] == p + front
      && (p + vs)[|p + vs| - 1] == vs[|vs| - 1] && vs[|vs| - 1] in vs && p + vs != p && p <= p + front <= p + vs
  {
    assert |p + vs| > |p|;
  }

  // ---- the theorems ------------------------------------------------------------------------------------

  /** How a migrate on a consistent and grown database ends: at a beginning of the listing. */
  lemma MigrateStops<S>(reg: Registry<S>, base: S, db: Db<S>) returns (q: seq<Version>)
    requires WellNamed(reg) && Consistent(reg, db.applied) && Grown(reg, base, db)
    ensures q <= Listing(reg.Keys) && StopsAfter(reg, base, Listing(reg.Keys), q, Migrated(reg, db))
  {
    var all := Listing(reg.Keys);
    var p := TableIsPrefix(reg, base, db);
    assert p + all[|p|..] == all;
    q := UpFromPrefix(reg, base, p, all[|p|..], db);
  }

  /** What the conditions on the way say once it is known where the way stops. */
  lemma StopDecides<S>(reg: Registry<S>, base: S, all: seq<Version>, q: seq<Version>, r: Result<S>)
    requires AllIn(reg, all) && q <= all && StopsAfter(reg, base, all, q, r)
    ensures RunsThrough(reg, all, base) <==> q == all
    ensures UpFailsCleanly(reg, all, base) <==> r.db.schema == UpAll(reg, q, base)
    ensures UpFailsAgain(reg, all, base) <==> q == all || reg[all[|q|]].up(r.db.schema) == Broke(r.db.schema)
  {
    var rest := all[|q|..];
    assert all == q + rest && forall v :: v in rest ==> v in all;
    FailsConcat(reg, q, rest, base);
    RunsThroughConcat(reg, q, rest, base);
  }

  /**
    Whether it succeeds or fails, a migrate keeps the table consistent, and it fails exactly if
    versions are still pending afterwards. It leaves the schema that goes with the table exactly
    if the first script to fail on the way up from `base`, if one does, changes nothing.
  */
  lemma MigrateKeepsGrown<S>(reg: Registry<S>, base: S, db: Db<S>)
    requires WellNamed(reg) && Consistent(reg, db.applied) && Grown(reg, base, db)
    ensures var r := Migrated(reg, db);
      && Consistent(reg, r.db.applied) && (r.raised <==> Pending(reg, r.db) != [])
      && (Grown(reg, base, r.db) <==> UpFailsCleanly(reg, Listing(reg.Keys), base))
  {
    var q := MigrateStops(reg, base, db);
    StopDecides(reg, base, Listing(reg.Keys), q, Migrated(reg, db));
    PrefixIsTable(reg, q);
  }

  /** The listing of all versions, cut at a position. */
  lemma CutAt<S>(reg: Registry<S>, k: nat) returns (target: int)
    requires k <= |Listing(reg.Keys)|
    ensures Listing(UpTo(reg, target)) == Listing(reg.Keys)[..k]
    ensures Listing(Above(reg, target)) == Listing(reg.Keys)[k..]
  {
    var all := Listing(reg.Keys);
    target := if k < |all| then all[k].number - 1 else if all == [] then 0 else all[|all| - 1].number;
    CutMembers(all, k, target);
    ListUnique(all[..k], Listing(UpTo(reg, target)), UpTo(reg, target));
    ListingSplits(reg, target);
    assert all == all[..k] + all[k..];
  }

  lemma CutMembers(all: seq<Version>, k: nat, target: int)
    requires Ascending(all) && k <= |all|
    requires target == if k < |all| then all[k].number - 1 else if all == [] then 0 else all[|all| - 1].number
    ensures Ascending(all[..k]) && forall v :: v in all[..k] <==> v in all && v.number <= target
  {
    forall v | v in all && v.number <= target
      ensures v in all[..k]
    {
      var i :| 0 <= i < |all| && all[i] == v;
      assert all[..k][i] == v;
    }
  }

  /** The listing of all versions, cut at a target. */
  lemma SplitAt<S>(reg: Registry<S>, target: int) returns (p: seq<Version>, vs: seq<Version>)
    ensures p == Listing(UpTo(reg, target)) && vs == Listing(Above(reg, target)) && p + vs == Listing(reg.Keys)
    ensures Ascending(p + vs) && AllIn(reg, p + vs) && AllIn(reg, vs) && Members(p) == UpTo(reg, target)
  {
    p, vs := Listing(UpTo(reg, target)), Listing(Above(reg, target));
    ListingSplits(reg, target);
  }

  lemma LongerPrefix(p: seq<Version>, q: seq<Version>, all: seq<Version>)
    requires p <= q <= all && Ascending(all)
    ensures Members(p) <= Members(q) && (Members(p) == Members(q) <==> p == q)
  {
    forall v | v in p
      ensures v in q
    {
      var k :| 0 <= k < |p| && p[k] == v;
      assert q[k] == v;
    }
    if p != q {
      assert q[|p|] in Members(q);
      forall k | 0 <= k < |p|
        ensures p[k] != q[|p|]
      {
        assert all[k] == p[k] && all[|p|] == q[|p|];
      }
    }
  }

  lemma NothingListed(s: set<Version>)
    requires s == {}
    ensures Listing(s) == []
  {
    ListUnique(Listing(s), [], s);
  }

  /** A rollback from a database with all versions applied is its loop, even if there is nothing to do. */
  lemma RollbackIsRunDown<S>(reg: Registry<S>, base: S, db: Db<S>, target: int)
    requires WellNamed(reg) && At(reg, base, Listing(reg.Keys), db)
    ensures RolledBack(reg, db, target) == RunDown(reg, Listing(Above(reg, target)), db)
  {
    var all := Listing(reg.Keys);
    PrefixIsTable(reg, all);
    var n := Current(db.applied.Keys);
    if target >= n {
      assert forall v :: v in reg ==> v in all && v in Members(all) && v.number <= n;
      NothingListed(Above(reg, target));
    }
  }

  /** With nothing pending, a rollback leaves a beginning of the versions, and what they make of `base`. */
  ghost predicate RollbackIsGrown<S>(reg: Registry<S>, base: S, db: Db<S>, target: int) {
    var r := RolledBack(reg, db, target);
    && Consistent(reg, r.db.applied) && Grown(reg, base, r.db)
    && UpTo(reg, target) <= r.db.applied.Keys
    && (r.raised <==> r.db.applied.Keys != UpTo(reg, target))
  }

  lemma FullIsAt<S>(reg: Registry<S>, base: S, db: Db<S>)
    requires Consistent(reg, db.applied) && Grown(reg, base, db) && Pending(reg, db) == []
    ensures At(reg, base, Listing(reg.Keys), db)
  {
    var p := TableIsPrefix(reg, base, db);
    assert p == Listing(reg.Keys);
  }

  lemma RollbackEnds<S>(reg: Registry<S>, base: S, db: Db<S>, target: int)
    requires WellNamed(reg) && At(reg, base, Listing(reg.Keys), db)
    requires DownFailsCleanly(reg, Listing(reg.Keys), base)
    ensures RollbackIsGrown(reg, base, db, target)
  {
    var p, vs := SplitAt(reg, target);
    RollbackIsRunDown(reg, base, db, target);
    var q := DownToPrefix(reg, base, p, vs, db);
    PrefixIsGrown(reg, base, q, RunDown(reg, vs, db).db);
    LongerPrefix(p, q, p + vs);
  }

  lemma {:induction false} RunDownConcat<S>(reg: Registry<S>, a: seq<Version>, b: seq<Version>, db: Db<S>)
    requires AllIn(reg, a) && AllIn(reg, b)
    ensures AllIn(reg, a + b)
    ensures var r := RunDown(reg, b, db);
      RunDown(reg, a + b, db) == if r.raised then r else RunDown(reg, a, r.db)
    decreases |b|
  {
    if b == [] {
      assert a + b == a;
    } else {
      LastOf(a, b);
      var front, v := b[..|b| - 1], b[|b| - 1];
      var ran := reg[v].down(db.schema);
      assert a + b == a + front + [v] && forall w :: w in front ==> w in b;
      if ran.Done? {
        RunDownConcat(reg, a, front, Db(ran.schema, db.applied - {v}));
      }
    }
  }

  /** Every rollback ends well. */
  ghost predicate RollbacksAreGrown<S>(reg: Registry<S>, base: S, db: Db<S>) {
    forall target :: RollbackIsGrown(reg, base, db, target)
  }

  /** If every rollback ends well, so does every single step back from the place a rollback reaches. */
  lemma {:induction false} StepsBackCleanly<S>(
    reg: Registry<S>, base: S, db: Db<S>, p: seq<Version>, rest: seq<Version>, there: Db<S>)
    requires WellNamed(reg) && At(reg, base, Listing(reg.Keys), db) && p + rest == Listing(reg.Keys)
    requires RollbacksAreGrown(reg, base, db)
    requires AllIn(reg, rest) && RunDown(reg, rest, db) == Result(there, false) && At(reg, base, p, there)
    ensures DownFailsCleanly(reg, p, base)
    decreases |p|
  {
    if p == [] {
    } else {
      var front, v := p[..|p| - 1], p[|p| - 1];
      Peel(p, rest);
      var next := StepFurther(reg, base, db, front, v, rest, there);
      if reg[v].down(there.schema).Done? {
        StepsBackCleanly(reg, base, db, front, [v] + rest, next);
      }
    }
  }

  lemma Peel(p: seq<Version>, rest: seq<Version>)
    requires p != []
    ensures var front, v := p[..|p| - 1], p[|p| - 1]; p == front + [v] && front + ([v] + rest) == p + rest
  {
  }

  lemma StepFurther<S>(reg: Registry<S>, base: S, db: Db<S>, front: seq<Version>, v: Version, rest: seq<Version>,
                       there: Db<S>) returns (next: Db<S>)
    requires WellNamed(reg) && At(reg, base, Listing(reg.Keys), db) && front + ([v] + rest) == Listing(reg.Keys)
    requires RollbacksAreGrown(reg, base, db)
    requires AllIn(reg, rest) && RunDown(reg, rest, db) == Result(there, false) && At(reg, base, front + [v], there)
    ensures v in reg && AllIn(reg, front) && AllIn(reg, front + [v]) && AllIn(reg, [v] + rest)
    ensures reg[v].down(there.schema).Done? ==>
              RunDown(reg, [v] + rest, db) == Result(next, false) && At(reg, base, front, next)
    ensures DownFailsCleanly(reg, front + [v], base) <==>
              (reg[v].down(there.schema).Done? ==> DownFailsCleanly(reg, front, base))
  {
    OneMoreBack(reg, base, db, front, v, rest, there);
    StepBack(reg, base, front, v, there);
    CleanStep(reg, base, front, v);
    next := Db(reg[v].down(there.schema).schema, there.applied - {v});
  }

  lemma CleanStep<S>(reg: Registry<S>, base: S, front: seq<Version>, v: Version)
    requires AllIn(reg, front) && v in reg
    ensures AllIn(reg, front + [v])
    ensures var there := UpAll(reg, front + [v], base);
      var ran := reg[v].down(there);
      DownFailsCleanly(reg, front + [v], base) <==>
        if ran.Done? then ran.schema == UpAll(reg, front, base) && DownFailsCleanly(reg, front, base)
        else ran.schema == there
  {
    assert (front + [v])[..|front + [v]| - 1] == front;
  }

  /** The rollback that goes one version further runs that version's down script from there. */
  lemma OneMoreBack<S>(reg: Registry<S>, base: S, db: Db<S>, front: seq<Version>, v: Version, rest: seq<Version>,
                       there: Db<S>)
    requires WellNamed(reg) && At(reg, base, Listing(reg.Keys), db) && front + ([v] + rest) == Listing(reg.Keys)
    requires RollbacksAreGrown(reg, base, db)
    requires AllIn(reg, rest) && RunDown(reg, rest, db) == Result(there, false)
    ensures v in reg && v !in front && AllIn(reg, front) && front + [v] <= Listing(reg.Keys)
    ensures AllIn(reg, [v] + rest) && RunDown(reg, [v] + rest, db) == RunDown(reg, [v], there)
    ensures Consistent(reg, RunDown(reg, [v], there).db.applied) && Grown(reg, base, RunDown(reg, [v], there).db)
  {
    var all := Listing(reg.Keys);
    assert all == front + [v] + rest && Ascending(all);
    FirstAfter(reg, front, [v] + rest);
    var target := CutAt(reg, |front|);
    assert all[|front|..] == [v] + rest;
    RollbackIsRunDown(reg, base, db, target);
    assert RollbackIsGrown(reg, base, db, target);
    RunDownConcat(reg, [v], rest, db);
  }

  /** A step back that leaves a grown database undoes the up script or, if it fails, changes nothing. */
  lemma StepBack<S>(reg: Registry<S>, base: S, front: seq<Version>, v: Version, there: Db<S>)
    requires WellNamed(reg) && AllIn(reg, front) && v in reg && v !in front
    requires front + [v] <= Listing(reg.Keys) && At(reg, base, front + [v], there)
    requires Grown(reg, base, RunDown(reg, [v], there).db)
    ensures var ran := reg[v].down(there.schema);
      if ran.Done? then
        var next := Db(ran.schema, there.applied - {v});
        RunDown(reg, [v], there) == Result(next, false) && At(reg, base, front, next)
      else ran.schema == there.schema
  {
    PrefixBack(reg, base, front, v, there);
    OneDown(reg, v, there);
    PrefixIsTable(reg, front);
    PrefixIsTable(reg, front + [v]);
  }

  lemma OneDown<S>(reg: Registry<S>, v: Version, db: Db<S>)
    requires v in reg
    ensures var ran := reg[v].down(db.schema);
      RunDown(reg, [v], db) ==
        if ran.Broke? then Result(Db(ran.schema, db.applied), true)
        else Result(Db(ran.schema, db.applied - {v}), false)
  {
    assert [v][..0] == [];
  }

  /**
    With nothing pending, the rollbacks to all targets leave a consistent database, wherever they
    fail, exactly if each down script undoes its up script until one fails and changes nothing.
  */
  lemma RollbackKeepsGrown<S>(reg: Registry<S>, base: S, db: Db<S>)
    requires WellNamed(reg) && Consistent(reg, db.applied) && Grown(reg, base, db) && Pending(reg, db) == []
    ensures RollbacksAreGrown(reg, base, db) <==> DownFailsCleanly(reg, Listing(reg.Keys), base)
  {
    var all := Listing(reg.Keys);
    FullIsAt(reg, base, db);
    if DownFailsCleanly(reg, all, base) {
      forall target
        ensures RollbackIsGrown(reg, base, db, target)
      {
        RollbackEnds(reg, base, db, target);
      }
    }
    if RollbacksAreGrown(reg, base, db) {
      assert all + [] == all;
      StepsBackCleanly(reg, base, db, all, [], db);
    }
  }

  /** The first pending migration fails, in its script or when it is entered in the table. */
  ghost predicate FirstFails<S>(reg: Registry<S>, db: Db<S>) {
    var vs := Pending(reg, db);
    vs != [] && (reg[vs[0]].up(db.schema).Broke? || !Enters(db.applied, reg[vs[0]]))
  }

  /**
    The migrations of one call are not a transaction: a migrate that raises leaves the database
    as it was exactly if the very first migration failed and its script changed nothing.
  */
  lemma MigrateAtomicIff<S>(reg: Registry<S>, db: Db<S>)
    requires Migrated(reg, db).raised
    ensures Migrated(reg, db).db == db <==>
            FirstFails(reg, db) && reg[Pending(reg, db)[0]].up(db.schema).schema == db.schema
    ensures Migrated(reg, db).db.applied == db.applied <==> FirstFails(reg, db)
  {
    var vs := Pending(reg, db);
    if !FirstFails(reg, db) {
      var m := reg[vs[0]];
      TableGrows(reg, vs[1..], Db(m.up(db.schema).schema, db.applied[vs[0] := m.name]));
      assert vs[0] in Migrated(reg, db).db.applied;
    }
  }

  lemma {:induction false} TableGrows<S>(reg: Registry<S>, vs: seq<Version>, db: Db<S>)
    requires AllIn(reg, vs)
    ensures db.applied.Keys <= RunUp(reg, vs, db).db.applied.Keys
    decreases |vs|
  {
    if vs == [] {
    } else {
      var m := reg[vs[0]];
      if m.up(db.schema).Done? && Enters(db.applied, m) {
        TableGrows(reg, vs[1..], Db(m.up(db.schema).schema, db.applied[vs[0] := m.name]));
      }
    }
  }

  /**
    `migrate` on a consistent database succeeds exactly if all up scripts run through from `base`,
    and then applies every registered version.
  */
  lemma MigrateCompletes<S>(reg: Registry<S>, base: S, db: Db<S>)
    requires WellNamed(reg) && Consistent(reg, db.applied) && Grown(reg, base, db)
    ensures var r := Migrated(reg, db);
      && (!r.raised <==> RunsThrough(reg, Listing(reg.Keys), base))
      && (!r.raised ==> r.db.applied == Entries(reg, reg.Keys) && Consistent(reg, r.db.applied)
                        && Grown(reg, base, r.db) && Pending(reg, r.db) == [])
  {
    var q := MigrateStops(reg, base, db);
    StopDecides(reg, base, Listing(reg.Keys), q, Migrated(reg, db));
    if q == Listing(reg.Keys) {
      FullIsGrown(reg, base, Migrated(reg, db).db);
    }
  }

  lemma FullIsGrown<S>(reg: Registry<S>, base: S, db: Db<S>)
    requires WellNamed(reg) && At(reg, base, Listing(reg.Keys), db)
    ensures db.applied == Entries(reg, reg.Keys)
    ensures Consistent(reg, db.applied) && Grown(reg, base, db) && Pending(reg, db) == []
  {
    var all := Listing(reg.Keys);
    assert Members(all) == reg.Keys;
    PrefixIsGrown(reg, base, all, db);
  }

  /** A prefix of the registered versions is a consistent table. */
  lemma PrefixIsConsistent<S>(reg: Registry<S>, target: int)
    requires WellNamed(reg)
    ensures Consistent(reg, Entries(reg, UpTo(reg, target)))
  {
    var p, vs := SplitAt(reg, target);
    PrefixIsTable(reg, p);
  }

  lemma EntersNext<S>(reg: Registry<S>, q: seq<Version>, v: Version)
    requires WellNamed(reg) && AllIn(reg, q) && v in reg && v !in q
    ensures Enters(Entries(reg, Members(q)), reg[v])
  {
  }

  /**
    A second `migrate` changes nothing exactly if the script that failed in the first, if one did,
    fails again and leaves what is there.
  */
  lemma MigrateIdempotent<S>(reg: Registry<S>, base: S, db: Db<S>)
    requires WellNamed(reg) && Consistent(reg, db.applied) && Grown(reg, base, db)
    ensures Migrated(reg, Migrated(reg, db).db) == Migrated(reg, db) <==>
            UpFailsAgain(reg, Listing(reg.Keys), base)
  {
    var q := MigrateStops(reg, base, db);
    MigratedAgain(reg, base, q, Migrated(reg, db));
  }

  lemma MigratedAgain<S>(reg: Registry<S>, base: S, q: seq<Version>, r: Result<S>)
    requires WellNamed(reg) && q <= Listing(reg.Keys) && StopsAfter(reg, base, Listing(reg.Keys), q, r)
    ensures Migrated(reg, r.db) == r <==> UpFailsAgain(reg, Listing(reg.Keys), base)
  {
    var all := Listing(reg.Keys);
    var vs := all[|q|..];
    assert all == q + vs;
    StopDecides(reg, base, all, q, r);
    PendingAfter(reg, q, r.db);
    RunAgain(reg, base, q, vs, r);
  }

  lemma PendingAfter<S>(reg: Registry<S>, q: seq<Version>, db: Db<S>)
    requires WellNamed(reg) && q <= Listing(reg.Keys) && db.applied == Entries(reg, Members(q))
    ensures Migrated(reg, db) == RunUp(reg, Pending(reg, db), db) && Pending(reg, db) == Listing(reg.Keys)[|q|..]
  {
    PrefixIsTable(reg, q);
  }

  lemma RunAgain<S>(reg: Registry<S>, base: S, q: seq<Version>, vs: seq<Version>, r: Result<S>)
    requires WellNamed(reg) && Ascending(q + vs) && AllIn(reg, q + vs) && AllIn(reg, vs)
    requires StopsAfter(reg, base, q + vs, q, r)
    ensures RunUp(reg, vs, r.db) == r <==> q == q + vs || reg[(q + vs)[|q|]].up(r.db.schema) == Broke(r.db.schema)
  {
    if vs == [] {
      assert q + vs == q;
    } else {
      FirstAfter(reg, q, vs);
      TryAgain(reg, q, vs, r.db);
    }
  }

  /** Running on from where a script failed changes nothing exactly if it fails again in the same way. */
  lemma TryAgain<S>(reg: Registry<S>, q: seq<Version>, vs: seq<Version>, db: Db<S>)
    requires WellNamed(reg) && AllIn(reg, q) && vs != [] && AllIn(reg, vs) && vs[0] in reg && vs[0] !in q
    requires db.applied == Entries(reg, Members(q))
    ensures RunUp(reg, vs, db) == Result(db, true) <==> reg[vs[0]].up(db.schema) == Broke(db.schema)
  {
    var m := reg[vs[0]];
    EntersNext(reg, q, vs[0]);
    if m.up(db.schema).Done? {
      TableGrows(reg, vs[1..], Db(m.up(db.schema).schema, db.applied[vs[0] := m.name]));
      assert vs[0] in RunUp(reg, vs, db).db.applied;
    }
  }

  /** After `migrate`, `rollback(target)` leaves exactly the versions up to the target, and what they make of `base`. */
  ghost predicate RollsBackTo<S>(reg: Registry<S>, base: S, db: Db<S>, target: int) {
    var r := RolledBack(reg, db, target);
    !r.raised && r.db.applied == Entries(reg, UpTo(reg, target)) && Grown(reg, base, r.db)
  }

  ghost predicate AlwaysRollsBack<S>(reg: Registry<S>, base: S, db: Db<S>) {
    forall target :: RollsBackTo(reg, base, db, target)
  }

  /**
    Exactly when `migrate` succeeds and, directly after it, a rollback to any target leaves just
    the registered versions up to the target and the schema that they make of `base`: when all
    scripts run through and are undone from the schemas that this run meets.
  */
  lemma RollbackLeavesPrefix<S>(reg: Registry<S>, base: S, db: Db<S>)
    requires WellNamed(reg) && Consistent(reg, db.applied) && Grown(reg, base, db)
    ensures !Migrated(reg, db).raised && AlwaysRollsBack(reg, base, Migrated(reg, db).db) <==> Reversible(reg, base)
  {
    MigrateCompletes(reg, base, db);
    AfterMigrate(reg, base, Migrated(reg, db));
  }

  lemma AfterMigrate<S>(reg: Registry<S>, base: S, r: Result<S>)
    requires WellNamed(reg) && (!r.raised <==> RunsThrough(reg, Listing(reg.Keys), base))
    requires !r.raised ==> Consistent(reg, r.db.applied) && Grown(reg, base, r.db) && Pending(reg, r.db) == []
    ensures !r.raised && AlwaysRollsBack(reg, base, r.db) <==> Reversible(reg, base)
  {
    if !r.raised {
      FullIsAt(reg, base, r.db);
      RollsBackIff(reg, base, r.db);
    } else if Reversible(reg, base) {
      ReversesRunsThrough(reg, Listing(reg.Keys), base);
    }
  }

  lemma RollsBackIff<S>(reg: Registry<S>, base: S, db: Db<S>)
    requires WellNamed(reg) && At(reg, base, Listing(reg.Keys), db)
    ensures AlwaysRollsBack(reg, base, db) <==> Reversible(reg, base)
  {
    if Reversible(reg, base) {
      forall target
        ensures RollsBackTo(reg, base, db, target)
      {
        ReversibleRollsBack(reg, base, db, target);
      }
    }
    if AlwaysRollsBack(reg, base, db) {
      RollsBackReversible(reg, base, db);
    }
  }

  lemma ReversibleRollsBack<S>(reg: Registry<S>, base: S, db: Db<S>, target: int)
    requires WellNamed(reg) && Reversible(reg, base) && At(reg, base, Listing(reg.Keys), db)
    ensures RollsBackTo(reg, base, db, target)
  {
    var p, vs := SplitAt(reg, target);
    RollbackIsRunDown(reg, base, db, target);
    UpConcat(reg, p, vs, base);
    RunsThroughConcat(reg, p, vs, base);
    ReversesConcat(reg, p, vs, base);
    DownUndoesUp(reg, vs, UpAll(reg, p, base), db.applied);
    EntriesBefore(reg, p, vs);
    PrefixIsGrown(reg, base, p, RunDown(reg, vs, db).db);
  }

  lemma EntriesBefore<S>(reg: Registry<S>, p: seq<Version>, vs: seq<Version>)
    requires Ascending(p + vs) && AllIn(reg, p + vs)
    ensures Entries(reg, Members(p + vs)) - Members(vs) == Entries(reg, Members(p))
  {
    forall i, j | 0 <= i < |p| && 0 <= j < |vs|
      ensures p[i] != vs[j]
    {
      assert (p + vs)[i] == p[i] && (p + vs)[|p| + j] == vs[j];
    }
    assert forall v :: v in p + vs <==> v in p || v in vs;
  }

  lemma RollsBackReversible<S>(reg: Registry<S>, base: S, db: Db<S>)
    requires WellNamed(reg) && At(reg, base, Listing(reg.Keys), db)
    requires AlwaysRollsBack(reg, base, db)
    ensures Reversible(reg, base)
  {
    var all := Listing(reg.Keys);
    PrefixIsGrown(reg, base, all, db);
    assert all[|all|..] == [];
    forall target
      ensures RollbackIsGrown(reg, base, db, target)
    {
      assert RollsBackTo(reg, base, db, target);
      RollsBackIsGrown(reg, base, db, target);
    }
    RollbackKeepsGrown(reg, base, db);
    var target := CutAt(reg, 0);
    assert all[0..] == all;
    RollbackIsRunDown(reg, base, db, target);
    assert RollsBackTo(reg, base, db, target);
    CleanAndDone(reg, all, base, db.applied);
  }

  lemma RollsBackIsGrown<S>(reg: Registry<S>, base: S, db: Db<S>, target: int)
    requires WellNamed(reg) && RollsBackTo(reg, base, db, target)
    ensures RollbackIsGrown(reg, base, db, target)
  {
    PrefixIsConsistent(reg, target);
  }

  /** Down scripts that fail cleanly and do not fail undo their up scripts. */
  lemma {:induction false} CleanAndDone<S>(reg: Registry<S>, vs: seq<Version>, s: S, applied: Table)
    requires AllIn(reg, vs) && RunsThrough(reg, vs, s) && DownFailsCleanly(reg, vs, s)
    requires !RunDown(reg, vs, Db(UpAll(reg, vs, s), applied)).raised
    ensures ReversesAlong(reg, vs, s)
    decreases |vs|
  {
    if vs == [] {
    } else {
      var front, last := vs[..|vs| - 1], vs[|vs| - 1];
      assert vs == front + [last] && last in vs;
      UpConcat(reg, front, [last], s);
      RunsThroughConcat(reg, front, [last], s);
      ReversesConcat(reg, front, [last], s);
      CleanAndDone(reg, front, s, applied - {last});
    }
  }

  /** The round trip: migrate, roll back to any target, and migrate again restores schema and table. */
  lemma RollbackThenMigrateRestores<S>(reg: Registry<S>, base: S, db: Db<S>, target: int)
    requires WellNamed(reg) && Reversible(reg, base) && Consistent(reg, db.applied) && Grown(reg, base, db)
    ensures Migrated(reg, RolledBack(reg, Migrated(reg, db).db, target).db) == Migrated(reg, db)
  {
    var back := RolledBack(reg, Migrated(reg, db).db, target).db;
    RollbackLeavesPrefix(reg, base, db);
    assert RollsBackTo(reg, base, Migrated(reg, db).db, target);
    PrefixIsConsistent(reg, target);
    MigrateCompletes(reg, base, db);
    MigrateCompletes(reg, base, back);
  }

  /**
    Why "directly after": a rollback that does anything runs down steps of applied versions only
    exactly when nothing is pending. With a pending version it runs a down step whose up step never ran.
  */
  lemma RollbackRunsAppliedIff<S>(reg: Registry<S>, applied: Table, target: int)
    requires Consistent(reg, applied) && target < Current(applied.Keys)
    ensures (forall v :: v in Listing(Above(reg, target)) ==> v in applied) <==> Above(reg, Current(applied.Keys)) == {}
  {
    var pending := Above(reg, Current(applied.Keys));
    assert applied.Keys == UpTo(reg, Current(applied.Keys));
    assert forall v :: v in pending ==> v in Listing(Above(reg, target)) && v !in applied;
    assert forall v :: v in reg && v !in applied ==> v in pending;
  }

  /** A migration that appends its number to the schema and drops the last element to undo that. */
  function Appending(n: int, name: string): Migration<seq<int>> {
    Migration(Version(n), name, s => Done(s + [n]), s => Done(if s == [] then s else s[..|s| - 1]))
  }

  function TwoAppending(): Registry<seq<int>> {
    map[Version(1) := Appending(1, "one"), Version(2) := Appending(2, "two")]
  }

  lemma SmallListings()
    ensures Listing({Version(1)}) == [Version(1)] && Listing({Version(1), Version(2)}) == [Version(1), Version(2)]
  {
    ListUnique(Listing({Version(1)}), [Version(1)], {Version(1)});
    ListUnique(Listing({Version(1), Version(2)}), [Version(1), Version(2)], {Version(1), Version(2)});
  }

  lemma TwoAppendingFacts()
    ensures WellNamed(TwoAppending()) && forall base :: Reversible(TwoAppending(), base)
    ensures Above(TwoAppending(), 0) == {Version(1), Version(2)} && UpTo(TwoAppending(), 1) == {Version(1)}
    ensures Entries(TwoAppending(), {Version(1)}) == map[Version(1) := "one"]
  {
    SmallListings();
    assert TwoAppending().Keys == {Version(1), Version(2)};
    forall base
      ensures Reversible(TwoAppending(), base)
    {
      TwoReverse(base);
    }
  }

  lemma TwoReverse(base: seq<int>)
    ensures ReversesAlong(TwoAppending(), [Version(1), Version(2)], base)
  {
    AppendingReverses(1, "one", base);
    AppendingReverses(2, "two", base + [1]);
    assert [Version(1), Version(2)][1..] == [Version(2)] && [Version(2)][1..] == [];
  }

  lemma AppendingReverses(n: int, name: string, s: seq<int>)
    ensures Reverses(Appending(n, name), s)
  {
    assert (s + [n])[..|s|] == s;
  }

  /** A second migration whose script fails at once. */
  function SecondFailing(): Registry<seq<int>> {
    map[Version(1) := Appending(1, "one"), Version(2) := Migration(Version(2), "two", s => Broke(s), s => Done(s))]
  }

  /** The witness that a failed migrate may leave earlier migrations in place. */
  lemma HalfMigrated()
    ensures Migrated(SecondFailing(), Db([7], map[])) == Result(Db([7, 1], map[Version(1) := "one"]), true)
  {
    var reg := SecondFailing();
    var none: Table, both := map[], {Version(1), Version(2)};
    SmallListings();
    assert none.Keys == {} && Above(reg, 0) == both && Pending(reg, Db([7], none)) == [Version(1), Version(2)];
    assert [Version(1), Version(2)][1..] == [Version(2)] && [7] + [1] == [7, 1];
    assert RunUp(reg, [Version(2)], Db([7, 1], none[Version(1) := "one"])).raised;
  }

  /** The witness: with 2 pending, rolling 1 back from [7, 1] loses the base element as well. */
  lemma PendingRollbackDamages()
    ensures var reg := TwoAppending();
      var db := Db([7, 1], map[Version(1) := "one"]);
      && Reversible(reg, [7]) && Consistent(reg, db.applied) && Grown(reg, [7], db)
      && RolledBack(reg, db, 0) == Result(Db([], map[]), false)
  {
    var reg := TwoAppending();
    var db := Db([7, 1], map[Version(1) := "one"]);
    TwoAppendingFacts();
    SmallListings();
    assert db.applied.Keys == {Version(1)};
    assert [7] + [1] == [7, 1];
    assert UpAll(reg, [Version(1)], [7]) == [7, 1];
    BothDown();
  }

  lemma BothDown()
    ensures RunDown(TwoAppending(), [Version(1), Version(2)], Db([7, 1], map[Version(1) := "one"]))
            == Result(Db([], map[]), false)
  {
    var reg := TwoAppending();
    var applied: Table := map[Version(1) := "one"];
    assert [Version(1), Version(2)][..1] == [Version(1)];
    assert [7, 1][..1] == [7] && [7][..0] == [];
    assert applied - {Version(2)} == applied && applied - {Version(1)} == map[];
    OneDown(reg, Version(1), Db([7], applied));
  }

  // ---- the shipped migration ---------------------------------------------------------------------------

  /** The tables of a database and their rows. */
  type Tables = map<string, seq<string>>

  const KEYS_TABLE := "llm_provider_keys"

  function CreateIfNotExists(tables: Tables, name: string): Tables {
    if name in tables then tables else tables[name := []]
  }

  function DropIfExists(tables: Tables, name: string): Tables {
    tables - {name}
  }

  /** `create_initial_migration`. */
  function Initial(): Migration<Tables> {
    Migration(Version(1), "create_llm_provider_keys_table",
              t => Done(CreateIfNotExists(t, KEYS_TABLE)), t => Done(DropIfExists(t, KEYS_TABLE)))
  }

  function Shipped(): Registry<Tables> {
    map[Version(1) := Initial()]
  }

  lemma ShippedFacts()
    ensures WellNamed(Shipped()) && Listing(Shipped().Keys) == [Version(1)]
  {
    assert Shipped().Keys == {Version(1)};
    SmallListings();
  }

  /** The shipped migration can be rolled back without loss exactly if the table was not there before. */
  lemma ShippedReversibleIff(base: Tables)
    ensures Reversible(Shipped(), base) <==> KEYS_TABLE !in base
  {
    ShippedFacts();
    assert [Version(1)][1..] == [];
    if KEYS_TABLE in base {
      assert KEYS_TABLE !in DropIfExists(base, KEYS_TABLE);
    } else {
      assert DropIfExists(CreateIfNotExists(base, KEYS_TABLE), KEYS_TABLE) == base;
    }
  }

  /** On a fresh tracking table: migrate and rollback(0) always end without the table, its rows included. */
  lemma ShippedRollback(base: Tables)
    ensures var migrated := Migrated(Shipped(), Db(base, map[]));
      && !migrated.raised
      && RolledBack(Shipped(), migrated.db, 0) == Result(Db(base - {KEYS_TABLE}, map[]), false)
      && (base - {KEYS_TABLE} == base <==> KEYS_TABLE !in base)
  {
    var reg, none: Table := Shipped(), map[];
    var created := CreateIfNotExists(base, KEYS_TABLE);
    var applied: Table := none[Version(1) := Initial().name];
    ShippedFacts();
    assert none.Keys == {} && Above(reg, 0) == reg.Keys && Pending(reg, Db(base, none)) == [Version(1)];
    assert [Version(1)][1..] == [] && [Version(1)][..0] == [];
    assert Migrated(reg, Db(base, none)) == Result(Db(created, applied), false);
    assert applied.Keys == {Version(1)} && Version(1) in applied;
    assert created - {KEYS_TABLE} == base - {KEYS_TABLE} && applied - {Version(1)} == none;
    if KEYS_TABLE in base {
      assert KEYS_TABLE !in base - {KEYS_TABLE};
    } else {
      assert base - {KEYS_TABLE} == base;
    }
  }
}
