/**
 * Virtual keys: the table of key hashes and the in-memory set that answers IsValid.
 * Every SQL statement of an operation may fail, and an INSERT also fails on a duplicate hash.
 */
module Keys {

  datatype Row = Row(hash: string, active: bool)

  type Table = map<nat, Row>

  datatype Store = Store(rows: Table, nextId: nat, keys: set<string>)

  /** Which statements of one operation the database carries out. */
  datatype Sql = Sql(read: bool, updated: bool, inserted: bool)

  const ALL_WELL := Sql(true, true, true)

  datatype Op =
    | Generate(hash: string, sql: Sql)
    | Delete(id: nat, sql: Sql)
    | Rotate(id: nat, hash: string, sql: Sql)
    | Reload(sql: Sql)

  function Hashes(rows: Table): set<string> {
    set id | id in rows :: rows[id].hash
  }

  function ActiveHashes(rows: Table): set<string> {
    set id | id in rows && rows[id].active :: rows[id].hash
  }

  /** The UNIQUE constraint, ids below the sequence, and no empty hash. */
  ghost predicate WellFormed(s: Store) {
    && (forall i, j :: i in s.rows && j in s.rows && i != j ==> s.rows[i].hash != s.rows[j].hash)
    && (forall i :: i in s.rows ==> i < s.nextId && s.rows[i].hash != "")
  }

  predicate Agrees(s: Store) {
    s.keys == ActiveHashes(s.rows)
  }

  // ---------------------------------------------------------------- the operations

  /** The INSERT is carried out and does not meet a duplicate. */
  predicate Inserts(rows: Table, hash: string, sql: Sql) {
    sql.inserted && hash !in Hashes(rows)
  }

  lemma InsertsMeans(rows: Table, hash: string, sql: Sql)
    ensures Inserts(rows, hash, sql) <==> sql.inserted && forall id :: id in rows ==> rows[id].hash != hash
  {
    if id :| id in rows && rows[id].hash == hash {
      assert hash in Hashes(rows);
    }
  }

  function Deactivate(rows: Table, id: nat): Table {
    if id in rows then rows[id := rows[id].(active := false)] else rows
  }

  predicate IsActive(rows: Table, id: nat) {
    id in rows && rows[id].active
  }

  /** The hash as looked up beforehand: empty when there is no such row or the query failed. */
  function LookedUp(rows: Table, id: nat, sql: Sql): string {
    if sql.read && id in rows then rows[id].hash else ""
  }

  function Forget(keys: set<string>, hash: string): set<string> {
    if hash != "" then keys - {hash} else keys
  }

  function Apply(s: Store, op: Op): Store {
    match op
    case Generate(hash, sql) =>
      if Inserts(s.rows, hash, sql)
      then Store(s.rows[s.nextId := Row(hash, true)], s.nextId + 1, s.keys + {hash})
      else s
    case Delete(id, sql) =>
      if sql.updated then s.(rows := Deactivate(s.rows, id), keys := Forget(s.keys, LookedUp(s.rows, id, sql))) else s
    case Rotate(id, hash, sql) =>
      if !IsActive(s.rows, id) then s
      else
        var rows := if sql.updated then Deactivate(s.rows, id) else s.rows;
        if Inserts(rows, hash, sql)
        then Store(rows[s.nextId := Row(hash, true)], s.nextId + 1, Forget(s.keys, LookedUp(s.rows, id, sql)) + {hash})
        else s.(rows := rows)
    case Reload(sql) => if sql.read then s.(keys := s.keys + ActiveHashes(s.rows)) else s
  }

  predicate RealHash(op: Op) {
    match op
    case Generate(hash, _) => hash != ""
    case Rotate(_, hash, _) => hash != ""
    case _ => true
  }

  datatype RotateResult = Rotated | NotFound | InsertFailed

  class KeyAdmin {
    const hashKey: string -> string
    var rows: Table
    var nextId: nat
    var keys: set<string>

    ghost function View(): Store
      reads this
    {
      Store(rows, nextId, keys)
    }

    /** The store of a fresh process, before LoadFromDB. */
    constructor (hashKey: string -> string, rows: Table, nextId: nat)
      ensures View() == Store(rows, nextId, {}) && this.hashKey == hashKey
    {
      this.hashKey, this.rows, this.nextId, keys := hashKey, rows, nextId, {};
    }

    method LoadFromDB(sql: Sql)
      modifies this
      ensures View() == Apply(old(View()), Reload(sql))
      ensures rows == old(rows)
      ensures forall h :: h in keys <==>
        h in old(keys) || (sql.read && exists id :: id in rows && rows[id].active && rows[id].hash == h)
    {
      if !sql.read { return; }
      var pending := rows.Keys;
      while pending != {}
        invariant pending <= rows.Keys && rows == old(rows) && nextId == old(nextId)
        invariant keys == old(keys) + set id | id in rows && id !in pending && rows[id].active :: rows[id].hash
        decreases pending
      {
        var id :| id in pending;
        pending := pending - {id};
        if rows[id].active {
          keys := keys + {rows[id].hash};
        }
      }
    }

    method KeyGenerate(rawKey: string, sql: Sql) returns (ok: bool)
      modifies this
      ensures ok == Inserts(old(rows), hashKey(rawKey), sql)
      ensures View() == Apply(old(View()), Generate(hashKey(rawKey), sql))
      ensures ok <==> sql.inserted && forall id :: id in old(rows) ==> old(rows)[id].hash != hashKey(rawKey)
      ensures ok ==> rows == old(rows)[old(nextId) := Row(hashKey(rawKey), true)] && keys == old(keys) + {hashKey(rawKey)}
      ensures !ok ==> rows == old(rows) && keys == old(keys)
    {
      var keyHash := hashKey(rawKey);
      InsertsMeans(rows, keyHash, sql);
      ok := Inserts(rows, keyHash, sql);
      if !ok { return; }
      rows, nextId := rows[nextId := Row(keyHash, true)], nextId + 1;
      keys := keys + {keyHash};
    }

    method KeyDelete(id: nat, sql: Sql) returns (ok: bool)
      modifies this
      ensures ok == sql.updated
      ensures ok && id in old(rows) ==>
        && rows == old(rows)[id := old(rows)[id].(active := false)]
        && (sql.read && old(rows)[id].hash != "" ==> keys == old(keys) - {old(rows)[id].hash})
      ensures !ok || id !in old(rows) ==> rows == old(rows) && keys == old(keys)
      ensures View() == Apply(old(View()), Delete(id, sql))
    {
      var keyHash := "";
      if sql.read && id in rows { keyHash := rows[id].hash; }
      if !sql.updated { return false; }
      if id in rows { rows := rows[id := rows[id].(active := false)]; }
      if keyHash != "" { keys := keys - {keyHash}; }
      return true;
    }

    method KeyRotate(id: nat, rawKey: string, sql: Sql) returns (r: RotateResult)
      modifies this
      ensures View() == Apply(old(View()), Rotate(id, hashKey(rawKey), sql))
      ensures r == NotFound <==> !IsActive(old(rows), id)
      ensures r == Rotated ==>
        && nextId == old(nextId) + 1 && old(nextId) in rows && rows[old(nextId)] == Row(hashKey(rawKey), true)
        && hashKey(rawKey) in keys
        && (id != old(nextId) && sql.updated ==> !IsActive(rows, id))
      ensures r == InsertFailed ==> keys == old(keys) && (sql.updated ==> !IsActive(rows, id))
    {
      var oldKeyHash := "";
      if sql.read && id in rows { oldKeyHash := rows[id].hash; }
      if !(id in rows && rows[id].active) { return NotFound; }
      if sql.updated { rows := rows[id := rows[id].(active := false)]; }
      var keyHash := hashKey(rawKey);
      if !Inserts(rows, keyHash, sql) { return InsertFailed; }
      rows, nextId := rows[nextId := Row(keyHash, true)], nextId + 1;
      if oldKeyHash != "" { keys := keys - {oldKeyHash}; }
      keys := keys + {keyHash};
      r := Rotated;
    }

    method IsValid(rawKey: string) returns (r: bool)
      ensures r <==> hashKey(rawKey) in keys
      ensures Agrees(View()) ==> (r <==> exists id :: id in rows && rows[id].active && rows[id].hash == hashKey(rawKey))
    {
      r := hashKey(rawKey) in keys;
    }
  }

  // ---------------------------------------------------------------- runs

  function Run(s: Store, ops: seq<Op>): Store {
    if ops == [] then s else Apply(Run(s, ops[..|ops| - 1]), ops[|ops| - 1])
  }

  /** The table as it was, with the set loaded from it. */
  function Loaded(rows: Table, nextId: nat): Store {
    Apply(Store(rows, nextId, {}), Reload(ALL_WELL))
  }

  ghost predicate RealHashes(ops: seq<Op>) {
    forall k :: 0 <= k < |ops| ==> RealHash(ops[k])
  }

  lemma DeactivatedHashes(rows: Table, id: nat)
    ensures Hashes(Deactivate(rows, id)) == Hashes(rows)
  {
    forall h ensures h in Hashes(Deactivate(rows, id)) <==> h in Hashes(rows) {
      if h in Hashes(rows) {
        var i :| i in rows && rows[i].hash == h;
        assert i in Deactivate(rows, id) && Deactivate(rows, id)[i].hash == h;
      }
    }
  }

  lemma InsertKeepsUnique(s: Store, hash: string, keys: set<string>)
    requires WellFormed(s) && hash != ""
    ensures hash !in Hashes(s.rows) ==> WellFormed(Store(s.rows[s.nextId := Row(hash, true)], s.nextId + 1, keys))
  {
    if hash !in Hashes(s.rows) {
      forall i | i in s.rows ensures s.rows[i].hash != hash {
        assert s.rows[i].hash in Hashes(s.rows);
      }
    }
  }

  lemma StepKeepsWellFormed(s: Store, op: Op)
    requires WellFormed(s) && RealHash(op)
    ensures WellFormed(Apply(s, op))
  {
    match op
    case Rotate(id, hash, sql) =>
      if IsActive(s.rows, id) {
        InsertKeepsUnique(if sql.updated then s.(rows := Deactivate(s.rows, id)) else s, hash, Apply(s, op).keys);
      }
    case Generate(hash, _) => InsertKeepsUnique(s, hash, Apply(s, op).keys);
    case _ =>
  }

  // ---------------------------------------------------------------- the table as the operations made it

  /** The operation stores a new row: its INSERT goes through, and a rotation found its old row active. */
  predicate Stores(s: Store, op: Op) {
    && (op.Generate? || (op.Rotate? && op.id in s.rows && s.rows[op.id].active))
    && op.sql.inserted && forall id | id in s.rows :: s.rows[id].hash != op.hash
  }

  /** The operation's UPDATE takes the row out of use. */
  predicate Revokes(op: Op, id: nat) {
    (op.Delete? || op.Rotate?) && op.id == id && op.sql.updated
  }

  /** The hashes handed out, in order; their rows are numbered from `s.nextId`. */
  function Issued(s: Store, ops: seq<Op>): seq<string> {
    if ops == [] then []
    else
      var n := |ops| - 1;
      Issued(s, ops[..n]) + if Stores(Run(s, ops[..n]), ops[n]) then [ops[n].hash] else []
  }

  /** Row `id` was active at the start or has been issued, and has not been revoked since. */
  predicate Lives(s: Store, ops: seq<Op>, id: nat) {
    if ops == [] then IsActive(s.rows, id)
    else
      var n := |ops| - 1;
      && !Revokes(ops[n], id)
      && (Lives(s, ops[..n], id) || (Stores(Run(s, ops[..n]), ops[n]) && id == s.nextId + |Issued(s, ops[..n])|))
  }

  /** What one operation does to row `id` of the table. */
  lemma RowAfter(s: Store, op: Op, id: nat)
    requires WellFormed(s)
    ensures var t := Apply(s, op);
      && t.nextId == s.nextId + (if Stores(s, op) then 1 else 0)
      && (id in t.rows <==> id in s.rows || (Stores(s, op) && id == s.nextId))
      && (id in s.rows ==> t.rows[id].hash == s.rows[id].hash && (t.rows[id].active <==> s.rows[id].active && !Revokes(op, id)))
      && (Stores(s, op) && id == s.nextId ==> t.rows[id] == Row(op.hash, true))
  {
    match op
    case Generate(hash, sql) => InsertsMeans(s.rows, hash, sql);
    case Rotate(i, hash, sql) =>
      InsertsMeans(s.rows, hash, sql);
      DeactivatedHashes(s.rows, i);
    case _ =>
  }

  /** The row of `id` as the operations made it. */
  ghost predicate RowFollows(s0: Store, ops: seq<Op>, id: nat) {
    var s, issued := Run(s0, ops), Issued(s0, ops);
    && s.nextId == s0.nextId + |issued|
    && (id in s.rows <==> id in s0.rows || s0.nextId <= id < s0.nextId + |issued|)
    && (id in s0.rows ==> id in s.rows && s.rows[id].hash == s0.rows[id].hash)
    && (s0.nextId <= id < s0.nextId + |issued| ==> s.rows[id].hash == issued[id - s0.nextId])
    && (IsActive(s.rows, id) <==> Lives(s0, ops, id))
  }

  lemma RowKeepsFollowing(s0: Store, ops: seq<Op>, op: Op, id: nat)
    requires WellFormed(s0) && WellFormed(Run(s0, ops)) && RowFollows(s0, ops, id)
    ensures RowFollows(s0, ops + [op], id)
  {
    assert (ops + [op])[..|ops|] == ops;
    RowAfter(Run(s0, ops), op, id);
  }

  /**
   * The table after any run: the old rows and, numbered on, the rows that were issued, each with
   * the hash it was given; a row is active exactly if it was at the start or has been issued, and
   * has not been revoked since.
   */
  lemma {:induction false} TableFollowsOperations(s: Store, ops: seq<Op>, id: nat)
    requires WellFormed(s) && RealHashes(ops)
    ensures WellFormed(Run(s, ops)) && RowFollows(s, ops, id)
  {
    if ops != [] {
      var n := |ops| - 1;
      TableFollowsOperations(s, ops[..n], id);
      StepKeepsWellFormed(Run(s, ops[..n]), ops[n]);
      RowKeepsFollowing(s, ops[..n], ops[n], id);
      assert ops == ops[..n] + [ops[n]];
    }
  }

  // ---------------------------------------------------------------- how memory and table drift apart

  /** Rows that are inactive but still valid in memory, and rows that are active but refused. */
  datatype Drift = Drift(stale: set<nat>, lost: set<nat>)

  const NO_DRIFT := Drift({}, {})

  /**
   * What the outcomes of an operation's statements do to the drift. A row becomes stale when
   * it is deactivated and its hash is not forgotten, lost when the hash is forgotten and the
   * row stays active. A complete delete settles a stale row; a reload finds the lost ones.
   */
  function DriftAfter(s: Store, d: Drift, op: Op): Drift {
    match op
    case Generate(_, _) => d
    case Delete(id, sql) =>
      if !sql.updated || id !in s.rows then d
      else if sql.read then Drift(d.stale - {id}, d.lost - {id})
      else Drift(if s.rows[id].active && id !in d.lost then d.stale + {id} else d.stale, d.lost - {id})
    case Rotate(id, hash, sql) =>
      if !IsActive(s.rows, id) then d
      else
        var remembered := id !in d.lost && !(sql.read && Inserts(s.rows, hash, sql));
        Drift(if sql.updated && remembered then d.stale + {id} else d.stale,
              if !sql.updated && !remembered then d.lost + {id} else d.lost - {id})
    case Reload(sql) => if sql.read then d.(lost := {}) else d
  }

  function DriftOf(s: Store, ops: seq<Op>): Drift {
    if ops == [] then NO_DRIFT
    else
      var n := |ops| - 1;
      DriftAfter(Run(s, ops[..n]), DriftOf(s, ops[..n]), ops[n])
  }

  /** Row `id` is valid in memory when the drift says so. */
  predicate RowExplained(s: Store, d: Drift, id: nat)
    requires id in s.rows
  {
    && (s.rows[id].hash in s.keys <==> if s.rows[id].active then id !in d.lost else id in d.stale)
    && (id in d.lost ==> s.rows[id].active)
    && (id in d.stale ==> !s.rows[id].active)
  }

  ghost predicate Explained(s: Store, d: Drift) {
    && s.keys <= Hashes(s.rows)
    && d.stale <= s.rows.Keys && d.lost <= s.rows.Keys
    && forall id :: id in s.rows ==> RowExplained(s, d, id)
  }

  /** An explained store agrees with its table exactly when there is no drift. */
  lemma AgreesIffNoDrift(s: Store, d: Drift)
    requires WellFormed(s) && Explained(s, d)
    ensures Agrees(s) <==> d == NO_DRIFT
  {
    forall id | id in s.rows ensures s.rows[id].hash in ActiveHashes(s.rows) <==> s.rows[id].active {
      if s.rows[id].hash in ActiveHashes(s.rows) {
        var j :| j in s.rows && s.rows[j].active && s.rows[j].hash == s.rows[id].hash;
      }
    }
    if d == NO_DRIFT {
      forall h ensures h in s.keys <==> h in ActiveHashes(s.rows) {
        if h in Hashes(s.rows) {
          var id :| id in s.rows && s.rows[id].hash == h;
          assert RowExplained(s, d, id);
        }
      }
    } else if id :| id in d.stale {
      assert RowExplained(s, d, id);
    } else {
      var id :| id in d.lost;
      assert RowExplained(s, d, id);
    }
  }

  /** A new row with a hash of its own, remembered at once. */
  lemma InsertExplained(s: Store, d: Drift, hash: string)
    requires WellFormed(s) && Explained(s, d) && hash !in Hashes(s.rows)
    ensures Explained(Store(s.rows[s.nextId := Row(hash, true)], s.nextId + 1, s.keys + {hash}), d)
  {
    var t := Store(s.rows[s.nextId := Row(hash, true)], s.nextId + 1, s.keys + {hash});
    forall h | h in t.keys ensures h in Hashes(t.rows) {
      if h == hash {
        assert t.rows[s.nextId].hash == h;
      } else {
        var i :| i in s.rows && s.rows[i].hash == h;
        assert t.rows[i].hash == h;
      }
    }
    forall id | id in t.rows ensures RowExplained(t, d, id) {
      if id != s.nextId {
        assert RowExplained(s, d, id);
        assert s.rows[id].hash in Hashes(s.rows);
      } else {
        assert id !in s.rows;
      }
    }
  }

  /** What an operation did to the one row it is about. */
  function Touch(s: Store, id: nat, deactivate: bool, forget: bool): Store
    requires id in s.rows
  {
    s.(rows := if deactivate then Deactivate(s.rows, id) else s.rows,
       keys := if forget then s.keys - {s.rows[id].hash} else s.keys)
  }

  function DriftOfTouch(s: Store, d: Drift, id: nat, deactivate: bool, forget: bool): Drift
    requires id in s.rows
  {
    var active, remembered := s.rows[id].active && !deactivate, s.rows[id].hash in s.keys && !forget;
    Drift(if !active && remembered then d.stale + {id} else d.stale - {id},
          if active && !remembered then d.lost + {id} else d.lost - {id})
  }

  lemma TouchExplained(s: Store, d: Drift, id: nat, deactivate: bool, forget: bool)
    requires WellFormed(s) && Explained(s, d) && id in s.rows
    ensures Explained(Touch(s, id, deactivate, forget), DriftOfTouch(s, d, id, deactivate, forget))
    ensures WellFormed(Touch(s, id, deactivate, forget))
    ensures Hashes(Touch(s, id, deactivate, forget).rows) == Hashes(s.rows)
  {
    var t, e := Touch(s, id, deactivate, forget), DriftOfTouch(s, d, id, deactivate, forget);
    DeactivatedHashes(s.rows, id);
    forall i | i in t.rows ensures RowExplained(t, e, i) {
      assert RowExplained(s, d, i);
    }
  }

  lemma DeleteExplained(s: Store, d: Drift, id: nat, sql: Sql)
    requires WellFormed(s) && Explained(s, d) && id in s.rows && sql.updated
    ensures Explained(Apply(s, Delete(id, sql)), DriftAfter(s, d, Delete(id, sql)))
  {
    assert RowExplained(s, d, id);
    TouchExplained(s, d, id, true, sql.read);
    assert Apply(s, Delete(id, sql)) == Touch(s, id, true, sql.read);
    assert DriftAfter(s, d, Delete(id, sql)) == DriftOfTouch(s, d, id, true, sql.read);
  }

  lemma RotateExplained(s: Store, d: Drift, id: nat, hash: string, sql: Sql)
    requires WellFormed(s) && Explained(s, d) && IsActive(s.rows, id)
    ensures Explained(Apply(s, Rotate(id, hash, sql)), DriftAfter(s, d, Rotate(id, hash, sql)))
  {
    assert RowExplained(s, d, id);
    DeactivatedHashes(s.rows, id);
    var inserts := Inserts(s.rows, hash, sql);
    var t := Touch(s, id, sql.updated, inserts && sql.read);
    TouchExplained(s, d, id, sql.updated, inserts && sql.read);
    assert DriftAfter(s, d, Rotate(id, hash, sql)) == DriftOfTouch(s, d, id, sql.updated, inserts && sql.read);
    if inserts {
      InsertExplained(t, DriftOfTouch(s, d, id, sql.updated, sql.read), hash);
      assert Apply(s, Rotate(id, hash, sql)) == Store(t.rows[t.nextId := Row(hash, true)], t.nextId + 1, t.keys + {hash});
    } else {
      assert Apply(s, Rotate(id, hash, sql)) == t;
    }
  }

  lemma ReloadExplained(s: Store, d: Drift)
    requires WellFormed(s) && Explained(s, d)
    ensures Explained(Apply(s, Reload(ALL_WELL)), d.(lost := {}))
  {
    var t := Apply(s, Reload(ALL_WELL));
    forall id | id in t.rows ensures RowExplained(t, d.(lost := {}), id) {
      assert RowExplained(s, d, id);
      if s.rows[id].hash in ActiveHashes(s.rows) {
        var j :| j in s.rows && s.rows[j].active && s.rows[j].hash == s.rows[id].hash;
        assert j == id;
      }
    }
  }

  lemma StepExplained(s: Store, d: Drift, op: Op)
    requires WellFormed(s) && Explained(s, d)
    ensures Explained(Apply(s, op), DriftAfter(s, d, op))
  {
    match op
    case Generate(hash, sql) => if Inserts(s.rows, hash, sql) { InsertExplained(s, d, hash); }
    case Delete(id, sql) => if sql.updated && id in s.rows { DeleteExplained(s, d, id, sql); }
    case Rotate(id, hash, sql) => if IsActive(s.rows, id) { RotateExplained(s, d, id, hash, sql); }
    case Reload(sql) => if sql.read { ReloadExplained(s, d); }
  }

  lemma AgreeingIsExplained(s: Store)
    requires WellFormed(s) && Agrees(s)
    ensures Explained(s, NO_DRIFT)
  {
    forall h | h in s.keys ensures h in Hashes(s.rows) {
      var i :| i in s.rows && s.rows[i].active && s.rows[i].hash == h;
    }
    forall id | id in s.rows ensures RowExplained(s, NO_DRIFT, id) {
      if s.rows[id].hash in s.keys {
        var j :| j in s.rows && s.rows[j].active && s.rows[j].hash == s.rows[id].hash;
        assert j == id;
      }
    }
  }

  /**
   * Over every run of generate, delete, rotate and reload, whichever statements fail: a row's
   * key is accepted exactly when the row is active and not lost, or inactive and stale, and
   * nothing else is accepted.
   */
  lemma {:induction false} RunIsExplained(rows: Table, nextId: nat, ops: seq<Op>)
    requires WellFormed(Store(rows, nextId, {})) && RealHashes(ops)
    ensures var s := Run(Loaded(rows, nextId), ops);
      WellFormed(s) && Explained(s, DriftOf(Loaded(rows, nextId), ops))
  {
    if ops == [] {
      AgreeingIsExplained(Loaded(rows, nextId));
    } else {
      var n := |ops| - 1;
      RunIsExplained(rows, nextId, ops[..n]);
      var s := Run(Loaded(rows, nextId), ops[..n]);
      StepKeepsWellFormed(s, ops[n]);
      StepExplained(s, DriftOf(Loaded(rows, nextId), ops[..n]), ops[n]);
    }
  }

  // ---------------------------------------------------------------- theorems

  /** The in-memory set equals the hashes of the active rows exactly when no row is stale and none is lost. */
  lemma StoreAgreesIff(rows: Table, nextId: nat, ops: seq<Op>)
    requires WellFormed(Store(rows, nextId, {})) && RealHashes(ops)
    ensures Agrees(Run(Loaded(rows, nextId), ops)) <==> DriftOf(Loaded(rows, nextId), ops) == NO_DRIFT
  {
    RunIsExplained(rows, nextId, ops);
    AgreesIffNoDrift(Run(Loaded(rows, nextId), ops), DriftOf(Loaded(rows, nextId), ops));
  }

  /** An operation on an agreeing store whose statements leave nothing half done. */
  predicate LeavesNoDrift(s: Store, op: Op) {
    match op
    case Delete(id, sql) => IsActive(s.rows, id) && sql.updated ==> sql.read
    case Rotate(id, hash, sql) => IsActive(s.rows, id) ==> (sql.updated <==> sql.read && Inserts(s.rows, hash, sql))
    case _ => true
  }

  /**
   * One operation keeps the agreement exactly when it does not deactivate a row without
   * forgetting its hash, nor the reverse.
   */
  lemma StepAgreesIff(s: Store, op: Op)
    requires WellFormed(s) && Agrees(s) && RealHash(op)
    ensures Agrees(Apply(s, op)) <==> LeavesNoDrift(s, op)
  {
    AgreeingIsExplained(s);
    StepKeepsWellFormed(s, op);
    StepExplained(s, NO_DRIFT, op);
    AgreesIffNoDrift(Apply(s, op), DriftAfter(s, NO_DRIFT, op));
    assert DriftAfter(s, NO_DRIFT, op) == NO_DRIFT <==> LeavesNoDrift(s, op) by {
      if op.Delete? || op.Rotate? {
        var e := DriftAfter(s, NO_DRIFT, op);
        assert e.stale == {} || op.id in e.stale;
        assert e.lost == {} || op.id in e.lost;
      }
    }
  }

  /** Every statement succeeds, and no rotation draws a hash that is already in the table. */
  predicate AllWell(s: Store, ops: seq<Op>) {
    ops == [] ||
    var n := |ops| - 1;
    && AllWell(s, ops[..n])
    && ops[n].sql == ALL_WELL
    && (ops[n].Rotate? ==> ops[n].hash !in Hashes(Run(s, ops[..n]).rows))
  }

  /** Write-through agreement over every run whose SQL succeeds. */
  lemma {:induction false} StoreAgreesInEveryRun(rows: Table, nextId: nat, ops: seq<Op>)
    requires WellFormed(Store(rows, nextId, {})) && RealHashes(ops)
    requires AllWell(Loaded(rows, nextId), ops)
    ensures DriftOf(Loaded(rows, nextId), ops) == NO_DRIFT && Agrees(Run(Loaded(rows, nextId), ops))
  {
    StoreAgreesIff(rows, nextId, ops);
    if ops != [] {
      StoreAgreesInEveryRun(rows, nextId, ops[..|ops| - 1]);
    }
  }

  /** No rotation loses its UPDATE. */
  predicate UpdatesSucceed(ops: seq<Op>) {
    forall k :: 0 <= k < |ops| && ops[k].Rotate? ==> ops[k].sql.updated
  }

  lemma {:induction false} NothingLost(s: Store, ops: seq<Op>)
    requires UpdatesSucceed(ops)
    ensures DriftOf(s, ops).lost == {}
  {
    if ops != [] { NothingLost(s, ops[..|ops| - 1]); }
  }

  /** Failed inserts and reads or not, no active key is refused as long as no rotation's UPDATE fails. */
  lemma ActiveKeysAreNeverRefused(rows: Table, nextId: nat, ops: seq<Op>, id: nat)
    requires WellFormed(Store(rows, nextId, {})) && RealHashes(ops) && UpdatesSucceed(ops)
    requires IsActive(Run(Loaded(rows, nextId), ops).rows, id)
    ensures var s := Run(Loaded(rows, nextId), ops); s.rows[id].hash in s.keys
  {
    RunIsExplained(rows, nextId, ops);
    NothingLost(Loaded(rows, nextId), ops);
    assert RowExplained(Run(Loaded(rows, nextId), ops), DriftOf(Loaded(rows, nextId), ops), id);
  }

  predicate CompleteDelete(op: Op, id: nat) {
    op.Delete? && op.id == id && op.sql.read && op.sql.updated
  }

  /** None of the operations is a complete delete of the row. */
  predicate NeverDeleted(ops: seq<Op>, id: nat) {
    forall k :: 0 <= k < |ops| ==> !CompleteDelete(ops[k], id)
  }

  /** An inactive row stays so; if it is stale, only a complete delete ends that. */
  lemma StaleStep(s: Store, d: Drift, op: Op, id: nat)
    requires WellFormed(s) && id in s.rows && !s.rows[id].active
    ensures var t := Apply(s, op); id in t.rows && !t.rows[id].active
    ensures id in DriftAfter(s, d, op).stale <==> id in d.stale && !CompleteDelete(op, id)
  {
  }

  lemma {:induction false} StaleUntilDeleted(s: Store, ops: seq<Op>, more: seq<Op>, id: nat)
    requires forall k :: 0 <= k <= |more| ==> WellFormed(Run(s, ops + more[..k]))
    requires id in DriftOf(s, ops).stale && id in Run(s, ops).rows && !Run(s, ops).rows[id].active
    ensures var t := Run(s, ops + more); id in t.rows && !t.rows[id].active
    ensures id in DriftOf(s, ops + more).stale <==> NeverDeleted(more, id)
    decreases |more|
  {
    if more == [] {
      assert ops + more == ops;
    } else {
      var n := |more| - 1;
      var front := more[..n];
      assert (ops + more)[..|ops + more| - 1] == ops + front && (ops + more)[|ops + more| - 1] == more[n];
      forall k | 0 <= k <= n ensures WellFormed(Run(s, ops + front[..k])) {
        assert front[..k] == more[..k];
      }
      StaleUntilDeleted(s, ops, front, id);
      assert front[..n] == front;
      StaleStep(Run(s, ops + front), DriftOf(s, ops + front), more[n], id);
      assert more == front + [more[n]];
    }
  }

  /** Whatever follows, a stale key stays valid exactly until a complete delete of its row. */
  lemma OnlyDeleteHeals(rows: Table, nextId: nat, ops: seq<Op>, more: seq<Op>, id: nat)
    requires WellFormed(Store(rows, nextId, {})) && RealHashes(ops + more)
    requires id in DriftOf(Loaded(rows, nextId), ops).stale
    ensures var t := Run(Loaded(rows, nextId), ops + more);
      && id in t.rows && !t.rows[id].active
      && (t.rows[id].hash in t.keys <==> NeverDeleted(more, id))
  {
    var s := Loaded(rows, nextId);
    forall k | 0 <= k <= |more| ensures WellFormed(Run(s, ops + more[..k])) {
      assert ops + more[..k] == (ops + more)[..|ops| + k];
      RunIsExplained(rows, nextId, ops + more[..k]);
    }
    assert forall k :: 0 <= k < |ops| ==> (ops + more)[k] == ops[k];
    RunIsExplained(rows, nextId, ops);
    RunIsExplained(rows, nextId, ops + more);
    assert RowExplained(Run(s, ops), DriftOf(s, ops), id);
    StaleUntilDeleted(s, ops, more, id);
    assert RowExplained(Run(s, ops + more), DriftOf(s, ops + more), id);
  }

  /** The plain case: a rotation whose INSERT fails, for whatever reason, leaves the old key valid. */
  lemma FailedInsertLeavesStaleKey(s: Store, id: nat, hash: string, sql: Sql)
    requires WellFormed(s) && Agrees(s) && IsActive(s.rows, id) && sql.updated && !Inserts(s.rows, hash, sql)
    ensures var t := Apply(s, Rotate(id, hash, sql));
      !IsActive(t.rows, id) && s.rows[id].hash in t.keys && id in DriftAfter(s, NO_DRIFT, Rotate(id, hash, sql)).stale
  {
    DeactivatedHashes(s.rows, id);
    AgreeingIsExplained(s);
    assert RowExplained(s, NO_DRIFT, id);
  }

  /** While all SQL succeeds, a key is accepted exactly as long as its row lives. */
  lemma ValidWhileItLives(rows: Table, nextId: nat, ops: seq<Op>, id: nat)
    requires WellFormed(Store(rows, nextId, {})) && RealHashes(ops)
    requires AllWell(Loaded(rows, nextId), ops)
    ensures var s := Run(Loaded(rows, nextId), ops);
      id in s.rows ==> (s.rows[id].hash in s.keys <==> Lives(Loaded(rows, nextId), ops, id))
  {
    var s0 := Loaded(rows, nextId);
    RunIsExplained(rows, nextId, ops);
    StoreAgreesInEveryRun(rows, nextId, ops);
    TableFollowsOperations(s0, ops, id);
    if id in Run(s0, ops).rows {
      assert RowExplained(Run(s0, ops), DriftOf(s0, ops), id);
    }
  }
}
