/**
 * The customer table: a map from uuid to record, the four exact-match finders
 * as filters over it, and the JPA writes (`save`, `saveAll`, `deleteById`) as
 * methods of a class that owns the map.
 */
module CustomerRepositories {
  import opened Wrappers
  import opened Exceptions
  import opened CustomerModel

  type Rows = map<string, Customer>

  /** The entity invariant of the table: every record is stored under its own uuid. */
  ghost predicate KeyedByUuid(rows: Rows) {
    forall k :: k in rows ==> rows[k].uuid == Some(k)
  }

  /** `r` holds only records of `rows`, each under the key it has there. */
  ghost predicate IsSubStore(r: Rows, rows: Rows) {
    forall k :: k in r ==> k in rows && r[k] == rows[k]
  }

  /**
   * `SELECT c FROM Customer c WHERE c.<field> = :value`: exact, case-sensitive
   * equality; a null field equals nothing.
   */
  function FindBy(rows: Rows, f: Field, v: string): (r: Rows)
    ensures forall k :: k in r <==> k in rows && FieldOf(rows[k], f) == Some(v)
    ensures IsSubStore(r, rows)
  {
    map k | k in rows && FieldOf(rows[k], f) == Some(v) :: rows[k]
  }

  function FindByFirstName(rows: Rows, v: string): (r: Rows)
    ensures forall k :: k in r <==> k in rows && rows[k].firstName == Some(v)
    ensures IsSubStore(r, rows)
  {
    FindBy(rows, FirstName, v)
  }

  function FindByCity(rows: Rows, v: string): (r: Rows)
    ensures forall k :: k in r <==> k in rows && rows[k].city == Some(v)
    ensures IsSubStore(r, rows)
  {
    FindBy(rows, City, v)
  }

  function FindByEmail(rows: Rows, v: string): (r: Rows)
    ensures forall k :: k in r <==> k in rows && rows[k].email == Some(v)
    ensures IsSubStore(r, rows)
  {
    FindBy(rows, Email, v)
  }

  function FindByPhone(rows: Rows, v: string): (r: Rows)
    ensures forall k :: k in r <==> k in rows && rows[k].phone == Some(v)
    ensures IsSubStore(r, rows)
  {
    FindBy(rows, Phone, v)
  }

  /** Different search values select disjoint sets of records. */
  lemma FindByDisjoint(rows: Rows, f: Field, v1: string, v2: string)
    requires v1 != v2
    ensures FindBy(rows, f, v1).Keys !! FindBy(rows, f, v2).Keys
  {
  }

  /** Every record whose field is set is found by searching for that field's value. */
  lemma FindByFindsOwnValue(rows: Rows, f: Field, k: string)
    requires k in rows && FieldOf(rows[k], f).Some?
    ensures k in FindBy(rows, f, FieldOf(rows[k], f).value)
  {
  }

  /** The match is not a pattern and ignores no case: "alice" does not find "Alice". */
  lemma FindByIsCaseSensitive()
    ensures
      var c := Customer(Some("k1"), Some("Alice"), None, None, None, None, None, None, None);
      FindByFirstName(map["k1" := c], "alice") == map[] &&
      FindByFirstName(map["k1" := c], "Alice") == map["k1" := c]
  {
    var c := Customer(Some("k1"), Some("Alice"), None, None, None, None, None, None, None);
    assert "alice" != "Alice" by { assert "alice"[0] != "Alice"[0]; }
    assert FindByFirstName(map["k1" := c], "Alice").Keys == {"k1"};
  }

  /** `save`: an entity with its id stored under it (insert or overwrite); a null id is refused. */
  function SaveOp(rows: Rows, c: Customer): (res: (Result<Customer, Exception>, Rows))
    ensures c.uuid.None? ==> res == (Err(IdentifierNotAssignedException), rows)
    ensures c.uuid.Some? ==> res.0 == Ok(c) && res.1.Keys == rows.Keys + {c.uuid.value}
    ensures c.uuid.Some? ==> res.1[c.uuid.value] == c
    ensures forall k :: k in rows && Some(k) != c.uuid ==> k in res.1 && res.1[k] == rows[k]
  {
    match c.uuid
    case None => (Err(IdentifierNotAssignedException), rows)
    case Some(k) => (Ok(c), rows[k := c])
  }

  predicate AllIdentified(cs: seq<Customer>) {
    forall i :: 0 <= i < |cs| ==> cs[i].uuid.Some?
  }

  /** The keys a batch of identified entities is saved under. */
  function BatchKeys(cs: seq<Customer>): set<string>
    requires AllIdentified(cs)
  {
    set i | 0 <= i < |cs| :: cs[i].uuid.value
  }

  /** The table after saving every entity of `cs` in order; a later entity with the same id overwrites. */
  function StoreAll(rows: Rows, cs: seq<Customer>): Rows
    requires AllIdentified(cs)
  {
    if cs == [] then rows
    else StoreAll(rows, cs[..|cs| - 1])[cs[|cs| - 1].uuid.value := cs[|cs| - 1]]
  }

  lemma BatchKeysSnoc(cs: seq<Customer>)
    requires AllIdentified(cs) && cs != []
    ensures AllIdentified(cs[..|cs| - 1])
    ensures BatchKeys(cs) == BatchKeys(cs[..|cs| - 1]) + {cs[|cs| - 1].uuid.value}
  {
    var init := cs[..|cs| - 1];
    forall k | k in BatchKeys(cs) ensures k in BatchKeys(init) + {cs[|cs| - 1].uuid.value} {
      var i :| 0 <= i < |cs| && cs[i].uuid.value == k;
      if i < |cs| - 1 { assert init[i] == cs[i]; }
    }
    forall k | k in BatchKeys(init) ensures k in BatchKeys(cs) {
      var i :| 0 <= i < |init| && init[i].uuid.value == k;
      assert cs[i] == init[i];
    }
  }

  lemma {:induction false} StoreAllKeys(rows: Rows, cs: seq<Customer>)
    requires AllIdentified(cs)
    ensures StoreAll(rows, cs).Keys == rows.Keys + BatchKeys(cs)
    ensures forall k :: k in rows && k !in BatchKeys(cs) ==> StoreAll(rows, cs)[k] == rows[k]
    ensures KeyedByUuid(rows) ==> KeyedByUuid(StoreAll(rows, cs))
  {
    if cs != [] {
      StoreAllKeys(rows, cs[..|cs| - 1]);
      BatchKeysSnoc(cs);
    }
  }

  lemma {:induction false} StoreAllSources(rows: Rows, cs: seq<Customer>)
    requires AllIdentified(cs)
    ensures forall k :: k in BatchKeys(cs) ==>
      k in StoreAll(rows, cs) && exists i :: 0 <= i < |cs| && cs[i].uuid == Some(k) && StoreAll(rows, cs)[k] == cs[i]
  {
    StoreAllKeys(rows, cs);
    if cs != [] {
      var init := cs[..|cs| - 1];
      var last := cs[|cs| - 1];
      StoreAllSources(rows, init);
      StoreAllKeys(rows, init);
      BatchKeysSnoc(cs);
      forall k | k in BatchKeys(cs)
        ensures exists i :: 0 <= i < |cs| && cs[i].uuid == Some(k) && StoreAll(rows, cs)[k] == cs[i]
      {
        if k == last.uuid.value {
          assert cs[|cs| - 1].uuid == Some(k);
        } else {
          var i :| 0 <= i < |init| && init[i].uuid == Some(k) && StoreAll(rows, init)[k] == init[i];
          assert cs[i] == init[i];
        }
      }
    }
  }

  /** Storing a batch adds exactly its keys, leaves every other record alone and keeps the table keyed by uuid. */
  lemma StoreAllFrame(rows: Rows, cs: seq<Customer>)
    requires AllIdentified(cs)
    ensures StoreAll(rows, cs).Keys == rows.Keys + BatchKeys(cs)
    ensures forall k :: k in rows && k !in BatchKeys(cs) ==> StoreAll(rows, cs)[k] == rows[k]
    ensures KeyedByUuid(rows) ==> KeyedByUuid(StoreAll(rows, cs))
    ensures forall k :: k in BatchKeys(cs) ==>
      exists i :: 0 <= i < |cs| && cs[i].uuid == Some(k) && StoreAll(rows, cs)[k] == cs[i]
  {
    StoreAllKeys(rows, cs);
    StoreAllSources(rows, cs);
  }

  /** `saveAll`, one transaction: an entity without id rolls the whole batch back. */
  function SaveAllOp(rows: Rows, cs: seq<Customer>): (res: (Result<seq<Customer>, Exception>, Rows))
    ensures !AllIdentified(cs) ==> res == (Err(IdentifierNotAssignedException), rows)
    ensures AllIdentified(cs) ==> res == (Ok(cs), StoreAll(rows, cs))
  {
    if AllIdentified(cs) then (Ok(cs), StoreAll(rows, cs)) else (Err(IdentifierNotAssignedException), rows)
  }

  /** The table object: the repository the services are given. */
  class CustomerRepository {
    var rows: Rows

    ghost predicate Valid()
      reads this
    {
      KeyedByUuid(rows)
    }

    constructor (initial: Rows)
      requires KeyedByUuid(initial)
      ensures Valid() && rows == initial
    {
      rows := initial;
    }

    /** `existsById`. */
    function ExistsById(id: string): (r: bool)
      reads this
      ensures r <==> id in rows
    {
      id in rows
    }

    /** `findById`: the record stored under `id`, or nothing. */
    function FindById(id: string): (r: Option<Customer>)
      reads this
      ensures r.Some? <==> id in rows
      ensures r.Some? ==> r.value == rows[id]
    {
      if id in rows then Some(rows[id]) else None
    }

    method Save(c: Customer) returns (r: Result<Customer, Exception>)
      requires Valid()
      modifies this
      ensures Valid()
      ensures (r, rows) == SaveOp(old(rows), c)
    {
      if c.uuid.None? {
        return Err(IdentifierNotAssignedException);
      }
      rows := rows[c.uuid.value := c];
      r := Ok(c);
    }

    method SaveAll(cs: seq<Customer>) returns (r: Result<seq<Customer>, Exception>)
      requires Valid()
      modifies this
      ensures Valid()
      ensures (r, rows) == SaveAllOp(old(rows), cs)
    {
      var snapshot := rows;
      for i := 0 to |cs|
        invariant AllIdentified(cs[..i])
        invariant rows == StoreAll(snapshot, cs[..i])
        invariant KeyedByUuid(rows)
      {
        if cs[i].uuid.None? {
          rows := snapshot;
          return Err(IdentifierNotAssignedException);
        }
        assert cs[..i + 1][..i] == cs[..i];
        rows := rows[cs[i].uuid.value := cs[i]];
      }
      assert cs[..|cs|] == cs;
      r := Ok(cs);
    }

    /** `deleteById`: the key is gone, nothing else changes. */
    method DeleteById(id: string)
      requires Valid()
      modifies this
      ensures Valid()
      ensures rows == old(rows) - {id}
    {
      rows := rows - {id};
    }
  }
}
