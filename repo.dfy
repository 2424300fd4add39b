/** The SQL-backed pet repository (`petRepo` in internal/repo/pet.go), with
    the `pets` table abstracted to a map from primary key to row and the
    store's key assignment to a counter of ids never handed out.
    Each operation is one auto-committed statement; `storeFails` says whether
    that statement fails inside the store (the model does not see the store). */
module PetRepository {
  import opened PetModel

  /** Whether a row passes the optional `status = ?` filter of `List`. */
  predicate Selected(p: Pet, status: Option<string>) {
    status.None? || p.status == status.value
  }

  /** The keys of the rows a `List(status)` must return. */
  ghost function Selection(t: Table, status: Option<string>): set<int> {
    set id | id in t && Selected(t[id], status)
  }

  /** The ids carried by a sequence of rows. */
  ghost function IdsOf(rows: seq<Pet>): set<int> {
    set i | 0 <= i < |rows| :: rows[i].id
  }

  /** No two rows of `rows` carry the same id. */
  ghost predicate DistinctIds(rows: seq<Pet>) {
    forall i, j :: 0 <= i < j < |rows| ==> rows[i].id != rows[j].id
  }

  /** `rows` is a result of `SELECT * FROM pets [WHERE status = ?]` over `t`:
      every selected row exactly once, as stored, in some order. */
  ghost predicate IsListing(rows: seq<Pet>, t: Table, status: Option<string>) {
    && (forall i :: 0 <= i < |rows| ==> rows[i].id in t && t[rows[i].id] == rows[i])
    && DistinctIds(rows)
    && IdsOf(rows) == Selection(t, status)
  }

  class PetRepo {
    /** The `pets` table. */
    var table: Table
    /** The next key the store hands out; every key in use is below it. */
    var nextId: int

    ghost predicate Valid()
      reads this
    {
      && 1 <= nextId
      && forall id :: id in table ==> 1 <= id < nextId && table[id].id == id
    }

    /** `NewPetRepo(db)`: the repository over a database whose `pets` table
        holds `rows`, each under its own key, with every key in use below
        `next`, the key the store hands out next. */
    constructor (rows: Table, next: int)
      requires 1 <= next
      requires forall id :: id in rows ==> 1 <= id < next && rows[id].id == id
      ensures Valid() && table == rows && nextId == next
    {
      table := rows;
      nextId := next;
    }

    /** INSERT a row with the given name and status "available", RETURNING it
        with the key the store assigned. */
    method Add(name: string, storeFails: bool) returns (r: Result<Pet>)
      requires Valid()
      modifies this
      ensures Valid()
      ensures storeFails ==> r == Err(StorageError) && table == old(table)
      ensures !storeFails ==>
                && r.Ok?
                && r.value.id !in old(table)
                && r.value == Pet(r.value.id, name, DefaultStatus)
                && table == old(table)[r.value.id := r.value]
    {
      if storeFails {
        return Err(StorageError);
      }
      var row := Pet(nextId, name, DefaultStatus);
      table := table[nextId := row];
      nextId := nextId + 1;
      r := Ok(row);
    }

    /** DELETE the row with key `id`; zero affected rows is `ErrPetNotFound`. */
    method Delete(id: int, storeFails: bool) returns (err: Option<RepoError>)
      requires Valid()
      modifies this
      ensures Valid()
      ensures storeFails ==> err == Some(StorageError) && table == old(table)
      ensures !storeFails && id !in old(table) ==> err == Some(ErrPetNotFound) && table == old(table)
      ensures !storeFails && id in old(table) ==> err == None && table == old(table) - {id}
    {
      if storeFails {
        return Some(StorageError);
      }
      if id !in table {
        return Some(ErrPetNotFound);
      }
      table := table - {id};
      err := None;
    }

    /** SELECT the row with key `id`; "no rows" becomes `ErrPetNotFound`,
        kept apart from every other storage error. Reads only. */
    method GetByID(id: int, storeFails: bool) returns (r: Result<Pet>)
      requires Valid()
      ensures r.Ok? <==> !storeFails && id in table
      ensures r.Ok? ==> r.value == table[id] && r.value.id == id
      ensures r.Err? ==> (r.error == ErrPetNotFound <==> !storeFails)
    {
      if storeFails {
        return Err(StorageError);
      }
      if id !in table {
        return Err(ErrPetNotFound);
      }
      r := Ok(table[id]);
    }

    /** UPDATE name and status of the row whose key is `pet.id`; zero affected
        rows is `ErrPetNotFound`. The key itself and every other row stay. */
    method Update(pet: Pet, storeFails: bool) returns (err: Option<RepoError>)
      requires Valid()
      modifies this
      ensures Valid()
      ensures storeFails ==> err == Some(StorageError) && table == old(table)
      ensures !storeFails && pet.id !in old(table) ==> err == Some(ErrPetNotFound) && table == old(table)
      ensures !storeFails && pet.id in old(table) ==>
                && err == None
                && table == old(table)[pet.id := Pet(pet.id, pet.name, pet.status)]
    {
      if storeFails {
        return Some(StorageError);
      }
      if pet.id !in table {
        return Some(ErrPetNotFound);
      }
      table := table[pet.id := Pet(pet.id, pet.name, pet.status)];
      err := None;
    }

    /** SELECT every row, or with `status` given only the rows whose status
        equals it. The order is the store's (the contract leaves it open);
        the model scans the keys upwards, as a rowid table scan does. Reads only. */
    method List(status: Option<string>, storeFails: bool) returns (r: Result<seq<Pet>>)
      requires Valid()
      ensures r.Err? <==> storeFails
      ensures r.Err? ==> r.error == StorageError
      ensures r.Ok? ==> IsListing(r.value, table, status)
    {
      if storeFails {
        return Err(StorageError);
      }
      var rows: seq<Pet> := [];
      for id := 1 to nextId
        invariant forall i :: 0 <= i < |rows| ==> rows[i].id in table && table[rows[i].id] == rows[i]
        invariant forall i :: 0 <= i < |rows| ==> rows[i].id < id
        invariant DistinctIds(rows)
        invariant IdsOf(rows) == set k | k in Selection(table, status) && k < id
      {
        if id in table && Selected(table[id], status) {
          IdsOfSnoc(rows, table[id]);
          rows := rows + [table[id]];
        }
      }
      r := Ok(rows);
    }
  }

  /** A listing has exactly as many rows as the filter selects. */
  lemma {:induction false} ListingCount(rows: seq<Pet>, t: Table, status: Option<string>)
    requires IsListing(rows, t, status)
    ensures |rows| == |Selection(t, status)|
  {
    DistinctIdsCount(rows);
  }

  lemma {:induction false} DistinctIdsCount(rows: seq<Pet>)
    requires DistinctIds(rows)
    ensures |IdsOf(rows)| == |rows|
  {
    if rows != [] {
      var init := rows[..|rows| - 1];
      var last := rows[|rows| - 1];
      assert DistinctIds(init);
      DistinctIdsCount(init);
      assert IdsOf(rows) == IdsOf(init) + {last.id};
      assert last.id !in IdsOf(init);
    }
  }

  /** Without a filter every row is selected, so `List(nil)` over a table of N
      pets returns N rows. */
  lemma UnfilteredSelectsAll(t: Table)
    ensures Selection(t, None) == t.Keys
  {
    forall id | id in t ensures id in Selection(t, None) {
      assert Selected(t[id], None);
    }
  }

  lemma IdsOfSnoc(rows: seq<Pet>, p: Pet)
    ensures IdsOf(rows + [p]) == IdsOf(rows) + {p.id}
  {
    var rows' := rows + [p];
    forall x | x in IdsOf(rows') ensures x in IdsOf(rows) + {p.id} {
      var i :| 0 <= i < |rows'| && rows'[i].id == x;
      if i < |rows| { assert rows[i].id == x; }
    }
    forall x | x in IdsOf(rows) + {p.id} ensures x in IdsOf(rows') {
      if x == p.id {
        assert rows'[|rows|].id == x;
      } else {
        var i :| 0 <= i < |rows| && rows[i].id == x;
        assert rows'[i].id == x;
      }
    }
  }

  /** A listing with status `s` is the unfiltered listing's rows with status `s`. */
  lemma {:induction false} FilteredIsSubset(all: seq<Pet>, some: seq<Pet>, t: Table, s: string)
    requires IsListing(all, t, None) && IsListing(some, t, Some(s))
    ensures forall i :: 0 <= i < |some| ==> some[i].status == s && some[i].id in IdsOf(all)
    ensures |some| <= |all|
  {
    forall i | 0 <= i < |some|
      ensures some[i].status == s && some[i].id in IdsOf(all)
    {
      assert some[i].id in IdsOf(some);
    }
    ListingCount(all, t, None);
    ListingCount(some, t, Some(s));
    assert Selection(t, Some(s)) <= Selection(t, None);
    SubsetCardinality(Selection(t, Some(s)), Selection(t, None));
  }

  lemma SubsetCardinality(a: set<int>, b: set<int>)
    requires a <= b
    ensures |a| <= |b|
  {
    assert b == a + (b - a);
  }
}
