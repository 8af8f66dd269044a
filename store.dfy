/** The hosted table service as the page sees it: the `pets` and `vaccines` tables, a
    filtered and ordered select, and insert.  Every call may fail; which one does is
    not determined by anything the page controls, so the model leaves it open. */
module Store {
  import opened Supabase

  datatype Result<+T> = Ok(value: T) | Err

  /** `s` is ordered by `key`, smallest first. */
  predicate SortedBy<T>(s: seq<T>, key: T -> int)
  {
    forall i, j :: 0 <= i < j < |s| ==> key(s[i]) <= key(s[j])
  }

  /** Inserts `x` in front of the first element whose key is larger. */
  function InsertBy<T>(x: T, s: seq<T>, key: T -> int): (r: seq<T>)
    requires SortedBy(s, key)
    ensures SortedBy(r, key)
    ensures multiset(r) == multiset(s) + multiset{x}
  {
    if s == [] then [x]
    else if key(x) <= key(s[0]) then [x] + s
    else
      var tail := InsertBy(x, s[1..], key);
      HeadBelowTail(s[0], x, s[1..], tail, key);
      assert s == [s[0]] + s[1..];
      assert multiset([s[0]] + tail) == multiset{s[0]} + multiset(tail);
      [s[0]] + tail
  }

  /** Putting `h` in front of `tail`, a sorted permutation of `rest` plus `x`, keeps it sorted
      when `h`'s key is at most that of `rest`'s elements and below that of `x`. */
  lemma HeadBelowTail<T>(h: T, x: T, rest: seq<T>, tail: seq<T>, key: T -> int)
    requires key(h) < key(x) && forall k :: 0 <= k < |rest| ==> key(h) <= key(rest[k])
    requires multiset(tail) == multiset(rest) + multiset{x}
    requires SortedBy(tail, key)
    ensures SortedBy([h] + tail, key)
  {
    forall k | 0 <= k < |tail| ensures key(h) <= key(tail[k]) {
      assert tail[k] in multiset(tail);
      if tail[k] != x {
        assert tail[k] in multiset(rest);
        var j :| 0 <= j < |rest| && rest[j] == tail[k];
      }
    }
    forall i, j | 0 <= i < j < |[h] + tail| ensures key(([h] + tail)[i]) <= key(([h] + tail)[j]) {
      if i > 0 { assert ([h] + tail)[i] == tail[i - 1]; }
      assert ([h] + tail)[j] == tail[j - 1];
    }
  }

  /** Orders `s` by `key`, smallest first, keeping every element: the order a select
      with `.order(column)` hands back. */
  function SortBy<T>(s: seq<T>, key: T -> int): (r: seq<T>)
    ensures SortedBy(r, key)
    ensures multiset(r) == multiset(s)
  {
    if s == [] then []
    else
      assert s == [s[0]] + s[1..];
      InsertBy(s[0], SortBy(s[1..], key), key)
  }

  /** Number of rows of `user` in the table. */
  function OwnedCount(rows: seq<PetRow>, user: string): nat
  {
    if rows == [] then 0
    else (if rows[0].userId == user then 1 else 0) + OwnedCount(rows[1..], user)
  }

  /** Number of vaccine rows of pet `pet` in the table. */
  function DoseCount(rows: seq<VaccineRow>, pet: nat): nat
  {
    if rows == [] then 0
    else (if rows[0].petId == pet then 1 else 0) + DoseCount(rows[1..], pet)
  }

  /** The rows of `user`, in table order: `.eq('user_id', user)`. */
  function PetsOf(rows: seq<PetRow>, user: string): (r: seq<PetRow>)
    ensures forall p :: p in r <==> p in rows && p.userId == user
  {
    if rows == [] then []
    else
      var rest := PetsOf(rows[1..], user);
      assert forall p :: p in rows <==> p == rows[0] || p in rows[1..];
      if rows[0].userId == user then [rows[0]] + rest else rest
  }

  /** The filter keeps each row of `user` as often as the table has it, and no other row. */
  lemma {:induction false} PetsOfCount(rows: seq<PetRow>, user: string)
    ensures forall q :: multiset(PetsOf(rows, user))[q] == if q.userId == user then multiset(rows)[q] else 0
    ensures |PetsOf(rows, user)| == OwnedCount(rows, user)
  {
    if rows != [] {
      PetsOfCount(rows[1..], user);
      assert rows == [rows[0]] + rows[1..];
    }
  }

  /** The vaccine rows of pet `pet`, in table order: `.eq('pet_id', pet)`. */
  function VaccinesOf(rows: seq<VaccineRow>, pet: nat): (r: seq<VaccineRow>)
    ensures forall v :: v in r <==> v in rows && v.petId == pet
  {
    if rows == [] then []
    else
      var rest := VaccinesOf(rows[1..], pet);
      assert forall v :: v in rows <==> v == rows[0] || v in rows[1..];
      if rows[0].petId == pet then [rows[0]] + rest else rest
  }

  /** The filter keeps each row of pet `pet` as often as the table has it, and no other row. */
  lemma {:induction false} VaccinesOfCount(rows: seq<VaccineRow>, pet: nat)
    ensures forall w :: multiset(VaccinesOf(rows, pet))[w] == if w.petId == pet then multiset(rows)[w] else 0
    ensures |VaccinesOf(rows, pet)| == DoseCount(rows, pet)
  {
    if rows != [] {
      VaccinesOfCount(rows[1..], pet);
      assert rows == [rows[0]] + rows[1..];
    }
  }

  /** `.order('created_at', { ascending: false })`: newest first. */
  function NewestFirst(p: PetRow): int { -p.createdAt }

  /** `.order('next_date', { ascending: true })`: soonest due first. */
  function SoonestDue(v: VaccineRow): int { v.nextDate }

  /** A user's pets as the roster query returns them. */
  function RosterRows(rows: seq<PetRow>, user: string): seq<PetRow>
  {
    SortBy(PetsOf(rows, user), NewestFirst)
  }

  /** A pet's vaccines as the per-pet query returns them. */
  function VaccineList(rows: seq<VaccineRow>, pet: nat): seq<VaccineRow>
  {
    SortBy(VaccinesOf(rows, pet), SoonestDue)
  }

  /** The roster query returns exactly the user's rows, newest first. */
  lemma RosterRowsExact(rows: seq<PetRow>, user: string)
    ensures forall p :: p in RosterRows(rows, user) <==> p in rows && p.userId == user
    ensures forall i, j :: 0 <= i < j < |RosterRows(rows, user)| ==>
              RosterRows(rows, user)[i].createdAt >= RosterRows(rows, user)[j].createdAt
  {
    var r := RosterRows(rows, user);
    assert forall p :: p in r <==> p in multiset(r);
    assert forall p :: p in PetsOf(rows, user) <==> p in multiset(PetsOf(rows, user));
    forall i, j | 0 <= i < j < |r| ensures r[i].createdAt >= r[j].createdAt {
      assert NewestFirst(r[i]) <= NewestFirst(r[j]);
    }
  }

  /** Each row of the user appears in the roster as often as in the table, and no other
      row does: a user with N rows gets N pets. */
  lemma RosterRowsCount(rows: seq<PetRow>, user: string)
    ensures forall q :: multiset(RosterRows(rows, user))[q] == if q.userId == user then multiset(rows)[q] else 0
    ensures |RosterRows(rows, user)| == OwnedCount(rows, user)
  {
    var r := RosterRows(rows, user);
    PetsOfCount(rows, user);
    assert |r| == |multiset(r)| == |multiset(PetsOf(rows, user))|;
  }

  /** A user with a row in the table has a non-empty roster. */
  lemma RosterNonEmpty(rows: seq<PetRow>, p: PetRow)
    requires p in rows
    ensures RosterRows(rows, p.userId) != []
  {
    RosterRowsExact(rows, p.userId);
    assert p in RosterRows(rows, p.userId);
  }

  /** The per-pet query returns exactly the pet's vaccine rows. */
  lemma VaccineListExact(rows: seq<VaccineRow>, pet: nat)
    ensures forall v :: v in VaccineList(rows, pet) <==> v in rows && v.petId == pet
  {
    var r := VaccineList(rows, pet);
    assert forall v :: v in r <==> v in multiset(r);
    assert forall v :: v in VaccinesOf(rows, pet) <==> v in multiset(VaccinesOf(rows, pet));
  }

  /** Each vaccine row of the pet appears in its list as often as in the table, and no
      other row does. */
  lemma VaccineListCount(rows: seq<VaccineRow>, pet: nat)
    ensures forall w :: multiset(VaccineList(rows, pet))[w] == if w.petId == pet then multiset(rows)[w] else 0
    ensures |VaccineList(rows, pet)| == DoseCount(rows, pet)
  {
    var r := VaccineList(rows, pet);
    VaccinesOfCount(rows, pet);
    assert |r| == |multiset(r)| == |multiset(VaccinesOf(rows, pet))|;
  }

  /** The columns the page sends when it creates a pet. */
  datatype PetInsert = PetInsert(
    userId: string, name: string, breed: string,
    age: Option<string>, weight: Option<string>, photoUrl: Option<string>,
    healthStatus: string)

  /** The columns the page sends for each vaccine. */
  datatype VaccineInsert = VaccineInsert(petId: nat, name: string, date: int, nextDate: int)

  /** The row the store creates from an insert, with id `id` at instant `nowMs`. */
  function PetRowOf(p: PetInsert, id: nat, nowMs: int): (r: PetRow)
    ensures r.userId == p.userId && r.name == p.name && r.breed == p.breed
    ensures r.age == p.age && r.weight == p.weight && r.photoUrl == p.photoUrl
    ensures r.healthStatus == p.healthStatus && r.id == id
  {
    PetRow(id, p.userId, p.name, p.breed, p.age, p.weight, p.photoUrl, p.healthStatus, nowMs, nowMs)
  }

  function VaccineRowOf(v: VaccineInsert, id: nat, nowMs: int): (r: VaccineRow)
    ensures r.petId == v.petId && r.name == v.name && r.date == v.date && r.nextDate == v.nextDate
    ensures r.notes == None && r.id == id
  {
    VaccineRow(id, v.petId, v.name, v.date, v.nextDate, None, nowMs, nowMs)
  }

  /** The rows a multi-row insert creates, with consecutive ids from `firstId`. */
  function VaccineRowsOf(vs: seq<VaccineInsert>, firstId: nat, nowMs: int): (r: seq<VaccineRow>)
    ensures |r| == |vs|
    ensures forall i :: 0 <= i < |vs| ==> r[i] == VaccineRowOf(vs[i], firstId + i, nowMs)
  {
    seq(|vs|, i requires 0 <= i < |vs| => VaccineRowOf(vs[i], firstId + i, nowMs))
  }

  /** The two tables, and the next id the service will issue. */
  class Tables {
    var pets: seq<PetRow>
    var vaccines: seq<VaccineRow>
    var nextId: nat

    /** Every issued id is below `nextId`, so a new row's id is fresh. */
    ghost predicate Valid()
      reads this
    {
      (forall i :: 0 <= i < |pets| ==> pets[i].id < nextId) &&
      (forall i :: 0 <= i < |vaccines| ==> vaccines[i].id < nextId)
    }

    constructor ()
      ensures Valid() && pets == [] && vaccines == []
    {
      pets, vaccines, nextId := [], [], 0;
    }

    /** `.from('pets').select('*').eq('user_id', user).order('created_at', desc)`. */
    method SelectPets(user: string) returns (r: Result<seq<PetRow>>)
      ensures r.Ok? ==> r.value == RosterRows(pets, user)
    {
      var fails: bool := *;
      r := if fails then Err else Ok(RosterRows(pets, user));
    }

    /** `.from('vaccines').select('*').eq('pet_id', pet).order('next_date')`; `None` is
        the `null` data of a failed query. */
    method SelectVaccines(pet: nat) returns (r: Option<seq<VaccineRow>>)
      ensures r.Some? ==> r.value == VaccineList(vaccines, pet)
    {
      var fails: bool := *;
      r := if fails then None else Some(VaccineList(vaccines, pet));
    }

    /** `.from('pets').insert(p).select().single()` at instant `nowMs`. */
    method InsertPet(p: PetInsert, nowMs: int) returns (r: Result<PetRow>)
      requires Valid()
      modifies this
      ensures Valid() && vaccines == old(vaccines)
      ensures r.Err? ==> pets == old(pets) && nextId == old(nextId)
      ensures r.Ok? ==> r.value == PetRowOf(p, old(nextId), nowMs) && pets == old(pets) + [r.value]
      ensures r.Ok? ==> nextId == old(nextId) + 1
      ensures r.Ok? ==> forall q :: q in old(pets) ==> q.id != r.value.id
    {
      var fails: bool := *;
      if fails {
        r := Err;
      } else {
        var row := PetRowOf(p, nextId, nowMs);
        pets := pets + [row];
        nextId := nextId + 1;
        r := Ok(row);
      }
    }

    /** `.from('vaccines').insert(vs)`: one request, so all rows are created or none. */
    method InsertVaccines(vs: seq<VaccineInsert>, nowMs: int) returns (ok: bool)
      requires Valid()
      modifies this
      ensures Valid() && pets == old(pets)
      ensures !ok ==> vaccines == old(vaccines) && nextId == old(nextId)
      ensures ok ==> vaccines == old(vaccines) + VaccineRowsOf(vs, old(nextId), nowMs)
    {
      var fails: bool := *;
      ok := !fails;
      if ok {
        var added := VaccineRowsOf(vs, nextId, nowMs);
        vaccines := vaccines + added;
        nextId := nextId + |vs|;
      }
    }
  }
}
