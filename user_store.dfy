/** The persisted user table and the create-or-update the server action performs on it
    (`db.user.upsert` keyed by `id`). */
module UserStore {
  import opened JsValues
  import opened ProfileSchema

  datatype UserRecord = UserRecord(
    id: string, email: string, username: string, bio: Option<string>,
    name: Option<string>, phoneNumber: Option<string>, imageUrl: Option<string>)

  /** A nullable column written from a parsed value: `undefined` and `null` both leave it null. */
  function Column(v: Nullish): Option<string> {
    if v.Present? then Some(v.s) else None
  }

  /** The `create` branch: a new row with every field taken from the data,
      and `name` set to `fullName || ""`. */
  function CreateRecord(d: ProfileData): (r: UserRecord)
    ensures r.id == d.id && r.email == d.email && r.username == d.username
    ensures r.name.Some? && (d.fullName.Some? ==> r.name.value == d.fullName.value)
    ensures d.fullName.None? ==> r.name == Some("")
    ensures r.bio == Column(d.bio) && r.phoneNumber == Column(d.phoneNumber)
    ensures r.imageUrl == d.imageUrl
  {
    UserRecord(d.id, d.email, d.username, Column(d.bio), Some(d.fullName.GetOr("")),
               Column(d.phoneNumber), d.imageUrl)
  }

  /** An `update` column: an `undefined` value leaves the old value, anything else replaces it. */
  function Overwrite(prev: Option<string>, v: Nullish): (r: Option<string>)
    ensures v.Absent? ==> r == prev
    ensures !v.Absent? ==> r == Column(v)
  {
    if v.Absent? then prev else Column(v)
  }

  /** The `update` branch on an existing row; the key is not rewritten. */
  function UpdateRecord(row: UserRecord, d: ProfileData): (r: UserRecord)
    ensures r.id == row.id && r.email == d.email && r.username == d.username
    ensures d.fullName.Some? ==> r.name == d.fullName
    ensures d.fullName.None? ==> r.name == row.name
    ensures r.bio == Overwrite(row.bio, d.bio) && r.phoneNumber == Overwrite(row.phoneNumber, d.phoneNumber)
    ensures d.imageUrl.Some? ==> r.imageUrl == d.imageUrl
    ensures d.imageUrl.None? ==> r.imageUrl == row.imageUrl
  {
    UserRecord(row.id, d.email, d.username, Overwrite(row.bio, d.bio),
               if d.fullName.Some? then d.fullName else row.name,
               Overwrite(row.phoneNumber, d.phoneNumber),
               if d.imageUrl.Some? then d.imageUrl else row.imageUrl)
  }

  /** The table after `upsert({ where: { id }, update, create })`. */
  function Upserted(table: map<string, UserRecord>, d: ProfileData): (t: map<string, UserRecord>)
    ensures t.Keys == table.Keys + {d.id}
    ensures t[d.id] == if d.id in table then UpdateRecord(table[d.id], d) else CreateRecord(d)
    ensures forall k :: k in table && k != d.id ==> t[k] == table[k]
    ensures |t| <= |table| + 1
    ensures d.id in table ==> |t| == |table|
  {
    var r := if d.id in table then UpdateRecord(table[d.id], d) else CreateRecord(d);
    assert table.Keys + {d.id} == if d.id in table then table.Keys else table.Keys + {d.id};
    table[d.id := r]
  }

  /** The data leaves no optional field `undefined`: then create and update write the same row. */
  predicate Complete(d: ProfileData) {
    !d.bio.Absent? && d.fullName.Some? && !d.phoneNumber.Absent? && d.imageUrl.Some?
  }

  /** The row a complete write leaves, whatever was there before. */
  function StoredRecord(d: ProfileData): UserRecord {
    UserRecord(d.id, d.email, d.username, Column(d.bio), Some(d.fullName.GetOr("")),
               Column(d.phoneNumber), d.imageUrl)
  }

  /** A complete write overwrites every column: the row no longer depends on what was stored. */
  lemma CompleteUpsertOverwrites(table: map<string, UserRecord>, d: ProfileData)
    requires KeysMatchIds(table) && Complete(d)
    ensures Upserted(table, d)[d.id] == StoredRecord(d)
  {
  }

  /** Each row is stored under its own id. */
  predicate KeysMatchIds(table: map<string, UserRecord>) {
    forall k :: k in table ==> table[k].id == k
  }

  /** Rows always carry a name (possibly empty). */
  predicate NamesSet(table: map<string, UserRecord>) {
    forall k :: k in table ==> table[k].name.Some?
  }

  /** The upsert keeps both table invariants. */
  lemma UpsertKeepsInvariants(table: map<string, UserRecord>, d: ProfileData)
    requires KeysMatchIds(table) && NamesSet(table)
    ensures KeysMatchIds(Upserted(table, d)) && NamesSet(Upserted(table, d))
  {
  }

  /** Repeating the same upsert changes nothing further. */
  lemma UpsertIdempotent(table: map<string, UserRecord>, d: ProfileData)
    ensures Upserted(Upserted(table, d), d) == Upserted(table, d)
  {
  }

  /** The persisted user table. A write either fails as a whole (the fault is an input:
      the backend is not modelled) or performs the upsert. */
  class UserTable {
    var users: map<string, UserRecord>

    ghost predicate Valid()
      reads this
    {
      KeysMatchIds(users) && NamesSet(users)
    }

    constructor ()
      ensures Valid() && users == map[]
    {
      users := map[];
    }

    /** Looks a row up by id (`findFirst({ where: { id } })`). */
    function Find(id: string): (r: Option<UserRecord>)
      reads this
      requires Valid()
      ensures r.Some? <==> id in users
      ensures r.Some? ==> r.value == users[id] && r.value.id == id
    {
      if id in users then Some(users[id]) else None
    }

    method Upsert(d: ProfileData, fault: bool) returns (failed: bool)
      requires Valid()
      modifies this
      ensures Valid()
      ensures failed == fault
      ensures users == if fault then old(users) else Upserted(old(users), d)
    {
      failed := fault;
      if !fault {
        UpsertKeepsInvariants(users, d);
        users := Upserted(users, d);
      }
    }
  }
}
