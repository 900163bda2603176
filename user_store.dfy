/**
 * The `user` table behind `db.user`: one record per exact email string,
 * with a unique id. Only `findUnique` by email and `create` are used.
 */
module UserStore {
  import opened Wrappers
  import Bcrypt

  /** A stored user; `password` holds a bcrypt digest, never the plaintext. */
  datatype UserRecord = UserRecord(id: nat, name: string, email: string, password: Bcrypt.Digest)

  /** Every record sits under its own email: the unique email column. */
  predicate KeyedByEmail(users: map<string, UserRecord>)
  {
    forall e :: e in users ==> users[e].email == e
  }

  /** No two records share an id. */
  predicate DistinctIds(users: map<string, UserRecord>)
  {
    forall e1, e2 :: e1 in users && e2 in users && e1 != e2 ==> users[e1].id != users[e2].id
  }

  /** A query the action sends to the table. */
  datatype Query = FindByEmail(email: string) | Insert(email: string)

  class UserTable {
    var rows: map<string, UserRecord>
    var nextId: nat
    /** Every query sent to the table, in order. */
    ghost var log: seq<Query>

    ghost predicate Valid()
      reads this
    {
      KeyedByEmail(rows) && DistinctIds(rows) &&
      forall e :: e in rows ==> rows[e].id < nextId
    }

    constructor ()
      ensures Valid() && rows == map[] && nextId == 0 && log == []
    {
      rows := map[];
      nextId := 0;
      log := [];
    }

    /** `db.user.findUnique({ where: { email } })`: exact match on the email string. */
    method FindUnique(email: string) returns (found: Option<UserRecord>)
      requires Valid()
      modifies this`log
      ensures Valid() && log == old(log) + [FindByEmail(email)]
      ensures found.Some? <==> email in rows
      ensures found.Some? ==> found.value == rows[email] && found.value.email == email
    {
      log := log + [FindByEmail(email)];
      if email in rows {
        found := Some(rows[email]);
      } else {
        found := None;
      }
    }

    /**
     * `db.user.create({ data: { name, email, password } })`. It fails when the
     * database reports an error (`fault`, which the caller cannot predict) or
     * when the email is already taken (the unique constraint); otherwise it
     * adds exactly one record with a fresh id and leaves the others as they were.
     */
    method Create(name: string, email: string, password: Bcrypt.Digest, fault: bool)
      returns (created: Option<UserRecord>)
      requires Valid()
      modifies this
      ensures Valid() && log == old(log) + [Insert(email)]
      ensures created.None? <==> fault || email in old(rows)
      ensures created.None? ==> rows == old(rows) && nextId == old(nextId)
      ensures created.Some? ==>
        created.value == UserRecord(old(nextId), name, email, password) &&
        rows == old(rows)[email := created.value] && nextId == old(nextId) + 1
    {
      log := log + [Insert(email)];
      if fault || email in rows {
        created := None;
        return;
      }
      var record := UserRecord(nextId, name, email, password);
      rows := rows[email := record];
      nextId := nextId + 1;
      created := Some(record);
    }
  }
}
