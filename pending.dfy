/**
 * The pending table: rows keyed by an AUTOINCREMENT id, with insert, select
 * by id and delete by id.
 */
module Pending {
  import opened Wrappers
  import opened Media

  /** The integers the database driver can bind as a parameter: a Python int outside
      the signed 64-bit range makes the query raise OverflowError instead. */
  predicate SqlInteger(id: int) {
    -0x8000_0000_0000_0000 <= id < 0x8000_0000_0000_0000
  }

  class PendingStore {
    var rows: map<int, Submission>
    /** The id the next insert receives: one more than the largest id ever issued. */
    var nextId: int

    ghost predicate Valid()
      reads this
    {
      1 <= nextId && forall id :: id in rows ==> 1 <= id < nextId
    }

    constructor ()
      ensures Valid() && rows == map[] && nextId == 1
    {
      rows := map[];
      nextId := 1;
    }

    /** save_pending: the row gets an id larger than every id issued before. */
    method Save(s: Submission) returns (id: int)
      requires Valid()
      modifies this
      ensures Valid()
      ensures id == old(nextId) && id !in old(rows) && forall k :: k in old(rows) ==> k < id
      ensures rows == old(rows)[id := s] && nextId == id + 1
    {
      id := nextId;
      rows := rows[id := s];
      nextId := nextId + 1;
    }

    /** get_pending: the stored row, or None for an id with no row. */
    method Get(id: int) returns (r: Option<Submission>)
      ensures r.Some? <==> id in rows
      ensures r.Some? ==> r.value == rows[id]
    {
      if id in rows {
        r := Some(rows[id]);
      } else {
        r := None;
      }
    }

    /** delete_pending: that row is gone, every other row is as it was, and the id is
        not issued again. */
    method Delete(id: int)
      requires Valid()
      modifies this
      ensures Valid()
      ensures id !in rows && forall k :: k in old(rows) && k != id ==> k in rows && rows[k] == old(rows)[k]
      ensures rows == old(rows) - {id} && nextId == old(nextId)
    {
      rows := rows - {id};
    }
  }
}
