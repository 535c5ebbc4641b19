/**
 * An in-memory stand-in for the user table: records keyed by id, the order in
 * which they were inserted, and an identity counter that hands out ids.
 */
module UserStore {

  import opened Wrappers
  import opened Streams
  import opened Users

  class UserRepository {
    var rows: map<int, User>
    var order: seq<int>
    var nextId: int

    /** Every stored record knows its own key, keys are listed once each, and the counter is past them all. */
    ghost predicate Valid()
      reads this, rows.Values
    {
      && (forall k :: k in rows <==> k in order)
      && (forall i :: 0 <= i < |order| ==> order[i] in rows)
      && Distinct(order)
      && (forall k :: k in rows ==> rows[k].id == Some(k) && k < nextId)
    }

    constructor ()
      ensures Valid() && rows == map[] && order == []
    {
      rows, order, nextId := map[], [], 1;
    }

    function FindById(id: int): (r: Option<User>)
      reads this
    {
      if id in rows then Some(rows[id]) else None
    }

    function ExistsById(id: int): bool
      reads this
    {
      id in rows
    }

    /** The stored entities in insertion order. */
    function FindAll(): (r: seq<User>)
      requires Valid()
      reads this, rows.Values
      ensures |r| == |order|
      ensures forall i :: 0 <= i < |order| ==> r[i] == rows[order[i]]
    {
      var rs, os := rows, order;
      seq(|os|, i requires 0 <= i < |os| && os[i] in rs => rs[os[i]])
    }

    /** The first stored entity, in insertion order, with this email. */
    function FindByEmail(email: string): (r: Option<User>)
      requires Valid()
      reads this, rows.Values
      ensures r.Some? ==> r.value.email == email
      ensures r.Some? ==> r.value.id.Some? && r.value.id.value in rows && rows[r.value.id.value] == r.value
      ensures r.None? ==> forall k :: k in rows ==> rows[k].email != email
    {
      var emails := map k | k in rows :: rows[k].email;
      var matches := Filter(order, k => k in emails && emails[k] == email);
      FilterMembership(order, k => k in emails && emails[k] == email);
      if matches == [] then None
      else
        var k := matches[0];
        assert k in matches && k in order && k in rows;
        Some(rows[k])
    }

    /**
     * Persists `u`. A new entity (no id) gets the next identity value, in place,
     * and is appended; an entity already stored under its id is left as it is.
     */
    method Save(u: User) returns (saved: User)
      requires Valid()
      requires u.id.None? || (u.id.value in rows && rows[u.id.value] == u)
      modifies this, u
      ensures Valid()
      ensures saved == u
      ensures u.firstName == old(u.firstName) && u.lastName == old(u.lastName)
      ensures u.birthdate == old(u.birthdate) && u.email == old(u.email)
      ensures old(u.id).None? ==>
        && u.id == Some(old(nextId))
        && old(nextId) !in old(rows)
        && rows == old(rows)[old(nextId) := u]
        && order == old(order) + [old(nextId)]
      ensures old(u.id).Some? ==> u.id == old(u.id) && rows == old(rows) && order == old(order)
    {
      if u.id.None? {
        var k := nextId;
        u.id := Some(k);
        rows := rows[k := u];
        order := order + [k];
        nextId := nextId + 1;
        assert Distinct(order) by {
          assert k !in old(order);
        }
      }
      saved := u;
    }

    /** Removes the record stored under `id`, if any. */
    method DeleteById(id: int)
      requires Valid()
      modifies this
      ensures Valid()
      ensures rows == old(rows) - {id}
      ensures order == Without(old(order), id)
    {
      WithoutDistinct(order, id);
      rows := rows - {id};
      order := Without(order, id);
    }
  }
}
