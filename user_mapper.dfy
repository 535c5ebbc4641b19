/** Conversions between the user entity and its transfer object. */
module UserMapper {

  import opened Wrappers
  import opened Users

  /** The transfer object carrying the entity's id and four data fields. */
  function ToDto(u: User): (d: UserDto)
    reads u
  {
    UserDto(u.id, u.firstName, u.lastName, u.birthdate, u.email)
  }

  /** The transfer object of each entity, in the same order (`map(toDto).toList()`). */
  function ToDtos(us: seq<User>): (ds: seq<UserDto>)
    reads us
    ensures |ds| == |us|
    ensures forall i :: 0 <= i < |us| ==> ds[i] == ToDto(us[i])
  {
    if us == [] then [] else [ToDto(us[0])] + ToDtos(us[1..])
  }

  /**
   * A new, unsaved entity with the transfer object's four data fields. The
   * transfer object's id is ignored, so mapping back yields the same object
   * with the id cleared.
   */
  method ToEntity(d: UserDto) returns (u: User)
    ensures fresh(u)
    ensures ToDto(u) == d.(id := None)
  {
    u := new User(d.firstName, d.lastName, d.birthdate, d.email);
  }

  /**
   * The transfer object loses nothing: two entities have the same transfer
   * object exactly when they agree on every field.
   */
  lemma ToDtoFaithful(u: User, v: User)
    ensures ToDto(u) == ToDto(v) <==>
      u.id == v.id && u.firstName == v.firstName && u.lastName == v.lastName
      && u.birthdate == v.birthdate && u.email == v.email
  {
  }
}
