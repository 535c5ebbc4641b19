/** The user service: lifecycle and queries of users over the user store. */
module UserServices {

  import opened Wrappers
  import opened Streams
  import opened Users
  import opened UserMapper
  import opened UserStore

  class UserServiceImpl {
    const userRepository: UserRepository

    constructor (userRepository: UserRepository)
      ensures this.userRepository == userRepository
    {
      this.userRepository := userRepository;
    }

    ghost predicate Valid()
      reads userRepository, userRepository.rows.Values
    {
      userRepository.Valid()
    }

    /** The stored users as transfer objects, keyed by id: the abstract state of the store. */
    ghost function Table(): map<int, UserDto>
      reads userRepository, userRepository.rows.Values
    {
      map k | k in userRepository.rows :: ToDto(userRepository.rows[k])
    }

    /**
     * Rejects a request that already carries an id; otherwise stores a new user
     * with the request's data under a fresh id and returns it with that id.
     */
    method CreateUser(newUserDto: UserDto) returns (r: Result<UserDto, Exception>)
      requires Valid()
      modifies userRepository
      ensures Valid()
      ensures newUserDto.id.Some? ==>
        && r == Failure(IllegalArgument(AlreadyPersisted))
        && unchanged(userRepository) && Table() == old(Table())
      ensures newUserDto.id.None? ==>
        && r.Success? && r.value.id.Some?
        && r.value.id.value !in old(Table())
        && r.value == newUserDto.(id := r.value.id)
        && Table() == old(Table())[r.value.id.value := r.value]
        && userRepository.order == old(userRepository.order) + [r.value.id.value]
    {
      if newUserDto.id.Some? {
        return Failure(IllegalArgument(AlreadyPersisted));
      }
      var entity := ToEntity(newUserDto);
      var createdUser := userRepository.Save(entity);
      r := Success(ToDto(createdUser));
    }

    /** The user stored under `userId`, if there is one. */
    function GetUser(userId: int): (r: Option<UserDto>)
      requires Valid()
      reads userRepository, userRepository.rows.Values
      ensures r.Some? <==> userId in Table()
      ensures r.Some? ==> r.value == Table()[userId] && r.value.id == Some(userId)
    {
      match userRepository.FindById(userId)
      case Some(user) => Some(ToDto(user))
      case None => None
    }

    /** The first stored user with exactly this email, if there is one. */
    function GetUserByEmail(email: string): (r: Option<UserDto>)
      requires Valid()
      reads userRepository, userRepository.rows.Values
      ensures r.Some? ==>
        && r.value.email == email
        && r.value.id.Some? && r.value.id.value in Table()
        && Table()[r.value.id.value] == r.value
      ensures r.None? <==> forall k :: k in Table() ==> Table()[k].email != email
    {
      match userRepository.FindByEmail(email)
      case Some(user) =>
        assert user.id.Some? && Table()[user.id.value] == ToDto(user);
        Some(ToDto(user))
      case None => None
    }

    /** Every stored user, once each, in store order. */
    function FindAllUsers(): (r: seq<UserDto>)
      requires Valid()
      reads userRepository, userRepository.rows.Values
      ensures |r| == |userRepository.order|
      ensures forall i :: 0 <= i < |r| ==>
        r[i].id == Some(userRepository.order[i]) && r[i] == Table()[userRepository.order[i]]
      ensures forall k :: k in Table() ==> Table()[k] in r
    {
      var all := userRepository.FindAll();
      var r := ToDtos(all);
      assert forall i :: 0 <= i < |r| ==>
        r[i].id == Some(userRepository.order[i]) && r[i] == Table()[userRepository.order[i]] by {
        forall i | 0 <= i < |r|
          ensures r[i].id == Some(userRepository.order[i]) && r[i] == Table()[userRepository.order[i]]
        {
          var k := userRepository.order[i];
          assert k in userRepository.rows;
          assert r[i] == ToDto(userRepository.rows[k]);
        }
      }
      assert forall k :: k in Table() ==> Table()[k] in r by {
        forall k | k in Table() ensures Table()[k] in r {
          var i :| 0 <= i < |userRepository.order| && userRepository.order[i] == k;
          assert r[i] == Table()[k];
        }
      }
      r
    }

    /** Removes the user stored under `id`; reports whether there was one. */
    method DeleteUser(id: int) returns (deleted: bool)
      requires Valid()
      modifies userRepository
      ensures Valid()
      ensures deleted <==> id in old(Table())
      ensures Table() == old(Table()) - {id}
      ensures userRepository.order == Without(old(userRepository.order), id)
      ensures !deleted ==> unchanged(userRepository)
    {
      if userRepository.ExistsById(id) {
        userRepository.DeleteById(id);
        return true;
      }
      WithoutAbsent(userRepository.order, id);
      return false;
    }

    /**
     * Overwrites the four data fields of the user stored under `id` with the
     * request's; the stored id is kept and the request's id ignored.
     */
    method UpdateUser(id: int, newUserDto: UserDto) returns (r: Option<UserDto>)
      requires Valid()
      modifies userRepository, userRepository.rows.Values
      ensures Valid()
      ensures userRepository.rows == old(userRepository.rows) && userRepository.order == old(userRepository.order)
      ensures id !in old(Table()) ==> r == None && Table() == old(Table())
      ensures id in old(Table()) ==>
        && r == Some(newUserDto.(id := Some(id)))
        && Table() == old(Table())[id := r.value]
    {
      ghost var before := Table();
      match userRepository.FindById(id)
      case None =>
        r := None;
      case Some(user) =>
        assert forall k :: k in userRepository.rows && k != id ==> userRepository.rows[k] != user;
        user.SetFirstName(newUserDto.firstName);
        user.SetLastName(newUserDto.lastName);
        user.SetBirthdate(newUserDto.birthdate);
        user.SetEmail(newUserDto.email);
        var saved := userRepository.Save(user);
        r := Some(ToDto(saved));
        assert Table() == before[id := r.value] by {
          forall k | k in userRepository.rows ensures Table()[k] == before[id := r.value][k] {
          }
        }
    }

    /** The stored users born strictly before `time`, in store order. */
    function FindUsersOlderThan(time: Date): (r: seq<UserDto>)
      requires Valid()
      reads userRepository, userRepository.rows.Values
      ensures forall d :: d in r <==> d in FindAllUsers() && d.birthdate < time
      ensures IsSubsequence(r, FindAllUsers())
    {
      var all := FindAllUsers();
      var bornBefore := (d: UserDto) => time > d.birthdate;
      FilterMembership(all, bornBefore);
      FilterIsSubsequence(all, bornBefore);
      Filter(all, bornBefore)
    }
  }
}
