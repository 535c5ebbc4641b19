/**
 * Call sequences against the two services, reasoned about through their
 * contracts only: they show what a caller can conclude from the specifications.
 */
module Scenarios {

  import opened Wrappers
  import opened Streams
  import opened Activities
  import opened Users
  import opened UserStore
  import opened UserServices
  import opened Trainings
  import opened TrainingStore
  import opened TrainingMapping
  import opened TrainingServices

  /** Deleting the same user twice succeeds once and then reports a miss. */
  method DeleteUserTwice(service: UserServiceImpl, id: int) returns (first: bool, second: bool)
    requires service.Valid()
    modifies service.userRepository
    ensures service.Valid()
    ensures first == (id in old(service.Table())) && !second
    ensures service.Table() == old(service.Table()) - {id}
  {
    first := service.DeleteUser(id);
    second := service.DeleteUser(id);
  }

  /** Deleting the same training twice succeeds once and then reports a miss. */
  method DeleteTrainingTwice(service: TrainingServiceImpl, id: int) returns (first: bool, second: bool)
    requires service.Valid()
    modifies service.trainingRepository
    ensures service.Valid()
    ensures first == (id in old(service.Table())) && !second
    ensures service.Table() == old(service.Table()) - {id}
  {
    first := service.DeleteTraining(id);
    second := service.DeleteTraining(id);
  }

  /**
   * A user born on 1990-01-01 (day 7305) is older than 2000-01-01 (day 10957)
   * but not older than its own birthdate.
   */
  method OlderThanBoundary() returns (before2000: seq<UserDto>, before1990: seq<UserDto>)
    ensures |before2000| == 1 && before2000[0].email == "a@x.com"
    ensures before1990 == []
  {
    var repository := new UserRepository();
    var service := new UserServiceImpl(repository);
    var created := service.CreateUser(UserDto(None, "Anna", "Nowak", 7305, "a@x.com"));
    var all := service.FindAllUsers();
    assert all == [created.value];
    before2000 := service.FindUsersOlderThan(10957);
    before1990 := service.FindUsersOlderThan(7305);
    assert created.value in before2000;
    assert before2000 == [created.value] by {
      Streams.FilterIsSubsequence(all, (d: UserDto) => 10957 > d.birthdate);
    }
  }

  /**
   * A run from 08:00 to 09:00 on 2024-01-01 (milliseconds since the epoch) is
   * found by its activity and counts as completed after 08:30, but not after
   * 09:00, its own end time.
   */
  method CompletedAfterBoundary() returns (running: seq<TrainingDto>, cycling: seq<TrainingDto>,
                                           after0830: seq<TrainingDto>, after0900: seq<TrainingDto>)
    ensures |running| == 1 && running[0].activityType == Running
    ensures cycling == []
    ensures |after0830| == 1 && after0830 == running
    ensures after0900 == []
  {
    var users := new UserRepository();
    var trainings := new TrainingRepository();
    var mapper := new TrainingMapper(users);
    var service := new TrainingServiceImpl(trainings, mapper);
    var created := service.CreateTraining(
      CreateTrainingDto(None, 1, 1704096000000, 1704099600000, Running, 10.0, 10.0));
    var all := service.FindAllTrainings();
    assert all == [created.value];
    running := service.FindTrainingsByActivity(Running);
    cycling := service.FindTrainingsByActivity(Cycling);
    after0830 := service.FindCompletedTrainingsAfter(1704097800000);
    after0900 := service.FindCompletedTrainingsAfter(1704099600000);
    assert created.value in running && created.value in after0830;
  }

  /**
   * The user and training services share one user store, as the application
   * wires a single repository into both. A training created for a stored
   * user's id gets that user as its owner, and the user query as written
   * returns exactly that training for the user's id.
   */
  method TrainingFoundByItsOwner()
    returns (userId: int, training: TrainingDto, byUser: Result<seq<TrainingDto>, Exception>)
    ensures training.user != null && training.user.id == Some(userId)
    ensures training.activityType == Running
    ensures byUser == Success([training])
  {
    var users := new UserRepository();
    var userService := new UserServiceImpl(users);
    var trainings := new TrainingRepository();
    var mapper := new TrainingMapper(users);
    var service := new TrainingServiceImpl(trainings, mapper);
    var user := userService.CreateUser(UserDto(None, "Anna", "Nowak", 7305, "a@x.com"));
    userId := user.value.id.value;
    assert userId in users.rows;
    var created := service.CreateTraining(
      CreateTrainingDto(None, userId, 1704096000000, 1704099600000, Running, 10.0, 10.0));
    training := created.value;
    var all := service.FindAllTrainings();
    assert all == [training];
    byUser := service.FindTrainingsByUserId(userId);
    assert training in byUser.value;
    assert byUser.value == [training] by {
      assert IsSubsequence(byUser.value, [training]);
      assert byUser.value[0] == training;
    }
  }

  /**
   * Creating a training for a user id the user store does not hold stores it
   * without an owner; from then on the user query as written fails for every
   * user id, while the owner filter simply leaves that training out.
   */
  method OwnerlessTrainingBreaksUserQuery(userId: int)
    returns (byUser: Result<seq<TrainingDto>, Exception>, ownedBy: seq<TrainingDto>)
    ensures byUser == Failure(NullPointer)
    ensures ownedBy == []
  {
    var users := new UserRepository();
    var trainings := new TrainingRepository();
    var mapper := new TrainingMapper(users);
    var service := new TrainingServiceImpl(trainings, mapper);
    var created := service.CreateTraining(
      CreateTrainingDto(None, 1, 1704096000000, 1704099600000, Running, 10.0, 10.0));
    assert created.value.user == null;
    var id := created.value.id.value;
    assert trainings.rows[id].user == null;
    byUser := service.FindTrainingsByUserId(userId);
    ownedBy := service.FindTrainingsOwnedBy(userId);
    assert service.Table()[id] !in ownedBy;
  }
}
