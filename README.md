# FitnessTracker service core in Dafny

A model of the service and mapper layer of the FitnessTracker backend. It covers two
record kinds: users (first name, last name, birthdate, email) and their training
sessions (owner, start and end time, activity type, distance, average speed).

The model has four layers:

- **Entities.** `Users.User` and `Trainings.Training` are Dafny classes. Their
  constructors and setters change their fields in place, as the JPA entities do.
- **Transfer objects.** `UserDto`, `TrainingDto` and `CreateTrainingDto` are plain
  datatypes.
- **Stores.** The two tables are in-memory classes, `UserStore.UserRepository` and
  `TrainingStore.TrainingRepository`. Each holds a map from id to entity, the ids in
  insertion order (the order `findAll` returns), and an identity counter.
  - `Save` on a new entity writes the next id into that entity, in place, and
    appends it. `Save` on an entity that is already stored changes nothing.
  - `DeleteById` removes the key.
  - These stand in for the Spring Data repositories, which are not part of this
    model.
- **Services.** `UserServices.UserServiceImpl` and `TrainingServices.TrainingServiceImpl`
  hold their stores (and, for trainings, the mapper) as constructor-injected
  references.
  - Operations that change the store are methods.
  - The stream pipelines (`findAll().stream().filter(..).map(toDto).toList()`) are
    functions that read the store. They use `Streams.Filter`, an order-keeping filter
    with proven membership and subsequence lemmas.

Each service exposes a ghost view `Table()`: every stored record as a transfer object,
keyed by id. Every state-changing method states its whole effect on that view. For
example, an update is `Table() == old(Table())[id := new record]`, and a delete is
`Table() == old(Table()) - {id}`. So "the other records are unchanged" is part of each
contract.

The source's modelling choices, written out:

- **Dates and times.** `LocalDate` is an `int` day number and `java.util.Date` is an
  `int` millisecond count. "After" is `>`.
- **Doubles.** `distance` and `averageSpeed` are `real`. They are only copied.
- **Nullable values.** Nullable ids are `Option<int>`. A training's owner is a nullable
  reference `User?`, because `TrainingDto` carries the owner entity itself.
- **Exceptions.** Thrown exceptions are the `Failure` side of `Result`:
  - `IllegalArgument` with the source's message, when a create request carries an id.
  - `NullPointer`, for the owner dereference in `findTrainingsByUserId`.
- **Activity type.** `ActivityType` is a datatype with the five values in declaration
  order. `Ordinal`/`FromOrdinal` model the ordinal the training table stores.

Where the code leaves something open, or disagrees with its own interfaces or comments, the model follows the implementation:

- `findTrainingsByUserId` throws on a training without an owner. It does not skip it,
  although `TrainingMapper` deliberately creates such trainings. See "## Findings".
- The `UserService` interface declares `User`-typed signatures. The model follows
  `UserServiceImpl`, which takes and returns `UserDto`.
- `findAll` order is whatever the store gives. The model fixes it to insertion order.

## Model

| member | source | states |
|---|---|---|
| `Activities.AllActivitiesComplete` | src/main/java/com/capgemini/wsb/fitnesstracker/training/internal/ActivityType.java:9-13 | every activity is one of exactly five distinct values |
| `Activities.Ordinal` | src/main/java/com/capgemini/wsb/fitnesstracker/training/internal/ActivityType.java:9-13 | the persisted ordinal is the declaration position: RUNNING 0, CYCLING 1, WALKING 2, SWIMMING 3, TENNIS 4 |
| `Activities.FromOrdinal` | src/main/java/com/capgemini/wsb/fitnesstracker/training/api/Training.java:41-43 | a stored ordinal in 0..4 reads back as the activity whose `Ordinal` it is; outside 0..4 there is none (a modelling choice, see "## Left out") |
| `Activities.OrdinalRoundTrip` | src/main/java/com/capgemini/wsb/fitnesstracker/training/api/Training.java:41-43 | persisting an activity by ordinal and reading it back yields the same activity |
| `Activities.DisplayName` | src/main/java/com/capgemini/wsb/fitnesstracker/training/internal/ActivityType.java:9-23 | the label of each activity. It carries no contract of its own; `Activities.DisplayNameTable` gives its five values and `Activities.DisplayNameInjective` that it is injective |
| `Activities.DisplayNameTable` | src/main/java/com/capgemini/wsb/fitnesstracker/training/internal/ActivityType.java:9-23 | the display names in declaration order are Running, Cycling, Walking, Swimming and the source's spelling "Tenis" |
| `Activities.DisplayNameInjective` | src/main/java/com/capgemini/wsb/fitnesstracker/training/internal/ActivityType.java:9-23 | two activities have the same display name exactly when they are the same activity |
| `Users.User.constructor` | src/main/java/com/capgemini/wsb/fitnesstracker/user/api/User.java:42-52 | stores the four given fields and leaves the id unset |
| `Users.User.SetFirstName` | src/main/java/com/capgemini/wsb/fitnesstracker/user/api/User.java:59-61 | sets the first name; id and the other three fields are unchanged |
| `Users.User.SetLastName` | src/main/java/com/capgemini/wsb/fitnesstracker/user/api/User.java:68-70 | sets the last name; id and the other three fields are unchanged |
| `Users.User.SetEmail` | src/main/java/com/capgemini/wsb/fitnesstracker/user/api/User.java:77-79 | sets the email; id and the other three fields are unchanged |
| `Users.User.SetBirthdate` | src/main/java/com/capgemini/wsb/fitnesstracker/user/api/User.java:86-88 | sets the birthdate; id and the other three fields are unchanged |
| `UserMapper.ToDto` | src/main/java/com/capgemini/wsb/fitnesstracker/user/internal/UserMapper.java:21-27 | the transfer object of a user: its id and four data fields, copied unchanged. It carries no contract of its own; `UserMapper.ToDtoFaithful` states that it loses nothing and `UserMapper.ToEntity` that it inverts the entity mapping |
| `UserMapper.ToDtos` | src/main/java/com/capgemini/wsb/fitnesstracker/user/internal/UserServiceImpl.java:57-60 | `map(toDto).toList()`: one transfer object per user, of the same length, the i-th being the transfer object of the i-th user |
| `UserMapper.ToDtoFaithful` | src/main/java/com/capgemini/wsb/fitnesstracker/user/internal/UserMapper.java:21-27 | the transfer object loses nothing: two users map to the same transfer object exactly when they agree on id and all four data fields |
| `UserMapper.ToEntity` | src/main/java/com/capgemini/wsb/fitnesstracker/user/internal/UserMapper.java:21-41 | builds a new, unsaved user; mapping it back gives the input with its id replaced by none, so the input's id is ignored and the four data fields round-trip |
| `UserServices.UserServiceImpl.CreateUser` | src/main/java/com/capgemini/wsb/fitnesstracker/user/internal/UserServiceImpl.java:23-32 | a request with an id fails with IllegalArgument and the store is unchanged; otherwise exactly one record is added, under an id not currently stored, equal to the request with that id, appended to the store order, and returned |
| `UserServices.UserServiceImpl.GetUser` | src/main/java/com/capgemini/wsb/fitnesstracker/user/internal/UserServiceImpl.java:34-47 | present exactly when the id is stored, and then the stored record with that id |
| `UserServices.UserServiceImpl.GetUserByEmail` | src/main/java/com/capgemini/wsb/fitnesstracker/user/internal/UserServiceImpl.java:49-53 | empty exactly when no stored user has that email; otherwise a stored record with exactly that email |
| `UserServices.UserServiceImpl.FindAllUsers` | src/main/java/com/capgemini/wsb/fitnesstracker/user/internal/UserServiceImpl.java:55-61 | one transfer object per stored user, at the position of its id in store order, and every stored user appears |
| `UserServices.UserServiceImpl.DeleteUser` | src/main/java/com/capgemini/wsb/fitnesstracker/user/internal/UserServiceImpl.java:63-70 | returns true exactly when the id was stored; afterwards the id is gone and every other record is unchanged; on false nothing changed |
| `UserServices.UserServiceImpl.UpdateUser` | src/main/java/com/capgemini/wsb/fitnesstracker/user/internal/UserServiceImpl.java:72-81 | a missing id gives empty and an unchanged store; a present id gets the request's four data fields while keeping its own id (the request's id is ignored), no other record changes, and the updated record is returned |
| `UserServices.UserServiceImpl.FindUsersOlderThan` | src/main/java/com/capgemini/wsb/fitnesstracker/user/internal/UserServiceImpl.java:83-90 | exactly the stored users born strictly before the date, as a subsequence of the store order; a user born on that date is excluded |
| `Trainings.Training.constructor` | src/main/java/com/capgemini/wsb/fitnesstracker/training/api/Training.java:51-64 | stores the six given fields and leaves the id unset |
| `Trainings.Training.SetUser` | src/main/java/com/capgemini/wsb/fitnesstracker/training/api/Training.java:71-73 | sets the owner; id and the other five fields are unchanged |
| `Trainings.Training.SetStartTime` | src/main/java/com/capgemini/wsb/fitnesstracker/training/api/Training.java:80-82 | sets the start time; id and the other five fields are unchanged |
| `Trainings.Training.SetEndTime` | src/main/java/com/capgemini/wsb/fitnesstracker/training/api/Training.java:89-91 | sets the end time; id and the other five fields are unchanged |
| `Trainings.Training.SetActivityType` | src/main/java/com/capgemini/wsb/fitnesstracker/training/api/Training.java:98-100 | sets the activity type; id and the other five fields are unchanged |
| `Trainings.Training.SetDistance` | src/main/java/com/capgemini/wsb/fitnesstracker/training/api/Training.java:107-109 | sets the distance; id and the other five fields are unchanged |
| `Trainings.Training.SetAverageSpeed` | src/main/java/com/capgemini/wsb/fitnesstracker/training/api/Training.java:116-118 | sets the average speed; id and the other five fields are unchanged |
| `TrainingMapping.TrainingMapper.ToDto` | src/main/java/com/capgemini/wsb/fitnesstracker/training/internal/TrainingMapper.java:37-46 | the transfer object of a training: its id, owner reference and five data fields, copied unchanged. It carries no contract of its own; `TrainingMapping.TrainingMapper.ToDtoFaithful` states that it loses nothing and `TrainingMapping.TrainingMapper.ToEntity` that it inverts the entity mapping |
| `TrainingMapping.TrainingMapper.ToDtos` | src/main/java/com/capgemini/wsb/fitnesstracker/training/internal/TrainingServiceImpl.java:41-44 | `map(toDto).toList()`: one transfer object per training, of the same length, the i-th being the transfer object of the i-th training |
| `TrainingMapping.TrainingMapper.OwnerFor` | src/main/java/com/capgemini/wsb/fitnesstracker/training/internal/TrainingMapper.java:75-88 | the owner a create request resolves to: non-null exactly when the user store holds the requested id, and then the stored user under that id |
| `TrainingMapping.TrainingMapper.ToDtoFaithful` | src/main/java/com/capgemini/wsb/fitnesstracker/training/internal/TrainingMapper.java:37-46 | the transfer object loses nothing: two trainings map to the same transfer object exactly when they agree on id, owner and the five data fields |
| `TrainingMapping.TrainingMapper.ToEntity` | src/main/java/com/capgemini/wsb/fitnesstracker/training/internal/TrainingMapper.java:37-63 | builds a new, unsaved training; mapping it back gives the input with its id replaced by none, so owner and five data fields round-trip and the input's id is ignored |
| `TrainingMapping.TrainingMapper.ToEntityFromCreateDto` | src/main/java/com/capgemini/wsb/fitnesstracker/training/internal/TrainingMapper.java:74-89 | builds a new, unsaved training whose owner is the stored user with the requested id, or null when the user store has none; the five data fields are copied, the request's id is ignored, and the user store is only read |
| `TrainingServices.TrainingServiceImpl.GetTraining` | src/main/java/com/capgemini/wsb/fitnesstracker/training/internal/TrainingServiceImpl.java:21-25 | present exactly when the id is stored, and then the stored record with that id |
| `TrainingServices.TrainingServiceImpl.CreateTraining` | src/main/java/com/capgemini/wsb/fitnesstracker/training/internal/TrainingServiceImpl.java:27-37 | a request with an id fails with IllegalArgument and the store is unchanged; otherwise exactly one record is added under an id not currently stored, carrying the resolved owner (or none) and the request's five data fields, appended to the store order, and returned |
| `TrainingServices.TrainingServiceImpl.FindAllTrainings` | src/main/java/com/capgemini/wsb/fitnesstracker/training/internal/TrainingServiceImpl.java:39-45 | one transfer object per stored training, at the position of its id in store order, and every stored training appears |
| `TrainingServices.TrainingServiceImpl.FindTrainingsByUserId` | src/main/java/com/capgemini/wsb/fitnesstracker/training/internal/TrainingServiceImpl.java:47-54 | fails with a null dereference exactly when some stored training has no owner; otherwise exactly the stored trainings whose owner's id equals the given id, as a subsequence of the store order |
| `TrainingServices.TrainingServiceImpl.FindTrainingsOwnedBy` | src/main/java/com/capgemini/wsb/fitnesstracker/training/internal/TrainingServiceImpl.java:47-54 | corrected query: exactly the stored trainings that have an owner whose id equals the given id, as a subsequence of the store order; owner-less trainings are left out |
| `TrainingServices.TrainingServiceImpl.FindTrainingsByActivity` | src/main/java/com/capgemini/wsb/fitnesstracker/training/internal/TrainingServiceImpl.java:56-62 | every result is a stored training of that activity, every stored training of that activity is in the result, and the store order is kept |
| `TrainingServices.TrainingServiceImpl.FindCompletedTrainingsAfter` | src/main/java/com/capgemini/wsb/fitnesstracker/training/internal/TrainingServiceImpl.java:64-71 | every result ended strictly after the date, every stored training that did is in the result, and the store order is kept; an end time equal to the date is excluded |
| `TrainingServices.TrainingServiceImpl.UpdateTraining` | src/main/java/com/capgemini/wsb/fitnesstracker/training/internal/TrainingServiceImpl.java:73-86 | a missing id gives empty and an unchanged store; a present id gets the owner and five data fields of the training mapped from the request while keeping its own id, no other record changes, and the updated record is returned |
| `TrainingServices.TrainingServiceImpl.DeleteTraining` | src/main/java/com/capgemini/wsb/fitnesstracker/training/internal/TrainingServiceImpl.java:88-95 | returns true exactly when the id was stored; afterwards the id is gone and every other record is unchanged; on false nothing changed |
| `Scenarios.DeleteUserTwice` | src/main/java/com/capgemini/wsb/fitnesstracker/user/internal/UserServiceImpl.java:63-70 | deleting the same user twice answers whether it was stored, then false |
| `Scenarios.DeleteTrainingTwice` | src/main/java/com/capgemini/wsb/fitnesstracker/training/internal/TrainingServiceImpl.java:88-95 | deleting the same training twice answers whether it was stored, then false |
| `Scenarios.OlderThanBoundary` | src/main/java/com/capgemini/wsb/fitnesstracker/user/internal/UserServiceImpl.java:83-90 | a user born on 1990-01-01 is older than 2000-01-01 but not older than 1990-01-01 |
| `Scenarios.CompletedAfterBoundary` | src/main/java/com/capgemini/wsb/fitnesstracker/training/internal/TrainingServiceImpl.java:56-71 | a run ending at 09:00 is found as running, not as cycling, and as completed after 08:30 but not after 09:00 |
| `Scenarios.TrainingFoundByItsOwner` | src/main/java/com/capgemini/wsb/fitnesstracker/training/internal/TrainingServiceImpl.java:47-54 | with one user store shared by both services, a training created for a stored user's id has that user as owner, and the user query as written succeeds with exactly that training |
| `Scenarios.OwnerlessTrainingBreaksUserQuery` | src/main/java/com/capgemini/wsb/fitnesstracker/training/internal/TrainingServiceImpl.java:47-54 | after a training is created for an unknown user id, the query as written fails for every user id, while the corrected query returns no trainings |

## Left out

- Controllers (`UserController`, `TrainingController`): HTTP routing, status codes and
  date-string parsing are not part of this model. `FitnessTracker` (application
  bootstrap) is not part of it either.
- The `UserService` and `TrainingService` interfaces: their doc comments are reflected
  in the contracts, and they add no behaviour. `UserProvider` and `TrainingProvider`
  are not part of this model.
- The repositories: `UserRepository` and `TrainingRepository` are not part of this
  model.
  - They are replaced by in-memory stores with a counter for identity ids.
  - The database, transactions, lazy fetching, the cascade on a training's owner, and
    column constraints (non-null columns, unique email) are not modelled.
  - So two users may share an email in the model.
  - The cascade on a training's owner (`CascadeType.ALL`, Training.java:31) includes
    removal. So in the source, `deleteTraining` also deletes the owning user, or fails
    on the foreign key when that user still owns other trainings. The model's
    `DeleteTraining` leaves the user store untouched.
  - The foreign key from a training to its owner (`Training.java:31-33`) is not
    modelled. In the model, `DeleteUser` removes a user that still owns trainings and
    returns true. Those trainings keep pointing at the removed user object, and
    `FindTrainingsByUserId` still returns them. With the schema generated from
    `@ManyToOne @JoinColumn`, the database would reject that delete.
  - Ids (Java `Long`) are modelled as unbounded integers, and the counter never wraps.
- Null arguments: ids, dates and activity types passed to the services are never null
  in the model. In the source, a null id makes the repository throw, and a null date
  makes the filter throw. Nullable fields inside the transfer objects other than the
  id are also not modelled.
- Logging and the Lombok and JPA annotations: they have no effect on behaviour here.
- Floating point: `distance` and `averageSpeed` are exact reals. No arithmetic is done
  on them, so rounding never arises.
- `Activities.FromOrdinal`: an ordinal outside 0..4 gives no activity. This is a
  modelling choice, not source behaviour: the column is written only by the
  persistence provider, which fails on an unknown ordinal instead.
- `UserServices.UserServiceImpl.GetUserByEmail`: does not say which user is returned
  when several share an email (the store returns the first in store order). This is
  because the unique-email constraint that keeps it to at most one is not modelled.

## Findings

| source | as written | input that shows it | evidently intended | confidence | as-written member | corrected member |
|---|---|---|---|---|---|---|
| src/main/java/com/capgemini/wsb/fitnesstracker/training/internal/TrainingServiceImpl.java:51 | the filter calls `getUser().getId()` on every stored training, so the one owner-less training makes the whole query throw a NullPointerException. `TrainingMapper.toEntity` deliberately creates such trainings when the user id is unknown (TrainingMapper.java:82-88) | on an empty user store, `createTraining` with user id 1 and no training id; then `findTrainingsByUserId` with any user id | owner-less trainings belong to no user and are left out of the result | medium; not executed | `TrainingServices.TrainingServiceImpl.FindTrainingsByUserId`, exhibited by `Scenarios.OwnerlessTrainingBreaksUserQuery` | `TrainingServices.TrainingServiceImpl.FindTrainingsOwnedBy` |
