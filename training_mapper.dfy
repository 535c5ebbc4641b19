/** Conversions between the training entity and its transfer objects. */
module TrainingMapping {

  import opened Wrappers
  import opened Users
  import opened UserStore
  import opened Trainings

  /** The mapper reads the user store to resolve the owner named in a create request. */
  class TrainingMapper {
    const userRepository: UserRepository

    constructor (userRepository: UserRepository)
      ensures this.userRepository == userRepository
    {
      this.userRepository := userRepository;
    }

    /** The transfer object carrying the entity's id, owner reference and five data fields. */
    function ToDto(t: Training): (d: TrainingDto)
      reads t
    {
      TrainingDto(t.id, t.user, t.startTime, t.endTime, t.activityType, t.distance, t.averageSpeed)
    }

    /** The transfer object of each entity, in the same order (`map(toDto).toList()`). */
    function ToDtos(ts: seq<Training>): (ds: seq<TrainingDto>)
      reads ts
      ensures |ds| == |ts|
      ensures forall i :: 0 <= i < |ts| ==> ds[i] == ToDto(ts[i])
    {
      if ts == [] then [] else [ToDto(ts[0])] + ToDtos(ts[1..])
    }

    /**
     * A new, unsaved entity with the transfer object's owner and five data
     * fields; its id is ignored, so mapping back yields the same object with
     * the id cleared.
     */
    method ToEntity(d: TrainingDto) returns (t: Training)
      ensures fresh(t)
      ensures ToDto(t) == d.(id := None)
    {
      t := new Training(d.user, d.startTime, d.endTime, d.activityType, d.distance, d.averageSpeed);
    }

    /** The user the store holds under `userId`, or null when there is none. */
    function OwnerFor(userId: int): (u: User?)
      reads userRepository
      ensures u != null <==> userId in userRepository.rows
      ensures u != null ==> u == userRepository.rows[userId]
    {
      match userRepository.FindById(userId)
      case Some(value) => value
      case None => null
    }

    /**
     * A new, unsaved entity built from a create request: the owner is the
     * stored user with the requested id, or null when there is no such user;
     * the five data fields are copied and the request's id is ignored. The
     * user store is only read.
     */
    method ToEntityFromCreateDto(d: CreateTrainingDto) returns (t: Training)
      ensures fresh(t)
      ensures ToDto(t) == TrainingDto(None, OwnerFor(d.userId), d.startTime, d.endTime,
                                      d.activityType, d.distance, d.averageSpeed)
    {
      var user := userRepository.FindById(d.userId);
      match user
      case Some(value) =>
        t := new Training(value, d.startTime, d.endTime, d.activityType, d.distance, d.averageSpeed);
      case None =>
        t := new Training(null, d.startTime, d.endTime, d.activityType, d.distance, d.averageSpeed);
    }

    /** The transfer object loses nothing: equal transfer objects mean equal fields. */
    lemma ToDtoFaithful(t: Training, s: Training)
      ensures ToDto(t) == ToDto(s) <==>
        && t.id == s.id && t.user == s.user
        && t.startTime == s.startTime && t.endTime == s.endTime
        && t.activityType == s.activityType
        && t.distance == s.distance && t.averageSpeed == s.averageSpeed
    {
    }
  }
}
