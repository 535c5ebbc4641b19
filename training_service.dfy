/** The training service: lifecycle and queries of trainings over the training store. */
module TrainingServices {

  import opened Wrappers
  import opened Streams
  import opened Activities
  import opened Users
  import opened Trainings
  import opened TrainingStore
  import opened TrainingMapping

  class TrainingServiceImpl {
    const trainingRepository: TrainingRepository
    const trainingMapper: TrainingMapper

    constructor (trainingRepository: TrainingRepository, trainingMapper: TrainingMapper)
      ensures this.trainingRepository == trainingRepository && this.trainingMapper == trainingMapper
    {
      this.trainingRepository := trainingRepository;
      this.trainingMapper := trainingMapper;
    }

    ghost predicate Valid()
      reads trainingRepository, trainingRepository.rows.Values
    {
      trainingRepository.Valid()
    }

    /** The stored trainings as transfer objects, keyed by id: the abstract state of the store. */
    ghost function Table(): map<int, TrainingDto>
      reads trainingRepository, trainingRepository.rows.Values
    {
      map k | k in trainingRepository.rows :: trainingMapper.ToDto(trainingRepository.rows[k])
    }

    /** The users that stored trainings refer to. */
    ghost function Owners(): set<User>
      reads trainingRepository, trainingRepository.rows.Values
    {
      set k | k in trainingRepository.rows && trainingRepository.rows[k].user != null
        :: trainingRepository.rows[k].user
    }

    /** The training stored under `trainingId`, if there is one. */
    function GetTraining(trainingId: int): (r: Option<TrainingDto>)
      requires Valid()
      reads trainingRepository, trainingRepository.rows.Values
      ensures r.Some? <==> trainingId in Table()
      ensures r.Some? ==> r.value == Table()[trainingId] && r.value.id == Some(trainingId)
    {
      match trainingRepository.FindById(trainingId)
      case Some(training) => Some(trainingMapper.ToDto(training))
      case None => None
    }

    /**
     * Rejects a request that already carries an id; otherwise stores a new
     * training built from the request, with the owner resolved against the user
     * store, under a fresh id and returns it with that id.
     */
    method CreateTraining(newTrainingDto: CreateTrainingDto) returns (r: Result<TrainingDto, Exception>)
      requires Valid()
      modifies trainingRepository
      ensures Valid()
      ensures newTrainingDto.id.Some? ==>
        && r == Failure(IllegalArgument(AlreadyPersisted))
        && unchanged(trainingRepository) && Table() == old(Table())
      ensures newTrainingDto.id.None? ==>
        && r.Success? && r.value.id.Some?
        && r.value.id.value !in old(Table())
        && r.value == TrainingDto(r.value.id, trainingMapper.OwnerFor(newTrainingDto.userId),
                                  newTrainingDto.startTime, newTrainingDto.endTime,
                                  newTrainingDto.activityType, newTrainingDto.distance,
                                  newTrainingDto.averageSpeed)
        && Table() == old(Table())[r.value.id.value := r.value]
        && trainingRepository.order == old(trainingRepository.order) + [r.value.id.value]
    {
      if newTrainingDto.id.Some? {
        return Failure(IllegalArgument(AlreadyPersisted));
      }
      var entity := trainingMapper.ToEntityFromCreateDto(newTrainingDto);
      var createdTraining := trainingRepository.Save(entity);
      r := Success(trainingMapper.ToDto(createdTraining));
    }

    /** Every stored training, once each, in store order. */
    function FindAllTrainings(): (r: seq<TrainingDto>)
      requires Valid()
      reads trainingRepository, trainingRepository.rows.Values
      ensures |r| == |trainingRepository.order|
      ensures forall i :: 0 <= i < |r| ==>
        r[i].id == Some(trainingRepository.order[i]) && r[i] == Table()[trainingRepository.order[i]]
      ensures forall k :: k in Table() ==> Table()[k] in r
    {
      var all := trainingRepository.FindAll();
      var r := trainingMapper.ToDtos(all);
      assert forall i :: 0 <= i < |r| ==>
        r[i].id == Some(trainingRepository.order[i]) && r[i] == Table()[trainingRepository.order[i]] by {
        forall i | 0 <= i < |r|
          ensures r[i].id == Some(trainingRepository.order[i]) && r[i] == Table()[trainingRepository.order[i]]
        {
          var k := trainingRepository.order[i];
          assert k in trainingRepository.rows;
          assert r[i] == trainingMapper.ToDto(trainingRepository.rows[k]);
        }
      }
      assert forall k :: k in Table() ==> Table()[k] in r by {
        forall k | k in Table() ensures Table()[k] in r {
          var i :| 0 <= i < |trainingRepository.order| && trainingRepository.order[i] == k;
          assert r[i] == Table()[k];
        }
      }
      r
    }

    /**
     * The stored trainings whose owner has id `userId`, in store order, as the
     * source computes them: every stored training's owner is dereferenced, so a
     * single training without an owner makes the whole query fail with a null
     * dereference; otherwise the result is that of the owner filter below.
     */
    function FindTrainingsByUserId(userId: int): (r: Result<seq<TrainingDto>, Exception>)
      requires Valid()
      reads trainingRepository, trainingRepository.rows.Values, Owners()
      ensures r.Failure? <==> exists k :: k in trainingRepository.rows && trainingRepository.rows[k].user == null
      ensures r.Failure? ==> r.error == NullPointer
      ensures r.Success? ==> IsSubsequence(r.value, FindAllTrainings())
      ensures r.Success? ==> forall k :: k in trainingRepository.rows && trainingRepository.rows[k].user != null ==>
        (Table()[k] in r.value <==> trainingRepository.rows[k].user.id == Some(userId))
    {
      if exists k :: k in trainingRepository.rows && trainingRepository.rows[k].user == null then
        Failure(NullPointer)
      else
        Success(FindTrainingsOwnedBy(userId))
    }

    /**
     * The stored trainings whose owner has id `userId`, in store order, where a
     * training without an owner is simply not owned by anyone.
     */
    function FindTrainingsOwnedBy(userId: int): (r: seq<TrainingDto>)
      requires Valid()
      reads trainingRepository, trainingRepository.rows.Values, Owners()
      ensures IsSubsequence(r, FindAllTrainings())
      ensures forall d :: d in r ==> d in FindAllTrainings()
      ensures forall k :: k in trainingRepository.rows ==>
        (Table()[k] in r <==>
          trainingRepository.rows[k].user != null && trainingRepository.rows[k].user.id == Some(userId))
    {
      var ownerIds := map k | k in trainingRepository.rows && trainingRepository.rows[k].user != null
        :: trainingRepository.rows[k].user.id;
      var all := FindAllTrainings();
      var ownedBy := (d: TrainingDto) => d.id.Some? && d.id.value in ownerIds && ownerIds[d.id.value] == Some(userId);
      FilterMembership(all, ownedBy);
      FilterIsSubsequence(all, ownedBy);
      Filter(all, ownedBy)
    }

    /** The stored trainings of activity `activityType`, in store order. */
    function FindTrainingsByActivity(activityType: ActivityType): (r: seq<TrainingDto>)
      requires Valid()
      reads trainingRepository, trainingRepository.rows.Values
      ensures IsSubsequence(r, FindAllTrainings())
      ensures forall d :: d in r ==> d in FindAllTrainings() && d.activityType == activityType
      ensures forall i :: 0 <= i < |FindAllTrainings()| && FindAllTrainings()[i].activityType == activityType ==>
        FindAllTrainings()[i] in r
    {
      var all := FindAllTrainings();
      var ofActivity := (d: TrainingDto) => d.activityType == activityType;
      FilterMembership(all, ofActivity);
      FilterIsSubsequence(all, ofActivity);
      Filter(all, ofActivity)
    }

    /** The stored trainings that ended strictly after `date`, in store order. */
    function FindCompletedTrainingsAfter(date: Instant): (r: seq<TrainingDto>)
      requires Valid()
      reads trainingRepository, trainingRepository.rows.Values
      ensures IsSubsequence(r, FindAllTrainings())
      ensures forall d :: d in r ==> d in FindAllTrainings() && d.endTime > date
      ensures forall i :: 0 <= i < |FindAllTrainings()| && FindAllTrainings()[i].endTime > date ==>
        FindAllTrainings()[i] in r
    {
      var all := FindAllTrainings();
      var endedAfter := (d: TrainingDto) => d.endTime > date;
      FilterMembership(all, endedAfter);
      FilterIsSubsequence(all, endedAfter);
      Filter(all, endedAfter)
    }

    /**
     * Overwrites the owner and five data fields of the training stored under
     * `trainingId` with those of the entity mapped from the request (owner
     * resolved against the user store); the stored id is kept and the
     * request's id ignored.
     */
    method UpdateTraining(trainingId: int, newTrainingDto: CreateTrainingDto) returns (r: Option<TrainingDto>)
      requires Valid()
      modifies trainingRepository, trainingRepository.rows.Values
      ensures Valid()
      ensures trainingRepository.rows == old(trainingRepository.rows)
      ensures trainingRepository.order == old(trainingRepository.order)
      ensures trainingId !in old(Table()) ==> r == None && Table() == old(Table())
      ensures trainingId in old(Table()) ==>
        && r == Some(TrainingDto(Some(trainingId), trainingMapper.OwnerFor(newTrainingDto.userId),
                                 newTrainingDto.startTime, newTrainingDto.endTime,
                                 newTrainingDto.activityType, newTrainingDto.distance,
                                 newTrainingDto.averageSpeed))
        && Table() == old(Table())[trainingId := r.value]
    {
      ghost var before := Table();
      var newTraining := trainingMapper.ToEntityFromCreateDto(newTrainingDto);
      match trainingRepository.FindById(trainingId)
      case None =>
        r := None;
      case Some(training) =>
        assert forall k :: k in trainingRepository.rows && k != trainingId ==> trainingRepository.rows[k] != training;
        training.SetUser(newTraining.user);
        training.SetStartTime(newTraining.startTime);
        training.SetEndTime(newTraining.endTime);
        training.SetActivityType(newTraining.activityType);
        training.SetDistance(newTraining.distance);
        training.SetAverageSpeed(newTraining.averageSpeed);
        var saved := trainingRepository.Save(training);
        r := Some(trainingMapper.ToDto(saved));
        assert Table() == before[trainingId := r.value] by {
          forall k | k in trainingRepository.rows ensures Table()[k] == before[trainingId := r.value][k] {
          }
        }
    }

    /** Removes the training stored under `id`; reports whether there was one. */
    method DeleteTraining(id: int) returns (deleted: bool)
      requires Valid()
      modifies trainingRepository
      ensures Valid()
      ensures deleted <==> id in old(Table())
      ensures Table() == old(Table()) - {id}
      ensures trainingRepository.order == Without(old(trainingRepository.order), id)
      ensures !deleted ==> unchanged(trainingRepository)
    {
      if trainingRepository.ExistsById(id) {
        trainingRepository.DeleteById(id);
        return true;
      }
      WithoutAbsent(trainingRepository.order, id);
      return false;
    }
  }
}
