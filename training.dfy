/** The training entity and its two transfer objects. */
module Trainings {

  import opened Wrappers
  import opened Activities
  import opened Users

  /** A point in time, in milliseconds from an arbitrary epoch; later instants are larger. */
  type Instant = int

  /**
   * A persisted training session. The owner is a reference to a user and may
   * be null; distance and average speed are only ever copied, never computed with.
   */
  class Training {
    var id: Option<int>
    var user: User?
    var startTime: Instant
    var endTime: Instant
    var activityType: ActivityType
    var distance: real
    var averageSpeed: real

    /** Stores the six given fields and leaves the id unset. */
    constructor (user: User?, startTime: Instant, endTime: Instant, activityType: ActivityType,
                 distance: real, averageSpeed: real)
      ensures id == None && this.user == user
      ensures this.startTime == startTime && this.endTime == endTime
      ensures this.activityType == activityType
      ensures this.distance == distance && this.averageSpeed == averageSpeed
    {
      id := None;
      this.user := user;
      this.startTime := startTime;
      this.endTime := endTime;
      this.activityType := activityType;
      this.distance := distance;
      this.averageSpeed := averageSpeed;
    }

    method SetUser(user: User?)
      modifies this
      ensures this.user == user
      ensures id == old(id) && startTime == old(startTime) && endTime == old(endTime)
      ensures activityType == old(activityType)
      ensures distance == old(distance) && averageSpeed == old(averageSpeed)
    {
      this.user := user;
    }

    method SetStartTime(startTime: Instant)
      modifies this
      ensures this.startTime == startTime
      ensures id == old(id) && user == old(user) && endTime == old(endTime)
      ensures activityType == old(activityType)
      ensures distance == old(distance) && averageSpeed == old(averageSpeed)
    {
      this.startTime := startTime;
    }

    method SetEndTime(endTime: Instant)
      modifies this
      ensures this.endTime == endTime
      ensures id == old(id) && user == old(user) && startTime == old(startTime)
      ensures activityType == old(activityType)
      ensures distance == old(distance) && averageSpeed == old(averageSpeed)
    {
      this.endTime := endTime;
    }

    method SetActivityType(activityType: ActivityType)
      modifies this
      ensures this.activityType == activityType
      ensures id == old(id) && user == old(user)
      ensures startTime == old(startTime) && endTime == old(endTime)
      ensures distance == old(distance) && averageSpeed == old(averageSpeed)
    {
      this.activityType := activityType;
    }

    method SetDistance(distance: real)
      modifies this
      ensures this.distance == distance
      ensures id == old(id) && user == old(user)
      ensures startTime == old(startTime) && endTime == old(endTime)
      ensures activityType == old(activityType) && averageSpeed == old(averageSpeed)
    {
      this.distance := distance;
    }

    method SetAverageSpeed(averageSpeed: real)
      modifies this
      ensures this.averageSpeed == averageSpeed
      ensures id == old(id) && user == old(user)
      ensures startTime == old(startTime) && endTime == old(endTime)
      ensures activityType == old(activityType) && distance == old(distance)
    {
      this.averageSpeed := averageSpeed;
    }
  }

  /** The value form of a training handed to callers; it refers to the owner entity itself. */
  datatype TrainingDto = TrainingDto(
    id: Option<int>,
    user: User?,
    startTime: Instant,
    endTime: Instant,
    activityType: ActivityType,
    distance: real,
    averageSpeed: real)

  /** A create or update request: the owner is named by id and looked up in the user store. */
  datatype CreateTrainingDto = CreateTrainingDto(
    id: Option<int>,
    userId: int,
    startTime: Instant,
    endTime: Instant,
    activityType: ActivityType,
    distance: real,
    averageSpeed: real)
}
