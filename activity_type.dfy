/** The kinds of training the tracker knows about, and their display names. */
module Activities {

  import opened Wrappers

  /** The five activities, in declaration order. */
  datatype ActivityType = Running | Cycling | Walking | Swimming | Tennis

  /** Every activity, in declaration order. */
  const AllActivities: seq<ActivityType> := [Running, Cycling, Walking, Swimming, Tennis]

  /** The label shown to users; the tennis label keeps the source's spelling "Tenis". */
  function DisplayName(a: ActivityType): (name: string)
  {
    match a
    case Running => "Running"
    case Cycling => "Cycling"
    case Walking => "Walking"
    case Swimming => "Swimming"
    case Tennis => "Tenis"
  }

  /**
   * The declaration position, which is what the database column stores
   * (the activity is persisted by ordinal).
   */
  function Ordinal(a: ActivityType): (n: nat)
    ensures n < |AllActivities| && AllActivities[n] == a
  {
    match a
    case Running => 0
    case Cycling => 1
    case Walking => 2
    case Swimming => 3
    case Tennis => 4
  }

  /**
   * Reading a stored ordinal back: the activity whose ordinal it is. An
   * ordinal outside the enumeration has none.
   */
  function FromOrdinal(n: int): (r: Option<ActivityType>)
    ensures r.Some? <==> 0 <= n < |AllActivities|
    ensures r.Some? ==> Ordinal(r.value) == n
  {
    if 0 <= n < |AllActivities| then Some(AllActivities[n]) else None
  }

  /** Every value is listed exactly once. */
  lemma AllActivitiesComplete(a: ActivityType)
    ensures a in AllActivities
    ensures forall i, j :: 0 <= i < j < |AllActivities| ==> AllActivities[i] != AllActivities[j]
  {
  }

  /** A persisted activity reads back as itself. */
  lemma OrdinalRoundTrip(a: ActivityType)
    ensures FromOrdinal(Ordinal(a)) == Some(a)
  {
  }

  /** The five labels in declaration order; tennis keeps the one-n spelling. */
  lemma DisplayNameTable()
    ensures seq(|AllActivities|, i requires 0 <= i < |AllActivities| => DisplayName(AllActivities[i]))
         == ["Running", "Cycling", "Walking", "Swimming", "Tenis"]
  {
  }

  /** Distinct activities have distinct display names. */
  lemma DisplayNameInjective(a: ActivityType, b: ActivityType)
    ensures DisplayName(a) == DisplayName(b) <==> a == b
  {
  }
}
