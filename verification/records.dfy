/**
 The JSON documents the scheduler exchanges with the placement authority and
 publishes to the coordination store (ecomp/schedule.py): allocation
 candidates, claims, scheduling messages and release messages.
 */
module Records {

  /** A JSON object member as the scheduler writes it: missing, explicitly `null`, or set. */
  datatype Field<+T> = Absent | Null | Present(value: T)

  type ProviderId = string

  /** One resource provider's share of an allocation: resource class to amount. */
  type Resources = map<string, int>

  /** One member of an `allocations` object. */
  datatype Entry = Entry(provider: ProviderId, resources: Resources)

  /**
   An `allocations` object, kept in its key order so that "the first key"
   (`list(allocations.keys())[0]`) is well defined.
   */
  type Allocations = seq<Entry>

  /** A JSON object names each provider at most once; the scheduler only ever reads the first entry. */
  ghost predicate DistinctProviders(a: Allocations)
  {
    forall i, j :: 0 <= i < j < |a| ==> a[i].provider != a[j].provider
  }

  /**
   A record as it travels over the wire: a claim body, a scheduling message,
   a fetched current allocation, or a release message. `others` holds every
   further member of the JSON object, by name, as opaque JSON text.
   */
  datatype Record = Record(
    allocations: Allocations,
    userId: Field<string>,
    projectId: Field<string>,
    consumerGeneration: Field<int>,
    instance: Field<string>,
    image: Field<string>,
    others: map<string, string>)

  /** The members the scheduler names; `others` stands for the rest, so it never repeats one of them. */
  const NamedMembers: set<string> := {"allocations", "user_id", "project_id", "consumer_generation", "instance", "image"}

  /** A record that stands for a JSON object without duplicated members. */
  predicate DistinctMembers(r: Record)
  {
    r.others.Keys !! NamedMembers
  }

  /** The provider an allocation targets: the first key of its `allocations` object. */
  function FirstProvider(a: Allocations): ProviderId
    requires |a| > 0
  {
    a[0].provider
  }

  /** The body of a claim PUT: the candidate's allocations, two fresh ids, and a null generation. */
  function Claim(a: Allocations, userId: string, projectId: string): Record
  {
    Record(a, Present(userId), Present(projectId), Null, Absent, Absent, map[])
  }

  /**
   A claim body has exactly the members `allocations` (the candidate's, whole),
   `user_id`, `project_id` and a null `consumer_generation`.
   */
  lemma ClaimShape(a: Allocations, userId: string, projectId: string)
    ensures var c := Claim(a, userId, projectId);
      && c.allocations == a
      && c.userId == Present(userId) && c.projectId == Present(projectId)
      && c.consumerGeneration == Null
      && c.instance == Absent && c.image == Absent && c.others == map[]
  {
  }

  /** The scheduling message: a copy of the accepted claim naming the consumer and the image. */
  function Message(claim: Record, consumer: string, image: string): Record
  {
    claim.(instance := Present(consumer), image := Present(image))
  }

  /**
   A message is its claim plus exactly the two members `instance` and `image`:
   dropping them gives the claim back, and every claim member is copied.
   */
  lemma MessageExtendsClaim(claim: Record, consumer: string, image: string)
    requires claim.instance == Absent && claim.image == Absent
    ensures var m := Message(claim, consumer, image);
      && m.instance == Present(consumer) && m.image == Present(image)
      && m.(instance := Absent, image := Absent) == claim
  {
  }

  /** The release message: the fetched allocation with its allocations emptied and its image nulled. */
  function Release(current: Record, instance: string): Record
  {
    current.(allocations := [], instance := Present(instance), image := Null)
  }

  /**
   A release message does not depend on the amounts that were allocated:
   records differing only in their allocations release identically, and
   releasing a release message changes nothing.
   */
  lemma ReleaseForgetsAmounts(a: Record, b: Record, instance: string)
    requires a.(allocations := b.allocations) == b
    ensures Release(a, instance) == Release(b, instance)
    ensures Release(Release(a, instance), instance) == Release(a, instance)
    ensures Release(a, instance).allocations == [] && Release(a, instance).image == Null
    ensures Release(a, instance).others == a.others
    ensures Release(a, instance).instance == Present(instance)
    ensures Release(a, instance).(allocations := a.allocations, instance := a.instance, image := a.image) == a
  {
  }

}
