/**
 The command layer of ecomp/schedule.py: `main` maps an argument vector to a
 command, and `schedule`, `destroy` and `query` turn the placement authority's
 and the store's answers into store writes and an exit status.

 Every network read is an input: the candidate fetch, the current-allocation
 fetch, the per-attempt replies and the consumer id are carried by an
 Environment. Termination via `sys.exit` becomes a returned Status.
 */
module Manager {

  import opened Maybe
  import opened Records
  import opened Keys
  import opened Store
  import opened Negotiator

  /** The image scheduled when none is given on the command line. */
  const DefaultImage: string := "http://download.cirros-cloud.net/0.3.6/cirros-0.3.6-x86_64-disk.img"

  /** The marker that makes an argument a resource request. */
  const ResourcesMarker: string := "resources"

  datatype Command =
    | Help
    | Schedule(resources: string, image: string)
    | Destroy(instance: string)
    | Query(instance: string)
    | Unknown

  /** How the process ends: `sys.exit(code)` or falling off `main` (code 0), or an uncaught exception. */
  datatype Status = Exit(code: nat) | Traceback

  /**
   The answers of the outside world for one run. `candidates` is None when the
   candidate fetch returns an error status; `allocation` is None when the
   current-allocation fetch does.
   */
  datatype Environment = Environment(
    candidates: Option<seq<Allocations>>,
    consumer: string,
    replies: seq<Reply>,
    allocation: Option<Record>)

  /** The replies line up with the fetched candidates, one per candidate. */
  predicate Aligned(env: Environment)
  {
    env.candidates.Some? ==> |env.replies| == |env.candidates.value|
  }

  /** The exit status, the claims submitted, the puts published, and the store afterwards. */
  datatype Effect = Effect(status: Status, submitted: seq<Submission>, published: seq<Put>, store: Store)

  /** `needle` occurs in `hay` starting at position i. */
  ghost predicate OccursAt(needle: string, hay: string, i: int)
  {
    0 <= i && i + |needle| <= |hay| && hay[i..i + |needle|] == needle
  }

  /** Python's `needle in hay` on strings. */
  function Contains(needle: string, hay: string): (b: bool)
    ensures b <==> exists i :: OccursAt(needle, hay, i)
    decreases |hay|
  {
    if |hay| < |needle| then false
    else if hay[..|needle|] == needle then
      assert OccursAt(needle, hay, 0);
      true
    else
      var rest := Contains(needle, hay[1..]);
      assert forall i :: OccursAt(needle, hay[1..], i) ==> OccursAt(needle, hay, i + 1);
      assert forall i :: OccursAt(needle, hay, i) && i > 0 ==> OccursAt(needle, hay[1..], i - 1);
      rest
  }

  /** An argument that asks for scheduling: it mentions the resources marker anywhere. */
  ghost predicate IsResourceRequest(arg: string)
  {
    exists i :: OccursAt(ResourcesMarker, arg, i)
  }

  /** The command `main` runs for an argument vector. */
  function Dispatch(args: seq<string>): (c: Command)
    ensures c == Help <==> |args| == 0
    ensures c.Schedule? <==> |args| > 0 && IsResourceRequest(args[0])
    ensures c.Schedule? ==> c.resources == args[0]
                            && c.image == (if |args| > 1 then args[1] else DefaultImage)
    ensures c.Destroy? <==> |args| == 2 && args[0] == "destroy" && !IsResourceRequest(args[0])
    ensures c.Destroy? ==> c.instance == args[1]
    ensures c.Unknown? <==> |args| == 2 && args[0] != "destroy" && !IsResourceRequest(args[0])
    ensures c.Query? <==> |args| > 0 && |args| != 2 && !IsResourceRequest(args[0])
    ensures c.Query? ==> c.instance == args[0]
  {
    if |args| == 0 then Help
    else if Contains(ResourcesMarker, args[0]) then
      Schedule(args[0], if |args| > 1 then args[1] else DefaultImage)
    else if |args| == 2 then
      if args[0] == "destroy" then Destroy(args[1]) else Unknown
    else Query(args[0])
  }

  /**
   `schedule`: exit 1 when the candidate fetch fails or the negotiation
   reports failure; otherwise the negotiation's effects stand and `main`
   returns normally.
   */
  function ScheduleCommand(candidates: Option<seq<Allocations>>, replies: seq<Reply>,
                           consumer: string, image: string, store: Store): (e: Effect)
    requires candidates.Some? ==> |replies| == |candidates.value|
    ensures e.store == Apply(store, e.published)
    ensures candidates.None? ==> e.submitted == [] && e.published == [] && e.status == Exit(1)
    ensures e.status == Exit(0) <==>
      candidates.Some? && exists k :: WinsAt(candidates.value, replies, k)
                                     && FirstProvider(candidates.value[k]) != ""
    ensures e.status == Traceback <==>
      candidates.Some? && exists k :: RaisesAt(candidates.value, replies, k)
    ensures e.status == Exit(0) || e.status == Exit(1) || e.status == Traceback
    ensures e.published != [] <==>
      candidates.Some? && exists k :: WinsAt(candidates.value, replies, k)
  {
    match candidates
    case None => Effect(Exit(1), [], [], store)
    case Some(list) =>
      VerdictCharacterized(list, replies, consumer, image);
      var o := Negotiate(list, replies, consumer, image);
      var status := match o.verdict
        case Raised => Traceback
        case Returned(ok) => if ok then Exit(0) else Exit(1);
      Effect(status, o.submitted, o.published, Apply(store, o.published))
  }

  /**
   `destroy`: when the current allocation is found, publish a release message
   at the key of its first provider; a failed fetch writes nothing and, as
   written, does not exit with an error.
   */
  function DestroyCommand(allocation: Option<Record>, instance: string, store: Store): (e: Effect)
    ensures e.submitted == [] && e.store == Apply(store, e.published)
    ensures allocation.None? ==> e.status == Exit(0) && e.published == []
    ensures allocation.Some? && allocation.value.allocations == [] ==>
      e.status == Traceback && e.published == []
    ensures allocation.Some? && allocation.value.allocations != [] ==>
      var current := allocation.value;
      && e.status == Exit(0)
      && |e.published| == 1
      && e.published[0].key == HostKey(current.allocations[0].provider, instance)
      && e.published[0].value.Json?
      && var released := e.published[0].value.record;
         && released.allocations == []
         && released.image == Null
         && released.instance == Present(instance)
         && released.userId == current.userId
         && released.projectId == current.projectId
         && released.consumerGeneration == current.consumerGeneration
         && released.others == current.others
  {
    match allocation
    case None => Effect(Exit(0), [], [], store)
    case Some(current) =>
      if |current.allocations| == 0 then Effect(Traceback, [], [], store)
      else
        var target := FirstProvider(current.allocations);
        var put := Put(HostKey(target, instance), Json(Release(current, instance)));
        Effect(Exit(0), [], [put], store[put.key := put.value])
  }

  /**
   Releasing the winner of a negotiation overwrites its scheduling message in
   place: the release is put at the very key the message was published under,
   replaces it there, and adds no key to the store.
   */
  lemma ReleaseOverwritesScheduled(candidates: seq<Allocations>, replies: seq<Reply>, consumer: string,
                                   image: string, k: nat, current: Record, store: Store)
    requires |replies| == |candidates|
    requires WinsAt(candidates, replies, k)
    requires |current.allocations| > 0 && FirstProvider(current.allocations) == FirstProvider(candidates[k])
    ensures var o := Negotiate(candidates, replies, consumer, image);
      var scheduled := Apply(store, o.published);
      var e := DestroyCommand(Some(current), consumer, scheduled);
      && |o.published| == 1 && |e.published| == 1
      && e.published[0].key == o.published[0].key
      && e.store.Keys == scheduled.Keys
      && e.store == scheduled[o.published[0].key := Json(Release(current, consumer))]
  {
    FirstAcceptanceWins(candidates, replies, consumer, image, k);
  }

  /** A value the agent stored counts as found when it is non-empty, as Python's truthiness has it. */
  predicate Truthy(v: StoreValue)
  {
    match v
    case Raw(text) => |text| > 0
    case Json(_) => true
  }

  /** `query`: exit 0 when a non-empty address is stored for the instance, 1 otherwise. */
  function QueryCommand(instance: string, store: Store): (e: Effect)
    ensures e.store == store && e.submitted == [] && e.published == []
    ensures e.status == Exit(0) || e.status == Exit(1)
    ensures e.status == Exit(0) <==> BootedKey(instance) in store && Truthy(store[BootedKey(instance)])
  {
    var key := BootedKey(instance);
    if key in store && Truthy(store[key]) then Effect(Exit(0), [], [], store)
    else Effect(Exit(1), [], [], store)
  }

  /** `main`: dispatch on the arguments and run the chosen command. */
  function Main(args: seq<string>, env: Environment, store: Store): (e: Effect)
    requires Aligned(env)
    ensures e.store == Apply(store, e.published)
    ensures |e.published| <= 1
    ensures e.submitted != [] ==> Dispatch(args).Schedule?
    ensures e.published != [] ==> Dispatch(args).Schedule? || Dispatch(args).Destroy?
    ensures Dispatch(args) == Unknown ==> e.status == Exit(1)
    ensures Dispatch(args) == Help ==> e.status == Exit(0)
  {
    match Dispatch(args)
    case Help => Effect(Exit(0), [], [], store)
    case Schedule(resources, image) => ScheduleCommand(env.candidates, env.replies, env.consumer, image, store)
    case Destroy(instance) => DestroyCommand(env.allocation, instance, store)
    case Query(instance) => QueryCommand(instance, store)
    case Unknown => Effect(Exit(1), [], [], store)
  }

  /**
   No command writes the `/booted/` namespace that `query` reads: after any
   run of `main` the entry for every instance is as it was, so a later query
   answers as it would have before.
   */
  lemma MainLeavesBooted(args: seq<string>, env: Environment, store: Store, instance: string)
    requires Aligned(env)
    ensures var e := Main(args, env, store);
      && (BootedKey(instance) in e.store <==> BootedKey(instance) in store)
      && (BootedKey(instance) in store ==> e.store[BootedKey(instance)] == store[BootedKey(instance)])
      && QueryCommand(instance, e.store).status == QueryCommand(instance, store).status
  {
    var e := Main(args, env, store);
    var key := BootedKey(instance);
    match Dispatch(args)
    case Schedule(resources, image) =>
      if env.candidates.Some? {
        var list := env.candidates.value;
        NegotiateMeetsExpected(list, env.replies, env.consumer, image);
        var k := FirstStop(list, env.replies);
        if k < |list| && |list[k]| > 0 {
          HostKeyNamespace(FirstProvider(list[k]), env.consumer, instance);
          assert Written(e.published) == {HostKey(FirstProvider(list[k]), env.consumer)};
        } else {
          assert e.published == [];
        }
      }
    case Destroy(i) =>
      if env.allocation.Some? && |env.allocation.value.allocations| > 0 {
        HostKeyNamespace(FirstProvider(env.allocation.value.allocations), i, instance);
        assert Written(e.published) == {HostKey(FirstProvider(env.allocation.value.allocations), i)};
      }
    case _ =>
  }

}
