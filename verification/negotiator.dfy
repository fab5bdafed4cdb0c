/**
 The claim negotiation of `_schedule` (ecomp/schedule.py:98-143): walk the
 ranked allocation candidates front to back under one consumer id, PUT a claim
 for each, stop at the first one the placement authority accepts and publish
 a scheduling message for it.

 The placement authority and the uuid generator are outside the model: the
 environment supplies, for the i-th attempt, the two fresh ids put into the
 claim and the authority's verdict on it, as `replies[i]`.
 */
module Negotiator {

  import opened Maybe
  import opened Records
  import opened Keys
  import opened Store

  /** What the environment supplies for one claim attempt. */
  datatype Reply = Reply(userId: string, projectId: string, accepted: bool)

  /** A claim PUT issued to the placement authority. */
  datatype Submission = Submission(url: string, claim: Record)

  /**
   How `_schedule` ends: it returns a boolean, or the IndexError raised when a
   candidate's allocations are empty escapes it.
   */
  datatype Verdict = Returned(success: bool) | Raised

  /** The verdict together with every claim submitted and every store put, in order. */
  datatype Outcome = Outcome(verdict: Verdict, submitted: seq<Submission>, published: seq<Put>)

  /** The claim PUT for one candidate. */
  function Attempt(candidate: Allocations, reply: Reply, consumer: string): Submission
  {
    Submission(ClaimUrl(consumer), Claim(candidate, reply.userId, reply.projectId))
  }

  /** The store put announcing that `consumer` won `candidate`. */
  function Publication(candidate: Allocations, reply: Reply, consumer: string, image: string): Put
    requires |candidate| > 0
  {
    var claim := Claim(candidate, reply.userId, reply.projectId);
    Put(HostKey(FirstProvider(candidate), consumer), Json(Message(claim, consumer, image)))
  }

  /**
   The published message names the consumer twice, in its key and in its
   `instance` member, and the key parses back to the winning provider (when
   that id holds no '/'); the message carries the candidate's allocations.
   */
  lemma PublicationParses(candidate: Allocations, reply: Reply, consumer: string, image: string)
    requires |candidate| > 0
    ensures var p := Publication(candidate, reply, consumer, image);
      && p.value.Json?
      && p.value.record.instance == Present(consumer)
      && p.value.record.image == Present(image)
      && p.value.record.allocations == candidate
      && IsHostKey(p.key)
      && ('/' !in FirstProvider(candidate) ==> ParseHostKey(p.key) == Some((FirstProvider(candidate), consumer)))
  {
    HostKeyNamespace(FirstProvider(candidate), consumer, consumer);
    if '/' !in FirstProvider(candidate) {
      ParseHostKeyRoundTrip(FirstProvider(candidate), consumer);
    }
  }

  /**
   The negotiation as the source runs it: pop the front candidate, claim it,
   publish and stop on acceptance, otherwise go on with the rest.
   */
  function Negotiate(candidates: seq<Allocations>, replies: seq<Reply>, consumer: string, image: string): (o: Outcome)
    requires |replies| == |candidates|
    ensures |o.submitted| <= |candidates|
    ensures |o.published| <= 1
    ensures forall i :: 0 <= i < |o.submitted| ==> o.submitted[i].url == ClaimUrl(consumer)
    ensures o.published != [] ==> o.verdict.Returned? && |o.submitted| > 0
    ensures o.verdict == Returned(true) ==> |o.published| == 1
    decreases |candidates|
  {
    if |candidates| == 0 then Outcome(Returned(false), [], [])
    else if |candidates[0]| == 0 then Outcome(Raised, [], [])
    else
      var target := FirstProvider(candidates[0]);
      var attempt := Attempt(candidates[0], replies[0], consumer);
      if replies[0].accepted then
        Outcome(Returned(target != ""), [attempt], [Publication(candidates[0], replies[0], consumer, image)])
      else
        var rest := Negotiate(candidates[1..], replies[1..], consumer, image);
        rest.(submitted := [attempt] + rest.submitted)
  }

  /** Candidate `j` was claimed and the claim was rejected. */
  ghost predicate RejectedAt(candidates: seq<Allocations>, replies: seq<Reply>, j: int)
    requires |replies| == |candidates|
  {
    0 <= j < |candidates| && |candidates[j]| > 0 && !replies[j].accepted
  }

  /**
   The number of candidates that are claimed and rejected before the
   negotiation stops, either at an accepted candidate, at a candidate naming
   no provider, or at the end of the list.
   */
  function FirstStop(candidates: seq<Allocations>, replies: seq<Reply>): (k: nat)
    requires |replies| == |candidates|
    ensures k <= |candidates|
    ensures forall j :: 0 <= j < k ==> |candidates[j]| > 0 && !replies[j].accepted
    ensures k < |candidates| ==> |candidates[k]| == 0 || replies[k].accepted
    decreases |candidates|
  {
    if |candidates| == 0 || |candidates[0]| == 0 || replies[0].accepted then 0
    else 1 + FirstStop(candidates[1..], replies[1..])
  }

  /** How many candidates are claimed: those rejected before the stop, plus the stopping one if it names a provider. */
  function Attempted(candidates: seq<Allocations>, replies: seq<Reply>): nat
    requires |replies| == |candidates|
  {
    var k := FirstStop(candidates, replies);
    if k < |candidates| && |candidates[k]| > 0 then k + 1 else k
  }

  /** The claims for the first `n` candidates, in order. */
  function Claims(candidates: seq<Allocations>, replies: seq<Reply>, consumer: string, n: nat): seq<Submission>
    requires |replies| == |candidates| && n <= |candidates|
  {
    seq(n, i requires 0 <= i < n => Attempt(candidates[i], replies[i], consumer))
  }

  /**
   What the negotiation is meant to do, stated from the stopping point alone:
   the candidates before it were each claimed once and rejected, and the
   candidate at it decides the verdict and the single publication.
   */
  function Expected(candidates: seq<Allocations>, replies: seq<Reply>, consumer: string, image: string): Outcome
    requires |replies| == |candidates|
  {
    var k := FirstStop(candidates, replies);
    if k == |candidates| then
      Outcome(Returned(false), Claims(candidates, replies, consumer, k), [])
    else if |candidates[k]| == 0 then
      Outcome(Raised, Claims(candidates, replies, consumer, k), [])
    else
      Outcome(Returned(FirstProvider(candidates[k]) != ""),
              Claims(candidates, replies, consumer, k + 1),
              [Publication(candidates[k], replies[k], consumer, image)])
  }

  /** FirstStop is the only index with its two defining properties. */
  lemma FirstStopUnique(candidates: seq<Allocations>, replies: seq<Reply>, k: nat)
    requires |replies| == |candidates| && k <= |candidates|
    requires forall j :: 0 <= j < k ==> |candidates[j]| > 0 && !replies[j].accepted
    requires k < |candidates| ==> |candidates[k]| == 0 || replies[k].accepted
    ensures FirstStop(candidates, replies) == k
  {
  }

  lemma ClaimsStep(candidates: seq<Allocations>, replies: seq<Reply>, consumer: string, n: nat)
    requires |replies| == |candidates| && 0 < |candidates| && n < |candidates|
    ensures Claims(candidates, replies, consumer, n + 1)
         == [Attempt(candidates[0], replies[0], consumer)] + Claims(candidates[1..], replies[1..], consumer, n)
  {
  }

  lemma ClaimsExtend(candidates: seq<Allocations>, replies: seq<Reply>, consumer: string, n: nat)
    requires |replies| == |candidates| && n < |candidates|
    ensures Claims(candidates, replies, consumer, n + 1)
         == Claims(candidates, replies, consumer, n) + [Attempt(candidates[n], replies[n], consumer)]
  {
  }

  /** The negotiation does exactly what Expected describes, for every input. */
  lemma {:induction false} NegotiateMeetsExpected(candidates: seq<Allocations>, replies: seq<Reply>, consumer: string, image: string)
    requires |replies| == |candidates|
    ensures Negotiate(candidates, replies, consumer, image) == Expected(candidates, replies, consumer, image)
    decreases |candidates|
  {
    if |candidates| == 0 || |candidates[0]| == 0 {
    } else if replies[0].accepted {
      assert FirstStop(candidates, replies) == 0;
      ClaimsStep(candidates, replies, consumer, 0);
    } else {
      var c', r' := candidates[1..], replies[1..];
      NegotiateMeetsExpected(c', r', consumer, image);
      var k' := FirstStop(c', r');
      assert FirstStop(candidates, replies) == k' + 1;
      if k' < |c'| {
        assert candidates[k' + 1] == c'[k'];
        if |c'[k']| > 0 {
          ClaimsStep(candidates, replies, consumer, k' + 1);
        } else {
          ClaimsStep(candidates, replies, consumer, k');
        }
      } else {
        ClaimsStep(candidates, replies, consumer, k');
      }
    }
  }

  /**
   Candidates are claimed strictly front to back, each at most once, under one
   consumer id; each claim carries exactly its candidate's allocations, the
   reply's fresh ids and a null consumer generation; every claim but the last
   was rejected.
   */
  lemma {:induction false} AttemptsFollowCandidateOrder(candidates: seq<Allocations>, replies: seq<Reply>, consumer: string, image: string)
    requires |replies| == |candidates|
    ensures var o := Negotiate(candidates, replies, consumer, image);
      && |o.submitted| <= |candidates|
      && (forall i :: 0 <= i < |o.submitted| ==>
            o.submitted[i].url == ClaimUrl(consumer)
            && o.submitted[i].claim.allocations == candidates[i]
            && o.submitted[i].claim.userId == Present(replies[i].userId)
            && o.submitted[i].claim.projectId == Present(replies[i].projectId)
            && o.submitted[i].claim.consumerGeneration == Null)
      && (forall i :: 0 <= i < |o.submitted| - 1 ==> !replies[i].accepted)
  {
    NegotiateMeetsExpected(candidates, replies, consumer, image);
  }

  /**
   When candidate k is the first one accepted, candidates 0..k are claimed,
   exactly one message is published, keyed by k's first provider and the
   consumer, and the result is whether that provider id is non-empty.
   */
  lemma FirstAcceptanceWins(candidates: seq<Allocations>, replies: seq<Reply>, consumer: string, image: string, k: nat)
    requires |replies| == |candidates| && k < |candidates|
    requires forall j :: 0 <= j < k ==> RejectedAt(candidates, replies, j)
    requires |candidates[k]| > 0 && replies[k].accepted
    ensures var o := Negotiate(candidates, replies, consumer, image);
      && o.submitted == Claims(candidates, replies, consumer, k + 1)
      && o.published == [Put(HostKey(FirstProvider(candidates[k]), consumer),
                             Json(Message(Claim(candidates[k], replies[k].userId, replies[k].projectId), consumer, image)))]
      && o.verdict == Returned(FirstProvider(candidates[k]) != "")
  {
    forall j | 0 <= j < k ensures |candidates[j]| > 0 && !replies[j].accepted {
      assert RejectedAt(candidates, replies, j);
    }
    FirstStopUnique(candidates, replies, k);
    NegotiateMeetsExpected(candidates, replies, consumer, image);
  }

  /**
   When every candidate (possibly none) is claimed and rejected, the result is
   false, every candidate was claimed once, and nothing is published.
   */
  lemma ExhaustionFails(candidates: seq<Allocations>, replies: seq<Reply>, consumer: string, image: string)
    requires |replies| == |candidates|
    requires forall j :: 0 <= j < |candidates| ==> RejectedAt(candidates, replies, j)
    ensures Negotiate(candidates, replies, consumer, image)
         == Outcome(Returned(false), Claims(candidates, replies, consumer, |candidates|), [])
  {
    forall j | 0 <= j < |candidates| ensures |candidates[j]| > 0 && !replies[j].accepted {
      assert RejectedAt(candidates, replies, j);
    }
    FirstStopUnique(candidates, replies, |candidates|);
    NegotiateMeetsExpected(candidates, replies, consumer, image);
  }

  /**
   A candidate with empty allocations reached after rejections raises out of
   the negotiation, after the earlier claims and with nothing published.
   */
  lemma EmptyCandidateRaises(candidates: seq<Allocations>, replies: seq<Reply>, consumer: string, image: string, k: nat)
    requires |replies| == |candidates| && k < |candidates|
    requires forall j :: 0 <= j < k ==> RejectedAt(candidates, replies, j)
    requires |candidates[k]| == 0
    ensures Negotiate(candidates, replies, consumer, image)
         == Outcome(Raised, Claims(candidates, replies, consumer, k), [])
  {
    forall j | 0 <= j < k ensures |candidates[j]| > 0 && !replies[j].accepted {
      assert RejectedAt(candidates, replies, j);
    }
    FirstStopUnique(candidates, replies, k);
    NegotiateMeetsExpected(candidates, replies, consumer, image);
  }

  /** Candidate k is the first accepted one, after only rejections. */
  ghost predicate WinsAt(candidates: seq<Allocations>, replies: seq<Reply>, k: int)
    requires |replies| == |candidates|
  {
    && 0 <= k < |candidates|
    && (forall j :: 0 <= j < k ==> RejectedAt(candidates, replies, j))
    && |candidates[k]| > 0 && replies[k].accepted
  }

  /** Candidate k names no provider and is reached after only rejections. */
  ghost predicate RaisesAt(candidates: seq<Allocations>, replies: seq<Reply>, k: int)
    requires |replies| == |candidates|
  {
    && 0 <= k < |candidates|
    && (forall j :: 0 <= j < k ==> RejectedAt(candidates, replies, j))
    && |candidates[k]| == 0
  }

  /**
   The negotiation reports success exactly when some candidate wins and its
   first provider id is non-empty; it raises exactly when an empty candidate
   is reached; and something is published exactly when some candidate wins.
   */
  lemma VerdictCharacterized(candidates: seq<Allocations>, replies: seq<Reply>, consumer: string, image: string)
    requires |replies| == |candidates|
    ensures var o := Negotiate(candidates, replies, consumer, image);
      && (o.verdict == Returned(true) <==>
            exists k :: WinsAt(candidates, replies, k) && FirstProvider(candidates[k]) != "")
      && (o.verdict == Raised <==> exists k :: RaisesAt(candidates, replies, k))
      && (o.published != [] <==> exists k :: WinsAt(candidates, replies, k))
  {
    NegotiateMeetsExpected(candidates, replies, consumer, image);
    var s := FirstStop(candidates, replies);
    forall k | WinsAt(candidates, replies, k) || RaisesAt(candidates, replies, k)
      ensures k == s
    {
      assert s < k ==> RejectedAt(candidates, replies, s);
    }
    if s < |candidates| {
      if |candidates[s]| > 0 {
        assert WinsAt(candidates, replies, s);
      } else {
        assert RaisesAt(candidates, replies, s);
      }
    }
  }

  /**
   Candidates after the stopping point are never touched, and the reply for a
   candidate that raises is never read: two runs whose candidates agree up to
   and including the one where the first run stops, and whose replies agree
   for the claimed candidates, end the same.
   */
  lemma {:induction false} LaterCandidatesUntouched(c1: seq<Allocations>, r1: seq<Reply>, c2: seq<Allocations>, r2: seq<Reply>,
                                                   consumer: string, image: string)
    requires |r1| == |c1| && |r2| == |c2|
    requires FirstStop(c1, r1) < |c1| <= |c2|
    requires c1[..FirstStop(c1, r1) + 1] == c2[..FirstStop(c1, r1) + 1]
    requires r1[..Attempted(c1, r1)] == r2[..Attempted(c1, r1)]
    ensures Negotiate(c1, r1, consumer, image) == Negotiate(c2, r2, consumer, image)
  {
    var k := FirstStop(c1, r1);
    var n := Attempted(c1, r1);
    forall j | 0 <= j <= k ensures c1[j] == c2[j] {
      assert c1[j] == c1[..k + 1][j] && c2[j] == c2[..k + 1][j];
    }
    forall j | 0 <= j < n ensures r1[j] == r2[j] {
      assert r1[j] == r1[..n][j] && r2[j] == r2[..n][j];
    }
    FirstStopUnique(c2, r2, k);
    NegotiateMeetsExpected(c1, r1, consumer, image);
    NegotiateMeetsExpected(c2, r2, consumer, image);
    assert Claims(c1, r1, consumer, n) == Claims(c2, r2, consumer, n);
  }

  /**
   A worked case: the claim on PROV-A is rejected, the claim on PROV-B is
   accepted; both are claimed in order and one message for PROV-B is published.
   */
  lemma {:induction false} TwoCandidateScenario(consumer: string, image: string, a: Reply, b: Reply)
    requires !a.accepted && b.accepted
    ensures var candidates := [[Entry("PROV-A", map["VCPU" := 2])], [Entry("PROV-B", map["VCPU" := 2])]];
      var o := Negotiate(candidates, [a, b], consumer, image);
      && o.verdict == Returned(true)
      && |o.submitted| == 2
      && o.submitted[0].claim.allocations == candidates[0]
      && o.submitted[1].claim.allocations == candidates[1]
      && |o.published| == 1
      && o.published[0].key == HostKey("PROV-B", consumer)
      && o.published[0].value.record.allocations == [Entry("PROV-B", map["VCPU" := 2])]
      && o.published[0].value.record.image == Present(image)
      && o.published[0].value.record.instance == Present(consumer)
  {
    var candidates := [[Entry("PROV-A", map["VCPU" := 2])], [Entry("PROV-B", map["VCPU" := 2])]];
    assert RejectedAt(candidates, [a, b], 0);
    FirstAcceptanceWins(candidates, [a, b], consumer, image, 1);
  }

  /**
   The loop of `_schedule` as written: pop the front candidate, claim it,
   publish and break on acceptance, otherwise clear the target and continue;
   the result is the truthiness of `target` after the loop.
   */
  method ScheduleLoop(candidates: seq<Allocations>, replies: seq<Reply>, consumer: string, image: string)
    returns (o: Outcome)
    requires |replies| == |candidates|
    ensures o == Expected(candidates, replies, consumer, image)
  {
    var remaining := candidates;
    var pending := replies;
    var target: Option<ProviderId> := None;
    var submitted: seq<Submission> := [];
    var published: seq<Put> := [];
    ghost var i := 0;
    while true
      invariant i <= FirstStop(candidates, replies)
      invariant remaining == candidates[i..] && pending == replies[i..]
      invariant submitted == Claims(candidates, replies, consumer, i)
      invariant published == [] && target == None
      decreases |remaining|
    {
      if |remaining| == 0 {
        break;
      }
      var first := remaining[0];
      var reply := pending[0];
      remaining, pending := remaining[1..], pending[1..];
      if |first| == 0 {
        return Outcome(Raised, submitted, published);
      }
      target := Some(FirstProvider(first));
      var claim := Claim(first, reply.userId, reply.projectId);
      ClaimsExtend(candidates, replies, consumer, i);
      submitted := submitted + [Submission(ClaimUrl(consumer), claim)];
      if reply.accepted {
        published := published + [Put(HostKey(target.value, consumer), Json(Message(claim, consumer, image)))];
        break;
      }
      target := None;
      i := i + 1;
    }
    var success := target.Some? && target.value != "";
    o := Outcome(Returned(success), submitted, published);
  }

}
