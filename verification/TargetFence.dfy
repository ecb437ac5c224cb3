/** Destination claims and fenced publication: a superseded owner can neither reclaim a target nor change it. */
module TargetFence {
  import opened Wrappers

  datatype FencingToken = FencingToken(pipelineId: string, runId: string, token: int, authorityId: string, epoch: int)

  /** A target claimed by one exact token. */
  datatype Fence = Fence(targetId: string, owner: FencingToken)

  datatype Status = Claimed | Committed

  datatype ClaimRow = ClaimRow(owner: FencingToken, status: Status)

  type Key = (string, string)

  type Contents = seq<string>

  /** The claim rows by target and pipeline, and the destination relations. */
  datatype State = State(claims: map<Key, ClaimRow>, relations: map<string, Contents>)

  function KeyOf(targetId: string, owner: FencingToken): Key {
    (targetId, owner.pipelineId)
  }

  /** Same authority and epoch, and a larger token, or the same token of the same run. */
  predicate ClaimIsAllowed(current: FencingToken, next: FencingToken) {
    current.authorityId == next.authorityId && current.epoch == next.epoch &&
    (current.token < next.token || (current.token == next.token && current.runId == next.runId))
  }

  predicate CanClaim(s: State, targetId: string, owner: FencingToken) {
    KeyOf(targetId, owner) in s.claims ==> ClaimIsAllowed(s.claims[KeyOf(targetId, owner)].owner, owner)
  }

  function AfterClaim(s: State, targetId: string, owner: FencingToken): State {
    if CanClaim(s, targetId, owner) then s.(claims := s.claims[KeyOf(targetId, owner) := ClaimRow(owner, Claimed)])
    else s
  }

  /** The touch statement matches exactly one row: the claim is still held by this very token. */
  predicate Holds(s: State, fence: Fence) {
    KeyOf(fence.targetId, fence.owner) in s.claims && s.claims[KeyOf(fence.targetId, fence.owner)].owner == fence.owner
  }

  function Relation(s: State, targetId: string): Contents {
    if targetId in s.relations then s.relations[targetId] else []
  }

  function ApplyAll(statements: seq<Contents -> Contents>, contents: Contents): Contents {
    if statements == [] then contents else ApplyAll(statements[1..], statements[0](contents))
  }

  function AfterPublish(s: State, fence: Fence, statements: seq<Contents -> Contents>): State {
    if statements != [] && Holds(s, fence) then
      State(
        s.claims[KeyOf(fence.targetId, fence.owner) := ClaimRow(fence.owner, Committed)],
        s.relations[fence.targetId := ApplyAll(statements, Relation(s, fence.targetId))])
    else s
  }

  // ---------------------------------------------------------------- the fence itself

  datatype Publication = Published | Lost | NoStatements

  /** Each method is one transaction under the table lock, so calls from any number of threads are serialized. */
  class Warehouse {
    var claims: map<Key, ClaimRow>
    var relations: map<string, Contents>

    constructor ()
      ensures Now() == State(map[], map[])
    {
      claims, relations := map[], map[];
    }

    function Now(): State
      reads this
    {
      State(claims, relations)
    }

    method Claim(targetId: string, owner: FencingToken) returns (fence: Option<Fence>)
      modifies this
      ensures Now() == AfterClaim(old(Now()), targetId, owner)
      ensures fence == if CanClaim(old(Now()), targetId, owner) then Some(Fence(targetId, owner)) else None
    {
      var key := KeyOf(targetId, owner);
      if key !in claims || ClaimIsAllowed(claims[key].owner, owner) {
        claims := claims[key := ClaimRow(owner, Claimed)];
        return Some(Fence(targetId, owner));
      }
      return None;
    }

    method ExecuteStatements(fence: Fence, statements: seq<Contents -> Contents>) returns (r: Publication)
      modifies this
      ensures Now() == AfterPublish(old(Now()), fence, statements)
      ensures r == if statements == [] then NoStatements else if Holds(old(Now()), fence) then Published else Lost
    {
      if statements == [] {
        return NoStatements;
      }
      var key := KeyOf(fence.targetId, fence.owner);
      if key !in claims || claims[key].owner != fence.owner {
        return Lost;
      }
      var contents := if fence.targetId in relations then relations[fence.targetId] else [];
      ghost var first := contents;
      for i := 0 to |statements|
        invariant ApplyAll(statements[i..], contents) == ApplyAll(statements, first)
      {
        assert statements[i..][1..] == statements[i + 1..];
        contents := statements[i](contents);
      }
      relations := relations[fence.targetId := contents];
      claims := claims[key := ClaimRow(fence.owner, Committed)];
      return Published;
    }
  }

  // ---------------------------------------------------------------- every run

  datatype Step =
    | ClaimStep(targetId: string, owner: FencingToken)
    | PublishStep(fence: Fence, statements: seq<Contents -> Contents>)

  function After(s: State, step: Step): State {
    match step
    case ClaimStep(targetId, owner) => AfterClaim(s, targetId, owner)
    case PublishStep(fence, statements) => AfterPublish(s, fence, statements)
  }

  function AfterSteps(s: State, steps: seq<Step>): State
    decreases |steps|
  {
    if steps == [] then s else AfterSteps(After(s, steps[0]), steps[1..])
  }

  /** A later owner of one key: reachable from the earlier by zero or more allowed claims. */
  predicate Succeeds(later: FencingToken, earlier: FencingToken) {
    later == earlier || (later.authorityId == earlier.authorityId && later.epoch == earlier.epoch &&
      (earlier.token < later.token || (earlier.token == later.token && earlier.runId == later.runId)))
  }

  /** Once claimed, a key keeps its authority, and its token never goes back, over every run. */
  lemma {:induction false} OwnersAdvance(s: State, steps: seq<Step>, key: Key)
    requires key in s.claims
    ensures key in AfterSteps(s, steps).claims && Succeeds(AfterSteps(s, steps).claims[key].owner, s.claims[key].owner)
    decreases |steps|
  {
    if steps != [] {
      OwnersAdvance(After(s, steps[0]), steps[1..], key);
    }
  }

  /** An older owner, or another run's owner with an equal token. */
  predicate Superseded(stale: FencingToken, current: FencingToken) {
    stale.token < current.token || (stale.token == current.token && stale.runId != current.runId)
  }

  /** From the moment a newer owner holds the key, the stale one can neither claim it nor change its relation, ever. */
  lemma SupersededNeverPublishes(
    s: State, steps: seq<Step>, targetId: string, stale: FencingToken, current: FencingToken,
    statements: seq<Contents -> Contents>)
    requires stale.pipelineId == current.pipelineId && Superseded(stale, current)
    requires Holds(s, Fence(targetId, current))
    ensures var later := AfterSteps(s, steps);
      !Holds(later, Fence(targetId, stale)) && !CanClaim(later, targetId, stale) &&
      AfterPublish(later, Fence(targetId, stale), statements) == later && AfterClaim(later, targetId, stale) == later
  {
    OwnersAdvance(s, steps, KeyOf(targetId, current));
  }

  /** Conversely a holder stays able to publish, whatever happens, exactly until another token is allowed to claim. */
  lemma {:induction false} HolderLosesOnlyToClaims(s: State, steps: seq<Step>, fence: Fence)
    requires Holds(s, fence)
    requires forall step :: step in steps && step.ClaimStep? ==>
      step.owner == fence.owner || KeyOf(step.targetId, step.owner) != KeyOf(fence.targetId, fence.owner) ||
      !ClaimIsAllowed(fence.owner, step.owner)
    ensures Holds(AfterSteps(s, steps), fence)
    decreases |steps|
  {
    if steps != [] {
      assert steps[0] in steps;
      HolderLosesOnlyToClaims(After(s, steps[0]), steps[1..], fence);
    }
  }

  /** A relation changes only in a publication by the token then holding its claim. */
  lemma {:induction false} OnlyHoldersMutate(s: State, steps: seq<Step>, targetId: string)
    returns (before: seq<Step>, publication: Step)
    requires Relation(AfterSteps(s, steps), targetId) != Relation(s, targetId)
    ensures before + [publication] <= steps && publication.PublishStep? && publication.fence.targetId == targetId
    ensures Holds(AfterSteps(s, before), publication.fence)
    decreases |steps|
  {
    var next := After(s, steps[0]);
    if Relation(next, targetId) != Relation(s, targetId) {
      before, publication := [], steps[0];
      assert steps == [steps[0]] + steps[1..];
    } else {
      before, publication := OnlyHoldersMutate(next, steps[1..], targetId);
      before := [steps[0]] + before;
      assert steps == [steps[0]] + steps[1..];
      assert before[1..] + [publication] <= steps[1..];
      assert before + [publication] == [steps[0]] + (before[1..] + [publication]);
    }
  }

  // ---------------------------------------------------------------- the concurrency probe

  /**
   The qualification probe: an old claim, the old and the newer claim racing in either order (a loser is suppressed),
   the newer claim again, a current write and a stale write.
  */
  method ExerciseConcurrentFence(warehouse: Warehouse, targetId: string, old_: FencingToken, newer: FencingToken)
    returns (staleRejected: bool)
    requires old_.pipelineId == newer.pipelineId && old_.token < newer.token
    requires old_.authorityId == newer.authorityId && old_.epoch == newer.epoch
    requires KeyOf(targetId, old_) !in warehouse.claims && targetId !in warehouse.relations
    modifies warehouse
    ensures staleRejected
    ensures targetId in warehouse.relations && warehouse.relations[targetId] == ["current"]
    ensures Holds(warehouse.Now(), Fence(targetId, newer))
  {
    var oldPublication := warehouse.Claim(targetId, old_);
    var oldFirst: bool := *;
    if oldFirst {
      var one := warehouse.Claim(targetId, old_);
      var two := warehouse.Claim(targetId, newer);
    } else {
      var two := warehouse.Claim(targetId, newer);
      var one := warehouse.Claim(targetId, old_);
    }
    var currentPublication := warehouse.Claim(targetId, newer);
    var accept: Contents -> Contents := c => c + ["current"];
    var forbidden: Contents -> Contents := c => c + ["stale"];
    assert ApplyAll([accept], []) == ["current"] by {
      assert [accept][1..] == [];
    }
    var current := warehouse.ExecuteStatements(currentPublication.value, [accept]);
    var stale := warehouse.ExecuteStatements(oldPublication.value, [forbidden]);
    return stale == Lost;
  }

  /** Any number of racing claims by tokens the newest may follow leaves the newest claim possible. */
  lemma {:induction false} NewestAlwaysClaims(
    s: State, owners: seq<FencingToken>, targetId: string, newest: FencingToken)
    requires CanClaim(s, targetId, newest)
    requires forall o :: o in owners ==> o.pipelineId == newest.pipelineId && ClaimIsAllowed(o, newest)
    ensures CanClaim(AfterSteps(s, ClaimSteps(targetId, owners)), targetId, newest)
    decreases |owners|
  {
    if owners != [] {
      assert owners[0] in owners;
      assert ClaimSteps(targetId, owners)[1..] == ClaimSteps(targetId, owners[1..]);
      NewestAlwaysClaims(AfterClaim(s, targetId, owners[0]), owners[1..], targetId, newest);
    }
  }

  function ClaimSteps(targetId: string, owners: seq<FencingToken>): seq<Step> {
    seq(|owners|, i requires 0 <= i < |owners| => ClaimStep(targetId, owners[i]))
  }
}
