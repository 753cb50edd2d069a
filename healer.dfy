/** The load-time healer: inside each goal's plan, the first bit with a given
    id keeps it and every later bit with an id already met gets a fresh one
    (`crypto.randomUUID()`, taken here from the oracle `uuids`, one entry per
    position).  Only ids of the original bits are remembered, so a fresh id
    is never checked against anything. */
module Healer {
  import opened Domain

  /** The id of bit `i` was met before: it is in `seen`, or an earlier bit
      carries it. */
  ghost predicate SeenBefore(plan: seq<Bit>, seen: set<string>, i: int)
    requires 0 <= i < |plan|
  {
    plan[i].id in seen || exists j :: 0 <= j < i && plan[j].id == plan[i].id
  }

  /** The plan's `map`, with `seen` the ids recorded so far. */
  function HealFrom(plan: seq<Bit>, seen: set<string>, uuids: seq<string>): (r: seq<Bit>)
    requires |uuids| >= |plan|
    ensures |r| == |plan|
  {
    if plan == [] then []
    else if plan[0].id in seen then [plan[0].(id := uuids[0])] + HealFrom(plan[1..], seen, uuids[1..])
    else [plan[0]] + HealFrom(plan[1..], seen + {plan[0].id}, uuids[1..])
  }

  function HealPlan(plan: seq<Bit>, uuids: seq<string>): (r: seq<Bit>)
    requires |uuids| >= |plan|
    ensures |r| == |plan|
  {
    HealFrom(plan, {}, uuids)
  }

  /** A healed goal: the same goal with its plan healed.  When nothing was
      duplicated this is the goal itself (`HealKeepsCleanPlan`). */
  function HealGoal(g: Goal, uuids: seq<string>): (r: Goal)
    requires |uuids| >= |g.savingsPlan|
    ensures r.(savingsPlan := g.savingsPlan) == g
    ensures |r.savingsPlan| == |g.savingsPlan|
  {
    g.(savingsPlan := HealPlan(g.savingsPlan, uuids))
  }

  /** The healer applied to every loaded goal; `uuids[k]` serves goal `k`. */
  function HealGoals(goals: seq<Goal>, uuids: seq<seq<string>>): (r: seq<Goal>)
    requires |uuids| >= |goals|
    requires forall k :: 0 <= k < |goals| ==> |uuids[k]| >= |goals[k].savingsPlan|
    ensures |r| == |goals|
    ensures forall k :: 0 <= k < |goals| ==> r[k] == HealGoal(goals[k], uuids[k])
  {
    if goals == [] then [] else [HealGoal(goals[0], uuids[0])] + HealGoals(goals[1..], uuids[1..])
  }

  /** Position by position: a bit whose id was met before gets its fresh id,
      every other bit is returned as it was, and no other field changes. */
  lemma {:induction false} HealFromPointwise(plan: seq<Bit>, seen: set<string>, uuids: seq<string>)
    requires |uuids| >= |plan|
    ensures forall i :: 0 <= i < |plan| ==>
      HealFrom(plan, seen, uuids)[i]
        == (if SeenBefore(plan, seen, i) then plan[i].(id := uuids[i]) else plan[i])
    decreases |plan|
  {
    if plan != [] {
      var seen' := if plan[0].id in seen then seen else seen + {plan[0].id};
      var tail := plan[1..];
      HealFromPointwise(tail, seen', uuids[1..]);
      var r := HealFrom(plan, seen, uuids);
      forall i | 0 <= i < |plan|
        ensures r[i] == (if SeenBefore(plan, seen, i) then plan[i].(id := uuids[i]) else plan[i])
      {
        if i > 0 {
          assert r[i] == HealFrom(tail, seen', uuids[1..])[i - 1];
          if SeenBefore(plan, seen, i) {
            if plan[i].id !in seen' {
              var j :| 0 <= j < i && plan[j].id == plan[i].id;
              assert tail[j - 1].id == tail[i - 1].id;
            }
            assert SeenBefore(tail, seen', i - 1);
          }
        }
      }
    }
  }

  /** A plan without repeated ids comes back unchanged. */
  lemma HealKeepsCleanPlan(plan: seq<Bit>, uuids: seq<string>)
    requires |uuids| >= |plan|
    requires forall i, j :: 0 <= i < j < |plan| ==> plan[i].id != plan[j].id
    ensures HealPlan(plan, uuids) == plan
  {
    HealFromPointwise(plan, {}, uuids);
    var r := HealPlan(plan, uuids);
    forall i | 0 <= i < |plan| ensures r[i] == plan[i] {
      assert !SeenBefore(plan, {}, i);
    }
  }

  /** After healing, no two bits of a plan share an id, provided the fresh
      ids are distinct from each other and from the loaded ids. */
  lemma HealedIdsDistinct(plan: seq<Bit>, uuids: seq<string>)
    requires |uuids| >= |plan|
    requires forall i, j :: 0 <= i < j < |uuids| ==> uuids[i] != uuids[j]
    requires forall i, j :: 0 <= i < |uuids| && 0 <= j < |plan| ==> uuids[i] != plan[j].id
    ensures forall i, j :: 0 <= i < j < |plan| ==> HealPlan(plan, uuids)[i].id != HealPlan(plan, uuids)[j].id
  {
    HealFromPointwise(plan, {}, uuids);
    var r := HealPlan(plan, uuids);
    forall i, j | 0 <= i < j < |plan| ensures r[i].id != r[j].id {
      if !SeenBefore(plan, {}, j) {
        assert plan[i].id != plan[j].id;
      }
    }
  }
}
