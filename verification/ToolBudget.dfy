/**
 Tool-call counters of a case run. A specialist's counter is nested under the lead's: a call
 is granted only if every counter up the chain has room, and then all of them count it.
 */
module ToolBudget {

  class ExecutionBudget {
    const deadline: int
    const maxCalls: nat
    const parent: ExecutionBudget?
    ghost const depth: nat
    var calls: nat

    ghost predicate Valid()
      decreases depth
    {
      parent != null ==> parent.depth < depth && parent.Valid()
    }

    constructor (deadline: int, maxCalls: nat, parent: ExecutionBudget?)
      requires parent != null ==> parent.Valid()
      ensures Valid() && calls == 0
      ensures this.deadline == deadline && this.maxCalls == maxCalls && this.parent == parent
    {
      this.deadline, this.maxCalls, this.parent, calls := deadline, maxCalls, parent, 0;
      depth := if parent == null then 0 else parent.depth + 1;
    }

    /** This counter and everything above it. */
    ghost function Chain(): (chain: set<ExecutionBudget>)
      requires Valid()
      ensures this in chain
      ensures forall b | b in chain :: b.depth <= depth && (b != this ==> b.depth < depth)
      decreases depth
    {
      {this} + if parent == null then {} else parent.Chain()
    }

    predicate HasRoom(now: int)
      reads this
    {
      now < deadline && calls < maxCalls
    }

    /** All or nothing: granted exactly when the whole chain has room, and then counted on all of it. */
    method ConsumeTool(now: int) returns (granted: bool)
      requires Valid()
      modifies Chain()
      ensures granted <==> old(forall b | b in Chain() :: b.HasRoom(now))
      ensures forall b | b in Chain() && old(allocated(b)) :: b.calls == old(b.calls) + if granted then 1 else 0
      decreases depth
    {
      if deadline <= now || calls >= maxCalls {
        assert this in Chain() && !old(this.HasRoom(now));
        return false;
      }
      if parent != null {
        var above := parent.ConsumeTool(now);
        if !above {
          return false;
        }
      }
      calls := calls + 1;
      granted := true;
    }
  }

  function Calls(kids: seq<ExecutionBudget>): seq<nat>
    reads kids
  {
    seq(|kids|, i requires 0 <= i < |kids| reads kids => kids[i].calls)
  }

  function Sum(xs: seq<nat>): nat {
    if xs == [] then 0 else Sum(xs[..|xs| - 1]) + xs[|xs| - 1]
  }

  lemma {:induction false} SumUpdate(xs: seq<nat>, i: nat, x: nat)
    requires i < |xs|
    ensures Sum(xs[i := x]) == Sum(xs) - xs[i] + x
  {
    var n := |xs| - 1;
    if i < n {
      assert xs[i := x][..n] == xs[..n][i := x];
      SumUpdate(xs[..n], i, x);
    } else {
      assert xs[i := x][..n] == xs[..n];
    }
  }

  const LEAD_CALLS := 48
  const SPECIALIST_CALLS := 12
  const SPECIALIST_SECONDS := 90
  const MAX_SPECIALISTS := 3

  /** The lead's counter, the counters of its specialists, and the calls the lead made itself. */
  class RunBudget {
    const lead: ExecutionBudget
    var specialists: seq<ExecutionBudget>
    ghost var own: nat

    /** Every call is counted once at the lead, whoever made it, and nobody passes their limit. */
    ghost predicate Valid()
      reads this, lead, specialists
    {
      && lead.Valid() && lead.parent == null && lead.maxCalls == 48
      && lead.calls <= 48
      && |specialists| <= 3
      && (forall i | 0 <= i < |specialists| ::
            && specialists[i].Valid() && specialists[i].parent == lead && specialists[i] != lead
            && specialists[i].maxCalls == 12 && specialists[i].calls <= 12
            && specialists[i].deadline <= lead.deadline)
      && (forall i, j | 0 <= i < j < |specialists| :: specialists[i] != specialists[j])
      && lead.calls == own + Sum(Calls(specialists))
    }

    constructor (deadline: int)
      ensures Valid() && own == 0 && specialists == [] && fresh(lead) && lead.deadline == deadline
    {
      lead := new ExecutionBudget(deadline, LEAD_CALLS, null);
      specialists, own := [], 0;
    }

    method LeadTool(now: int) returns (granted: bool)
      requires Valid()
      modifies this`own, lead
      ensures Valid() && specialists == old(specialists)
      ensures granted <==> now < lead.deadline && old(lead.calls) < 48
      ensures own == old(own) + if granted then 1 else 0
      ensures lead.calls == old(lead.calls) + if granted then 1 else 0
    {
      assert lead.Chain() == {lead};
      granted := lead.ConsumeTool(now);
      if granted {
        own := own + 1;
      }
      assert Calls(specialists) == old(Calls(specialists));
    }

    method Spawn(now: int)
      requires Valid() && |specialists| < 3
      modifies this`specialists
      ensures Valid() && own == old(own)
      ensures |specialists| == |old(specialists)| + 1 && specialists[..|old(specialists)|] == old(specialists)
      ensures fresh(specialists[|old(specialists)|]) && specialists[|old(specialists)|].calls == 0
      ensures var until := specialists[|old(specialists)|].deadline;
              until <= lead.deadline && until <= now + 90 && (until == lead.deadline || until == now + 90)
    {
      var until := if lead.deadline < now + SPECIALIST_SECONDS then lead.deadline else now + SPECIALIST_SECONDS;
      var child := new ExecutionBudget(until, SPECIALIST_CALLS, lead);
      specialists := specialists + [child];
      assert Calls(specialists)[..|specialists| - 1] == old(Calls(specialists));
    }

    method SpecialistTool(i: nat, now: int) returns (granted: bool)
      requires Valid() && i < |specialists|
      modifies lead, specialists[i]
      ensures Valid() && specialists == old(specialists) && own == old(own)
      ensures granted <==> now < specialists[i].deadline
                           && old(specialists[i].calls) < 12 && old(lead.calls) < 48
      ensures specialists[i].calls == old(specialists[i].calls) + if granted then 1 else 0
      ensures lead.calls == old(lead.calls) + if granted then 1 else 0
    {
      assert lead.Chain() == {lead};
      assert specialists[i].Chain() == {specialists[i], lead};
      granted := specialists[i].ConsumeTool(now);
      SumUpdate(old(Calls(specialists)), i, specialists[i].calls);
      assert Calls(specialists) == old(Calls(specialists))[i := specialists[i].calls];
    }
  }
}
