/** The planner the agent delegates to, reduced to its interface: it answers
    action requests for a fused state vector and accepts experience tuples.

    The planner's learned state is modelled as the log of the experiences it
    has been given; its preferred action is a fixed function of that log and
    of the fused vector it is asked about, so asking changes nothing. */
module Planning {

  /** What follows a transition: the fused vector of the next state, or the
      end of the episode (a tag of its own, never a vector). */
  datatype NextState = Terminal | Next(phi: seq<real>)

  /** (phi_t, action, phi_tp or terminal, reward), as the agent submits it. */
  datatype Experience = Experience(state: seq<real>, action: int, next: NextState, reward: real)

  /** How a planner picks an action from what it has learned and a fused vector. */
  type Policy = (seq<Experience>, seq<real>) -> int

  class Planner {
    /** Every experience submitted so far, oldest first. */
    var experiences: seq<Experience>
    const policy: Policy

    constructor (policy: Policy)
      ensures experiences == [] && this.policy == policy
    {
      this.policy := policy;
      experiences := [];
    }

    /** The action the planner prefers for `phi` in its current state. */
    function Preferred(phi: seq<real>): int
      reads this
    {
      policy(experiences, phi)
    }

    /** getAction: the preferred action; the planner's state is untouched. */
    method GetAction(phi: seq<real>) returns (a: int)
      ensures a == Preferred(phi)
    {
      a := policy(experiences, phi);
    }

    /** updateExperience: the experience is appended to what the planner has seen. */
    method UpdateExperience(e: Experience)
      modifies this
      ensures experiences == old(experiences) + [e]
    {
      experiences := experiences + [e];
    }
  }
}
