/** ModelBasedAgent: the episode controller that turns observations into
    fused planning vectors, asks the planner for actions (epsilon-greedy) and
    reports every transition to the planner as an experience tuple. */
module Agent {
  import opened Encoding
  import opened Planning

  datatype Result<T, E> = Ok(value: T) | Err(error: E)

  // ---------------------------------------------------------------------
  // Task specification and initialisation

  /** A bound as the task-specification parser reports it: a number, or one
      of the parser's special values. */
  datatype Bound = Num(value: int) | NegInf | PosInf | Unspecified

  predicate IsSpecial(b: Bound)
  {
    !b.Num?
  }

  datatype ActionRange = ActionRange(min: Bound, max: Bound)

  /** What the agent reads of a parsed task specification: whether it parsed,
      the number of continuous observations, the integer observation ranges,
      the integer action ranges and the number of continuous actions. */
  datatype TaskSpec = TaskSpec(
    valid: bool,
    doubleObservations: nat,
    intObservations: seq<Range>,
    intActions: seq<ActionRange>,
    doubleActions: nat)

  /** Why initialisation aborts, one case per check, in the order made. */
  datatype InitError =
    | SpecNotParsed
    | NoObservations
    | NotOneIntAction
    | HasDoubleActions
    | SpecialMinAction
    | SpecialMaxAction

  /** What a successful initialisation derives from the specification. */
  datatype Config = Config(numStates: nat, discStates: seq<Range>, numDiscStates: int, numActions: int)

  /** The specifications the agent accepts. */
  predicate Acceptable(spec: TaskSpec)
  {
    && spec.valid
    && spec.doubleObservations + |spec.intObservations| > 0
    && |spec.intActions| == 1
    && spec.doubleActions == 0
    && !IsSpecial(spec.intActions[0].min)
    && !IsSpecial(spec.intActions[0].max)
  }

  /** The checks of agent_init and the quantities it derives. */
  function Configure(spec: TaskSpec): (r: Result<Config, InitError>)
    ensures r.Ok? <==> Acceptable(spec)
    ensures !spec.valid ==> r == Err(SpecNotParsed)
    ensures r.Ok? ==>
              && r.value.numStates == spec.doubleObservations
              && r.value.discStates == spec.intObservations
              && r.value.numDiscStates == Product(Sizes(spec.intObservations))
              && r.value.numActions == spec.intActions[0].max.value + 1
  {
    if !spec.valid then Err(SpecNotParsed)
    else if spec.doubleObservations + |spec.intObservations| == 0 then Err(NoObservations)
    else if |spec.intActions| != 1 then Err(NotOneIntAction)
    else if spec.doubleActions != 0 then Err(HasDoubleActions)
    else if IsSpecial(spec.intActions[0].min) then Err(SpecialMinAction)
    else if IsSpecial(spec.intActions[0].max) then Err(SpecialMaxAction)
    else
      NumDiscStatesIsProduct(spec.intObservations);
      Ok(Config(spec.doubleObservations, spec.intObservations,
                NumDiscStates(spec.intObservations), spec.intActions[0].max.value + 1))
  }

  // ---------------------------------------------------------------------
  // Observations, actions and the fused vector

  datatype Action = Action(intArray: seq<int>)

  datatype Observation = Observation(doubleArray: seq<real>, intArray: seq<int>)

  /** The step or end of an episode was requested before any action was taken. */
  datatype EpisodeError = NoEpisode

  /** The fused planning vector: the discrete index, then the continuous features. */
  function Fused(disc: int, state: seq<real>): seq<real>
  {
    [disc as real] + state
  }

  /** Fills a zeroed vector of length n + 1: slot 0 the discrete index, then the features. */
  method FillFused(n: nat, disc: int, state: seq<real>) returns (phi: array<real>)
    requires |state| == n
    ensures fresh(phi)
    ensures phi.Length == n + 1
    ensures phi[0] == disc as real
    ensures forall i :: 0 <= i < n ==> phi[i + 1] == state[i]
    ensures phi[..] == Fused(disc, state)
  {
    phi := new real[n + 1](_ => 0.0);
    phi[0] := disc as real;
    for i := 0 to n
      invariant phi[0] == disc as real
      invariant forall j :: 0 <= j < i ==> phi[j + 1] == state[j]
    {
      phi[i + 1] := state[i];
    }
    assert phi[..] == Fused(disc, state) by {
      forall j | 0 <= j < n + 1 ensures phi[..][j] == Fused(disc, state)[j] {
        if j > 0 {
          assert phi[j] == state[j - 1];
        }
      }
    }
  }

  // ---------------------------------------------------------------------
  // The agent

  class ModelBasedAgent {
    const gamma: real
    const policy: Policy
    var epsilon: real
    var numStates: nat
    var discStates: seq<Range>
    var numDiscStates: int
    var numActions: int
    var planner: Planner?
    var lastAction: Action
    var lastObservation: Observation

    /** Once initialised, numDiscStates is the fold over discStates, and a
        stored action comes with a stored observation of the declared shape. */
    ghost predicate Valid()
      reads this
    {
      planner != null ==>
        && numDiscStates == NumDiscStates(discStates)
        && (|lastAction.intArray| > 0 ==> Conforms(lastObservation))
    }

    /** agent_init has succeeded, so a planner exists. */
    predicate Ready()
      reads this
    {
      planner != null
    }

    /** The observation has the shape the task specification declared. */
    predicate Conforms(obs: Observation)
      reads this
    {
      |obs.doubleArray| == numStates && |obs.intArray| == |discStates|
    }

    /** What the random generator can deliver: u from [0, 1), and, when
        exploring, pick from randint(0, numActions - 1). */
    predicate DrawFits(u: real, pick: int)
      reads this
    {
      0.0 <= u < 1.0 && (u < epsilon ==> 0 <= pick <= numActions - 1)
    }

    /** The fused vector of an observation. */
    function Encode(obs: Observation): seq<real>
      reads this
      requires Conforms(obs)
    {
      Fused(GetDiscState(discStates, obs.intArray), obs.doubleArray)
    }

    /** Epsilon-greedy: the random pick below epsilon, else the planner's preference. */
    function Choice(u: real, pick: int, phi: seq<real>): int
      reads this, planner
      requires Ready()
    {
      if u < epsilon then pick else planner.Preferred(phi)
    }

    constructor (gamma: real, policy: Policy)
      ensures Valid() && !Ready()
      ensures this.gamma == gamma && this.policy == policy && epsilon == 0.0
      ensures lastAction == Action([]) && lastObservation == Observation([], [])
    {
      this.gamma := gamma;
      this.policy := policy;
      epsilon := 0.0;
      numStates := 0;
      discStates := [];
      numDiscStates := 1;
      numActions := 0;
      planner := null;
      lastAction := Action([]);
      lastObservation := Observation([], []);
    }

    /** agent_init: validate the specification, derive the dimensions, build a
        fresh planner and clear the episode context. */
    method Init(spec: TaskSpec) returns (r: Result<(), InitError>)
      requires Valid()
      modifies this
      ensures Valid()
      ensures r.Ok? <==> Acceptable(spec)
      ensures r.Err? ==> r.error == Configure(spec).error && unchanged(this)
      ensures r.Ok? ==>
                && Ready() && fresh(planner)
                && planner.experiences == [] && planner.policy == policy
                && numStates == spec.doubleObservations
                && discStates == spec.intObservations
                && numDiscStates == NumDiscStates(spec.intObservations)
                && numActions == spec.intActions[0].max.value + 1
                && epsilon == old(epsilon)
                && lastAction == Action([]) && lastObservation == Observation([], [])
    {
      var c := Configure(spec);
      if c.Err? {
        return Err(c.error);
      }
      numStates := c.value.numStates;
      discStates := c.value.discStates;
      numDiscStates := NumDiscStates(spec.intObservations);
      numActions := c.value.numActions;
      planner := new Planner(policy);
      lastAction := Action([]);
      lastObservation := Observation([], []);
      r := Ok(());
    }

    /** getAction: epsilon-greedy over the fused vector of (discState, state). */
    method GetAction(state: seq<real>, discState: int, u: real, pick: int) returns (a: int)
      requires Ready() && DrawFits(u, pick)
      ensures a == Choice(u, pick, Fused(discState, state))
      ensures u < epsilon ==> 0 <= a < numActions
      ensures epsilon <= 0.0 ==> a == planner.Preferred(Fused(discState, state))
    {
      if u < epsilon {
        return pick;
      }
      var s := FillFused(|state|, discState, state);
      a := planner.GetAction(s[..]);
    }

    /** agent_start: choose an action and remember it with the observation. */
    method Start(obs: Observation, u: real, pick: int) returns (act: Action)
      requires Valid() && Ready() && Conforms(obs) && DrawFits(u, pick)
      modifies this`lastAction, this`lastObservation
      ensures Valid()
      ensures act == Action([Choice(u, pick, Encode(obs))])
      ensures lastAction == act && lastObservation == obs
      ensures planner.experiences == old(planner.experiences)
    {
      var theState := obs.doubleArray;
      var a := GetAction(theState, GetDiscState(discStates, obs.intArray), u, pick);
      act := Action([a]);
      lastAction := act;
      lastObservation := obs;
    }

    /** agent_step: report the transition from the stored context to `obs`,
        then choose the next action and make (action, obs) the new context. */
    method Step(reward: real, obs: Observation, u: real, pick: int) returns (r: Result<Action, EpisodeError>)
      requires Valid() && Ready() && Conforms(obs) && DrawFits(u, pick)
      modifies this`lastAction, this`lastObservation, planner
      ensures Valid() && planner == old(planner)
      ensures old(lastAction.intArray) == [] ==>
                && r == Err(NoEpisode)
                && lastAction == old(lastAction) && lastObservation == old(lastObservation)
                && planner.experiences == old(planner.experiences)
      ensures old(lastAction.intArray) != [] ==>
                && planner.experiences == old(planner.experiences) +
                     [Experience(old(Encode(lastObservation)), old(lastAction.intArray[0]),
                                 Next(Encode(obs)), reward)]
                && r == Ok(Action([Choice(u, pick, Encode(obs))]))
                && lastAction == r.value && lastObservation == obs
    {
      var newState := obs.doubleArray;
      var lastState := lastObservation.doubleArray;
      if |lastAction.intArray| == 0 {
        return Err(NoEpisode);
      }
      var prevAction := lastAction.intArray[0];
      var newDiscState := GetDiscState(discStates, obs.intArray);
      var lastDiscState := GetDiscState(discStates, lastObservation.intArray);
      var phiT := FillFused(numStates, lastDiscState, lastState);
      var phiTp := FillFused(numStates, newDiscState, newState);
      planner.UpdateExperience(Experience(phiT[..], prevAction, Next(phiTp[..]), reward));
      var a := GetAction(newState, newDiscState, u, pick);
      r := Ok(Action([a]));
      lastAction := r.value;
      lastObservation := obs;
    }

    /** agent_end: report the final transition with the terminal marker; no
        action is chosen and the episode context stays as it was. */
    method End(reward: real) returns (r: Result<(), EpisodeError>)
      requires Valid() && Ready()
      modifies planner
      ensures Valid() && planner == old(planner)
      ensures lastAction == old(lastAction) && lastObservation == old(lastObservation)
      ensures lastAction.intArray == [] ==>
                r == Err(NoEpisode) && planner.experiences == old(planner.experiences)
      ensures lastAction.intArray != [] ==>
                && r == Ok(())
                && planner.experiences == old(planner.experiences) +
                     [Experience(Encode(lastObservation), lastAction.intArray[0], Terminal, reward)]
    {
      var lastState := lastObservation.doubleArray;
      if |lastAction.intArray| == 0 {
        return Err(NoEpisode);
      }
      var prevAction := lastAction.intArray[0];
      var lastDiscState := GetDiscState(discStates, lastObservation.intArray);
      var phiT := FillFused(numStates, lastDiscState, lastState);
      planner.UpdateExperience(Experience(phiT[..], prevAction, Terminal, reward));
      r := Ok(());
    }

    /** agent_cleanup: nothing to release, so neither the agent nor its planner changes. */
    method Cleanup()
      ensures unchanged(this)
      ensures planner != null ==> unchanged(planner)
    {
    }

    /** agent_message: the same reply whatever the message. */
    static function Message(inMessage: string): (reply: string)
      ensures reply == "ModelBasedAgent(Python) does not understand your message."
    {
      "ModelBasedAgent(Python) does not understand your message."
    }
  }

  /** One episode: one continuous feature, one binary integer feature, two
      actions, epsilon 0 and a planner that always prefers action 1. */
  method EndToEndEpisode()
  {
    var agent := new ModelBasedAgent(0.99, (h: seq<Experience>, s: seq<real>) => 1);
    var spec := TaskSpec(true, 1, [Range(0, 1)], [ActionRange(Num(0), Num(1))], 0);
    var ok := agent.Init(spec);
    assert ok.Ok?;
    assert agent.numActions == 2;
    var dims := [Range(0, 1)];
    assert NumDiscStates(dims) == 2;
    assert GetDiscState(dims, [0]) == 0 && GetDiscState(dims, [1]) == 1 by {
      assert dims[1..] == [] && [0][1..] == [] && [1][1..] == [];
    }

    var obs0, obs1 := Observation([0.5], [0]), Observation([0.7], [1]);
    assert agent.Encode(obs0) == [0.0, 0.5] && agent.Encode(obs1) == [1.0, 0.7];

    var a0 := agent.Start(obs0, 0.25, 0);
    assert a0 == Action([1]);
    assert agent.planner.experiences == [];

    var a1 := agent.Step(1.0, obs1, 0.25, 0);
    assert a1 == Ok(Action([1]));
    assert agent.planner.experiences == [Experience([0.0, 0.5], 1, Next([1.0, 0.7]), 1.0)];

    var done := agent.End(2.0);
    assert done == Ok(());
    assert agent.planner.experiences ==
      [Experience([0.0, 0.5], 1, Next([1.0, 0.7]), 1.0), Experience([1.0, 0.7], 1, Terminal, 2.0)];
  }
}
