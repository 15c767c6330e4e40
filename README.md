# ModelBasedAgent: state encoding and episode control, in Dafny

This project models the control loop of `ModelBasedAgent`, a model-based
reinforcement-learning agent for the RL-Glue protocol. The agent hands model
learning and planning to collaborators. What it does itself is modelled here:

- **Discrete-state encoder** (module `Encoding`, `encoding.dfy`). The agent
  keeps one inclusive range `[min, max]` per integer observation feature.
  `numDiscStates` is the fold `a * (max - min + 1)` over those ranges, seeded
  with 1 (`NumDiscStates`). `getDiscState` returns 0 when there is at most one
  discrete state. Otherwise it shifts each value by its `min`, multiplies it by
  a positional multiplier and sums the products (`GetDiscState`). The
  multipliers are built exactly as the agent builds them: drop the first size,
  reverse, cumulative product, reverse back, append 1 (`Multipliers`). Two
  independent definitions serve as reference: `Horner`, the mixed-radix
  numeral with the first dimension most significant, and `Decode`, its inverse.
  The lemmas show that, for values inside their declared ranges, the agent's
  computation equals the numeral and is a bijection onto `[0, numDiscStates)`.
- **Planner interface** (module `Planning`, `planning.dfy`). The planner is a
  class that holds the log of experience tuples it has received. Its preferred
  action is a fixed function (`Policy`) of that log and of the fused vector it
  is asked about. An experience's next state is either `Next(phi)` or the
  separate tag `Terminal`, which stands for the source's `None`.
- **Episode controller** (module `Agent`, `agent.dfy`). `Configure` is the
  validation in `agent_init`. Class `ModelBasedAgent` holds the fields the
  source mutates: `lastAction`, `lastObservation`, the derived dimensions and
  the planner. `FillFused` builds the fused planning vector in a zeroed array:
  slot 0 holds the discrete index and slots `1..` hold the continuous features.
  `GetAction` is the epsilon-greedy choice. The random draws come in as
  parameters: `u` for `random()` and `pick` for `randint(0, numActions - 1)`.
  `Start`, `Step` and `End` are `agent_start`, `agent_step` and `agent_end`.
  Each of them states the experience it appends to the planner's log, the
  action it returns and the new episode context. The no-op `agent_cleanup` is
  the empty method `Cleanup`. `EndToEndEpisode` is a verified client. It runs
  one episode with one continuous feature, one binary feature, two actions and
  a planner that always prefers action 1. It checks the two experience tuples
  that reach the planner.

Facts about the code that the model keeps:

- `numActions` is `max + 1` of the single integer action range. The action's
  `min` is only checked for being a number; it is not used otherwise.
- For a specification that does not parse, the message on line 76 refers to an
  undefined name, so `agent_init` raises instead of printing, and nothing after
  it runs. The model reports this as `Err(SpecNotParsed)` with nothing changed.
- `epsilon` is set to 0.0 in the constructor and nothing in the class changes
  it, so in the code as written the planner always chooses. The explore branch
  is still modelled.
- The episode context is cleared by `agent_init`, not by `agent_start`.
  `agent_step` and `agent_end` called before any `agent_start` fail on
  `lastAction.intArray[0]` before anything changes. The model returns
  `Err(NoEpisode)` in that case.

## Model

| member | source | states |
|---|---|---|
| Encoding.ReduceIsProduct | pyrl/agents/modelbased.py:62 | the left fold of `a * (max - min + 1)` from any seed equals the seed times the product of the range sizes |
| Encoding.NumDiscStatesIsProduct | pyrl/agents/modelbased.py:61-62 | numDiscStates equals the product over the discrete dimensions of `max - min + 1`, and is 1 when there are none |
| Encoding.MultipliersAt | pyrl/agents/modelbased.py:112-113 | the multipliers have one entry per dimension, and entry i is the product of the sizes of all later dimensions |
| Encoding.MultipliersShape | pyrl/agents/modelbased.py:112-113 | the last multiplier is 1, and each earlier one is the next dimension's size times the next multiplier |
| Encoding.MultipliedSumIsHorner | pyrl/agents/modelbased.py:112-115 | the sum of the shifted values times the multipliers equals the mixed-radix numeral with the first dimension most significant |
| Encoding.GetDiscState | pyrl/agents/modelbased.py:110-117 | returns 0 when numDiscStates is at most 1, for input of any length; otherwise, for one value per dimension, returns the mixed-radix numeral of the values shifted by their minima |
| Encoding.GetDiscStateIsHorner | pyrl/agents/modelbased.py:110-117 | for values inside their ranges, both branches give the mixed-radix numeral: the degenerate branch's 0 is that numeral |
| Encoding.GetDiscStateBounds | pyrl/agents/modelbased.py:110-115 | values inside their ranges encode to an index in `[0, numDiscStates)` |
| Encoding.GetDiscStateInjective | pyrl/agents/modelbased.py:110-115 | two in-range tuples with the same index are equal |
| Encoding.GetDiscStateSurjective | pyrl/agents/modelbased.py:110-115 | for ranges with at least one value each, every index in `[0, numDiscStates)` is the encoding of the in-range tuple `Decode` gives |
| Encoding.GetDiscStateRoundTrip | pyrl/agents/modelbased.py:110-115 | decoding the index of an in-range tuple gives back that tuple |
| Encoding.TwoByThreeExample | pyrl/agents/modelbased.py:110-115 | dimensions `[[0,1],[0,2]]` have 6 states, `(a, b)` encodes as `3a + b`, and `(1, 2)` encodes as 5 |
| Agent.Configure | pyrl/agents/modelbased.py:56-69 | succeeds exactly when the specification parsed, has at least one observation, exactly one integer action dimension, no continuous actions and numeric action bounds; then numStates is the continuous count, numDiscStates the product of the sizes, and numActions the action max plus 1 |
| Agent.FillFused | pyrl/agents/modelbased.py:155-160 | the vector is a fresh array of length `n + 1`, slot 0 holds the discrete index, and slots `1..` hold the continuous features verbatim and in order |
| Agent.ModelBasedAgent.constructor | pyrl/agents/modelbased.py:35-46 | epsilon is 0.0, there is no planner yet, and the stored action and observation are empty |
| Agent.ModelBasedAgent.Init | pyrl/agents/modelbased.py:48-79 | succeeds exactly when `Configure` accepts and then sets the derived fields, a fresh planner with an empty log, and an empty episode context; on failure returns the error `Configure` reports and changes nothing |
| Agent.ModelBasedAgent.GetAction | pyrl/agents/modelbased.py:82-99 | if `u < epsilon` returns the random pick, which lies in `[0, numActions - 1]`; otherwise returns the planner's action for the fused vector of the discrete index and the features; with epsilon 0 the planner always chooses |
| Agent.ModelBasedAgent.Start | pyrl/agents/modelbased.py:119-136 | returns the epsilon-greedy action for the fused observation, stores that action and the observation as the episode context, and records no experience |
| Agent.ModelBasedAgent.Step | pyrl/agents/modelbased.py:138-172 | appends exactly one experience (fused stored observation, stored action, `Next` of the fused new observation, reward); returns the epsilon-greedy action chosen after that update; the new context is that action and the observation; with no stored action it fails and changes nothing |
| Agent.ModelBasedAgent.End | pyrl/agents/modelbased.py:174-188 | appends exactly one experience (fused stored observation, stored action, `Terminal`, reward); chooses no action and leaves the episode context unchanged; with no stored action it fails and changes nothing |
| Agent.ModelBasedAgent.Cleanup | pyrl/agents/modelbased.py:190-192 | changes no field of the agent and nothing in its planner |
| Agent.ModelBasedAgent.Message | pyrl/agents/modelbased.py:194-203 | the reply is the same fixed sentence whatever the message |
| Planning.Planner.GetAction | pyrl/agents/modelbased.py:98 | the planner returns its preferred action for the fused vector and its state is not changed |
| Planning.Planner.UpdateExperience | pyrl/agents/modelbased.py:164 | the submitted experience is appended to the planner's log and nothing else changes |

## Left out

- Task-specification parsing (`TaskSpecVRLGLUE3.TaskSpecParser`, line 55) is an external library. Its result is the input datatype `TaskSpec` with a `valid` flag. Only what the agent reads is kept: the continuous counts, the integer observation ranges and the integer action bounds. Observation ranges are taken to be numbers. The reward range is not kept, because it only goes to the model constructor.
- Construction and internals of the model and the planner (lines 71-73, `batch_model`, `fitted_qiteration`) are not modelled. The planner is reduced to `Planning.Planner`, whose action choice is an arbitrary function of its experience log. The planner is not required to return an action in range. `gamma` is stored and not used otherwise.
- `Random()` (lines 35, 92-93): the draws are method parameters. `DrawFits` states what the generator can return.
- Agent.ModelBasedAgent.GetAction: when `numActions < 1` and the explore branch is taken, `randint(0, numActions - 1)` raises. No draw fits that case, so the model does not cover it.
- The debug `print` on line 162 is left out. So is the message `print` on line 76; that branch is modelled only as the failure it causes.
- Agent.ModelBasedAgent.Init: if a check fails partway, the source has already assigned `numStates`, `discStates` and `numDiscStates`. The model leaves the agent unchanged on any failure. Running Python with assertions disabled is not modelled either.
- numpy numerics: the fold's float seed `1.0` and the `int(...)` conversion are modelled as exact integer products (the float product is exact only below 2^53). The 64-bit integer arithmetic of `getDiscState` is modelled as unbounded integers, so overflow is not captured. The fused vector is `seq<real>`, with the discrete index converted exactly.
- Observation shapes: every observation passed to `Start` and `Step` must have as many features as the specification declared (`Conforms`). numpy's broadcasting of length-1 arrays and its shape errors are not modelled.
- Values outside their declared ranges are encoded by the same formula, as in the source. The bounds and bijection lemmas are stated only for in-range values. Encoding.GetDiscStateSurjective additionally requires every range to hold at least one value.
- Lifecycle calls before a successful `agent_init` require `Ready()`. In the source they fail on attributes that are not yet set.
- RL-Glue's `Action`/`Observation` classes and `copy.deepcopy` (lines 133-134, 170-171) are not modelled. Datatypes are values, so the stored episode context cannot alias the caller's objects.
- The command-line and factory wiring under `__main__` (lines 207-250) and `AgentLoader.loadAgent` are not modelled.
