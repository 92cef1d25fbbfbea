/** `Injector.run` and `ASyncInjector.run_async` (apistar/server/injector.py):
    look the plan for a tuple of functions up in the resolver cache, building
    and caching it on a miss, then fold it over the per-request state.

    Calling a handler or a component's `resolve` is outside the model and is
    a parameter (`Env`): `call` is a plain call, `awaitCall` an awaited one.
    The query-parameter resolver is modelled as written
    (`GetValidatedParamAsWritten`), with the `ast.literal_eval` and
    `Validator.validate` it uses also taken from `Env`. */
module Execution {
  import opened Outcomes
  import opened Signatures
  import opened QueryParams
  import opened Injection
  import opened Plans

  /** The per-request state dictionary. */
  type State = map<string, Value>

  /** Keyword arguments of one call, in the order they are added. */
  type Args = seq<(string, Value)>

  /** The resolver cache: one plan per tuple of functions. */
  type Cache = map<seq<Func>, seq<Step>>

  datatype Env = Env(
    call: (Func, Args) -> Result<Value>,
    awaitCall: (Func, Args) -> Result<Value>,
    literal: string -> Result<Value>,
    validate: (Validator, Value) -> Result<Value>)

  /** `run` calls every function; `run_async` awaits the async ones. */
  datatype Mode = Blocking | Awaiting

  /** The outcome of folding a plan: the state as far as the fold got, and
      the returned value or the exception raised. */
  datatype Execution = Execution(state: State, result: Result<Value>)

  /** `{key: state[val] for key, val in kwargs.items()}`: the first key
      missing from the state raises. */
  function KeywordArguments(kwargs: seq<(string, string)>, state: State): (r: Result<Args>)
    ensures r.Ok? <==> forall k :: 0 <= k < |kwargs| ==> kwargs[k].1 in state
    ensures r.Ok? ==> |r.value| == |kwargs|
                      && forall k :: 0 <= k < |kwargs| ==> r.value[k] == (kwargs[k].0, state[kwargs[k].1])
    ensures r.Err? ==> exists k :: 0 <= k < |kwargs| && r.error == MissingStateKey(kwargs[k].1)
                                   && kwargs[k].1 !in state
                                   && forall k' :: 0 <= k' < k ==> kwargs[k'].1 in state
  {
    if |kwargs| == 0 then Ok([])
    else if kwargs[0].1 !in state then Err(MissingStateKey(kwargs[0].1))
    else match KeywordArguments(kwargs[1..], state)
      case Err(e) =>
        ghost var k :| 0 <= k < |kwargs[1..]| && e == MissingStateKey(kwargs[1..][k].1)
                       && kwargs[1..][k].1 !in state
                       && forall k' :: 0 <= k' < k ==> kwargs[1..][k'].1 in state;
        assert forall k' :: 0 <= k' < k + 1 ==> kwargs[k'].1 in state by {
          forall k' | 0 < k' < k + 1 ensures kwargs[k'].1 in state {
            assert kwargs[k'] == kwargs[1..][k' - 1];
          }
        }
        assert kwargs[k + 1] == kwargs[1..][k];
        Err(e)
      case Ok(rest) => Ok([(kwargs[0].0, state[kwargs[0].1])] + rest)
  }

  /** Calls the step's function with `func_kwargs` (the keyword arguments
      updated with the constants): `run` calls it, `run_async` awaits it when
      it is a coroutine function, and the query-parameter resolver runs as
      written, so a request without a query string fails on it. */
  function Call(env: Env, mode: Mode, step: Step, args: Args): (r: Result<Value>)
    ensures step.func.Function? && (mode == Blocking || !step.isAsync) ==> r == env.call(step.func, args)
    ensures step.func.Function? && mode == Awaiting && step.isAsync ==> r == env.awaitCall(step.func, args)
    ensures step.func.ValidatedParam? && Lookup(args, "qs") == Some(StrValue("")) ==>
              r == Err(MalformedQuery(""))
    ensures step.func.ValidatedParam? && Lookup(args, "qs").None? ==> r == Err(CallFailed("_get_validated_param"))
  {
    match step.func
    case ValidatedParam(name, v) =>
      (match Lookup(args, "qs")
       case None => Err(CallFailed(Name(step.func)))
       case Some(qs) => GetValidatedParamAsWritten(name, v, qs, env.literal, env.validate))
    case Function(_, _, _, _, _) =>
      if mode == Awaiting && step.isAsync then env.awaitCall(step.func, args)
      else env.call(step.func, args)
  }

  /** Stores a step's result under its output name, and under
      `return_value` too when the step is marked `set_return`. */
  function Store(state: State, step: Step, v: Value): (r: State)
    ensures r.Keys == state.Keys + {step.outputName} + (if step.setReturn then {ReturnValueKey} else {})
    ensures step.outputName in r && (r[step.outputName] == v)
    ensures step.setReturn ==> r[ReturnValueKey] == v
    ensures forall key :: key in state && key != step.outputName && key != ReturnValueKey ==> r[key] == state[key]
    ensures !step.setReturn ==> forall key :: key in state && key != step.outputName ==> r[key] == state[key]
  {
    var written := state[step.outputName := v];
    if step.setReturn then written[ReturnValueKey := v] else written
  }

  /** One step: read the keyword arguments, call, store the result. */
  function RunStep(env: Env, mode: Mode, step: Step, state: State): (r: Result<(State, Value)>)
    ensures r.Ok? <==> KeywordArguments(step.kwargs, state).Ok?
                       && Call(env, mode, step, KeywordArguments(step.kwargs, state).value + step.consts).Ok?
    ensures r.Ok? ==> r.value.0 == Store(state, step, r.value.1)
  {
    var args :- KeywordArguments(step.kwargs, state);
    var v :- Call(env, mode, step, args + step.consts);
    Ok((Store(state, step, v), v))
  }

  /** The loop of `run`: each step in turn; the result is `state[output_name]`
      for the last step's output name; an exception stops the loop and
      leaves the state as far as it got. */
  function Execute(steps: seq<Step>, state: State, env: Env, mode: Mode): Execution
    decreases |steps|
  {
    if |steps| == 0 then Execution(state, Err(UnboundOutputName))
    else
      match RunStep(env, mode, steps[0], state)
      case Err(e) => Execution(state, Err(e))
      case Ok((state', v)) =>
        if |steps| == 1 then Execution(state', Ok(v))
        else Execute(steps[1..], state', env, mode)
  }

  /** A fold that succeeds has the last step's output under its output
      name; an empty plan fails without touching the state. */
  lemma {:induction false} ExecuteResult(steps: seq<Step>, state: State, env: Env, mode: Mode)
    ensures var r := Execute(steps, state, env, mode);
            && (r.result.Ok? ==>
                  && |steps| >= 1 && steps[|steps| - 1].outputName in r.state
                  && r.state[steps[|steps| - 1].outputName] == r.result.value)
            && (|steps| == 0 ==> r == Execution(state, Err(UnboundOutputName)))
    decreases |steps|
  {
    if |steps| >= 2 && RunStep(env, mode, steps[0], state).Ok? {
      ExecuteCons(steps, state, env, mode);
      ExecuteResult(steps[1..], RunStep(env, mode, steps[0], state).value.0, env, mode);
      LastOfTail(steps);
    }
  }

  /** When the last step sets the return, a successful fold's result is
      also under `return_value`. */
  lemma {:induction false} ExecuteReturnValue(steps: seq<Step>, state: State, env: Env, mode: Mode)
    requires |steps| >= 1 && steps[|steps| - 1].setReturn
    ensures var r := Execute(steps, state, env, mode);
            r.result.Ok? ==> ReturnValueKey in r.state && r.state[ReturnValueKey] == r.result.value
    decreases |steps|
  {
    if |steps| >= 2 && RunStep(env, mode, steps[0], state).Ok? {
      ExecuteCons(steps, state, env, mode);
      LastOfTail(steps);
      ExecuteReturnValue(steps[1..], RunStep(env, mode, steps[0], state).value.0, env, mode);
    }
  }

  /** One successful step, then the rest of the fold from the new state. */
  lemma ExecuteCons(steps: seq<Step>, state: State, env: Env, mode: Mode)
    requires |steps| >= 2 && RunStep(env, mode, steps[0], state).Ok?
    ensures Execute(steps, state, env, mode)
            == Execute(steps[1..], RunStep(env, mode, steps[0], state).value.0, env, mode)
  {
  }

  lemma LastOfTail<T>(s: seq<T>)
    requires |s| >= 2
    ensures s[1..][|s[1..]| - 1] == s[|s| - 1]
  {
  }

  /** The fold only adds keys, and only the steps' output names and
      `return_value`. */
  lemma {:induction false} ExecuteKeys(steps: seq<Step>, state: State, env: Env, mode: Mode)
    ensures var r := Execute(steps, state, env, mode);
            state.Keys <= r.state.Keys <= state.Keys + OutputSet(steps) + {ReturnValueKey}
    decreases |steps|
  {
    if |steps| > 0 {
      var first := RunStep(env, mode, steps[0], state);
      if first.Ok? && |steps| > 1 {
        ExecuteKeys(steps[1..], first.value.0, env, mode);
        FirstOutputs(steps);
      }
    }
  }

  /** The fold leaves every key other than the steps' output names and
      `return_value` as it was. */
  lemma {:induction false} ExecuteFrame(steps: seq<Step>, state: State, env: Env, mode: Mode)
    ensures var r := Execute(steps, state, env, mode);
            forall key :: key in state && key !in OutputSet(steps) && key != ReturnValueKey ==>
              key in r.state && r.state[key] == state[key]
    decreases |steps|
  {
    if |steps| > 0 {
      var first := RunStep(env, mode, steps[0], state);
      if first.Ok? && |steps| > 1 {
        ExecuteFrame(steps[1..], first.value.0, env, mode);
        FirstOutputs(steps);
      }
    }
  }

  /** `run` and `run_async` after the functions are made a tuple: a cached
      plan is used as it is; on a miss an empty tuple returns `None` without
      caching anything, and otherwise the plan is built (a configuration
      error propagates and nothing is cached) and cached before it runs. */
  datatype RunOutcome = RunOutcome(cache: Cache, state: State, result: Result<Value>)

  function RunWith(inj: Injector, cache: Cache, funcs: seq<Func>, state: State, env: Env, mode: Mode): (r: RunOutcome)
    ensures funcs in cache ==> r.cache == cache
    ensures funcs !in cache && |funcs| == 0 ==> r == RunOutcome(cache, state, Ok(NoneValue))
    ensures funcs !in cache && ResolveFunctions(inj, funcs).Err? ==>
              r == RunOutcome(cache, state, Err(ResolveFunctions(inj, funcs).error))
    ensures funcs !in cache && |funcs| > 0 && ResolveFunctions(inj, funcs).Ok? ==>
              r.cache == cache[funcs := ResolveFunctions(inj, funcs).value]
    ensures r.cache.Keys <= cache.Keys + {funcs}
    ensures forall fs :: fs in cache ==> fs in r.cache && r.cache[fs] == cache[fs]
  {
    if funcs in cache then
      var e := Execute(cache[funcs], state, env, mode);
      RunOutcome(cache, e.state, e.result)
    else if |funcs| == 0 then RunOutcome(cache, state, Ok(NoneValue))
    else match ResolveFunctions(inj, funcs)
      case Err(err) => RunOutcome(cache, state, Err(err))
      case Ok(plan) =>
        var e := Execute(plan, state, env, mode);
        RunOutcome(cache[funcs := plan], e.state, e.result)
  }

  /** `Injector.run`. */
  function Run(inj: Injector, cache: Cache, funcs: seq<Func>, state: State, env: Env): RunOutcome {
    RunWith(inj, cache, funcs, state, env, Blocking)
  }

  /** `ASyncInjector.run_async`. */
  function RunAsync(inj: Injector, cache: Cache, funcs: seq<Func>, state: State, env: Env): RunOutcome {
    RunWith(inj, cache, funcs, state, env, Awaiting)
  }

  // ---------------------------------------------------------------------
  // Properties.

  /** Every cached plan is the plan `resolve_functions` builds. */
  ghost predicate CacheCoherent(inj: Injector, cache: Cache) {
    forall fs :: fs in cache ==> |fs| > 0 && ResolveFunctions(inj, fs) == Ok(cache[fs])
  }

  /** Running keeps the cache coherent. */
  lemma RunKeepsCacheCoherent(inj: Injector, cache: Cache, funcs: seq<Func>, state: State, env: Env, mode: Mode)
    requires CacheCoherent(inj, cache)
    ensures CacheCoherent(inj, RunWith(inj, cache, funcs, state, env, mode).cache)
  {
  }

  /** The cache is invisible: with a coherent cache, a run changes the state
      and returns exactly what it would with an empty cache. */
  lemma CacheIsTransparent(inj: Injector, cache: Cache, funcs: seq<Func>, state: State, env: Env, mode: Mode)
    requires CacheCoherent(inj, cache)
    ensures var r := RunWith(inj, cache, funcs, state, env, mode);
            var cold := RunWith(inj, map[], funcs, state, env, mode);
            r.state == cold.state && r.result == cold.result
  {
  }

  /** Running the steps of `a` and then those of `b` is running `a + b`. */
  lemma {:induction false} ExecuteConcat(a: seq<Step>, b: seq<Step>, state: State, env: Env, mode: Mode)
    requires |a| >= 1 && |b| >= 1 && Execute(a, state, env, mode).result.Ok?
    ensures Execute(a + b, state, env, mode) == Execute(b, Execute(a, state, env, mode).state, env, mode)
    decreases |a|
  {
    ExecuteFirstOk(a, state, env, mode);
    var next := RunStep(env, mode, a[0], state).value.0;
    ConcatTail(a, b, state, env, mode);
    if |a| >= 2 {
      ExecuteConcat(a[1..], b, next, env, mode);
    }
  }

  /** A fold that succeeds ran its first step successfully, and went on
      from the state that step left. */
  lemma ExecuteFirstOk(steps: seq<Step>, state: State, env: Env, mode: Mode)
    requires |steps| >= 1 && Execute(steps, state, env, mode).result.Ok?
    ensures RunStep(env, mode, steps[0], state).Ok?
    ensures |steps| == 1 ==> Execute(steps, state, env, mode).state == RunStep(env, mode, steps[0], state).value.0
    ensures |steps| >= 2 ==>
              Execute(steps, state, env, mode)
              == Execute(steps[1..], RunStep(env, mode, steps[0], state).value.0, env, mode)
  {
  }

  /** The fold of `a + b` goes on after `a[0]` with the rest of `a`, then `b`. */
  lemma ConcatTail(a: seq<Step>, b: seq<Step>, state: State, env: Env, mode: Mode)
    requires |a| >= 1 && |b| >= 1 && RunStep(env, mode, a[0], state).Ok?
    ensures Execute(a + b, state, env, mode)
            == Execute(a[1..] + b, RunStep(env, mode, a[0], state).value.0, env, mode)
  {
    assert (a + b)[0] == a[0];
    assert (a + b)[1..] == a[1..] + b;
  }

  /** Without async steps, `run` and `run_async` fold a plan identically. */
  lemma {:induction false} ModesAgreeWithoutAsync(steps: seq<Step>, state: State, env: Env)
    requires forall k :: 0 <= k < |steps| ==> !steps[k].isAsync
    ensures Execute(steps, state, env, Blocking) == Execute(steps, state, env, Awaiting)
    decreases |steps|
  {
    if |steps| > 0 {
      assert Call(env, Blocking, steps[0], []) == Call(env, Awaiting, steps[0], []);
      assert forall args :: Call(env, Blocking, steps[0], args) == Call(env, Awaiting, steps[0], args);
      assert RunStep(env, Blocking, steps[0], state) == RunStep(env, Awaiting, steps[0], state);
      if |steps| > 1 && RunStep(env, Blocking, steps[0], state).Ok? {
        ModesAgreeWithoutAsync(steps[1..], RunStep(env, Blocking, steps[0], state).value.0, env);
      }
    }
  }

  /** For an injector that rejects async functions, `run` and `run_async`
      do the same thing. */
  lemma RunAndRunAsyncAgree(inj: Injector, cache: Cache, funcs: seq<Func>, state: State, env: Env)
    requires !inj.allowAsync && CacheCoherent(inj, cache)
    ensures Run(inj, cache, funcs, state, env) == RunAsync(inj, cache, funcs, state, env)
  {
    var plan := ResolveFunctions(inj, funcs);
    if plan.Ok? {
      BatchFlags(inj, funcs, InitialKeys(inj));
      ModesAgreeWithoutAsync(plan.value, state, env);
    }
  }

  /** A run that does not return early folds the plan `resolve_functions`
      builds. */
  lemma RunExecutesPlan(inj: Injector, cache: Cache, funcs: seq<Func>, state: State, env: Env, mode: Mode)
    requires CacheCoherent(inj, cache) && (funcs in cache || |funcs| > 0)
    requires ResolveFunctions(inj, funcs).Ok?
    ensures var r := RunWith(inj, cache, funcs, state, env, mode);
            var e := Execute(ResolveFunctions(inj, funcs).value, state, env, mode);
            r.state == e.state && r.result == e.result
  {
  }

  /** The opaque calls never raise `KeyError` on the state themselves. */
  ghost predicate RaisesNoStateKeyError(env: Env) {
    && (forall f, args :: !env.call(f, args).Err? || !env.call(f, args).error.MissingStateKey?)
    && (forall f, args :: !env.awaitCall(f, args).Err? || !env.awaitCall(f, args).error.MissingStateKey?)
    && (forall text :: !env.literal(text).Err? || !env.literal(text).error.MissingStateKey?)
    && (forall v, x :: !env.validate(v, x).Err? || !env.validate(v, x).error.MissingStateKey?)
  }

  /** The first step of a plan whose reads are available finds its keyword
      arguments in the state. */
  lemma FirstReadsPresent(steps: seq<Step>, base: set<string>, state: State)
    requires |steps| >= 1 && ReadsAvailable(steps, base) && base <= state.Keys
    ensures KeywordArguments(steps[0].kwargs, state).Ok?
  {
  }

  /** A call fails on a missing state key only if an opaque call does. */
  lemma CallNeverMisses(env: Env, mode: Mode, step: Step, args: Args)
    requires RaisesNoStateKeyError(env)
    ensures var r := Call(env, mode, step, args);
            !r.Err? || !r.error.MissingStateKey?
  {
    match step.func
    case ValidatedParam(name, v) =>
      var qs := Lookup(args, "qs");
      if qs.Some? && qs.value.StrValue? {
        ValidatedParamNeverMisses(name, v, qs.value.s, env);
      }
    case Function(_, _, _, _, _) =>
      assert !env.call(step.func, args).Err? || !env.call(step.func, args).error.MissingStateKey?;
      assert !env.awaitCall(step.func, args).Err? || !env.awaitCall(step.func, args).error.MissingStateKey?;
  }

  lemma ValidatedParamNeverMisses(name: string, v: Validator, qs: string, env: Env)
    requires RaisesNoStateKeyError(env)
    ensures var r := GetValidatedParamAsWritten(name, v, StrValue(qs), env.literal, env.validate);
            !r.Err? || !r.error.MissingStateKey?
  {
    var parsed := ParsePairsAsWritten(qs);
    if parsed.Ok? && Lookup(parsed.value, name).Some? {
      var lit := env.literal(Capitalised(Lookup(parsed.value, name).value));
      if lit.Ok? {
        assert !env.validate(v, lit.value).Err? || !env.validate(v, lit.value).error.MissingStateKey?;
      } else {
        assert !lit.error.MissingStateKey?;
      }
    }
  }

  /** A plan whose every read is of a key already in the state or written
      by an earlier step never fails on a missing state key. */
  lemma {:induction false} AvailableReadsNeverMiss(steps: seq<Step>, base: set<string>, state: State, env: Env, mode: Mode)
    requires ReadsAvailable(steps, base) && base <= state.Keys && RaisesNoStateKeyError(env)
    ensures var r := Execute(steps, state, env, mode);
            !r.result.Err? || !r.result.error.MissingStateKey?
    decreases |steps|
  {
    if |steps| > 0 {
      FirstReadsPresent(steps, base, state);
      var args := KeywordArguments(steps[0].kwargs, state).value;
      CallNeverMisses(env, mode, steps[0], args + steps[0].consts);
      var step := RunStep(env, mode, steps[0], state);
      if step.Ok? && |steps| > 1 {
        AvailableReadsNeverMiss(steps[1..], base + {steps[0].outputName}, step.value.0, env, mode);
      }
    }
  }

  /** With acyclic dependencies and a state holding the initial keys and
      `return_value`, neither `run` nor `run_async` fails on a missing state
      key. */
  lemma RunNeverMissesStateKey(inj: Injector, rank: string -> nat, cache: Cache, funcs: seq<Func>,
                               state: State, env: Env, mode: Mode)
    requires Ranked(inj, rank) && CacheCoherent(inj, cache) && RaisesNoStateKeyError(env)
    requires InitialKeys(inj) + {ReturnValueKey} <= state.Keys
    ensures var r := RunWith(inj, cache, funcs, state, env, mode);
            !r.result.Err? || !r.result.error.MissingStateKey?
  {
    BatchErrors(inj, funcs, InitialKeys(inj));
    var plan := ResolveFunctions(inj, funcs);
    if plan.Ok? && (funcs in cache || |funcs| > 0) {
      ResolveFunctionsPlan(inj, rank, funcs);
      AvailableReadsNeverMiss(plan.value, InitialKeys(inj) + {ReturnValueKey}, state, env, mode);
      RunExecutesPlan(inj, cache, funcs, state, env, mode);
    }
  }
}
