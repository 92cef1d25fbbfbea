/** Properties of the plans `resolve_function` and `resolve_functions` build:
    no identity is resolved twice, dependencies come before the steps that
    read them, and the top-level functions appear in order, each last among
    its own dependencies. */
module Plans {
  import opened Outcomes
  import opened Signatures
  import opened Injection

  /** The state keys a sequence of steps writes (apart from `return_value`). */
  function OutputSet(steps: seq<Step>): (r: set<string>)
    ensures forall k :: 0 <= k < |steps| ==> steps[k].outputName in r
    ensures forall key :: key in r ==> exists k :: 0 <= k < |steps| && steps[k].outputName == key
  {
    set k | 0 <= k < |steps| :: steps[k].outputName
  }

  /** No two steps write the same key. */
  predicate DistinctOutputs(steps: seq<Step>) {
    forall a, b :: 0 <= a < b < |steps| ==> steps[a].outputName != steps[b].outputName
  }

  /** Every state key the keyword arguments are read from is in `keys`. */
  predicate KeysIn(kwargs: seq<(string, string)>, keys: set<string>) {
    forall k :: 0 <= k < |kwargs| ==> kwargs[k].1 in keys
  }

  /** Every key the step reads its keyword arguments from is in `keys`. */
  predicate ReadsFrom(step: Step, keys: set<string>) {
    KeysIn(step.kwargs, keys)
  }

  /** Each step reads only keys of `base` or keys written by earlier steps. */
  predicate ReadsAvailable(steps: seq<Step>, base: set<string>)
    decreases |steps|
  {
    |steps| == 0 || (ReadsFrom(steps[0], base) && ReadsAvailable(steps[1..], base + {steps[0].outputName}))
  }

  /** The steps of dependencies, in order: those not marked `set_return`. */
  function Dependencies(steps: seq<Step>): seq<Step> {
    if |steps| == 0 then []
    else (if steps[0].setReturn then [] else [steps[0]]) + Dependencies(steps[1..])
  }

  /** The functions of the steps marked `set_return`, in order. */
  function TopLevel(steps: seq<Step>): seq<Func> {
    if |steps| == 0 then []
    else (if steps[0].setReturn then [steps[0].func] else []) + TopLevel(steps[1..])
  }

  /** The two filters split the steps: the dependencies are exactly the
      steps not marked `set_return`, and every marked step's function is
      among the top-level functions. */
  lemma {:induction false} FilterShape(steps: seq<Step>)
    ensures var r := Dependencies(steps);
            && |r| <= |steps|
            && (forall k :: 0 <= k < |r| ==> !r[k].setReturn)
            && (forall k :: 0 <= k < |steps| && !steps[k].setReturn ==> steps[k] in r)
    ensures var t := TopLevel(steps);
            && |t| <= |steps|
            && (forall k :: 0 <= k < |steps| && steps[k].setReturn ==> steps[k].func in t)
  {
    if |steps| > 0 {
      FilterShape(steps[1..]);
      assert forall k :: 1 <= k < |steps| ==> steps[k] == steps[1..][k - 1];
    }
  }

  // ---------------------------------------------------------------------
  // Sequence facts.

  lemma OutputSetConcat(a: seq<Step>, b: seq<Step>)
    ensures OutputSet(a + b) == OutputSet(a) + OutputSet(b)
  {
    var ab := a + b;
    forall key | key in OutputSet(ab)
      ensures key in OutputSet(a) + OutputSet(b)
    {
      var k :| 0 <= k < |ab| && ab[k].outputName == key;
      if k >= |a| { assert ab[k] == b[k - |a|]; }
    }
    forall key | key in OutputSet(a)
      ensures key in OutputSet(ab)
    {
      var k :| 0 <= k < |a| && a[k].outputName == key;
      assert ab[k] == a[k];
    }
    forall key | key in OutputSet(b)
      ensures key in OutputSet(ab)
    {
      var k :| 0 <= k < |b| && b[k].outputName == key;
      assert ab[|a| + k] == b[k];
    }
  }

  lemma DistinctConcat(a: seq<Step>, b: seq<Step>)
    requires DistinctOutputs(a) && DistinctOutputs(b) && OutputSet(a) !! OutputSet(b)
    ensures DistinctOutputs(a + b)
  {
    var ab := a + b;
    forall x, y | 0 <= x < y < |ab|
      ensures ab[x].outputName != ab[y].outputName
    {
      if y < |a| {
        assert ab[x] == a[x] && ab[y] == a[y];
      } else if x >= |a| {
        assert ab[x] == b[x - |a|] && ab[y] == b[y - |a|];
      } else {
        assert ab[x] == a[x] && ab[y] == b[y - |a|];
        assert a[x].outputName in OutputSet(a);
        assert b[y - |a|].outputName in OutputSet(b);
      }
    }
  }

  lemma KeysInWeaken(kwargs: seq<(string, string)>, keys: set<string>, keys': set<string>)
    requires KeysIn(kwargs, keys) && keys <= keys'
    ensures KeysIn(kwargs, keys')
  {
  }

  lemma {:induction false} ReadsAvailableWeaken(steps: seq<Step>, base: set<string>, base': set<string>)
    requires ReadsAvailable(steps, base) && base <= base'
    ensures ReadsAvailable(steps, base')
    decreases |steps|
  {
    if |steps| > 0 {
      KeysInWeaken(steps[0].kwargs, base, base');
      ReadsAvailableWeaken(steps[1..], base + {steps[0].outputName}, base' + {steps[0].outputName});
    }
  }

  /** The recursive definition says what it should: each step reads only
      keys of `base` or keys written by the steps before it. */
  lemma {:induction false} ReadsAvailableAt(steps: seq<Step>, base: set<string>, k: nat)
    requires ReadsAvailable(steps, base) && k < |steps|
    ensures ReadsFrom(steps[k], base + OutputSet(steps[..k]))
    decreases k
  {
    if k == 0 {
      assert steps[..0] == [];
      KeysInWeaken(steps[0].kwargs, base, base + OutputSet(steps[..0]));
    } else {
      ReadsAvailableAt(steps[1..], base + {steps[0].outputName}, k - 1);
      assert steps[1..][k - 1] == steps[k];
      FirstOutputs(steps[..k]);
      assert steps[..k][1..] == steps[1..][..k - 1];
    }
  }

  lemma FirstOutputs(steps: seq<Step>)
    requires |steps| >= 1
    ensures OutputSet(steps) == {steps[0].outputName} + OutputSet(steps[1..])
  {
    OutputSetConcat([steps[0]], steps[1..]);
    assert steps == [steps[0]] + steps[1..];
    assert OutputSet([steps[0]]) == {steps[0].outputName};
  }

  /** Steps that read available keys can be followed by steps that may also
      read what the first ones wrote. */
  lemma {:induction false} ReadsAvailableConcat(a: seq<Step>, b: seq<Step>, base: set<string>)
    requires ReadsAvailable(a, base) && ReadsAvailable(b, base + OutputSet(a))
    ensures ReadsAvailable(a + b, base)
    decreases |a|
  {
    if |a| == 0 {
      assert a + b == b;
      assert OutputSet(a) == {};
      assert base + OutputSet(a) == base;
    } else {
      assert (a + b)[0] == a[0];
      assert (a + b)[1..] == a[1..] + b;
      FirstOutputs(a);
      assert base + OutputSet(a) == base + {a[0].outputName} + OutputSet(a[1..]);
      ReadsAvailableConcat(a[1..], b, base + {a[0].outputName});
    }
  }

  lemma ReadsAvailableSnoc(steps: seq<Step>, s: Step, base: set<string>)
    requires ReadsAvailable(steps, base) && ReadsFrom(s, base + OutputSet(steps))
    ensures ReadsAvailable(steps + [s], base)
  {
    assert [s][1..] == [];
    assert ReadsAvailable([s], base + OutputSet(steps));
    ReadsAvailableConcat(steps, [s], base);
  }

  lemma {:induction false} DependenciesConcat(a: seq<Step>, b: seq<Step>)
    ensures Dependencies(a + b) == Dependencies(a) + Dependencies(b)
    ensures TopLevel(a + b) == TopLevel(a) + TopLevel(b)
  {
    if |a| > 0 {
      assert (a + b)[1..] == a[1..] + b;
      DependenciesConcat(a[1..], b);
    } else {
      assert a + b == b;
    }
  }

  lemma {:induction false} NoTopLevel(steps: seq<Step>)
    requires NoSetReturn(steps)
    ensures Dependencies(steps) == steps && TopLevel(steps) == []
  {
    if |steps| > 0 {
      NoTopLevel(steps[1..]);
      assert steps == [steps[0]] + steps[1..];
    }
  }

  /** No step is marked `set_return`. */
  predicate NoSetReturn(steps: seq<Step>) {
    forall k :: 0 <= k < |steps| ==> !steps[k].setReturn
  }

  /** Each step's `is_async` is `asyncio.iscoroutinefunction` of its function,
      and an injector that does not allow async functions has no async
      step. */
  predicate AsyncFlags(inj: Injector, steps: seq<Step>) {
    && (forall k :: 0 <= k < |steps| ==> steps[k].isAsync == IsAsync(steps[k].func))
    && (!inj.allowAsync ==> forall k :: 0 <= k < |steps| ==> !steps[k].isAsync)
  }

  lemma FlagsConcat(inj: Injector, a: seq<Step>, b: seq<Step>)
    requires NoSetReturn(a) && NoSetReturn(b) && AsyncFlags(inj, a) && AsyncFlags(inj, b)
    ensures NoSetReturn(a + b) && AsyncFlags(inj, a + b)
  {
    var ab := a + b;
    forall k | |a| <= k < |ab|
      ensures ab[k] == b[k - |a|]
    {
    }
  }

  // ---------------------------------------------------------------------
  // Flags: only the function being resolved can carry `set_return`, and
  // every async function is rejected unless the injector allows it.

  lemma {:induction false} ResolveFlags(inj: Injector, f: Func, given: Option<string>, seen: set<string>,
                                        parent: Option<Parameter>, setReturn: bool)
    ensures var r := Resolve(inj, f, given, seen, parent, setReturn);
            r.Ok? ==> NoSetReturn(r.value.steps[..|r.value.steps| - 1]) && AsyncFlags(inj, r.value.steps)
                      && (!setReturn ==> NoSetReturn(r.value.steps))
    decreases |Universe(inj) - seen|, Rank(inj, f), 1, 0, 0
  {
    var r := Resolve(inj, f, given, seen, parent, setReturn);
    if r.Ok? {
      ParametersFlags(inj, f, 0, seen, parent);
      var b := ResolveParameters(inj, f, 0, seen, parent).value;
      var own := r.value.steps[|r.value.steps| - 1];
      assert r.value.steps == b.steps + [own];
      assert r.value.steps[..|r.value.steps| - 1] == b.steps;
      assert own.setReturn == setReturn;
      assert !setReturn ==> NoSetReturn(r.value.steps) by {
        if !setReturn {
          forall k | 0 <= k < |r.value.steps|
            ensures !r.value.steps[k].setReturn
          {
            if k < |b.steps| { assert r.value.steps[k] == b.steps[k]; }
          }
        }
      }
      forall k | 0 <= k < |r.value.steps|
        ensures r.value.steps[k].isAsync == IsAsync(r.value.steps[k].func)
        ensures !inj.allowAsync ==> !r.value.steps[k].isAsync
      {
        if k < |b.steps| { assert r.value.steps[k] == b.steps[k]; }
      }
    }
  }

  lemma {:induction false} ParametersFlags(inj: Injector, f: Func, i: nat, seen: set<string>,
                                           parent: Option<Parameter>)
    requires i <= |Params(f)|
    ensures var r := ResolveParameters(inj, f, i, seen, parent);
            r.Ok? ==> NoSetReturn(r.value.steps) && AsyncFlags(inj, r.value.steps)
    decreases |Universe(inj) - seen|, Rank(inj, f), 0, |Params(f)| - i, 1
  {
    if i < |Params(f)| {
      var producer := Producer(inj, Params(f)[i]);
      if producer.Some? && producer.value.1 !in seen {
        ParametersDescend(inj, f, i, seen, parent);
        DependencyFlags(inj, f, i, seen, parent, producer.value.0, producer.value.1);
      } else {
        ParametersSkip(inj, f, i, seen, parent);
        ParametersFlags(inj, f, i + 1, seen, parent);
      }
    }
  }

  lemma {:induction false} DependencyFlags(inj: Injector, f: Func, i: nat, seen: set<string>,
                                           parent: Option<Parameter>, g: Func, id: string)
    requires i < |Params(f)| && Producer(inj, Params(f)[i]) == Some((g, id)) && id !in seen
    ensures var r := ResolveDependency(inj, f, i, seen, parent, g, id);
            r.Ok? ==> NoSetReturn(r.value.steps) && AsyncFlags(inj, r.value.steps)
    decreases |Universe(inj) - seen|, Rank(inj, f), 0, |Params(f)| - i, 0
  {
    var p := Params(f)[i];
    DescentShrinks(inj, f, i, seen, g, id);
    var sub := Resolve(inj, g, Some(id), seen + {id}, Some(p), false);
    if sub.Ok? {
      ResolveFlags(inj, g, Some(id), seen + {id}, Some(p), false);
      SeenGrows(inj, seen, sub.value.seen);
      var rest := ResolveParameters(inj, f, i + 1, sub.value.seen, parent);
      if rest.Ok? {
        DependencyUnfold(inj, f, i, seen, parent, g, id);
        ParametersFlags(inj, f, i + 1, sub.value.seen, parent);
        FlagsConcat(inj, sub.value.steps, rest.value.steps);
      }
    }
  }


  // ---------------------------------------------------------------------
  // Errors: resolution fails only with a `ConfigurationError`.

  lemma {:induction false} ResolveErrors(inj: Injector, f: Func, given: Option<string>, seen: set<string>,
                                         parent: Option<Parameter>, setReturn: bool)
    ensures var r := Resolve(inj, f, given, seen, parent, setReturn);
            r.Err? ==> r.error.ConfigurationError?
    decreases |Universe(inj) - seen|, Rank(inj, f), 1, 0, 0
  {
    ParametersErrors(inj, f, 0, seen, parent);
  }

  lemma {:induction false} ParametersErrors(inj: Injector, f: Func, i: nat, seen: set<string>,
                                            parent: Option<Parameter>)
    requires i <= |Params(f)|
    ensures var r := ResolveParameters(inj, f, i, seen, parent);
            r.Err? ==> r.error.ConfigurationError?
    decreases |Universe(inj) - seen|, Rank(inj, f), 0, |Params(f)| - i, 1
  {
    if i < |Params(f)| {
      var producer := Producer(inj, Params(f)[i]);
      if producer.Some? && producer.value.1 !in seen {
        ParametersDescend(inj, f, i, seen, parent);
        DependencyErrors(inj, f, i, seen, parent, producer.value.0, producer.value.1);
      } else {
        ParametersErrors(inj, f, i + 1, seen, parent);
      }
    }
  }
  lemma {:induction false} DependencyErrors(inj: Injector, f: Func, i: nat, seen: set<string>,
                                            parent: Option<Parameter>, g: Func, id: string)
    requires i < |Params(f)| && Producer(inj, Params(f)[i]) == Some((g, id)) && id !in seen
    ensures var r := ResolveDependency(inj, f, i, seen, parent, g, id);
            r.Err? ==> r.error.ConfigurationError?
    decreases |Universe(inj) - seen|, Rank(inj, f), 0, |Params(f)| - i, 0
  {
    var p := Params(f)[i];
    DescentShrinks(inj, f, i, seen, g, id);
    ResolveErrors(inj, g, Some(id), seen + {id}, Some(p), false);
    var sub := Resolve(inj, g, Some(id), seen + {id}, Some(p), false);
    if sub.Ok? {
      SeenGrows(inj, seen, sub.value.seen);
      ParametersErrors(inj, f, i + 1, sub.value.seen, parent);
    }
  }

  /** `resolve_functions` fails only with a `ConfigurationError`. */
  lemma {:induction false} BatchErrors(inj: Injector, funcs: seq<Func>, seen: set<string>)
    ensures var r := ResolveBatch(inj, funcs, seen);
            r.Err? ==> r.error.ConfigurationError?
  {
    if |funcs| > 0 {
      ResolveErrors(inj, funcs[0], None, seen, None, true);
      var first := Resolve(inj, funcs[0], None, seen, None, true);
      if first.Ok? {
        BatchErrors(inj, funcs[1..], first.value.seen);
      }
    }
  }

  // ---------------------------------------------------------------------
  // Deduplication: the seen set grows by exactly the outputs of the
  // dependency steps, and no identity is written by two of them.

  lemma {:induction false} ResolveDedup(inj: Injector, f: Func, given: Option<string>, seen: set<string>,
                                        parent: Option<Parameter>, setReturn: bool)
    ensures var r := Resolve(inj, f, given, seen, parent, setReturn);
            r.Ok? ==> var deps := r.value.steps[..|r.value.steps| - 1];
              DistinctOutputs(deps) && OutputSet(deps) == r.value.seen - seen
    decreases |Universe(inj) - seen|, Rank(inj, f), 1, 0, 0
  {
    var r := Resolve(inj, f, given, seen, parent, setReturn);
    if r.Ok? {
      ParametersDedup(inj, f, 0, seen, parent);
      var b := ResolveParameters(inj, f, 0, seen, parent).value;
      assert r.value.steps[..|r.value.steps| - 1] == b.steps;
    }
  }

  lemma {:induction false} ParametersDedup(inj: Injector, f: Func, i: nat, seen: set<string>,
                                           parent: Option<Parameter>)
    requires i <= |Params(f)|
    ensures var r := ResolveParameters(inj, f, i, seen, parent);
            r.Ok? ==> DistinctOutputs(r.value.steps) && OutputSet(r.value.steps) == r.value.seen - seen
    decreases |Universe(inj) - seen|, Rank(inj, f), 0, |Params(f)| - i, 3
  {
    if i < |Params(f)| {
      var producer := Producer(inj, Params(f)[i]);
      if producer.Some? && producer.value.1 !in seen {
        ParametersDescend(inj, f, i, seen, parent);
        DependencyDedup(inj, f, i, seen, parent, producer.value.0, producer.value.1);
      } else {
        ParametersSkip(inj, f, i, seen, parent);
        ParametersDedup(inj, f, i + 1, seen, parent);
      }
    }
  }
  /** The outputs of a dependency's steps and of the remaining parameters'
      steps together are distinct and are exactly the identities added. */
  lemma DedupStep(inj: Injector, f: Func, i: nat, seen: set<string>, parent: Option<Parameter>,
                  g: Func, id: string, sub: Resolution, rest: Bindings)
    requires i < |Params(f)| && Producer(inj, Params(f)[i]) == Some((g, id)) && id !in seen
    requires Resolve(inj, g, Some(id), seen + {id}, Some(Params(f)[i]), false) == Ok(sub)
    requires DistinctOutputs(sub.steps[..|sub.steps| - 1])
    requires OutputSet(sub.steps[..|sub.steps| - 1]) == sub.seen - (seen + {id})
    requires ResolveParameters(inj, f, i + 1, sub.seen, parent) == Ok(rest)
    requires DistinctOutputs(rest.steps) && OutputSet(rest.steps) == rest.seen - sub.seen
    ensures var r := ResolveDependency(inj, f, i, seen, parent, g, id);
            r.Ok? && DistinctOutputs(r.value.steps) && OutputSet(r.value.steps) == r.value.seen - seen
  {
    DependencyUnfold(inj, f, i, seen, parent, g, id);
    CombineDedup(sub.steps, rest.steps, seen, id, sub.seen, rest.seen);
  }

  lemma {:induction false} DependencyDedup(inj: Injector, f: Func, i: nat, seen: set<string>,
                                           parent: Option<Parameter>, g: Func, id: string)
    requires i < |Params(f)| && Producer(inj, Params(f)[i]) == Some((g, id)) && id !in seen
    ensures var r := ResolveDependency(inj, f, i, seen, parent, g, id);
            r.Ok? ==> DistinctOutputs(r.value.steps) && OutputSet(r.value.steps) == r.value.seen - seen
    decreases |Universe(inj) - seen|, Rank(inj, f), 0, |Params(f)| - i, 2
  {
    if ResolveDependency(inj, f, i, seen, parent, g, id).Ok? {
      DependencySucceeded(inj, f, i, seen, parent, g, id);
      var sub := Resolve(inj, g, Some(id), seen + {id}, Some(Params(f)[i]), false).value;
      DedupDescend(inj, f, i, seen, parent, g, id, sub);
    }
  }

  /** The producer's own steps are distinct, and then so is everything. */
  lemma {:induction false} DedupDescend(inj: Injector, f: Func, i: nat, seen: set<string>,
                                        parent: Option<Parameter>, g: Func, id: string, sub: Resolution)
    requires i < |Params(f)| && Producer(inj, Params(f)[i]) == Some((g, id)) && id !in seen
    requires Resolve(inj, g, Some(id), seen + {id}, Some(Params(f)[i]), false) == Ok(sub)
    requires ResolveParameters(inj, f, i + 1, sub.seen, parent).Ok?
    ensures var r := ResolveDependency(inj, f, i, seen, parent, g, id);
            r.Ok? && DistinctOutputs(r.value.steps) && OutputSet(r.value.steps) == r.value.seen - seen
    decreases |Universe(inj) - seen|, Rank(inj, f), 0, |Params(f)| - i, 1
  {
    DescentShrinks(inj, f, i, seen, g, id);
    ResolveDedup(inj, g, Some(id), seen + {id}, Some(Params(f)[i]), false);
    DedupRest(inj, f, i, seen, parent, g, id, sub);
  }

  /** The second half: once the producer's steps are known distinct, so are
      the remaining parameters', and together too. */
  lemma {:induction false} DedupRest(inj: Injector, f: Func, i: nat, seen: set<string>,
                                     parent: Option<Parameter>, g: Func, id: string, sub: Resolution)
    requires i < |Params(f)| && Producer(inj, Params(f)[i]) == Some((g, id)) && id !in seen
    requires Resolve(inj, g, Some(id), seen + {id}, Some(Params(f)[i]), false) == Ok(sub)
    requires ResolveParameters(inj, f, i + 1, sub.seen, parent).Ok?
    requires DistinctOutputs(sub.steps[..|sub.steps| - 1])
    requires OutputSet(sub.steps[..|sub.steps| - 1]) == sub.seen - (seen + {id})
    ensures var r := ResolveDependency(inj, f, i, seen, parent, g, id);
            r.Ok? && DistinctOutputs(r.value.steps) && OutputSet(r.value.steps) == r.value.seen - seen
    decreases |Universe(inj) - seen|, Rank(inj, f), 0, |Params(f)| - i, 0
  {
    SeenGrows(inj, seen, sub.seen);
    var rest := ResolveParameters(inj, f, i + 1, sub.seen, parent).value;
    ParametersDedup(inj, f, i + 1, sub.seen, parent);
    DedupStep(inj, f, i, seen, parent, g, id, sub, rest);
  }

  /** A dependency resolves only when the producer and then the remaining
      parameters do. */
  lemma DependencySucceeded(inj: Injector, f: Func, i: nat, seen: set<string>,
                            parent: Option<Parameter>, g: Func, id: string)
    requires i < |Params(f)| && Producer(inj, Params(f)[i]) == Some((g, id)) && id !in seen
    requires ResolveDependency(inj, f, i, seen, parent, g, id).Ok?
    ensures var sub := Resolve(inj, g, Some(id), seen + {id}, Some(Params(f)[i]), false);
            && sub.Ok?
            && ResolveParameters(inj, f, i + 1, sub.value.seen, parent).Ok?
  {
  }

  /** A dependency's resolution, when it and the remaining parameters
      resolve, is their concatenation. */
  /** A parameter that resolves nothing new adds no step. How it is bound
      depends on its kind: `ReturnValue`, an initial key and an already seen
      component are bound by name to their state key; `inspect.Parameter`
      becomes a constant; an already seen validated parameter is not bound
      at all; an unhandled one fails. */
  lemma ParametersSkip(inj: Injector, f: Func, i: nat, seen: set<string>, parent: Option<Parameter>)
    requires i < |Params(f)|
    requires Producer(inj, Params(f)[i]).None? || Producer(inj, Params(f)[i]).value.1 in seen
    ensures var r := ResolveParameters(inj, f, i, seen, parent);
            var rest := ResolveParameters(inj, f, i + 1, seen, parent);
            var p := Params(f)[i];
            && (r.Ok? ==> rest.Ok? && r.value.steps == rest.value.steps && r.value.seen == rest.value.seen)
            && (Classify(inj, p).ToValidated? ==> r == rest)
            && (Classify(inj, p).ToComponent? ==>
                  r.Ok? == rest.Ok?
                  && (r.Ok? ==> r.value == rest.value.(kwargs := [(p.name, Classify(inj, p).identity)] + rest.value.kwargs)))
            && (Classify(inj, p) == ToReturnValue ==>
                  r.Ok? == rest.Ok?
                  && (r.Ok? ==> r.value == rest.value.(kwargs := [(p.name, ReturnValueKey)] + rest.value.kwargs)))
            && (Classify(inj, p).ToInitial? ==>
                  r.Ok? == rest.Ok?
                  && (r.Ok? ==> r.value == rest.value.(kwargs := [(p.name, Classify(inj, p).key)] + rest.value.kwargs)))
            && (Classify(inj, p) == ToParentParameter ==>
                  r.Ok? == rest.Ok?
                  && (r.Ok? ==> r.value == rest.value.(consts := [(p.name, ParentValue(parent))] + rest.value.consts)))
            && (Classify(inj, p) == Unhandled ==> r == Err(ConfigurationError(NoComponent(p.name, Name(f)))))
  {
  }

  /** A parameter whose producer is not yet resolved descends into it. */
  lemma ParametersDescend(inj: Injector, f: Func, i: nat, seen: set<string>, parent: Option<Parameter>)
    requires i < |Params(f)|
    requires Producer(inj, Params(f)[i]).Some? && Producer(inj, Params(f)[i]).value.1 !in seen
    ensures var producer := Producer(inj, Params(f)[i]).value;
            ResolveParameters(inj, f, i, seen, parent)
            == ResolveDependency(inj, f, i, seen, parent, producer.0, producer.1)
  {
  }

  lemma DependencyUnfold(inj: Injector, f: Func, i: nat, seen: set<string>,
                         parent: Option<Parameter>, g: Func, id: string)
    requires i < |Params(f)| && Producer(inj, Params(f)[i]) == Some((g, id)) && id !in seen
    requires Resolve(inj, g, Some(id), seen + {id}, Some(Params(f)[i]), false).Ok?
    requires ResolveParameters(inj, f, i + 1, Resolve(inj, g, Some(id), seen + {id}, Some(Params(f)[i]), false).value.seen, parent).Ok?
    ensures var sub := Resolve(inj, g, Some(id), seen + {id}, Some(Params(f)[i]), false).value;
            var rest := ResolveParameters(inj, f, i + 1, sub.seen, parent).value;
            ResolveDependency(inj, f, i, seen, parent, g, id)
            == Ok(Bindings(sub.steps + rest.steps, [(Params(f)[i].name, id)] + rest.kwargs, rest.consts, rest.seen))
  {
  }

  /** The outputs of a dependency's resolution followed by those of the
      remaining parameters are distinct and are exactly what was added to
      the seen set. */
  lemma CombineDedup(steps: seq<Step>, rest: seq<Step>, seen: set<string>, id: string,
                     subSeen: set<string>, restSeen: set<string>)
    requires |steps| >= 1 && steps[|steps| - 1].outputName == id && id !in seen
    requires DistinctOutputs(steps[..|steps| - 1]) && OutputSet(steps[..|steps| - 1]) == subSeen - (seen + {id})
    requires seen + {id} <= subSeen <= restSeen
    requires DistinctOutputs(rest) && OutputSet(rest) == restSeen - subSeen
    ensures DistinctOutputs(steps + rest) && OutputSet(steps + rest) == restSeen - seen
  {
    var deps := steps[..|steps| - 1];
    var own := steps[|steps| - 1];
    assert steps == deps + [own];
    OutputSetConcat(deps, [own]);
    assert OutputSet([own]) == {id};
    DistinctConcat(deps, [own]);
    assert OutputSet(steps) == subSeen - seen;
    OutputSetConcat(steps, rest);
    DistinctConcat(steps, rest);
  }

  // ---------------------------------------------------------------------
  // Ordering. With acyclic dependencies, given by a rank on identities that
  // strictly drops from a parameter's identity to the identities of its
  // producer's parameters, every key a step reads is an initial key,
  // `return_value`, or the output of an earlier step.

  /** The identities a parameter's producer depends on rank below the
      parameter's own identity. */
  ghost predicate RankedAt(inj: Injector, rank: string -> nat, p: Parameter) {
    Producer(inj, p).Some? ==> DepsBelow(inj, rank, Producer(inj, p).value.0, rank(Producer(inj, p).value.1))
  }

  /** The dependencies of components and query-parameter resolvers are
      acyclic. */
  ghost predicate Ranked(inj: Injector, rank: string -> nat) {
    forall p :: RankedAt(inj, rank, p)
  }

  /** Every identity `f`'s parameters are resolved to ranks below `bound`. */
  ghost predicate DepsBelow(inj: Injector, rank: string -> nat, f: Func, bound: nat) {
    forall j :: 0 <= j < |Params(f)| && Producer(inj, Params(f)[j]).Some? ==>
      rank(Producer(inj, Params(f)[j]).value.1) < bound
  }

  /** The identities in `seen` that are not yet available are those of the
      resolutions in progress; all of them rank at least `bound`. */
  ghost predicate PendingAbove(rank: string -> nat, seen: set<string>, avail: set<string>, bound: Option<nat>) {
    forall id :: id in seen && id !in avail ==> bound.Some? && rank(id) >= bound.value
  }

  lemma KeysInCons(x: (string, string), kwargs: seq<(string, string)>, keys: set<string>)
    requires x.1 in keys && KeysIn(kwargs, keys)
    ensures KeysIn([x] + kwargs, keys)
  {
    var all := [x] + kwargs;
    forall k | 1 <= k < |all|
      ensures all[k] == kwargs[k - 1]
    {
    }
  }

  /** A seen identity of one of `f`'s parameters is available: it cannot be
      pending, since pending identities rank above `f`'s dependencies. */
  lemma SeenIsAvailable(inj: Injector, rank: string -> nat, f: Func, i: nat, seen: set<string>,
                        avail: set<string>, bound: Option<nat>)
    requires i < |Params(f)| && Producer(inj, Params(f)[i]).Some?
    requires Producer(inj, Params(f)[i]).value.1 in seen
    requires PendingAbove(rank, seen, avail, bound)
    requires bound.Some? ==> DepsBelow(inj, rank, f, bound.value)
    ensures Producer(inj, Params(f)[i]).value.1 in avail
  {
  }

  /** Entering a producer's resolution makes its identity pending, above
      everything the producer depends on. */
  lemma PendingDescend(inj: Injector, rank: string -> nat, f: Func, i: nat, seen: set<string>,
                       avail: set<string>, bound: Option<nat>, g: Func, id: string)
    requires i < |Params(f)| && Producer(inj, Params(f)[i]) == Some((g, id))
    requires Ranked(inj, rank)
    requires PendingAbove(rank, seen, avail, bound)
    requires bound.Some? ==> DepsBelow(inj, rank, f, bound.value)
    ensures PendingAbove(rank, seen + {id}, avail, Some(rank(id)))
    ensures DepsBelow(inj, rank, g, rank(id))
  {
    assert RankedAt(inj, rank, Params(f)[i]);
  }

  /** After a producer's resolution its steps' outputs are available, and
      what is pending is what was pending before. */
  lemma PendingAfter(steps: seq<Step>, rank: string -> nat, seen: set<string>, avail: set<string>,
                     bound: Option<nat>, id: string, subSeen: set<string>)
    requires |steps| >= 1 && steps[|steps| - 1].outputName == id
    requires OutputSet(steps[..|steps| - 1]) == subSeen - (seen + {id}) && seen + {id} <= subSeen
    requires avail <= seen && PendingAbove(rank, seen, avail, bound)
    ensures avail + OutputSet(steps) <= subSeen && id in OutputSet(steps)
    ensures PendingAbove(rank, subSeen, avail + OutputSet(steps), bound)
  {
    assert steps == steps[..|steps| - 1] + [steps[|steps| - 1]];
    OutputSetConcat(steps[..|steps| - 1], [steps[|steps| - 1]]);
    assert OutputSet([steps[|steps| - 1]]) == {id};
  }

  /** The reads of a producer's steps, then those of the remaining
      parameters, and the keyword arguments bound along the way. */
  lemma CombineOrdered(steps: seq<Step>, rest: seq<Step>, name: string, id: string,
                       kwargs: seq<(string, string)>, avail: set<string>)
    requires ReadsAvailable(steps, avail + {ReturnValueKey}) && id in OutputSet(steps)
    requires ReadsAvailable(rest, avail + OutputSet(steps) + {ReturnValueKey})
    requires KeysIn(kwargs, avail + OutputSet(steps) + {ReturnValueKey} + OutputSet(rest))
    ensures ReadsAvailable(steps + rest, avail + {ReturnValueKey})
    ensures KeysIn([(name, id)] + kwargs, avail + {ReturnValueKey} + OutputSet(steps + rest))
  {
    var base := avail + {ReturnValueKey};
    assert avail + OutputSet(steps) + {ReturnValueKey} == base + OutputSet(steps);
    ReadsAvailableConcat(steps, rest, base);
    OutputSetConcat(steps, rest);
    KeysInCons((name, id), kwargs, base + OutputSet(steps + rest));
  }

  lemma {:induction false} ResolveOrdered(inj: Injector, rank: string -> nat, f: Func, given: Option<string>,
                                          seen: set<string>, avail: set<string>, parent: Option<Parameter>,
                                          setReturn: bool, bound: Option<nat>)
    requires Ranked(inj, rank)
    requires InitialKeys(inj) <= avail <= seen
    requires PendingAbove(rank, seen, avail, bound)
    requires bound.Some? ==> DepsBelow(inj, rank, f, bound.value)
    ensures var r := Resolve(inj, f, given, seen, parent, setReturn);
            r.Ok? ==> ReadsAvailable(r.value.steps, avail + {ReturnValueKey})
    decreases |Universe(inj) - seen|, Rank(inj, f), 1, 0, 0
  {
    var r := Resolve(inj, f, given, seen, parent, setReturn);
    if r.Ok? {
      ParametersOrdered(inj, rank, f, 0, seen, avail, parent, bound);
      var b := ResolveParameters(inj, f, 0, seen, parent).value;
      var own := r.value.steps[|r.value.steps| - 1];
      assert r.value.steps == b.steps + [own];
      assert own.kwargs == b.kwargs;
      ReadsAvailableSnoc(b.steps, own, avail + {ReturnValueKey});
    }
  }

  lemma {:induction false} ParametersOrdered(inj: Injector, rank: string -> nat, f: Func, i: nat,
                                             seen: set<string>, avail: set<string>, parent: Option<Parameter>,
                                             bound: Option<nat>)
    requires i <= |Params(f)|
    requires Ranked(inj, rank)
    requires InitialKeys(inj) <= avail <= seen
    requires PendingAbove(rank, seen, avail, bound)
    requires bound.Some? ==> DepsBelow(inj, rank, f, bound.value)
    ensures var r := ResolveParameters(inj, f, i, seen, parent);
            r.Ok? ==> ReadsAvailable(r.value.steps, avail + {ReturnValueKey})
                      && KeysIn(r.value.kwargs, avail + {ReturnValueKey} + OutputSet(r.value.steps))
    decreases |Universe(inj) - seen|, Rank(inj, f), 0, |Params(f)| - i, 1
  {
    if i < |Params(f)| {
      var producer := Producer(inj, Params(f)[i]);
      if producer.Some? && producer.value.1 !in seen {
        ParametersDescend(inj, f, i, seen, parent);
        DependencyOrdered(inj, rank, f, i, seen, avail, parent, bound, producer.value.0, producer.value.1);
      } else {
        ParametersOrdered(inj, rank, f, i + 1, seen, avail, parent, bound);
        OrderedStep(inj, rank, f, i, seen, avail, parent, bound);
      }
    }
  }

  /** A parameter that resolves nothing new binds only keys that are
      available: an initial key, `return_value`, or a seen identity. */
  lemma OrderedStep(inj: Injector, rank: string -> nat, f: Func, i: nat,
                    seen: set<string>, avail: set<string>, parent: Option<Parameter>, bound: Option<nat>)
    requires i < |Params(f)|
    requires Producer(inj, Params(f)[i]).None? || Producer(inj, Params(f)[i]).value.1 in seen
    requires InitialKeys(inj) <= avail
    requires PendingAbove(rank, seen, avail, bound)
    requires bound.Some? ==> DepsBelow(inj, rank, f, bound.value)
    requires var rest := ResolveParameters(inj, f, i + 1, seen, parent);
             rest.Ok? ==> ReadsAvailable(rest.value.steps, avail + {ReturnValueKey})
                          && KeysIn(rest.value.kwargs, avail + {ReturnValueKey} + OutputSet(rest.value.steps))
    ensures var r := ResolveParameters(inj, f, i, seen, parent);
            r.Ok? ==> ReadsAvailable(r.value.steps, avail + {ReturnValueKey})
                      && KeysIn(r.value.kwargs, avail + {ReturnValueKey} + OutputSet(r.value.steps))
  {
    var p := Params(f)[i];
    var base := avail + {ReturnValueKey};
    var rest := ResolveParameters(inj, f, i + 1, seen, parent);
    if rest.Ok? {
      var keys := base + OutputSet(rest.value.steps);
      match Classify(inj, p)
      case ToReturnValue =>
        KeysInCons((p.name, ReturnValueKey), rest.value.kwargs, keys);
      case ToInitial(key) =>
        var j :| 0 <= j < |inj.initial| && inj.initial[j] == (key, p.annotation);
        assert key in InitialKeys(inj);
        KeysInCons((p.name, key), rest.value.kwargs, keys);
      case ToParentParameter =>
      case ToValidated(id) =>
      case ToComponent(k, id) =>
        SeenIsAvailable(inj, rank, f, i, seen, avail, bound);
        KeysInCons((p.name, id), rest.value.kwargs, keys);
      case Unhandled =>
    }
  }

  /** After a producer's resolution, what it wrote is available and the
      identities still pending keep their rank. */
  lemma AfterDescent(inj: Injector, rank: string -> nat, g: Func, id: string, seen: set<string>,
                     avail: set<string>, bound: Option<nat>, p: Parameter)
    requires Resolve(inj, g, Some(id), seen + {id}, Some(p), false).Ok?
    requires id !in seen && avail <= seen && PendingAbove(rank, seen, avail, bound)
    ensures var sub := Resolve(inj, g, Some(id), seen + {id}, Some(p), false).value;
            && avail + OutputSet(sub.steps) <= sub.seen && id in OutputSet(sub.steps)
            && PendingAbove(rank, sub.seen, avail + OutputSet(sub.steps), bound)
  {
    var sub := Resolve(inj, g, Some(id), seen + {id}, Some(p), false).value;
    ResolveDedup(inj, g, Some(id), seen + {id}, Some(p), false);
    PendingAfter(sub.steps, rank, seen, avail, bound, id, sub.seen);
  }

  lemma {:induction false} DependencyOrdered(inj: Injector, rank: string -> nat, f: Func, i: nat,
                                             seen: set<string>, avail: set<string>, parent: Option<Parameter>,
                                             bound: Option<nat>, g: Func, id: string)
    requires i < |Params(f)| && Producer(inj, Params(f)[i]) == Some((g, id)) && id !in seen
    requires Ranked(inj, rank)
    requires InitialKeys(inj) <= avail <= seen
    requires PendingAbove(rank, seen, avail, bound)
    requires bound.Some? ==> DepsBelow(inj, rank, f, bound.value)
    ensures var r := ResolveDependency(inj, f, i, seen, parent, g, id);
            r.Ok? ==> ReadsAvailable(r.value.steps, avail + {ReturnValueKey})
                      && KeysIn(r.value.kwargs, avail + {ReturnValueKey} + OutputSet(r.value.steps))
    decreases |Universe(inj) - seen|, Rank(inj, f), 0, |Params(f)| - i, 0
  {
    var p := Params(f)[i];
    DescentShrinks(inj, f, i, seen, g, id);
    var sub := Resolve(inj, g, Some(id), seen + {id}, Some(p), false);
    if sub.Ok? {
      PendingDescend(inj, rank, f, i, seen, avail, bound, g, id);
      ResolveOrdered(inj, rank, g, Some(id), seen + {id}, avail, Some(p), false, Some(rank(id)));
      SeenGrows(inj, seen, sub.value.seen);
      AfterDescent(inj, rank, g, id, seen, avail, bound, p);
      var avail' := avail + OutputSet(sub.value.steps);
      var rest := ResolveParameters(inj, f, i + 1, sub.value.seen, parent);
      if rest.Ok? {
        ParametersOrdered(inj, rank, f, i + 1, sub.value.seen, avail', parent, bound);
        DependencyUnfold(inj, f, i, seen, parent, g, id);
        CombineOrdered(sub.value.steps, rest.value.steps, p.name, id, rest.value.kwargs, avail);
      }
    }
  }

  // ---------------------------------------------------------------------
  // Batches.

  /** In a `resolve_functions` batch the top-level steps are exactly the
      given functions, in order; the dependency steps write pairwise
      distinct keys, which are exactly the identities added to the seen
      set. */
  /** A top-level function's resolution ends with its own `set_return`
      step, after dependency steps that write distinct, newly seen keys. */
  lemma TopLevelResolution(inj: Injector, f: Func, seen: set<string>)
    requires Resolve(inj, f, None, seen, None, true).Ok?
    ensures var r := Resolve(inj, f, None, seen, None, true).value;
            var deps := r.steps[..|r.steps| - 1];
            && |r.steps| >= 1 && r.steps[|r.steps| - 1].setReturn && r.steps[|r.steps| - 1].func == f
            && NoSetReturn(deps) && DistinctOutputs(deps) && OutputSet(deps) == r.seen - seen
            && seen <= r.seen
  {
    ResolveDedup(inj, f, None, seen, None, true);
    ResolveFlags(inj, f, None, seen, None, true);
  }

  lemma {:induction false} BatchShape(inj: Injector, funcs: seq<Func>, seen: set<string>)
    ensures var r := ResolveBatch(inj, funcs, seen);
            r.Ok? ==> TopLevel(r.value.steps) == funcs
                      && DistinctOutputs(Dependencies(r.value.steps))
                      && OutputSet(Dependencies(r.value.steps)) == r.value.seen - seen
  {
    var r := ResolveBatch(inj, funcs, seen);
    if |funcs| > 0 && r.Ok? {
      var first := Resolve(inj, funcs[0], None, seen, None, true).value;
      var rest := ResolveBatch(inj, funcs[1..], first.seen).value;
      TopLevelResolution(inj, funcs[0], seen);
      BatchShape(inj, funcs[1..], first.seen);
      CombineShape(first.steps, rest.steps, funcs[0], funcs[1..], seen, first.seen, rest.seen);
      assert funcs == [funcs[0]] + funcs[1..];
    }
  }

  /** Every step of a batch carries its function's `is_async`, and a batch
      for an injector that does not allow async functions has no async
      step. */
  lemma {:induction false} BatchFlags(inj: Injector, funcs: seq<Func>, seen: set<string>)
    ensures var r := ResolveBatch(inj, funcs, seen);
            r.Ok? ==> AsyncFlags(inj, r.value.steps)
  {
    var r := ResolveBatch(inj, funcs, seen);
    if |funcs| > 0 && r.Ok? {
      var first := Resolve(inj, funcs[0], None, seen, None, true).value;
      var rest := ResolveBatch(inj, funcs[1..], first.seen).value;
      ResolveFlags(inj, funcs[0], None, seen, None, true);
      BatchFlags(inj, funcs[1..], first.seen);
      AsyncFlagsConcat(inj, first.steps, rest.steps);
    }
  }

  lemma AsyncFlagsConcat(inj: Injector, a: seq<Step>, b: seq<Step>)
    requires AsyncFlags(inj, a) && AsyncFlags(inj, b)
    ensures AsyncFlags(inj, a + b)
  {
    var ab := a + b;
    forall k | |a| <= k < |ab|
      ensures ab[k] == b[k - |a|]
    {
    }
  }

  /** One top-level resolution followed by the rest of the batch. */
  lemma {:induction false} CombineShape(steps: seq<Step>, rest: seq<Step>, f: Func, fs: seq<Func>,
                     seen: set<string>, mid: set<string>, fin: set<string>)
    requires |steps| >= 1 && steps[|steps| - 1].setReturn && steps[|steps| - 1].func == f
    requires NoSetReturn(steps[..|steps| - 1]) && DistinctOutputs(steps[..|steps| - 1])
    requires OutputSet(steps[..|steps| - 1]) == mid - seen && seen <= mid <= fin
    requires TopLevel(rest) == fs && DistinctOutputs(Dependencies(rest))
    requires OutputSet(Dependencies(rest)) == fin - mid
    ensures TopLevel(steps + rest) == [f] + fs
    ensures DistinctOutputs(Dependencies(steps + rest))
    ensures OutputSet(Dependencies(steps + rest)) == fin - seen
  {
    var deps := steps[..|steps| - 1];
    LastIsTopLevel(steps, f);
    DependenciesConcat(steps, rest);
    DistinctConcat(deps, Dependencies(rest));
    OutputSetConcat(deps, Dependencies(rest));
  }

  /** Dependency steps followed by one top-level step for `f`. */
  lemma {:induction false} LastIsTopLevel(steps: seq<Step>, f: Func)
    requires |steps| >= 1 && steps[|steps| - 1].setReturn && steps[|steps| - 1].func == f
    requires NoSetReturn(steps[..|steps| - 1])
    ensures Dependencies(steps) == steps[..|steps| - 1] && TopLevel(steps) == [f]
  {
    var deps := steps[..|steps| - 1];
    var own := steps[|steps| - 1];
    assert steps == deps + [own];
    NoTopLevel(deps);
    DependenciesConcat(deps, [own]);
    assert Dependencies([own]) == [] && TopLevel([own]) == [f] by {
      assert [own][1..] == [];
    }
  }

  /** What a resolution adds to the seen set, its steps write. */
  lemma SeenIsWritten(steps: seq<Step>, seen: set<string>, seen': set<string>)
    requires |steps| >= 1 && OutputSet(steps[..|steps| - 1]) == seen' - seen && seen <= seen'
    ensures seen' + {ReturnValueKey} <= seen + {ReturnValueKey} + OutputSet(steps)
  {
    assert steps == steps[..|steps| - 1] + [steps[|steps| - 1]];
    OutputSetConcat(steps[..|steps| - 1], [steps[|steps| - 1]]);
  }

  /** With acyclic dependencies and a seen set holding the initial keys,
      every step of a batch reads only keys already in the seen set,
      `return_value`, or keys written by earlier steps. */
  lemma {:induction false} BatchOrdered(inj: Injector, rank: string -> nat, funcs: seq<Func>, seen: set<string>)
    requires Ranked(inj, rank) && InitialKeys(inj) <= seen
    ensures var r := ResolveBatch(inj, funcs, seen);
            r.Ok? ==> ReadsAvailable(r.value.steps, seen + {ReturnValueKey})
  {
    var r := ResolveBatch(inj, funcs, seen);
    if |funcs| > 0 && r.Ok? {
      var first := Resolve(inj, funcs[0], None, seen, None, true).value;
      var rest := ResolveBatch(inj, funcs[1..], first.seen).value;
      ResolveOrdered(inj, rank, funcs[0], None, seen, seen, None, true, None);
      ResolveDedup(inj, funcs[0], None, seen, None, true);
      BatchOrdered(inj, rank, funcs[1..], first.seen);
      SeenIsWritten(first.steps, seen, first.seen);
      ReadsAvailableWeaken(rest.steps, first.seen + {ReturnValueKey},
                           seen + {ReturnValueKey} + OutputSet(first.steps));
      ReadsAvailableConcat(first.steps, rest.steps, seen + {ReturnValueKey});
    }
  }

  /** `resolve_functions`: the plan's top-level steps are the functions in
      order, its dependency steps write distinct keys none of which is an
      initial key, and with acyclic dependencies every read is available. */
  lemma ResolveFunctionsPlan(inj: Injector, rank: string -> nat, funcs: seq<Func>)
    requires Ranked(inj, rank)
    ensures var r := ResolveFunctions(inj, funcs);
            r.Ok? ==> TopLevel(r.value) == funcs
                      && DistinctOutputs(Dependencies(r.value))
                      && OutputSet(Dependencies(r.value)) !! InitialKeys(inj)
                      && ReadsAvailable(r.value, InitialKeys(inj) + {ReturnValueKey})
  {
    BatchShape(inj, funcs, InitialKeys(inj));
    BatchOrdered(inj, rank, funcs, InitialKeys(inj));
  }

  // ---------------------------------------------------------------------
  // The asymmetry between validator and component parameters.

  /** The binding of the `i`-th parameter, whatever the others are: a
      validator-annotated parameter whose identity is already seen is left
      out, and the loop goes on as if it were not there; otherwise it is
      bound to its identity, first among the keyword arguments the loop
      builds from there. A component-handled parameter is bound to its
      identity either way. */
  lemma ParameterBinding(inj: Injector, f: Func, i: nat, seen: set<string>, parent: Option<Parameter>)
    requires i < |Params(f)|
    ensures var p := Params(f)[i];
            var r := ResolveParameters(inj, f, i, seen, parent);
            match Classify(inj, p)
            case ToValidated(id) =>
              (id in seen ==> r == ResolveParameters(inj, f, i + 1, seen, parent))
              && (id !in seen && r.Ok? ==> |r.value.kwargs| >= 1 && r.value.kwargs[0] == (p.name, id))
            case ToComponent(_, id) =>
              r.Ok? ==> |r.value.kwargs| >= 1 && r.value.kwargs[0] == (p.name, id)
            case _ => true
  {
    var p := Params(f)[i];
    match Classify(inj, p)
    case ToValidated(id) =>
      if id in seen {
        SeenValidatedLeftOut(inj, f, i, seen, parent);
      } else {
        FreshParameterBound(inj, f, i, seen, parent);
      }
    case ToComponent(k, id) =>
      if id in seen {
        SeenComponentBound(inj, f, i, seen, parent);
      } else {
        FreshParameterBound(inj, f, i, seen, parent);
      }
    case _ =>
  }

  /** A validated parameter whose identity is already seen resolves nothing
      and is left out of `kwargs`: the loop from it on builds what the loop
      from the next parameter builds. */
  lemma SeenValidatedLeftOut(inj: Injector, f: Func, i: nat, seen: set<string>, parent: Option<Parameter>)
    requires i < |Params(f)|
    requires Classify(inj, Params(f)[i]).ToValidated? && Classify(inj, Params(f)[i]).identity in seen
    ensures ResolveParameters(inj, f, i, seen, parent) == ResolveParameters(inj, f, i + 1, seen, parent)
  {
    ParametersSkip(inj, f, i, seen, parent);
  }

  /** A component parameter whose identity is already seen resolves nothing
      but is still bound to its identity, ahead of the later parameters. */
  lemma SeenComponentBound(inj: Injector, f: Func, i: nat, seen: set<string>, parent: Option<Parameter>)
    requires i < |Params(f)|
    requires Classify(inj, Params(f)[i]).ToComponent? && Classify(inj, Params(f)[i]).identity in seen
    ensures var p := Params(f)[i];
            var r := ResolveParameters(inj, f, i, seen, parent);
            var rest := ResolveParameters(inj, f, i + 1, seen, parent);
            && (r.Ok? <==> rest.Ok?)
            && (r.Ok? ==> r.value == rest.value.(kwargs := [(p.name, Classify(inj, p).identity)] + rest.value.kwargs))
  {
    ParametersSkip(inj, f, i, seen, parent);
  }

  /** A parameter of either kind whose identity is not yet seen is resolved
      first, and then bound to its identity ahead of the later parameters,
      whose loop starts from the seen set the producer's resolution left. */
  lemma FreshParameterBound(inj: Injector, f: Func, i: nat, seen: set<string>, parent: Option<Parameter>)
    requires i < |Params(f)|
    requires Producer(inj, Params(f)[i]).Some? && Producer(inj, Params(f)[i]).value.1 !in seen
    ensures var p := Params(f)[i];
            var (g, id) := Producer(inj, p).value;
            var r := ResolveParameters(inj, f, i, seen, parent);
            var sub := Resolve(inj, g, Some(id), seen + {id}, Some(p), false);
            r.Ok? ==> && sub.Ok?
                      && var rest := ResolveParameters(inj, f, i + 1, sub.value.seen, parent);
                      && rest.Ok?
                      && r.value.steps == sub.value.steps + rest.value.steps
                      && r.value.kwargs == [(p.name, id)] + rest.value.kwargs
                      && r.value.seen == rest.value.seen
  {
    var (g, id) := Producer(inj, Params(f)[i]).value;
    ParametersDescend(inj, f, i, seen, parent);
    if ResolveDependency(inj, f, i, seen, parent, g, id).Ok? {
      DependencySucceeded(inj, f, i, seen, parent, g, id);
      DependencyUnfold(inj, f, i, seen, parent, g, id);
    }
  }

  /** The own step of a resolved function calls it with exactly the keyword
      arguments and constants its parameter loop bound. */
  lemma OwnStepBindings(inj: Injector, f: Func, given: Option<string>, seen: set<string>,
                        parent: Option<Parameter>, setReturn: bool)
    ensures var r := Resolve(inj, f, given, seen, parent, setReturn);
            r.Ok? ==> var b := ResolveParameters(inj, f, 0, seen, parent);
                      && b.Ok?
                      && r.value.steps == b.value.steps + [r.value.steps[|r.value.steps| - 1]]
                      && r.value.steps[|r.value.steps| - 1].kwargs == b.value.kwargs
                      && r.value.steps[|r.value.steps| - 1].consts == b.value.consts
  {
  }
}
