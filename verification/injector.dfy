/** The dependency injector of apistar/server/injector.py: from a handler's
    signature it builds an ordered plan of steps, each naming a function, the
    state keys its keyword arguments are read from, constant arguments, and
    the state key its result is written to.

    Components are given by three fields: `can_handle_parameter`, `identity`
    and the `resolve` function's signature. The per-call mutable `seen_state`
    set is threaded explicitly: every resolution returns the set it leaves
    behind. */
module Injection {
  import opened Outcomes
  import opened Signatures

  /** A component: which parameters it handles, the state key it stores its
      result under for a given parameter, and its `resolve` function. */
  datatype Component = Component(
    canHandle: Parameter -> bool,
    identity: Parameter -> string,
    resolve: Func)

  /** `Injector(components, initial)`. `initial` maps state keys to the
      annotation that marks them, in insertion order; `allowAsync` is false
      for `Injector` and true for `ASyncInjector`. */
  datatype Injector = Injector(
    components: seq<Component>,
    initial: seq<(string, Annotation)>,
    allowAsync: bool)

  /** One entry of a plan: `(func, is_async, kwargs, consts, output_name,
      set_return)`. `kwargs` pairs a parameter name with the state key it
      is read from. */
  datatype Step = Step(
    func: Func,
    isAsync: bool,
    kwargs: seq<(string, string)>,
    consts: seq<(string, Value)>,
    outputName: string,
    setReturn: bool)

  const ReturnValueKey: string := "return_value"

  /** `set(self.initial)`: the keys of the initial state. */
  function InitialKeys(inj: Injector): (r: set<string>)
    ensures forall j :: 0 <= j < |inj.initial| ==> inj.initial[j].0 in r
    ensures forall key :: key in r ==> exists j :: 0 <= j < |inj.initial| && inj.initial[j].0 == key
  {
    set j | 0 <= j < |inj.initial| :: inj.initial[j].0
  }

  /** Some initial key is marked by annotation `a`. */
  predicate InInitial(inj: Injector, a: Annotation) {
    exists j :: 0 <= j < |inj.initial| && inj.initial[j].1 == a
  }

  /** `self.reverse_initial[a]`: the dictionary comprehension keeps the last
      key marked by `a`. */
  function ReverseInitial(initial: seq<(string, Annotation)>, a: Annotation): (r: Option<string>)
    ensures r.None? <==> forall j :: 0 <= j < |initial| ==> initial[j].1 != a
    ensures r.Some? ==> exists j :: 0 <= j < |initial| && initial[j] == (r.value, a)
                          && forall j' :: j < j' < |initial| ==> initial[j'].1 != a
  {
    if |initial| == 0 then None
    else if initial[|initial| - 1].1 == a then Some(initial[|initial| - 1].0)
    else ReverseInitial(initial[..|initial| - 1], a)
  }

  /** The first component whose `can_handle_parameter` accepts `p`. */
  function FirstHandler(components: seq<Component>, p: Parameter): (r: Option<nat>)
    ensures r.Some? ==> r.value < |components| && components[r.value].canHandle(p)
    ensures r.Some? ==> forall k :: 0 <= k < r.value ==> !components[k].canHandle(p)
    ensures r.None? <==> forall k :: 0 <= k < |components| ==> !components[k].canHandle(p)
  {
    if |components| == 0 then None
    else if components[0].canHandle(p) then Some(0)
    else match FirstHandler(components[1..], p)
      case None => None
      case Some(k) => Some(k + 1)
  }

  /** The state key of a validator-annotated parameter: `"str:"` plus the
      name for a `String` validator, `"_empty:"` plus the name otherwise. */
  function ValidatorIdentity(name: string, v: Validator): string {
    (if v.kind == StringKind then "str" else "_empty") + ":" + name
  }

  /** How one parameter is bound. */
  datatype Binding =
    | ToReturnValue
    | ToInitial(key: string)
    | ToParentParameter
    | ToValidated(identity: string)
    | ToComponent(index: nat, identity: string)
    | Unhandled

  /** How `resolve_function` binds a parameter; the order in which it tries
      the cases is stated by `ClassifyPrecedence`. */
  function Classify(inj: Injector, p: Parameter): (r: Binding)
    ensures r.ToInitial? ==> ReverseInitial(inj.initial, p.annotation) == Some(r.key)
    ensures r.ToValidated? ==> p.annotation.ValidatorInstance?
                               && r.identity == ValidatorIdentity(p.name, p.annotation.validator)
    ensures r.ToComponent? ==> r.index < |inj.components| && r.identity == inj.components[r.index].identity(p)
  {
    if p.annotation == ReturnValueClass then ToReturnValue
    else match ReverseInitial(inj.initial, p.annotation)
      case Some(key) => ToInitial(key)
      case None =>
        if p.annotation == ParameterClass then ToParentParameter
        else if p.annotation.ValidatorInstance? then
          ToValidated(ValidatorIdentity(p.name, p.annotation.validator))
        else match FirstHandler(inj.components, p)
          case Some(k) => ToComponent(k, inj.components[k].identity(p))
          case None => Unhandled
  }

  /** The order in which `resolve_function` tries the cases for a parameter:
      `ReturnValue`, an initial marker, `inspect.Parameter`, a validator
      instance, and finally the first component that handles it; with none
      of these the parameter cannot be bound. */
  lemma ClassifyPrecedence(inj: Injector, p: Parameter)
    ensures var r := Classify(inj, p);
      && (r == ToReturnValue <==> p.annotation == ReturnValueClass)
      && (r.ToInitial? <==> p.annotation != ReturnValueClass && InInitial(inj, p.annotation))
      && (r.ToInitial? ==> exists j :: 0 <= j < |inj.initial| && inj.initial[j] == (r.key, p.annotation)
                              && forall j' :: j < j' < |inj.initial| ==> inj.initial[j'].1 != p.annotation)
      && (r == ToParentParameter <==> p.annotation == ParameterClass && !InInitial(inj, p.annotation))
      && (r.ToValidated? <==> p.annotation.ValidatorInstance? && !InInitial(inj, p.annotation))
      && (r.ToValidated? ==> r.identity == ValidatorIdentity(p.name, p.annotation.validator))
      && (r.ToComponent? <==>
            !p.annotation.ReturnValueClass? && !p.annotation.ParameterClass?
            && !p.annotation.ValidatorInstance? && !InInitial(inj, p.annotation)
            && exists k :: 0 <= k < |inj.components| && inj.components[k].canHandle(p))
      && (r.ToComponent? ==>
            r.index < |inj.components| && inj.components[r.index].canHandle(p)
            && (forall k :: 0 <= k < r.index ==> !inj.components[k].canHandle(p))
            && r.identity == inj.components[r.index].identity(p))
      && (r == Unhandled <==>
            !p.annotation.ReturnValueClass? && !p.annotation.ParameterClass?
            && !p.annotation.ValidatorInstance? && !InInitial(inj, p.annotation)
            && forall k :: 0 <= k < |inj.components| ==> !inj.components[k].canHandle(p))
  {
  }

  /** The function resolved for a parameter that needs one, and the state key
      its result is stored under. */
  function Producer(inj: Injector, p: Parameter): (r: Option<(Func, string)>)
    ensures r.Some? <==> Classify(inj, p).ToValidated? || Classify(inj, p).ToComponent?
    ensures Classify(inj, p).ToValidated? ==>
              r == Some((ValidatedParam(p.name, p.annotation.validator), Classify(inj, p).identity))
    ensures Classify(inj, p).ToComponent? ==>
              r == Some((inj.components[Classify(inj, p).index].resolve, Classify(inj, p).identity))
  {
    match Classify(inj, p)
    case ToValidated(id) => Some((ValidatedParam(p.name, p.annotation.validator), id))
    case ToComponent(k, id) => Some((inj.components[k].resolve, id))
    case _ => None
  }

  /** The key a function's result is written to: the `output_name` given by
      the caller; otherwise the initial key marked by the return annotation;
      otherwise `"return_value"`. */
  function OutputName(inj: Injector, f: Func, given: Option<string>): (r: string)
    ensures given.Some? ==> r == given.value
    ensures given.None? && InInitial(inj, Returns(f)) ==>
              exists j :: 0 <= j < |inj.initial| && inj.initial[j] == (r, Returns(f))
                && forall j' :: j < j' < |inj.initial| ==> inj.initial[j'].1 != Returns(f)
    ensures given.None? && !InInitial(inj, Returns(f)) ==> r == ReturnValueKey
  {
    match given
    case Some(name) => name
    case None => ReverseInitial(inj.initial, Returns(f)).GetOr(ReturnValueKey)
  }

  /** The constant passed for an `inspect.Parameter`-annotated parameter:
      the parameter being resolved, or `None` at the top level. */
  function ParentValue(parent: Option<Parameter>): Value {
    match parent
    case Some(p) => ParameterValue(p)
    case None => NoneValue
  }

  // ---------------------------------------------------------------------
  // Termination. Below the top level, only component `resolve` functions
  // and query-parameter resolvers are resolved, so every identity added to
  // the seen set below the top level comes from a finite universe.

  /** Every parameter a resolver function can have. */
  ghost function ResolverParams(inj: Injector): set<Parameter> {
    {QueryStringParameter}
    + set k, j | 0 <= k < |inj.components| && 0 <= j < |Params(inj.components[k].resolve)|
        :: Params(inj.components[k].resolve)[j]
  }

  /** Every identity a resolver function's parameter can be stored under. */
  ghost function Universe(inj: Injector): set<string> {
    set p | p in ResolverParams(inj) && Producer(inj, p).Some? :: Producer(inj, p).value.1
  }

  ghost predicate IsResolver(inj: Injector, f: Func) {
    f.ValidatedParam? || exists k :: 0 <= k < |inj.components| && inj.components[k].resolve == f
  }

  ghost function Rank(inj: Injector, f: Func): nat {
    if IsResolver(inj, f) then 0 else 1
  }

  lemma SubsetCard<T>(a: set<T>, b: set<T>)
    requires a <= b
    ensures |a| <= |b|
    ensures a < b ==> |a| < |b|
  {
    assert b == a + (b - a);
    assert a * (b - a) == {};
    if a < b {
      var x :| x in b && x !in a;
      assert x in b - a;
    }
  }

  /** Resolving a parameter's producer moves on to a resolver, and shrinks
      the unseen part of the universe unless the caller is the top-level
      function. */
  lemma DescentShrinks(inj: Injector, f: Func, i: nat, seen: set<string>, g: Func, id: string)
    requires i < |Params(f)| && Producer(inj, Params(f)[i]) == Some((g, id)) && id !in seen
    ensures Rank(inj, g) == 0
    ensures |Universe(inj) - (seen + {id})| <= |Universe(inj) - seen|
    ensures Rank(inj, f) == 0 ==> |Universe(inj) - (seen + {id})| < |Universe(inj) - seen|
  {
    var p := Params(f)[i];
    if Classify(inj, p).ToComponent? {
      var k := Classify(inj, p).index;
      assert inj.components[k].resolve == g;
    }
    SubsetCard(Universe(inj) - (seen + {id}), Universe(inj) - seen);
    if IsResolver(inj, f) {
      if f.ValidatedParam? {
        assert p == QueryStringParameter;
      } else {
        var k :| 0 <= k < |inj.components| && inj.components[k].resolve == f;
        assert p == Params(inj.components[k].resolve)[i];
      }
      assert p in ResolverParams(inj);
      assert id in Universe(inj);
      assert id in Universe(inj) - seen;
    }
  }

  lemma SeenGrows(inj: Injector, seen: set<string>, seen': set<string>)
    requires seen <= seen'
    ensures |Universe(inj) - seen'| <= |Universe(inj) - seen|
  {
    SubsetCard(Universe(inj) - seen', Universe(inj) - seen);
  }

  // ---------------------------------------------------------------------
  // Resolution.

  /** The steps of a resolution and the seen set it leaves behind. */
  datatype Resolution = Resolution(steps: seq<Step>, seen: set<string>)

  /** What the parameter loop builds for one function: the dependency steps,
      `kwargs`, `consts`, and the seen set. */
  datatype Bindings = Bindings(
    steps: seq<Step>,
    kwargs: seq<(string, string)>,
    consts: seq<(string, Value)>,
    seen: set<string>)

  /** `self.resolve_function(func, output_name, seen_state, parent_parameter,
      set_return)` with `seen_state` given: the dependency steps come first
      and the function's own step last. */
  function Resolve(inj: Injector, f: Func, given: Option<string>, seen: set<string>,
                   parent: Option<Parameter>, setReturn: bool): (r: Result<Resolution>)
    ensures r.Ok? ==> seen <= r.value.seen
    ensures r.Ok? ==> |r.value.steps| >= 1
    ensures r.Ok? ==> var own := r.value.steps[|r.value.steps| - 1];
              own.func == f && own.isAsync == IsAsync(f)
              && own.outputName == OutputName(inj, f, given) && own.setReturn == setReturn
    ensures IsAsync(f) && !inj.allowAsync ==> r.Err?
    decreases |Universe(inj) - seen|, Rank(inj, f), 1, 0, 0
  {
    var out := OutputName(inj, f, given);
    var b :- ResolveParameters(inj, f, 0, seen, parent);
    if IsAsync(f) && !inj.allowAsync then Err(ConfigurationError(AsyncNotAllowed(Name(f))))
    else Ok(Resolution(b.steps + [Step(f, IsAsync(f), b.kwargs, b.consts, out, setReturn)], b.seen))
  }

  /** The loop over `signature.parameters`, from the `i`-th parameter on. */
  function ResolveParameters(inj: Injector, f: Func, i: nat, seen: set<string>,
                             parent: Option<Parameter>): (r: Result<Bindings>)
    requires i <= |Params(f)|
    ensures r.Ok? ==> seen <= r.value.seen
    decreases |Universe(inj) - seen|, Rank(inj, f), 0, |Params(f)| - i, 1
  {
    if i == |Params(f)| then Ok(Bindings([], [], [], seen))
    else
      var p := Params(f)[i];
      match Classify(inj, p)
      case ToReturnValue =>
        var rest :- ResolveParameters(inj, f, i + 1, seen, parent);
        Ok(rest.(kwargs := [(p.name, ReturnValueKey)] + rest.kwargs))
      case ToInitial(key) =>
        var rest :- ResolveParameters(inj, f, i + 1, seen, parent);
        Ok(rest.(kwargs := [(p.name, key)] + rest.kwargs))
      case ToParentParameter =>
        var rest :- ResolveParameters(inj, f, i + 1, seen, parent);
        Ok(rest.(consts := [(p.name, ParentValue(parent))] + rest.consts))
      case ToValidated(id) =>
        if id in seen then ResolveParameters(inj, f, i + 1, seen, parent)
        else ResolveDependency(inj, f, i, seen, parent, ValidatedParam(p.name, p.annotation.validator), id)
      case ToComponent(k, id) =>
        if id in seen then
          var rest :- ResolveParameters(inj, f, i + 1, seen, parent);
          Ok(rest.(kwargs := [(p.name, id)] + rest.kwargs))
        else ResolveDependency(inj, f, i, seen, parent, inj.components[k].resolve, id)
      case Unhandled =>
        Err(ConfigurationError(NoComponent(p.name, Name(f))))
  }

  /** A parameter whose identity is not yet seen: the identity is added to
      the seen set, the parameter is bound to it, and the producer's own
      resolution (with this parameter as its parent) goes before the steps
      of the remaining parameters. */
  function ResolveDependency(inj: Injector, f: Func, i: nat, seen: set<string>, parent: Option<Parameter>,
                             g: Func, id: string): (r: Result<Bindings>)
    requires i < |Params(f)| && Producer(inj, Params(f)[i]) == Some((g, id)) && id !in seen
    ensures r.Ok? ==> seen + {id} <= r.value.seen
    decreases |Universe(inj) - seen|, Rank(inj, f), 0, |Params(f)| - i, 0
  {
    var p := Params(f)[i];
    DescentShrinks(inj, f, i, seen, g, id);
    var sub :- Resolve(inj, g, Some(id), seen + {id}, Some(p), false);
    SeenGrows(inj, seen, sub.seen);
    var rest :- ResolveParameters(inj, f, i + 1, sub.seen, parent);
    Ok(Bindings(sub.steps + rest.steps, [(p.name, id)] + rest.kwargs, rest.consts, rest.seen))
  }

  /** `resolve_function` with its defaults: without a `seen_state` the seen
      set starts as the initial keys. */
  function ResolveFunction(inj: Injector, f: Func, given: Option<string>, seenState: Option<set<string>>,
                           parent: Option<Parameter>, setReturn: bool): (r: Result<Resolution>)
    ensures seenState.None? && r.Ok? ==> InitialKeys(inj) <= r.value.seen
    ensures seenState.Some? && r.Ok? ==> seenState.value <= r.value.seen
    ensures seenState.None? ==> r == Resolve(inj, f, given, InitialKeys(inj), parent, setReturn)
  {
    Resolve(inj, f, given, seenState.GetOr(InitialKeys(inj)), parent, setReturn)
  }

  /** The loop of `resolve_functions`: one seen set threaded through every
      function, each resolved with `set_return=True`. */
  function ResolveBatch(inj: Injector, funcs: seq<Func>, seen: set<string>): (r: Result<Resolution>)
    ensures r.Ok? ==> seen <= r.value.seen
  {
    if |funcs| == 0 then Ok(Resolution([], seen))
    else
      var first :- Resolve(inj, funcs[0], None, seen, None, true);
      var rest :- ResolveBatch(inj, funcs[1..], first.seen);
      Ok(Resolution(first.steps + rest.steps, rest.seen))
  }

  /** A batch has at least one step per function, and its last step is the
      last function's, marked `set_return`. */
  lemma {:induction false} BatchLast(inj: Injector, funcs: seq<Func>, seen: set<string>)
    ensures var r := ResolveBatch(inj, funcs, seen);
            && (r.Ok? ==> |funcs| > 0 ==> |r.value.steps| >= |funcs|)
            && (r.Ok? && |funcs| > 0 ==>
                  var own := r.value.steps[|r.value.steps| - 1];
                  own.func == funcs[|funcs| - 1] && own.setReturn)
  {
    if |funcs| > 0 && ResolveBatch(inj, funcs, seen).Ok? {
      var first := Resolve(inj, funcs[0], None, seen, None, true).value;
      BatchLast(inj, funcs[1..], first.seen);
    }
  }

  /** An injector that does not allow async functions rejects a batch
      holding one. */
  lemma {:induction false} BatchRejectsAsync(inj: Injector, funcs: seq<Func>, seen: set<string>, k: nat)
    requires k < |funcs| && IsAsync(funcs[k]) && !inj.allowAsync
    ensures ResolveBatch(inj, funcs, seen).Err?
  {
    var first := Resolve(inj, funcs[0], None, seen, None, true);
    if k > 0 && first.Ok? {
      assert funcs[1..][k - 1] == funcs[k];
      BatchRejectsAsync(inj, funcs[1..], first.value.seen, k - 1);
    }
  }

  /** `self.resolve_functions(funcs)`. */
  function ResolveFunctions(inj: Injector, funcs: seq<Func>): (r: Result<seq<Step>>)
    ensures r.Ok? && |funcs| > 0 ==> |r.value| >= 1 && r.value[|r.value| - 1].func == funcs[|funcs| - 1]
    ensures r.Ok? && |funcs| > 0 ==> r.value[|r.value| - 1].setReturn
  {
    var res :- ResolveBatch(inj, funcs, InitialKeys(inj));
    BatchLast(inj, funcs, InitialKeys(inj));
    Ok(res.steps)
  }
}
