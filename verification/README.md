# apistar server core in Dafny

This project models three parts of the apistar web framework.

- **The dependency injector** (`apistar/server/injector.py`). From the signatures of a handler and of the components' `resolve` functions, `Injector.resolve_functions` builds a plan: an ordered list of steps. Each step is a function, the state keys its keyword arguments are read from, its constant arguments, the state key its result is written to, and whether it also sets `return_value`. `Injector.run` and `ASyncInjector.run_async` cache plans by the tuple of functions and fold a plan over a mutable state dictionary. A parameter annotated with a validator instance is resolved by the synthesised `_get_validated_param`, which reads it from the query string.
- **Documentation links** (`Route` in `apistar/server/core.py`). A route's constructor turns the handler's parameters into path, query and body fields. It picks the encoding and the response schema, and renders the docstring as the description.
- **Sections and the document** (`Include` and `generate_document` in `apistar/server/core.py`, and `remove_markdown_paragraph` in `apistar/utils.py`).

Modules, one per file:

| file | module | models |
|---|---|---|
| outcomes.dfy | `Outcomes` | `Option`, the exceptions the core raises, `Result` |
| strings.dfy | `Strings` | the `str` methods the core uses: `startswith`, `find`, `replace(…, 1)`, `strip`/`lstrip`/`rstrip`, `split`, `join` |
| signatures.dfy | `Signatures` | what `inspect.signature` exposes: parameters, annotations, validators, `Type` subclasses, return annotations, coroutine functions |
| utils.dfy | `Utils` | `remove_markdown_paragraph` as written and as intended |
| query.dfy | `QueryParams` | `_get_validated_param` |
| injector.dfy | `Injection` | `resolve_function` and `resolve_functions` |
| plans.dfy | `Plans` | properties of the plans: shape, no duplicate work, every read available, errors |
| executor.dfy | `Execution` | `run`, `run_async` and the resolver cache |
| routes.dfy | `Routes` | `generate_link`, `generate_fields`, `generate_response`, `coerce_generics` |
| documents.dfy | `Documents` | `Include.generate_content` and `generate_document` |
| examples.dfy | `Scenarios` | the handlers, routes and requests of `tests/test_query_params.py` |

Several things are passed in as parameters and stay arbitrary:

- the Markdown renderer (`gfm.markdown`);
- calling a function and awaiting a coroutine;
- `ast.literal_eval`;
- `Validator.validate`;
- a component's `can_handle_parameter` and `identity`.

Each of these may return anything. Calling, awaiting, `literal_eval` and `validate` may also fail with any error. The `seen_state` set that `resolve_function` mutates is threaded through explicitly: every resolution returns the set it leaves behind. `Link` objects are shared and mutated by `generate_document`, so they live in a store keyed by identity.

## Model

| member | source | states |
|---|---|---|
| Strings.ReplaceFirst | apistar/utils.py:40 | `replace(old, new, 1)`: without an occurrence of the pattern the text is unchanged; otherwise the leftmost occurrence, the one with no occurrence starting before it, is replaced by the new text, and the text before and after it is kept |
| Strings.StripLeftShape | apistar/server/core.py:48 | `lstrip` keeps a suffix, drops only characters of the set, and what it keeps does not start with one |
| Strings.StripRightShape | apistar/server/core.py:48 | `rstrip` keeps a prefix, drops only characters of the set, and what it keeps does not end with one |
| Strings.Split | apistar/server/injector.py:80 | `split` on one character never returns an empty list, and no piece contains the separator |
| Strings.SplitJoin | apistar/server/injector.py:80 | splitting undoes joining when no part contains the separator |
| Utils.RemoveMarkdownParagraph | apistar/utils.py:38-42 | text without a leading `<p>` is unchanged; otherwise `<p>` is dropped and then the first four-character `<\p>`, if there is one |
| Utils.RemoveParagraphWrapper | apistar/utils.py:38-42 | the intended helper: text without a leading `<p>` is unchanged; otherwise `<p>` is dropped, and then the first `</p>`, if there is one |
| Utils.TagFoundAfter | apistar/utils.py:40 | a closing tag is first found right after a text that does not contain it, since the tag cannot straddle the boundary |
| Utils.MisspelledWrapperRemoved | apistar/utils.py:39-40 | as written, the helper unwraps only a paragraph closed by the misspelled `<\p>` |
| Utils.RealClosingTagKept | apistar/utils.py:40 | as written, on the renderer's `<p>a</p>` output only `<p>` is removed and `</p>` stays |
| Utils.ParagraphWrapperRemoved | apistar/utils.py:38-42 | the intended helper turns `<p>a</p>rest` into `a` followed by `rest` |
| Utils.ClosingTagSurvives | apistar/utils.py:40 | as written, no `</p>` of the input is ever removed; each is only shifted left |
| QueryParams.Unpack | apistar/server/injector.py:78-81 | the comprehension succeeds exactly when every `&`-piece has exactly one `=`, giving one (name, text) pair per piece in order; otherwise it fails on a malformed piece |
| QueryParams.ParsePairsAsWritten | apistar/server/injector.py:78-81 | as written, the empty query string does not parse; a query string that parses gives one pair per `&`-piece |
| QueryParams.ParsePairs | apistar/server/injector.py:78-81 | the intended parse: the empty query string has no pairs, and any other query string parses as written |
| QueryParams.LookupShape | apistar/server/injector.py:78-82 | `params.get(name)` is `None` exactly when no pair has the name, and otherwise gives the value of the last pair with it |
| QueryParams.LookupLast | apistar/server/injector.py:78-82 | the value of the last pair with a name is the one found |
| QueryParams.Capitalised | apistar/server/injector.py:84-85 | `true` and `false` become `True` and `False`; all other text is unchanged |
| QueryParams.AbsentNameIsNone | apistar/server/injector.py:77-86 | a name missing from a well-formed, non-empty query string resolves to `None`, and neither `literal_eval` nor the validator is consulted; the empty query string fails as written and resolves to `None` as intended |
| QueryParams.PresentNameIsValidated | apistar/server/injector.py:83-86 | a present name's text goes through `literal_eval` and then the validator: `true` as `True`, `false` as `False`, any other text unchanged; both readings of the parse agree on it |
| QueryParams.LaterPairAppended | apistar/server/injector.py:78-81 | appending `&name=text` to a query string that parses adds exactly that pair at the end |
| QueryParams.LaterDuplicateWins | apistar/server/injector.py:78-82 | a later `&name=text` overrides every earlier value for the name |
| QueryParams.QueryRoundTrip | apistar/server/injector.py:78-81 | parsing the query string built from one or more pairs without `&` or `=` gives the pairs back; no pairs build the empty query string, which fails as written and gives no pairs as intended |
| QueryParams.EncodedAbsentIsNone | apistar/server/injector.py:77-86 | a name absent from the pairs of a built, non-empty query string resolves to `None`; with no pairs the resolver fails as written and gives `None` as intended |
| QueryParams.EncodedPresentIsValidated | apistar/server/injector.py:77-86 | a name whose last value is `true` reaches `literal_eval` as `True` and then goes to the validator |
| QueryParams.EmptyQueryStringFailsAsWritten | apistar/server/injector.py:78-81 | as written, a request without a query string fails on the empty piece |
| QueryParams.EmptyQueryStringIsAbsent | apistar/server/injector.py:77-86 | with the empty query string read as empty, the parameter resolves to `None` |
| Injection.InitialKeys | apistar/server/injector.py:34-35 | the initial seen set is exactly the keys of `initial` |
| Injection.ReverseInitial | apistar/server/injector.py:23 | the reverse map finds an annotation exactly when some initial entry has it, and then gives the key of the last such entry |
| Injection.FirstHandler | apistar/server/injector.py:102-104 | the first component whose `can_handle_parameter` accepts the parameter; none when no component does |
| Injection.Classify | apistar/server/injector.py:49-117 | an initial key comes from the reverse map; a validator binding uses the identity `str:`/`_empty:` plus the name; a component binding uses that component's identity |
| Injection.ClassifyPrecedence | apistar/server/injector.py:49-117 | the order of the cases: `ReturnValue`, an initial marker, `inspect.Parameter`, a validator instance, the first component that handles the parameter; with none of these the parameter is unhandled |
| Injection.Producer | apistar/server/injector.py:88-113 | a parameter needs a function resolved exactly when it is validator- or component-bound: `_get_validated_param` partially applied, or the component's `resolve`, stored under the identity |
| Injection.OutputName | apistar/server/injector.py:43-47 | an explicit output name wins; otherwise the initial key marked by the return annotation; otherwise `return_value` |
| Injection.Resolve | apistar/server/injector.py:26-126 | a resolution only grows the seen set and ends with the function's own step, carrying its `is_async`, output name and `set_return`; an async function is rejected unless async is allowed |
| Injection.ResolveDependency | apistar/server/injector.py:88-113 | an unseen identity is added to the seen set before the producer is resolved |
| Injection.ResolveFunction | apistar/server/injector.py:26-35 | without a `seen_state`, resolution starts from the initial keys; with one, it only grows it |
| Injection.BatchLast | apistar/server/injector.py:128-136 | a plan has at least one step per function, and its last step is the last function's, marked `set_return` |
| Injection.BatchRejectsAsync | apistar/server/injector.py:119-122 | a plan holding an async function fails for an injector that does not allow async |
| Injection.ResolveFunctions | apistar/server/injector.py:128-136 | a plan for a non-empty tuple ends with the last function's `set_return` step |
| Plans.ResolveFlags | apistar/server/injector.py:119-124 | only a resolution's own last step may be marked `set_return`; every step's `is_async` is its function's; no async step without `allow_async` |
| Plans.BatchFlags | apistar/server/injector.py:119-136 | every step of a plan carries its function's `is_async`, and a plan for an injector without async support has no async step |
| Plans.ResolveErrors | apistar/server/injector.py:116-122 | resolution fails only with a `ConfigurationError` |
| Plans.BatchErrors | apistar/server/injector.py:128-136 | `resolve_functions` fails only with a `ConfigurationError` |
| Plans.ResolveDedup | apistar/server/injector.py:88-113 | the dependency steps of a resolution write pairwise distinct keys, and those keys are exactly the identities it added to the seen set |
| Plans.ParametersDedup | apistar/server/injector.py:49-117 | the steps of the parameter loop write distinct keys, exactly the identities added |
| Plans.DependencyDedup | apistar/server/injector.py:88-113 | the producer's steps and the remaining parameters' steps write distinct keys, exactly the identities added |
| Plans.ParametersSkip | apistar/server/injector.py:49-117 | a parameter that needs no function, or whose identity is already seen, adds no step; by kind: `ReturnValue`, an initial key and a seen component are bound by name to their key, `inspect.Parameter` becomes a constant, a seen validator parameter is not bound at all, and an unhandled one fails |
| Plans.ParametersDescend | apistar/server/injector.py:88-113 | a parameter with an unseen identity descends into its producer |
| Plans.DependencyUnfold | apistar/server/injector.py:88-113 | the producer's steps come before the remaining parameters' steps, and the parameter is bound to the identity |
| Plans.ResolveOrdered | apistar/server/injector.py:26-126 | with acyclic dependencies, every step of a resolution reads only available keys, `return_value`, or keys written by earlier steps |
| Plans.ParametersOrdered | apistar/server/injector.py:49-117 | the parameter loop's steps read only available keys, and the keyword arguments it binds are available once its steps have run |
| Plans.DependencyOrdered | apistar/server/injector.py:88-113 | the same for a parameter that descends into its producer |
| Plans.TopLevelResolution | apistar/server/injector.py:124-135 | a top-level function's resolution ends with its own `set_return` step, after dependency steps that write distinct, newly seen keys |
| Plans.BatchShape | apistar/server/injector.py:128-136 | the `set_return` steps of a plan are the requested functions in order, and the dependency steps write distinct, newly seen keys |
| Plans.BatchOrdered | apistar/server/injector.py:128-136 | with acyclic dependencies, every step of a plan reads only keys in the seen set, `return_value`, or keys written by earlier steps |
| Plans.ResolveFunctionsPlan | apistar/server/injector.py:128-136 | a plan runs the requested functions in order; no dependency is computed twice or overwrites an initial key; every read is of an initial key, `return_value`, or an earlier output |
| Plans.ParameterBinding | apistar/server/injector.py:88-114 | at any position: an already seen validator parameter is left out of the keyword arguments, while a component parameter, seen or not, and an unseen validator parameter are bound to their identity |
| Plans.SeenValidatedLeftOut | apistar/server/injector.py:88-99 | an already seen validator parameter resolves nothing and is not bound: the loop goes on as if it were not there |
| Plans.SeenComponentBound | apistar/server/injector.py:104-107 | an already seen component parameter resolves nothing but is bound to its identity, ahead of the later parameters |
| Plans.FreshParameterBound | apistar/server/injector.py:88-113 | a parameter of either kind with an unseen identity is resolved first, and then bound to that identity ahead of the later parameters |
| Plans.OwnStepBindings | apistar/server/injector.py:116-126 | a function's own step follows its dependency steps and calls it with exactly the keyword arguments and constants its parameter loop bound |
| Execution.KeywordArguments | apistar/server/injector.py:149 | the keyword arguments are read exactly when every key is in the state, one per entry in order; otherwise the first missing key raises `KeyError` |
| Execution.Store | apistar/server/injector.py:151-153 | the result goes under the output name, and also under `return_value` for a `set_return` step; all other keys are unchanged |
| Execution.RunStep | apistar/server/injector.py:148-153 | a step succeeds exactly when its arguments are read and the call succeeds, and then it stores the result |
| Execution.Call | apistar/server/injector.py:150-151 | `run` calls the function and `run_async` awaits a coroutine function; the query-parameter resolver runs as written, so it fails on the empty query string, and fails when it is given no query string at all |
| Execution.ExecuteResult | apistar/server/injector.py:148-155 | a successful run returns the value stored under the last step's output name; an empty plan fails |
| Execution.ExecuteReturnValue | apistar/server/injector.py:152-155 | when the last step sets the return, the result is also under `return_value` |
| Execution.ExecuteKeys | apistar/server/injector.py:148-153 | running only adds keys, and only the steps' output names and `return_value` |
| Execution.ExecuteFrame | apistar/server/injector.py:148-153 | running leaves every other key of the state as it was |
| Execution.ExecuteConcat | apistar/server/injector.py:148-153 | running `a + b` is running `a` and then `b` from the state `a` leaves |
| Execution.RunWith | apistar/server/injector.py:138-146 | a cached plan is reused as it is; a miss on the empty tuple returns `None` and caches nothing; a failed resolution caches nothing; otherwise the new plan is cached; no other cache entry changes |
| Execution.RunKeepsCacheCoherent | apistar/server/injector.py:140-146 | every cached plan is the plan `resolve_functions` builds for its tuple, and running keeps this so |
| Execution.CacheIsTransparent | apistar/server/injector.py:140-146 | with a coherent cache, a run leaves the same state and result as with an empty cache |
| Execution.RunExecutesPlan | apistar/server/injector.py:138-155 | a run that does not return early runs the plan `resolve_functions` builds |
| Execution.ModesAgreeWithoutAsync | apistar/server/injector.py:171-179 | without async steps, `run` and `run_async` run a plan the same way |
| Execution.RunAndRunAsyncAgree | apistar/server/injector.py:161-181 | for an injector that rejects async functions, `run_async` does what `run` does |
| Execution.CallNeverMisses | apistar/server/injector.py:150-151 | a call raises `KeyError` on the state only if an opaque call does |
| Execution.ValidatedParamNeverMisses | apistar/server/injector.py:77-86 | `_get_validated_param`, as written, never raises `KeyError` on the state |
| Execution.AvailableReadsNeverMiss | apistar/server/injector.py:148-153 | a plan whose every read is of a key already present or written earlier never raises `KeyError` on the state |
| Execution.RunNeverMissesStateKey | apistar/server/injector.py:138-181 | with acyclic dependencies, neither `run` nor `run_async` raises `KeyError` on the state |
| Routes.PathTokens | apistar/server/core.py:48 | `re.findall('{[^}]*}', url)`: every token found is `{`, text without `}`, `}` |
| Routes.TemplateTokens | apistar/server/core.py:48 | the tokens of a URL template whose fixed parts hold no `{` and whose names hold no `}` are its `{name}` placeholders, in order |
| Routes.PathNamesOfTemplate | apistar/server/core.py:47-49 | the path names of such a template are exactly its placeholder names, in order |
| Routes.FirstTokenAfter | apistar/server/core.py:48 | a `{name}` after text without `{` is the first token found |
| Routes.PathNameOfToken | apistar/server/core.py:48 | the name of `{name}` is `name` |
| Routes.PathNameOfPlusToken | apistar/server/core.py:48 | the name of `{+name}` is also `name` |
| Routes.Described | apistar/server/core.py:53-61 | a validator's own description, or its class name in backticks when it has none, is rendered and passed through `remove_markdown_paragraph` as written; nothing else about the validator changes |
| Routes.PathKind | apistar/server/core.py:71-85 | a path parameter maps to no schema when unannotated, to `Integer`, `Number` or `String` for `int`, `float` or `str` (the kind a query parameter with that annotation gets), and to nothing for any other class, `bool` included |
| Routes.QueryKind | apistar/server/core.py:96-118 | a plain query annotation maps to no schema when absent, `QueryParam` to `String`, and each builtin to the validator of the same name |
| Routes.PathField | apistar/server/core.py:52-87 | a path field has no `required`; it fails with `KeyError` exactly when the annotation is neither a validator instance nor mapped; a mapped schema is not nullable and keeps the default |
| Routes.QueryField | apistar/server/core.py:89-122 | a plain query field has no `required`, a schema unless unannotated, keeps the default, and is nullable exactly when the default is `None` |
| Routes.PropertyFields | apistar/server/core.py:138-149 | one query field per declared `Type` property, in order: named by the property, not marked required, with the property's validator as schema, changed in its description only |
| Routes.DescribedProperties | apistar/server/core.py:151-159 | the body schema's properties keep their names and order, and each validator changes in its description only |
| Routes.ParameterFields | apistar/server/core.py:51-165 | the precedence: a path name, a plain query annotation, a validator instance (a query field required unless nullable), a `Type` subclass (its properties for GET and DELETE, otherwise one body field required unless nullable); any other annotation gives no field |
| Routes.EffectiveEncoding | apistar/server/core.py:29-32 | an explicit encoding wins; otherwise JSON exactly when some field is in the body, and none otherwise |
| Routes.CoerceGenerics | apistar/server/core.py:177-185 | `List[T]` of a `Type` becomes an `Array` whose items are `T`; any other annotation is unchanged |
| Routes.GenerateResponse | apistar/server/core.py:168-175 | a response exists exactly when the coerced return annotation is a `Type` subclass or a validator instance, and then has status 200, the encoding and that schema |
| Routes.RouteName | apistar/server/core.py:21 | a non-empty route name wins; otherwise the handler's name |
| Routes.GenerateLink | apistar/server/core.py:27-43 | a link is built exactly when its fields are, and carries the route's URL, method and name, the fields, the effective encoding, the response for that encoding, and the rendered docstring passed through `remove_markdown_paragraph` as written |
| Routes.FieldsOfConcat | apistar/server/core.py:45-166 | the fields of a parameter list are those of its parts, in order |
| Routes.FieldsOfSplit | apistar/server/core.py:45-166 | when the fields of `a + b` are built, so are those of each part, and they are the concatenation |
| Routes.OneFieldEach | apistar/server/core.py:51-165 | when every parameter gives one field, the fields are exactly those, one per parameter in order |
| Routes.FieldsFailOnlyOnPath | apistar/server/core.py:63-85 | `generate_fields` fails exactly when some path parameter is neither a validator instance nor mapped |
| Routes.NoBodyForQueryMethods | apistar/server/core.py:137-149 | GET and DELETE routes have no body field, so without an explicit encoding they have none |
| Routes.TypeParameterIsBody | apistar/server/core.py:150-165 | a `Type` parameter of any other method gives a body field, and so the default encoding is JSON |
| Routes.ListResponseIsArray | apistar/server/core.py:168-185 | a handler returning `List[T]` for a `Type` subclass `T` documents an `Array` response with items `T`, status 200 and the link's encoding |
| Routes.ResponseDocumented | apistar/server/core.py:168-185 | in terms of the handler's own return annotation, a response is documented exactly for a `Type` subclass, a validator instance, or a `List` of a `Type` subclass, and the first two are the schema unchanged |
| Routes.CoerceGenericsIdempotent | apistar/server/core.py:177-185 | coercing twice is coercing once |
| Documents.ContentAsWrittenPicksRoutes | apistar/server/core.py:200-209 | as written, a section's content is the links of the include's route items, each once and in order, undocumented routes included; nested includes add nothing |
| Documents.ContentAsWrittenDropsSections | apistar/server/core.py:200-209 | the as-written content is the intended content with its sections removed |
| Documents.GenerateContent | apistar/server/core.py:200-209 | with the include test: one entry per item in order, a route's link or an include's section |
| Documents.SectionOf | apistar/server/core.py:194-198 | an include's section, built as written, has its name and only links, and is empty when every item is an include |
| Documents.GetLinksConcat | apistar/server/core.py:219 | the links of a content list are those of its parts, in order |
| Documents.GetLinksMembers | apistar/server/core.py:219 | a link is listed exactly when some entry lists it, directly or in a nested section |
| Documents.GetLinksOfLinks | apistar/server/core.py:219 | the links of a content list of links only are those links, each once, in order |
| Documents.SectionLinks | apistar/server/core.py:196-209 | the links of an include's section are the links of its route items, each once, in order; links of nested includes are not among them |
| Documents.PrefixLinks | apistar/server/core.py:219-220 | each listed link's URL gains the prefix once per listing; no link is added or removed |
| Documents.IncludePrefix | apistar/server/core.py:217-220 | only a documented include prefixes, and only its section's links |
| Documents.DocumentedItems | apistar/server/core.py:214-218 | the document considers exactly the documented items, each once, in order |
| Documents.DocumentFrom | apistar/server/core.py:213-220 | one entry per documented item, in order (a link or a section); every stored link's URL gains the prefixes of the documented includes listing it |
| Documents.PrefixOnce | apistar/server/core.py:217-220 | a link listed once, by one documented include, gets that include's URL in front; nothing else about it changes |
| Documents.PrefixForAbsent | apistar/server/core.py:217-220 | a link that no documented include lists keeps its URL |
| Documents.DocumentUrl | apistar/server/core.py:212-221 | one call puts the link's prefix in front of its stored URL |
| Documents.SecondCallPrefixesAgain | apistar/server/core.py:219-220 | the document is not idempotent: a second call on the same routes prefixes the shared links again |
| Documents.UndocumentedIgnored | apistar/server/core.py:214-218 | undocumented items add nothing and prefix nothing |
| Documents.NestedIncludeDropped | apistar/server/core.py:206 | as written, an include inside an include adds nothing to the outer section; with the include test it adds its section |
| Documents.NestedLinksNotPrefixed | apistar/server/core.py:206-220 | as written, a documented include whose items are all includes gets an empty section in the document, and no link URL changes |
| Scenarios.PathNamesOfRoute | tests/test_query_params.py:104-121 | the URL `/{p}` of both test routes has the single path name `p` |
| Scenarios.GetFields | tests/test_query_params.py:46-56 | `get_do_nothing` gives seven fields in order: `p` in the path, the rest in the query, validators required unless nullable |
| Scenarios.GetRouteLink | tests/test_query_params.py:113-120 | the GET route's link carries those fields and keeps its explicit encoding |
| Scenarios.GetRouteNameAndResponse | tests/test_query_params.py:113-120 | the GET route is named `get_test` and documents no response, because it returns the class `validators.String`, not an instance |
| Scenarios.PostFields | tests/test_query_params.py:59-66 | `post_do_nothing` gives six fields; `data: Sometype` becomes one required body field |
| Scenarios.PostRouteLink | tests/test_query_params.py:104-112 | the POST route's explicit encoding wins over JSON |
| Scenarios.DefaultEncodings | tests/test_query_params.py:104-121 | without explicit encodings, the POST route's encoding would be JSON and the GET route's none |
| Scenarios.PathParameterNotInQuery | tests/test_query_params.py:136-139 | `p` is not in the non-empty query string of the GET request, so the resolver as written gives `None` |
| Scenarios.BooleanWordCapitalised | tests/test_query_params.py:136-139 | in the same request `b=true` reaches `literal_eval` as `True` |

## Left out

- Python's own machinery is not modelled: `inspect.signature`, `functools.partial`, `asyncio.iscoroutinefunction` and `isinstance`/`issubclass` are read off a datatype (`Signatures.Func`).
- Calling a function, awaiting it, `ast.literal_eval`, `Validator.validate`, the Markdown renderer, and a component's `can_handle_parameter` and `identity` are opaque parameters.
- Concurrency is not modelled. `run_async` is a sequential fold that awaits the async steps in order.
- The in-place assignment of rendered descriptions to validator objects (core.py:53-61 and 123-159) is not modelled. Each field carries a described copy instead, so a validator shared by two routes is not described twice.
- apistar/document.py, apistar/validators.py and apistar/types.py are not part of this model. The model defines its own `Link`, `Field`, `Response` and `Section`, the validators' fields it reads (`description`, `allow_null`, `default`, `properties`, `items`), and `Section.get_links`, which flattens nested sections.
- The name of a `functools.partial` in error messages is `_get_validated_param`, the function it wraps. The partial object has no `__name__`, so the source raises `AttributeError` instead.
- Signatures.Func: a function is its name, parameters, annotations, async flag and docstring. The source's resolver cache and calls key on function objects, so two distinct functions that agree on all of these are one function here.
- Application-level validation of required query fields is not modelled. `test_get_nok` and `test_post_nok` expect a 400 response for a missing required field, but `_get_validated_param` itself returns `None` for an absent name.
- Routes.ParameterFields: an annotation that is not a class (a `typing` generic, say) gives no field. In the source, `issubclass` raises `TypeError` on it.
- Routes.GenerateResponse: a validator-instance return annotation is documented, as the second half of the condition intends. In the source, the first half (`issubclass` on an instance) raises `TypeError` before the second half is reached. `coerce_generics` also depends on the Python version's `typing.List`, and the model takes the reading where it applies.
- Execution.RunNeverMissesStateKey: assumes the state already holds `return_value`. A handler that reads `ReturnValue` before any step has set it raises `KeyError` in the source too.
- Plans.ResolveOrdered, Plans.BatchOrdered, Plans.ResolveFunctionsPlan: assume the component dependency graph is acyclic (a ranking exists). With a cycle the source recurses, the seen set cuts the cycle short, and a step may then read a key that is written only later.
- Where the code and its documentation differ, the model follows the code:
  - an explicit `output_name` wins over the return annotation;
  - every top-level function's step is marked `set_return`, not only the last;
  - the synchronous `run` does not itself check for async steps;
  - an absent query parameter is `None`, whatever its validator;
  - `generate_content` keeps undocumented routes;
  - the three defects under "Findings" are kept: `Execution.Call`, `Routes.Described`, `Routes.GenerateLink` and `Documents.SectionOf` use the as-written members, and each corrected member is proved on its own and related to its as-written twin.

## Findings

| source | as written | input that shows it | evidently intended | confidence | as-written member | corrected member |
|---|---|---|---|---|---|---|
| apistar/utils.py:40 | removes the first `<\p>`, a backslash where HTML has a slash, so the renderer's `</p>` is never removed | `<p>text</p>` becomes `text</p>` | remove the first `</p>` | high; not executed | Utils.RealClosingTagKept | Utils.ParagraphWrapperRemoved |
| apistar/server/core.py:206 | tests each item of an include with `isinstance(item, Section)`, but the items are routes and includes, so a nested include is dropped | an `Include` whose routes hold another `Include` | `isinstance(item, Include)` | high; not executed | Documents.NestedIncludeDropped | Documents.GenerateContent |
| apistar/server/injector.py:79-81 | the empty query string splits into one empty piece, which does not unpack into two parts, so every validator-annotated parameter fails on a request without `?` | query string `""` | the empty query string has no parameters | medium; not executed | QueryParams.EmptyQueryStringFailsAsWritten | QueryParams.EmptyQueryStringIsAbsent |
