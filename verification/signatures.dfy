/** What the framework reads off a handler by reflection, as plain data:
    values, validators, `Type` classes, parameter annotations, parameters and
    functions. Python's `inspect.signature`, `isinstance`/`issubclass` and
    `asyncio.iscoroutinefunction` become fields and variants of these types. */
module Signatures {
  import opened Outcomes

  /** A runtime value held in per-request state or passed as an argument. */
  datatype Value =
    | NoneValue
    | BoolValue(b: bool)
    | IntValue(i: int)
    | StrValue(s: string)
      /** an `inspect.Parameter` object, handed to resolvers that ask for it */
    | ParameterValue(p: Parameter)
      /** any other object, known only by an identity tag */
    | ObjectValue(tag: nat)

  /** `inspect.Parameter.default`: absent (`Parameter.empty`) or a value. */
  datatype Default = NoDefault | HasDefault(value: Value)

  /** The validator classes of `apistar.validators` the core tells apart. */
  datatype ValidatorKind =
    | StringKind | IntegerKind | NumberKind | BooleanKind | ObjectKind | ArrayKind
    | OtherKind(className: string)

  /** A validator instance; only the attributes the core reads or sets. */
  datatype Validator = Validator(
    kind: ValidatorKind,
    description: string,
    allowNull: bool,
    default: Default,
      /** the declared properties of an `Object` validator, in order */
    properties: seq<Property>,
      /** the `items` of an `Array` validator built from `List[T]` */
    items: Option<TypeDef>)

  datatype Property = Property(name: string, validator: Validator)

  /** A subclass of `types.Type`, with the `Object` validator it declares. */
  datatype TypeDef = TypeDef(name: string, validator: Validator)

  datatype Builtin = IntType | FloatType | BoolType | StrType

  /** A parameter or return annotation. */
  datatype Annotation =
      /** `inspect.Parameter.empty`: no annotation */
    | Unannotated
    | BuiltinClass(builtin: Builtin)
      /** `http.QueryParam` */
    | QueryParamClass
      /** `components.ReturnValue` */
    | ReturnValueClass
      /** `inspect.Parameter` itself */
    | ParameterClass
      /** a subclass of `types.Type` */
    | TypeClass(typeDef: TypeDef)
      /** any other class, known by name (`http.Request`, `http.QueryString`, ...) */
    | OtherClass(className: string)
    | ValidatorInstance(validator: Validator)
      /** `typing.List[arg]` */
    | ListOf(arg: Annotation)

  datatype Parameter = Parameter(name: string, annotation: Annotation, default: Default)

  /** A function the injector can call: a handler, a hook or a component's
      `resolve`, described by its signature; or the query-string resolver the
      injector builds for a validator-annotated parameter
      (`functools.partial(_get_validated_param, name, validator)`). */
  datatype Func =
    | Function(name: string, params: seq<Parameter>, returnAnnotation: Annotation, isAsync: bool, doc: Option<string>)
    | ValidatedParam(paramName: string, validator: Validator)

  const QueryStringClass: Annotation := OtherClass("QueryString")

  /** The one parameter left on the partial: `qs: QueryString`. */
  const QueryStringParameter: Parameter := Parameter("qs", QueryStringClass, NoDefault)

  function Params(f: Func): seq<Parameter> {
    match f
    case Function(_, params, _, _, _) => params
    case ValidatedParam(_, _) => [QueryStringParameter]
  }

  function Returns(f: Func): Annotation {
    match f
    case Function(_, _, ret, _, _) => ret
    case ValidatedParam(_, _) => Unannotated
  }

  function IsAsync(f: Func): bool {
    f.Function? && f.isAsync
  }

  function Name(f: Func): string {
    match f
    case Function(name, _, _, _, _) => name
    case ValidatedParam(_, _) => "_get_validated_param"
  }

  /** The class name that `"`{}`".format(v.__class__.__name__)` prints. */
  function ClassName(kind: ValidatorKind): string {
    match kind
    case StringKind => "String"
    case IntegerKind => "Integer"
    case NumberKind => "Number"
    case BooleanKind => "Boolean"
    case ObjectKind => "Object"
    case ArrayKind => "Array"
    case OtherKind(name) => name
  }
}
