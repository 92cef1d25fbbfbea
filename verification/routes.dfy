/** `Route` of apistar/server/core.py: the documentation `Link` built for a
    handler when the route is constructed. Each handler parameter becomes
    path, query or body fields; the encoding and the response schema follow
    from the fields and the return annotation.

    The Markdown renderer (`gfm.markdown`) is a parameter (`Renderer`); its
    output goes through `Utils.RemoveMarkdownParagraph`, as written. The source assigns
    the rendered descriptions into the validator objects in place; here the
    described validators are new values carried by the fields. */
module Routes {
  import opened Outcomes
  import opened Strings
  import opened Signatures
  import opened Utils

  type Renderer = string -> string

  datatype Location = PathLocation | QueryLocation | BodyLocation

  /** `document.Field`; `required` is `None` where the source passes none. */
  datatype Field = Field(name: string, location: Location, schema: Option<Validator>, required: Option<bool>)

  /** `document.Response`: the schema is the (coerced) return annotation. */
  datatype Response = Response(encoding: Option<string>, statusCode: int, schema: Annotation)

  datatype Link = Link(
    url: string,
    verb: string,
    name: string,
    encoding: Option<string>,
    fields: seq<Field>,
    response: Option<Response>,
    description: string)

  datatype Route = Route(
    url: string,
    verb: string,
    handler: Func,
    name: Option<string>,
    documented: bool,
    standalone: bool,
    encoding: Option<string>)

  const JsonEncoding: string := "application/json"
  const OkStatus: int := 200

  // ---------------------------------------------------------------------
  // Path parameter names.

  /** `re.findall('{[^}]*}', url)`: each `{` with a later `}` opens a token
      that runs to the first such `}`; scanning resumes after it. */
  function PathTokens(url: string): (r: seq<string>)
    ensures forall k :: 0 <= k < |r| ==> IsToken(r[k])
    decreases |url|
  {
    match FindChar(url, '{')
    case None => []
    case Some(i) =>
      match FindChar(url[i + 1..], '}')
      case None => []
      case Some(j) =>
        TokenShape(url, i, j);
        [url[i..i + j + 2]] + PathTokens(url[i + j + 2..])
  }

  /** A `{` followed by text without `}` and then a `}` is a token. */
  predicate IsToken(t: string) {
    |t| >= 2 && t[0] == '{' && t[|t| - 1] == '}' && '}' !in t[..|t| - 1]
  }

  lemma TokenShape(url: string, i: nat, j: nat)
    requires i < |url| && url[i] == '{'
    requires j < |url[i + 1..]| && url[i + 1..][j] == '}' && '}' !in url[i + 1..][..j]
    ensures i + j + 2 <= |url| && IsToken(url[i..i + j + 2])
  {
    var token := url[i..i + j + 2];
    assert token[..|token| - 1] == [url[i]] + url[i + 1..][..j];
  }

  /** `item.strip('{}').lstrip('+')`. */
  function PathName(token: string): string {
    StripLeft(Strip(token, {'{', '}'}), {'+'})
  }

  function PathNames(url: string): (r: seq<string>)
    ensures |r| == |PathTokens(url)|
    ensures forall k :: 0 <= k < |r| ==> r[k] == PathName(PathTokens(url)[k])
  {
    var tokens := PathTokens(url);
    seq(|tokens|, k requires 0 <= k < |tokens| => PathName(tokens[k]))
  }

  /** A `{name}` token after text without `{` is the first token found. */
  lemma {:induction false} FirstTokenAfter(prefix: string, name: string, rest: string)
    requires '{' !in prefix && '}' !in name
    ensures PathTokens(prefix + "{" + name + "}" + rest) == ["{" + name + "}"] + PathTokens(rest)
  {
    var url := prefix + "{" + name + "}" + rest;
    var i := |prefix|;
    assert url[..i] == prefix;
    assert url[i] == '{';
    assert FindChar(url, '{') == Some(i);
    var after := url[i + 1..];
    assert after == name + "}" + rest;
    assert after[..|name|] == name;
    assert after[|name|] == '}';
    assert FindChar(after, '}') == Some(|name|) by {
      var r := FindChar(after, '}');
      assert r.Some? by { assert '}' in after; }
    }
    assert url[i..i + |name| + 2] == "{" + name + "}";
    assert url[i + |name| + 2..] == rest;
  }

  /** Braces are stripped. */
  lemma PathNameOfToken(name: string)
    requires name != [] && name[0] != '{' && name[0] != '}' && name[0] != '+'
    requires name[|name| - 1] != '{' && name[|name| - 1] != '}'
    ensures PathName("{" + name + "}") == name
  {
    var braces := {'{', '}'};
    var closed := name + ['}'];
    assert "{" + name + "}" == ['{'] + closed;
    StripLeftDrops('{', closed, braces);
    assert closed[0] == name[0];
    StripLeftKeeps(closed, braces);
    StripRightDrops(name, '}', braces);
    StripRightKeeps(name, braces);
    StripLeftKeeps(name, {'+'});
  }

  /** So is a leading `+`, the marker of a multi-segment parameter. */
  lemma PathNameOfPlusToken(name: string)
    requires name != [] && name[0] != '{' && name[0] != '}' && name[0] != '+'
    requires name[|name| - 1] != '{' && name[|name| - 1] != '}'
    ensures PathName("{+" + name + "}") == name
  {
    var braces := {'{', '}'};
    var plus := ['+'] + name;
    var closed := plus + ['}'];
    assert "{+" + name + "}" == ['{'] + closed;
    StripLeftDrops('{', closed, braces);
    assert closed[0] == '+';
    StripLeftKeeps(closed, braces);
    StripRightDrops(plus, '}', braces);
    assert plus[|plus| - 1] == name[|name| - 1];
    StripRightKeeps(plus, braces);
    StripLeftDrops('+', name, {'+'});
    StripLeftKeeps(name, {'+'});
  }

  /** A name that `strip('{}').lstrip('+')` gives back unchanged and that
      ends its token at the first `}`. */
  predicate PlainName(name: string) {
    name != [] && '}' !in name && name[0] != '{' && name[0] != '+' && name[|name| - 1] != '{'
  }

  /** The URL template `segs[0] + "{" + names[0] + "}" + segs[1] + … +
      segs[n]`. */
  function Template(segs: seq<string>, names: seq<string>): string
    requires |segs| == |names| + 1
    decreases |names|
  {
    if |names| == 0 then segs[0]
    else segs[0] + "{" + names[0] + "}" + Template(segs[1..], names[1..])
  }

  /** The tokens of a template whose segments hold no `{` and whose names
      hold no `}` are its `{name}` placeholders, in order. */
  lemma {:induction false} TemplateTokens(segs: seq<string>, names: seq<string>)
    requires |segs| == |names| + 1
    requires forall k :: 0 <= k < |segs| ==> '{' !in segs[k]
    requires forall k :: 0 <= k < |names| ==> '}' !in names[k]
    ensures var tokens := PathTokens(Template(segs, names));
            |tokens| == |names| && forall k :: 0 <= k < |names| ==> tokens[k] == "{" + names[k] + "}"
    decreases |names|
  {
    if |names| == 0 {
      assert FindChar(segs[0], '{').None?;
    } else {
      var rest := Template(segs[1..], names[1..]);
      FirstTokenAfter(segs[0], names[0], rest);
      assert forall k :: 0 <= k < |segs[1..]| ==> segs[1..][k] == segs[k + 1];
      assert forall k :: 0 <= k < |names[1..]| ==> names[1..][k] == names[k + 1];
      TemplateTokens(segs[1..], names[1..]);
    }
  }

  /** `generate_fields` reads back exactly the names of a URL template's
      placeholders, in order. */
  lemma PathNamesOfTemplate(segs: seq<string>, names: seq<string>)
    requires |segs| == |names| + 1
    requires forall k :: 0 <= k < |segs| ==> '{' !in segs[k]
    requires forall k :: 0 <= k < |names| ==> PlainName(names[k])
    ensures PathNames(Template(segs, names)) == names
  {
    TemplateTokens(segs, names);
    var r := PathNames(Template(segs, names));
    forall k | 0 <= k < |names|
      ensures r[k] == names[k]
    {
      var n := names[k];
      assert n[0] in n && n[|n| - 1] in n;
      PathNameOfToken(n);
    }
  }

  // ---------------------------------------------------------------------
  // Descriptions and scalar validators.

  /** The description a field carries: the validator's own description
      rendered, or, when it has none, its class name in backticks. */
  function Described(v: Validator, render: Renderer): (r: Validator)
    ensures r == v.(description := r.description)
    ensures v.description != "" ==> r.description == RemoveMarkdownParagraph(render(v.description))
    ensures v.description == "" ==>
              r.description == RemoveMarkdownParagraph(render("`" + ClassName(v.kind) + "`"))
  {
    var text := if v.description != "" then v.description else "`" + ClassName(v.kind) + "`";
    v.(description := RemoveMarkdownParagraph(render(text)))
  }

  /** `validators.Integer(description=…, **kwargs)` and its siblings. */
  function Scalar(kind: ValidatorKind, default: Default, allowNull: bool, render: Renderer): Validator {
    Described(Validator(kind, "", allowNull, default, [], None), render)
  }

  /** The validator kind a path parameter's annotation maps to; `None` for
      no annotation, and nothing for a class without a mapping (`bool`
      included), where the dictionary lookup raises `KeyError`. */
  function PathKind(a: Annotation): (r: Option<Option<ValidatorKind>>)
    ensures r.Some? <==> a.Unannotated? || (a.BuiltinClass? && a.builtin != BoolType)
    ensures r == Some(None) <==> a.Unannotated?
    ensures r.Some? ==> IsQueryScalar(a) && r.value == QueryKind(a)
    ensures r.Some? && a.BuiltinClass? ==>
              r.value.Some? && ClassName(r.value.value) == (match a.builtin
                                                            case IntType => "Integer" case FloatType => "Number"
                                                            case BoolType => "Boolean" case StrType => "String")
  {
    match a
    case Unannotated => Some(None)
    case BuiltinClass(IntType) => Some(Some(IntegerKind))
    case BuiltinClass(FloatType) => Some(Some(NumberKind))
    case BuiltinClass(StrType) => Some(Some(StringKind))
    case _ => None
  }

  /** The annotations `generate_fields` treats as plain query parameters. */
  predicate IsQueryScalar(a: Annotation) {
    a.Unannotated? || a.BuiltinClass? || a.QueryParamClass?
  }

  /** The validator kind of a plain query parameter; `None` when it is not
      annotated. */
  function QueryKind(a: Annotation): (r: Option<ValidatorKind>)
    requires IsQueryScalar(a)
    ensures r.None? <==> a.Unannotated?
    ensures a == QueryParamClass ==> r == Some(StringKind)
    ensures a.BuiltinClass? ==>
              r.Some? && ClassName(r.value) == (match a.builtin
                                                case IntType => "Integer" case FloatType => "Number"
                                                case BoolType => "Boolean" case StrType => "String")
  {
    match a
    case Unannotated => None
    case BuiltinClass(IntType) => Some(IntegerKind)
    case BuiltinClass(FloatType) => Some(NumberKind)
    case BuiltinClass(BoolType) => Some(BooleanKind)
    case BuiltinClass(StrType) => Some(StringKind)
    case QueryParamClass => Some(StringKind)
  }

  // ---------------------------------------------------------------------
  // Fields.

  /** A parameter named by a path token. */
  function PathField(p: Parameter, render: Renderer): (r: Result<Field>)
    ensures r.Ok? ==> r.value.name == p.name && r.value.location == PathLocation && r.value.required.None?
    ensures r.Err? <==> !p.annotation.ValidatorInstance? && PathKind(p.annotation).None?
    ensures r.Err? ==> r.error == NoPathSchema(p.name)
    ensures r.Ok? && !p.annotation.ValidatorInstance? && r.value.schema.Some? ==>
              !r.value.schema.value.allowNull && r.value.schema.value.default == p.default
  {
    if p.annotation.ValidatorInstance? then
      Ok(Field(p.name, PathLocation, Some(Described(p.annotation.validator, render)), None))
    else
      match PathKind(p.annotation)
      case None => Err(NoPathSchema(p.name))
      case Some(kind) =>
        var schema := if kind.None? then None else Some(Scalar(kind.value, p.default, false, render));
        Ok(Field(p.name, PathLocation, schema, None))
  }

  /** A plain query parameter: a default of `None` makes it nullable. */
  function QueryField(p: Parameter, render: Renderer): (r: Field)
    requires IsQueryScalar(p.annotation)
    ensures r.name == p.name && r.location == QueryLocation && r.required.None?
    ensures r.schema.None? <==> p.annotation.Unannotated?
    ensures r.schema.Some? ==> r.schema.value.default == p.default
                               && (r.schema.value.allowNull <==> p.default == HasDefault(NoneValue))
  {
    var allowNull := p.default == HasDefault(NoneValue);
    match QueryKind(p.annotation)
    case None => Field(p.name, QueryLocation, None, None)
    case Some(kind) => Field(p.name, QueryLocation, Some(Scalar(kind, p.default, allowNull, render)), None)
  }

  predicate ExpandsToQuery(verb: string) {
    verb == "GET" || verb == "DELETE"
  }

  /** One query field per declared property of a `Type`, in order: named
      by the property, in the query, not marked required, with the
      property's validator as schema, changed in its description only. */
  function PropertyFields(props: seq<Property>, render: Renderer): (r: seq<Field>)
    ensures |r| == |props|
    ensures forall k :: 0 <= k < |props| ==>
              && r[k].name == props[k].name && r[k].location == QueryLocation && r[k].required.None?
              && r[k].schema.Some?
              && r[k].schema.value == props[k].validator.(description := r[k].schema.value.description)
  {
    seq(|props|, k requires 0 <= k < |props| =>
      Field(props[k].name, QueryLocation, Some(Described(props[k].validator, render)), None))
  }

  /** The declared properties with their descriptions rendered: the same
      names in the same order, each validator changed in its description
      only. */
  function DescribedProperties(props: seq<Property>, render: Renderer): (r: seq<Property>)
    ensures |r| == |props|
    ensures forall k :: 0 <= k < |props| ==>
              && r[k].name == props[k].name
              && r[k].validator == props[k].validator.(description := r[k].validator.description)
  {
    seq(|props|, k requires 0 <= k < |props| => Property(props[k].name, Described(props[k].validator, render)))
  }

  /** The fields one handler parameter contributes, by the precedence of
      `generate_fields`: path token, plain query annotation, validator
      instance (a query field required unless nullable), `Type` subclass
      (expanded into query fields for GET and DELETE, otherwise one body
      field); any other annotation contributes nothing. */
  function ParameterFields(verb: string, pathNames: seq<string>, p: Parameter, render: Renderer): (r: Result<seq<Field>>)
    ensures p.name in pathNames ==> r.Ok? == PathField(p, render).Ok?
    ensures r.Ok? && p.name in pathNames ==> r.value == [PathField(p, render).value]
    ensures p.name !in pathNames ==> r.Ok?
    ensures r.Ok? && p.name !in pathNames && IsQueryScalar(p.annotation) ==>
              r.value == [QueryField(p, render)]
    ensures r.Ok? && p.name !in pathNames && p.annotation.ValidatorInstance? ==>
              var v := p.annotation.validator;
              r.value == [Field(p.name, QueryLocation, Some(Described(v, render)), Some(!v.allowNull))]
    ensures r.Ok? && p.name !in pathNames && p.annotation.TypeClass? && ExpandsToQuery(verb) ==>
              r.value == PropertyFields(p.annotation.typeDef.validator.properties, render)
    ensures r.Ok? && p.name !in pathNames && p.annotation.TypeClass? && !ExpandsToQuery(verb) ==>
              var v := p.annotation.typeDef.validator;
              r.value == [Field(p.name, BodyLocation,
                                Some(v.(properties := DescribedProperties(v.properties, render))),
                                Some(!v.allowNull))]
    ensures r.Ok? && p.name !in pathNames &&
            !(IsQueryScalar(p.annotation) || p.annotation.ValidatorInstance? || p.annotation.TypeClass?) ==>
              r.value == []
  {
    if p.name in pathNames then
      var f :- PathField(p, render);
      Ok([f])
    else if IsQueryScalar(p.annotation) then Ok([QueryField(p, render)])
    else match p.annotation
      case ValidatorInstance(v) =>
        Ok([Field(p.name, QueryLocation, Some(Described(v, render)), Some(!v.allowNull))])
      case TypeClass(t) =>
        var v := t.validator;
        if ExpandsToQuery(verb) then Ok(PropertyFields(v.properties, render))
        else Ok([Field(p.name, BodyLocation, Some(v.(properties := DescribedProperties(v.properties, render))),
                       Some(!v.allowNull))])
      case _ => Ok([])
  }

  /** The loop of `generate_fields` over `params`: the fields of each
      parameter in declaration order; the first path parameter without a
      schema mapping stops it. */
  function FieldsOf(verb: string, pathNames: seq<string>, params: seq<Parameter>, render: Renderer): (r: Result<seq<Field>>)
    decreases |params|
  {
    if |params| == 0 then Ok([])
    else
      var first :- ParameterFields(verb, pathNames, params[0], render);
      var rest :- FieldsOf(verb, pathNames, params[1..], render);
      Ok(first + rest)
  }

  /** `Route.generate_fields`. */
  function GenerateFields(url: string, verb: string, handler: Func, render: Renderer): Result<seq<Field>> {
    FieldsOf(verb, PathNames(url), Params(handler), render)
  }

  /** The effective encoding: the route's own when given, otherwise JSON
      exactly when some field is in the body. */
  function EffectiveEncoding(explicit: Option<string>, fields: seq<Field>): (r: Option<string>)
    ensures explicit.Some? ==> r == explicit
    ensures explicit.None? ==>
              (r == Some(JsonEncoding) <==> exists k :: 0 <= k < |fields| && fields[k].location == BodyLocation)
    ensures explicit.None? ==> r.None? || r == Some(JsonEncoding)
  {
    if explicit.None? && exists k :: 0 <= k < |fields| && fields[k].location == BodyLocation then Some(JsonEncoding)
    else explicit
  }

  /** `typing.List[T]` with `T` a `Type` subclass becomes
      `validators.Array(items=T)`; everything else is left alone. */
  function CoerceGenerics(a: Annotation): (r: Annotation)
    ensures a.ListOf? && a.arg.TypeClass? ==>
              r.ValidatorInstance? && r.validator.kind == ArrayKind && r.validator.items == Some(a.arg.typeDef)
    ensures !(a.ListOf? && a.arg.TypeClass?) ==> r == a
  {
    if a.ListOf? && a.arg.TypeClass? then
      ValidatorInstance(Validator(ArrayKind, "", false, NoDefault, [], Some(a.arg.typeDef)))
    else a
  }

  /** `Route.generate_response`: a response is documented exactly when the
      coerced return annotation is a `Type` subclass or a validator
      instance. */
  function GenerateResponse(handler: Func, encoding: Option<string>): (r: Option<Response>)
    ensures r.Some? <==> CoerceGenerics(Returns(handler)).TypeClass? || CoerceGenerics(Returns(handler)).ValidatorInstance?
    ensures r.Some? ==> r.value.encoding == encoding && r.value.statusCode == OkStatus
                        && r.value.schema == CoerceGenerics(Returns(handler))
  {
    var a := CoerceGenerics(Returns(handler));
    if a.TypeClass? || a.ValidatorInstance? then Some(Response(encoding, OkStatus, a)) else None
  }

  /** `self.name = name or handler.__name__`. */
  function RouteName(route: Route): (r: string)
    ensures route.name.Some? && route.name.value != "" ==> r == route.name.value
    ensures route.name.None? || route.name.value == "" ==> r == Name(route.handler)
  {
    if route.name.Some? && route.name.value != "" then route.name.value else Name(route.handler)
  }

  /** `str(handler.__doc__)`: a missing docstring renders as `None`. */
  function DocText(f: Func): string {
    match f
    case Function(_, _, _, _, doc) => doc.GetOr("None")
    case ValidatedParam(_, _) => "None"
  }

  /** `Route.generate_link`, as run by the route's constructor. */
  function GenerateLink(route: Route, render: Renderer): (r: Result<Link>)
    ensures r.Ok? <==> GenerateFields(route.url, route.verb, route.handler, render).Ok?
    ensures r.Ok? ==> var fields := GenerateFields(route.url, route.verb, route.handler, render).value;
              && r.value.url == route.url && r.value.verb == route.verb
              && r.value.name == RouteName(route)
              && r.value.fields == fields
              && r.value.encoding == EffectiveEncoding(route.encoding, fields)
              && r.value.response == GenerateResponse(route.handler, r.value.encoding)
              && r.value.description == RemoveMarkdownParagraph(render(DocText(route.handler)))
  {
    var fields :- GenerateFields(route.url, route.verb, route.handler, render);
    var encoding := EffectiveEncoding(route.encoding, fields);
    Ok(Link(route.url, route.verb, RouteName(route), encoding, fields,
            GenerateResponse(route.handler, encoding), RemoveMarkdownParagraph(render(DocText(route.handler)))))
  }

  // ---------------------------------------------------------------------
  // Properties.

  /** The fields of a parameter list are those of its parts, in order. */
  lemma {:induction false} FieldsOfConcat(verb: string, pathNames: seq<string>, a: seq<Parameter>,
                                          b: seq<Parameter>, render: Renderer)
    requires FieldsOf(verb, pathNames, a, render).Ok? && FieldsOf(verb, pathNames, b, render).Ok?
    ensures FieldsOf(verb, pathNames, a + b, render)
            == Ok(FieldsOf(verb, pathNames, a, render).value + FieldsOf(verb, pathNames, b, render).value)
    decreases |a|
  {
    if |a| == 0 {
      assert a + b == b;
      assert FieldsOf(verb, pathNames, a, render) == Ok([]);
      assert [] + FieldsOf(verb, pathNames, b, render).value == FieldsOf(verb, pathNames, b, render).value;
    } else {
      assert (a + b)[0] == a[0];
      assert (a + b)[1..] == a[1..] + b;
      FieldsOfConcat(verb, pathNames, a[1..], b, render);
      var first := ParameterFields(verb, pathNames, a[0], render).value;
      var restA := FieldsOf(verb, pathNames, a[1..], render).value;
      var restB := FieldsOf(verb, pathNames, b, render).value;
      assert first + (restA + restB) == (first + restA) + restB;
    }
  }

  /** Every parameter contributes exactly one field except a `Type` under
      GET or DELETE, an annotation `generate_fields` does not document, and
      a path parameter without a schema mapping. */
  predicate OneField(verb: string, pathNames: seq<string>, p: Parameter) {
    if p.name in pathNames then p.annotation.ValidatorInstance? || PathKind(p.annotation).Some?
    else IsQueryScalar(p.annotation) || p.annotation.ValidatorInstance?
         || (p.annotation.TypeClass? && !ExpandsToQuery(verb))
  }

  lemma OneFieldParameter(verb: string, pathNames: seq<string>, p: Parameter, render: Renderer)
    requires OneField(verb, pathNames, p)
    ensures ParameterFields(verb, pathNames, p, render).Ok?
    ensures |ParameterFields(verb, pathNames, p, render).value| == 1
  {
  }

  /** When every parameter contributes exactly one field, the fields are
      those, one per parameter in declaration order. */
  lemma {:induction false} OneFieldEach(verb: string, pathNames: seq<string>, params: seq<Parameter>,
                                        render: Renderer)
    requires forall k :: 0 <= k < |params| ==> OneField(verb, pathNames, params[k])
    ensures var r := FieldsOf(verb, pathNames, params, render);
            r.Ok? && |r.value| == |params|
            && forall k :: 0 <= k < |params| ==> ParameterFields(verb, pathNames, params[k], render) == Ok([r.value[k]])
    decreases |params|
  {
    if |params| > 0 {
      assert forall k :: 0 <= k < |params[1..]| ==> params[1..][k] == params[k + 1];
      OneFieldParameter(verb, pathNames, params[0], render);
      OneFieldEach(verb, pathNames, params[1..], render);
    }
  }

  /** Only a path parameter without a schema mapping fails, and then the
      whole of `generate_fields` fails. */
  lemma {:induction false} FieldsFailOnlyOnPath(verb: string, pathNames: seq<string>, params: seq<Parameter>,
                                                render: Renderer)
    ensures FieldsOf(verb, pathNames, params, render).Err? <==>
              exists k :: 0 <= k < |params| && params[k].name in pathNames
                          && !params[k].annotation.ValidatorInstance?
                          && PathKind(params[k].annotation).None?
    decreases |params|
  {
    if |params| > 0 {
      FieldsFailOnlyOnPath(verb, pathNames, params[1..], render);
      if FieldsOf(verb, pathNames, params[1..], render).Err? {
        var k :| 0 <= k < |params[1..]| && params[1..][k].name in pathNames
                 && !params[1..][k].annotation.ValidatorInstance?
                 && PathKind(params[1..][k].annotation).None?;
        assert params[k + 1] == params[1..][k];
      }
      forall k | 1 <= k < |params|
        ensures params[k] == params[1..][k - 1]
      {
      }
    }
  }

  /** GET and DELETE routes have no body field, so without an explicit
      encoding they have none. */
  lemma {:induction false} NoBodyForQueryMethods(verb: string, pathNames: seq<string>, params: seq<Parameter>,
                                                 render: Renderer)
    requires ExpandsToQuery(verb) && FieldsOf(verb, pathNames, params, render).Ok?
    ensures var fields := FieldsOf(verb, pathNames, params, render).value;
            (forall k :: 0 <= k < |fields| ==> fields[k].location != BodyLocation)
            && EffectiveEncoding(None, fields).None?
    decreases |params|
  {
    if |params| > 0 {
      NoBodyForQueryMethods(verb, pathNames, params[1..], render);
      var first := ParameterFields(verb, pathNames, params[0], render).value;
      var rest := FieldsOf(verb, pathNames, params[1..], render).value;
      assert forall k :: 0 <= k < |first| ==> first[k].location != BodyLocation;
      assert forall k :: 0 <= k < |first + rest| ==>
        (first + rest)[k] == if k < |first| then first[k] else rest[k - |first|];
    }
  }

  /** A `Type` parameter of a route other than GET or DELETE is one body
      field, and makes the default encoding JSON. */
  lemma TypeParameterIsBody(verb: string, pathNames: seq<string>, before: seq<Parameter>, p: Parameter,
                            after: seq<Parameter>, render: Renderer)
    requires !ExpandsToQuery(verb) && p.annotation.TypeClass? && p.name !in pathNames
    requires FieldsOf(verb, pathNames, before + [p] + after, render).Ok?
    ensures var fields := FieldsOf(verb, pathNames, before + [p] + after, render).value;
            EffectiveEncoding(None, fields) == Some(JsonEncoding)
  {
    var all := before + [p] + after;
    var tail := [p] + after;
    assert all == before + tail;
    FieldsOfSplit(verb, pathNames, before, tail, render);
    assert tail[0] == p;
    var pre := FieldsOf(verb, pathNames, before, render).value;
    var own := ParameterFields(verb, pathNames, p, render).value;
    assert own[0].location == BodyLocation;
    assert FieldsOf(verb, pathNames, tail, render).value[0] == own[0];
    var fields := FieldsOf(verb, pathNames, all, render).value;
    assert fields[|pre|] == own[0];
  }

  /** When the fields of `a + b` are generated, so are those of each part,
      and they are the concatenation. */
  lemma {:induction false} FieldsOfSplit(verb: string, pathNames: seq<string>, a: seq<Parameter>,
                                         b: seq<Parameter>, render: Renderer)
    requires FieldsOf(verb, pathNames, a + b, render).Ok?
    ensures FieldsOf(verb, pathNames, a, render).Ok? && FieldsOf(verb, pathNames, b, render).Ok?
    ensures FieldsOf(verb, pathNames, a + b, render).value
            == FieldsOf(verb, pathNames, a, render).value + FieldsOf(verb, pathNames, b, render).value
    decreases |a|
  {
    if |a| == 0 {
      assert a + b == b;
    } else {
      assert (a + b)[0] == a[0];
      assert (a + b)[1..] == a[1..] + b;
      FieldsOfSplit(verb, pathNames, a[1..], b, render);
    }
  }

  /** A handler returning `List[T]` for a `Type` subclass `T` documents an
      `Array` response whose items are `T`, with status 200 and the link's
      own encoding. */
  lemma ListResponseIsArray(route: Route, render: Renderer, t: TypeDef)
    requires Returns(route.handler) == ListOf(TypeClass(t))
    requires GenerateLink(route, render).Ok?
    ensures var link := GenerateLink(route, render).value;
            && link.response.Some?
            && link.response.value.encoding == link.encoding
            && link.response.value.statusCode == 200
            && link.response.value.schema.ValidatorInstance?
            && link.response.value.schema.validator.kind == ArrayKind
            && link.response.value.schema.validator.items == Some(t)
  {
  }

  /** In terms of the handler's own return annotation: a response is
      documented exactly for a `Type` subclass, a validator instance, or a
      `List` of a `Type` subclass. */
  lemma ResponseDocumented(handler: Func, encoding: Option<string>)
    ensures var a := Returns(handler);
            GenerateResponse(handler, encoding).Some?
            <==> a.TypeClass? || a.ValidatorInstance? || (a.ListOf? && a.arg.TypeClass?)
    ensures Returns(handler).TypeClass? || Returns(handler).ValidatorInstance? ==>
              GenerateResponse(handler, encoding).value.schema == Returns(handler)
  {
  }

  /** Coercion is idempotent. */
  lemma CoerceGenericsIdempotent(a: Annotation)
    ensures CoerceGenerics(CoerceGenerics(a)) == CoerceGenerics(a)
  {
  }
}
