/** The two handlers of tests/test_query_params.py and the requests made to
    them, worked through the model. The Markdown renderer stays arbitrary:
    names, locations, requirement and encoding do not depend on it. */
module Scenarios {
  import opened Outcomes
  import opened Signatures
  import opened Strings
  import opened QueryParams
  import opened Routes

  function Plain(kind: ValidatorKind, description: string, allowNull: bool): Validator {
    Validator(kind, description, allowNull, NoDefault, [], None)
  }

  function Param(name: string, annotation: Annotation): Parameter {
    Parameter(name, annotation, NoDefault)
  }

  /** `class Sometype(Type)` with properties `a`, `b`, `f`, `c`; the
      description of `a` is cut to its first line. */
  const Sometype: TypeDef := TypeDef("Sometype", Plain(ObjectKind, "", false).(properties := [
    Property("a", Plain(StringKind, "_Some_ **formatted** `description`", false)),
    Property("b", Plain(IntegerKind, "", true)),
    Property("f", Plain(NumberKind, "", false)),
    Property("c", Plain(BooleanKind, "", false))]))

  /** `get_do_nothing`; its return annotation is the class
      `validators.String`, not an instance of it. */
  const GetDoNothing: Func := Function("get_do_nothing", [
    Param("p", ValidatorInstance(Plain(IntegerKind, "`Integer` **path** parameter", false))),
    Param("a", Unannotated),
    Param("s", BuiltinClass(StrType)),
    Param("f", BuiltinClass(FloatType)),
    Param("n", ValidatorInstance(Plain(NumberKind, "", false))),
    Param("b", ValidatorInstance(Plain(BooleanKind, "", false))),
    Param("d", ValidatorInstance(Plain(StringKind, "This is **not required** _parameter_", true)))],
    OtherClass("String"), false, Some("_Modest_ **formatted** `documentation` <hr>"))

  /** `post_do_nothing`; its docstring is cut to its opening words. */
  const PostDoNothing: Func := Function("post_do_nothing", [
    Param("p", BuiltinClass(IntType)),
    Param("a", Unannotated),
    Param("b", ValidatorInstance(Plain(BooleanKind, "Just gimme a **true** _or_ **false**", false))),
    Param("i", ValidatorInstance(Plain(IntegerKind, "**Query** _parameter_", false))),
    Param("d", ValidatorInstance(Plain(StringKind, "", true))),
    Param("data", TypeClass(Sometype))],
    OtherClass("String"), false, Some("_Some_ **formatted** `documentation`"))

  /** The path of both test routes. */
  const RouteUrl: string := "/{p}"

  const GetRoute: Route := Route(RouteUrl, "GET", GetDoNothing, Some("get_test"), true, false, Some("some/encoding"))
  const PostRoute: Route := Route(RouteUrl, "POST", PostDoNothing, Some("post_test"), true, false, Some("some/encoding"))

  lemma PathNamesOfRoute()
    ensures PathNames(RouteUrl) == ["p"]
  {
    var name := "p";
    assert |name| == 1 && name[0] == 'p';
    var token := "{" + name + "}";
    FirstTokenAfter("/", name, "");
    assert "/" + "{" + name + "}" + "" == RouteUrl;
    assert PathTokens("") == [];
    assert PathTokens(RouteUrl) == [token];
    PathNameOfToken(name);
    assert PathName(token) == name;
    var names := PathNames(RouteUrl);
    assert |names| == 1 && names[0] == name;
    Singleton(names, name);
  }

  lemma Singleton<T>(s: seq<T>, x: T)
    requires |s| == 1 && s[0] == x
    ensures s == [x]
  {
  }

  /** Both routes have the single path parameter `p`. */
  lemma RouteFields(verb: string, handler: Func, render: Renderer)
    ensures GenerateFields(RouteUrl, verb, handler, render) == FieldsOf(verb, ["p"], Params(handler), render)
  {
    PathNamesOfRoute();
  }

  /** Each parameter of `get_do_nothing` yields exactly one field. */
  lemma GetFieldsOneEach(render: Renderer)
    ensures var params := Params(GetDoNothing);
            var r := FieldsOf("GET", ["p"], params, render);
            && r.Ok? && |r.value| == 7
            && forall k :: 0 <= k < 7 ==> ParameterFields("GET", ["p"], params[k], render) == Ok([r.value[k]])
  {
    var params := Params(GetDoNothing);
    assert OneField("GET", ["p"], params[0]);
    assert OneField("GET", ["p"], params[1]);
    assert OneField("GET", ["p"], params[2]);
    assert OneField("GET", ["p"], params[3]);
    assert OneField("GET", ["p"], params[4]);
    assert OneField("GET", ["p"], params[5]);
    assert OneField("GET", ["p"], params[6]);
    OneFieldEach("GET", ["p"], params, render);
  }

  /** GET: `p` is a path field, the rest are query fields in declaration
      order; validators are required unless nullable. */
  lemma GetFields(render: Renderer)
    ensures var r := FieldsOf("GET", ["p"], Params(GetDoNothing), render);
            && r.Ok? && |r.value| == 7
            && r.value[0].name == "p" && r.value[0].location == PathLocation
            && r.value[1] == Field("a", QueryLocation, None, None)
            && r.value[2].name == "s" && r.value[2].location == QueryLocation
            && r.value[3].name == "f" && r.value[3].location == QueryLocation
            && r.value[4].name == "n" && r.value[4].location == QueryLocation && r.value[4].required == Some(true)
            && r.value[5].name == "b" && r.value[5].location == QueryLocation && r.value[5].required == Some(true)
            && r.value[6].name == "d" && r.value[6].location == QueryLocation && r.value[6].required == Some(false)
  {
    GetFieldsOneEach(render);
    var params := Params(GetDoNothing);
    var r := FieldsOf("GET", ["p"], params, render).value;
    assert ParameterFields("GET", ["p"], params[0], render) == Ok([r[0]]);
    assert ParameterFields("GET", ["p"], params[1], render) == Ok([r[1]]);
    assert ParameterFields("GET", ["p"], params[2], render) == Ok([r[2]]);
    assert ParameterFields("GET", ["p"], params[3], render) == Ok([r[3]]);
    assert ParameterFields("GET", ["p"], params[4], render) == Ok([r[4]]);
    assert ParameterFields("GET", ["p"], params[5], render) == Ok([r[5]]);
    assert ParameterFields("GET", ["p"], params[6], render) == Ok([r[6]]);
  }

  /** GET `/{p}`: the fields above, and the explicit encoding kept. */
  lemma GetRouteLink(render: Renderer)
    ensures var link := GenerateLink(GetRoute, render);
            && link.Ok?
            && FieldsOf("GET", ["p"], Params(GetDoNothing), render) == Ok(link.value.fields)
            && link.value.encoding == Some("some/encoding")
  {
    RouteFields("GET", GetDoNothing, render);
    GetFields(render);
  }

  /** GET `/{p}` is named by the route, and documents no response because
      its return annotation is a validator class, not an instance. */
  lemma GetRouteNameAndResponse(render: Renderer)
    ensures var link := GenerateLink(GetRoute, render);
            link.Ok? ==> link.value.name == "get_test" && link.value.response.None?
  {
  }

  /** Each parameter of `post_do_nothing` yields exactly one field. */
  lemma PostFieldsOneEach(render: Renderer)
    ensures var params := Params(PostDoNothing);
            var r := FieldsOf("POST", ["p"], params, render);
            && r.Ok? && |r.value| == 6
            && forall k :: 0 <= k < 6 ==> ParameterFields("POST", ["p"], params[k], render) == Ok([r.value[k]])
  {
    var params := Params(PostDoNothing);
    assert OneField("POST", ["p"], params[0]);
    assert OneField("POST", ["p"], params[1]);
    assert OneField("POST", ["p"], params[2]);
    assert OneField("POST", ["p"], params[3]);
    assert OneField("POST", ["p"], params[4]);
    assert OneField("POST", ["p"], params[5]);
    OneFieldEach("POST", ["p"], params, render);
  }

  /** POST: the `Type` parameter becomes one required body field. */
  lemma PostFields(render: Renderer)
    ensures var r := FieldsOf("POST", ["p"], Params(PostDoNothing), render);
            && r.Ok? && |r.value| == 6
            && r.value[0].name == "p" && r.value[0].location == PathLocation
            && r.value[0].schema.Some? && !r.value[0].schema.value.allowNull
            && r.value[3].name == "i" && r.value[3].required == Some(true)
            && r.value[4].name == "d" && r.value[4].required == Some(false)
            && r.value[5].name == "data" && r.value[5].location == BodyLocation
            && r.value[5].required == Some(true)
  {
    PostFieldsOneEach(render);
    var params := Params(PostDoNothing);
    var r := FieldsOf("POST", ["p"], params, render).value;
    assert ParameterFields("POST", ["p"], params[0], render) == Ok([r[0]]);
    assert ParameterFields("POST", ["p"], params[3], render) == Ok([r[3]]);
    assert ParameterFields("POST", ["p"], params[4], render) == Ok([r[4]]);
    assert ParameterFields("POST", ["p"], params[5], render) == Ok([r[5]]);
  }

  /** POST `/{p}`: an explicit encoding still wins over JSON. */
  lemma PostRouteLink(render: Renderer)
    ensures var link := GenerateLink(PostRoute, render);
            && link.Ok?
            && FieldsOf("POST", ["p"], Params(PostDoNothing), render) == Ok(link.value.fields)
            && link.value.encoding == Some("some/encoding")
  {
    RouteFields("POST", PostDoNothing, render);
    PostFields(render);
  }

  /** Without the explicit encoding the POST route's body field makes the
      encoding JSON, while the GET route has none. */
  lemma DefaultEncodings(render: Renderer)
    ensures GenerateLink(PostRoute.(encoding := None), render).Ok?
    ensures GenerateLink(PostRoute.(encoding := None), render).value.encoding == Some(JsonEncoding)
    ensures GenerateLink(GetRoute.(encoding := None), render).Ok?
    ensures GenerateLink(GetRoute.(encoding := None), render).value.encoding.None?
  {
    RouteFields("POST", PostDoNothing, render);
    PostFields(render);
    var post := FieldsOf("POST", ["p"], Params(PostDoNothing), render).value;
    assert post[5].location == BodyLocation;
    RouteFields("GET", GetDoNothing, render);
    GetFields(render);
    NoBodyForQueryMethods("GET", ["p"], Params(GetDoNothing), render);
  }

  /** The query string of `GET /1?a=2&b=true&s=s&i=4&f=1.0&n=2.0`. */
  const TestPairs: seq<Pair> := [("a", "2"), ("b", "true"), ("s", "s"), ("i", "4"), ("f", "1.0"), ("n", "2.0")]

  lemma TestPairsArePlain()
    ensures PlainPairs(TestPairs)
  {
  }

  /** The path parameter `p` is not in that query string, so its
      validated value is `None`. */
  lemma PathParameterNotInQuery(v: Validator, literal: string -> Result<Value>,
                                validate: (Validator, Value) -> Result<Value>)
    ensures GetValidatedParamAsWritten("p", v, StrValue(EncodeQuery(TestPairs)), literal, validate) == Ok(NoneValue)
  {
    TestPairsArePlain();
    LookupShape(TestPairs, "p");
    assert Lookup(TestPairs, "p").None?;
    EncodedAbsentIsNone("p", TestPairs, v, literal, validate);
  }

  /** The same request: `b=true` reaches `literal_eval` as `True`. */
  lemma BooleanWordCapitalised(v: Validator, literal: string -> Result<Value>,
                               validate: (Validator, Value) -> Result<Value>)
    ensures GetValidatedParamAsWritten("b", v, StrValue(EncodeQuery(TestPairs)), literal, validate)
            == (match literal("True") case Err(e) => Err(e) case Ok(x) => validate(v, x))
  {
    TestPairsArePlain();
    assert TestPairs[1] == ("b", "true");
    LookupLast(TestPairs, 1);
    EncodedPresentIsValidated("b", TestPairs, v, literal, validate);
  }
}
