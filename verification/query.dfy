/** `_get_validated_param`, the resolver the injector synthesises for a
    parameter annotated with a validator instance (apistar/server/injector.py,
    nested in `resolve_function`). It splits the raw query string on `&` and
    each piece on `=`, keeps the last value given for a name, and hands that
    text to `ast.literal_eval` and then to the validator; a name that is not
    in the query string yields `None` without consulting either.

    Python's `ast.literal_eval` and `Validator.validate` are parameters: they
    are opaque here and may fail.

    As written, a piece that does not unpack into exactly two parts raises,
    and the empty query string (a request without `?`) splits into the single
    piece "", so every validator-annotated parameter fails on such a request.
    `ParsePairsAsWritten` and `GetValidatedParamAsWritten` keep that
    behaviour, and the injector runs them; `ParsePairs` and
    `GetValidatedParam` read the empty query string as having no parameters,
    as evidently intended. */
module QueryParams {
  import opened Outcomes
  import opened Strings
  import opened Signatures

  type Pair = (string, string)

  /** Unpacks each piece's `split("=")` into a key and a value, in order; the
      first piece that does not have exactly one `=` raises. */
  function Unpack(pieces: seq<string>): (r: Result<seq<Pair>>)
    ensures r.Ok? <==> forall k :: 0 <= k < |pieces| ==> |Split(pieces[k], '=')| == 2
    ensures r.Ok? ==> |r.value| == |pieces|
    ensures r.Ok? ==> forall k :: 0 <= k < |pieces| ==>
                r.value[k] == (Split(pieces[k], '=')[0], Split(pieces[k], '=')[1])
    ensures r.Err? ==> exists k :: 0 <= k < |pieces| && r.error == MalformedQuery(pieces[k])
  {
    if |pieces| == 0 then Ok([])
    else
      var kv := Split(pieces[0], '=');
      if |kv| != 2 then Err(MalformedQuery(pieces[0]))
      else match Unpack(pieces[1..])
        case Err(e) => Err(e)
        case Ok(rest) => Ok([(kv[0], kv[1])] + rest)
  }

  /** The dict comprehension over `qs.split("&")` as written: one pair per
      `&`-piece, so the empty query string, which is one empty piece, does
      not parse. */
  function ParsePairsAsWritten(qs: string): (r: Result<seq<Pair>>)
    ensures qs == "" ==> r == Err(MalformedQuery(""))
    ensures r.Ok? ==> |r.value| == |Split(qs, '&')|
  {
    assert qs == "" ==> Split(qs, '&') == [""] && Split("", '=') == [""];
    Unpack(Split(qs, '&'))
  }

  /** The evidently intended parse: the empty query string has no pairs. */
  function ParsePairs(qs: string): (r: Result<seq<Pair>>)
    ensures qs == "" ==> r == Ok([])
    ensures qs != "" ==> r == ParsePairsAsWritten(qs)
  {
    if qs == "" then Ok([]) else ParsePairsAsWritten(qs)
  }

  /** `d.get(name)` on the dict built from `pairs`: later pairs overwrite
      earlier ones, so the last value given for `name` wins. */
  function Lookup<V>(pairs: seq<(string, V)>, name: string): Option<V> {
    if |pairs| == 0 then None
    else if pairs[|pairs| - 1].0 == name then Some(pairs[|pairs| - 1].1)
    else Lookup(pairs[..|pairs| - 1], name)
  }

  /** The lookup finds nothing exactly when no pair has the name, and
      otherwise finds the value of the last pair with it. */
  lemma {:induction false} LookupShape<V>(pairs: seq<(string, V)>, name: string)
    ensures var r := Lookup(pairs, name);
            && (r.None? <==> forall k :: 0 <= k < |pairs| ==> pairs[k].0 != name)
            && (r.Some? ==> exists k :: 0 <= k < |pairs| && pairs[k] == (name, r.value)
                                        && forall k' :: k < k' < |pairs| ==> pairs[k'].0 != name)
  {
    if |pairs| > 0 {
      var init := pairs[..|pairs| - 1];
      LookupShape(init, name);
      assert forall k :: 0 <= k < |init| ==> init[k] == pairs[k];
    }
  }

  /** The pair at `k` is the last one with its name, so its value is found. */
  lemma {:induction false} LookupLast<V>(pairs: seq<(string, V)>, k: nat)
    requires k < |pairs|
    requires forall k' :: k < k' < |pairs| ==> pairs[k'].0 != pairs[k].0
    ensures Lookup(pairs, pairs[k].0) == Some(pairs[k].1)
    decreases |pairs|
  {
    if k < |pairs| - 1 {
      var init := pairs[..|pairs| - 1];
      assert init[k] == pairs[k];
      assert forall k' :: k < k' < |init| ==> init[k'] == pairs[k'];
      LookupLast(init, k);
    }
  }

  /** `"true"` and `"false"` are capitalised so that `literal_eval` reads them
      as Python booleans; any other text is left alone. */
  function Capitalised(text: string): (r: string)
    ensures text == "true" ==> r == "True"
    ensures text == "false" ==> r == "False"
    ensures text != "true" && text != "false" ==> r == text
  {
    if text == "true" then "True" else if text == "false" then "False" else text
  }

  /** Everything after the parse: look the name up, and if present evaluate
      and validate its text. */
  function Extract(pairs: seq<Pair>, name: string, validator: Validator,
                   literal: string -> Result<Value>,
                   validate: (Validator, Value) -> Result<Value>): Result<Value>
  {
    match Lookup(pairs, name)
    case None => Ok(NoneValue)
    case Some(text) =>
      match literal(Capitalised(text))
      case Err(e) => Err(e)
      case Ok(v) => validate(validator, v)
  }

  /** `_get_validated_param` as written. */
  function GetValidatedParamAsWritten(name: string, validator: Validator, qs: Value,
                                      literal: string -> Result<Value>,
                                      validate: (Validator, Value) -> Result<Value>): Result<Value>
  {
    match qs
    case StrValue(s) =>
      (match ParsePairsAsWritten(s)
       case Err(e) => Err(e)
       case Ok(pairs) => Extract(pairs, name, validator, literal, validate))
    case _ => Err(NotAQueryString)
  }

  /** `_get_validated_param` with the empty query string read as empty. */
  function GetValidatedParam(name: string, validator: Validator, qs: Value,
                             literal: string -> Result<Value>,
                             validate: (Validator, Value) -> Result<Value>): Result<Value>
  {
    match qs
    case StrValue(s) =>
      (match ParsePairs(s)
       case Err(e) => Err(e)
       case Ok(pairs) => Extract(pairs, name, validator, literal, validate))
    case _ => Err(NotAQueryString)
  }

  /** A name absent from a well-formed, non-empty query string yields
      `None`, whatever `literal_eval` and the validator would have done. The
      empty query string fails as written and yields `None` as intended. */
  lemma AbsentNameIsNone(name: string, validator: Validator, qs: string,
                         literal: string -> Result<Value>,
                         validate: (Validator, Value) -> Result<Value>)
    requires ParsePairs(qs).Ok?
    requires forall k :: 0 <= k < |ParsePairs(qs).value| ==> ParsePairs(qs).value[k].0 != name
    ensures qs != "" ==> GetValidatedParamAsWritten(name, validator, StrValue(qs), literal, validate) == Ok(NoneValue)
    ensures qs == "" ==> GetValidatedParamAsWritten(name, validator, StrValue(qs), literal, validate)
                         == Err(MalformedQuery(""))
    ensures GetValidatedParam(name, validator, StrValue(qs), literal, validate) == Ok(NoneValue)
  {
    LookupShape(ParsePairs(qs).value, name);
  }

  /** A present name's text, capitalised if it is a boolean word, goes through
      `literal_eval` and then the validator. A present name means a non-empty
      query string, on which both readings of the parse agree. */
  lemma PresentNameIsValidated(name: string, text: string, validator: Validator, qs: string,
                               literal: string -> Result<Value>,
                               validate: (Validator, Value) -> Result<Value>)
    requires ParsePairs(qs).Ok? && Lookup(ParsePairs(qs).value, name) == Some(text)
    ensures var r := GetValidatedParamAsWritten(name, validator, StrValue(qs), literal, validate);
            && (text == "true" ==>
                  r == (match literal("True") case Err(e) => Err(e) case Ok(v) => validate(validator, v)))
            && (text == "false" ==>
                  r == (match literal("False") case Err(e) => Err(e) case Ok(v) => validate(validator, v)))
            && (text != "true" && text != "false" ==>
                  r == (match literal(text) case Err(e) => Err(e) case Ok(v) => validate(validator, v)))
    ensures GetValidatedParam(name, validator, StrValue(qs), literal, validate)
            == GetValidatedParamAsWritten(name, validator, StrValue(qs), literal, validate)
  {
  }

  /** Splitting a joined text at a separator that the last piece lacks
      splits off exactly that piece. */
  lemma {:induction false} SplitAppend(s: string, sep: char, piece: string)
    requires sep !in piece
    ensures Split(s + [sep] + piece, sep) == Split(s, sep) + [piece]
    decreases |s|
  {
    var t := s + [sep] + piece;
    match FindChar(s, sep)
    case None =>
      assert t[..|s|] == s;
      FindCharIs(t, sep, |s|);
      assert t[|s| + 1..] == piece;
      assert FindChar(piece, sep).None?;
    case Some(i) =>
      assert t[..i] == s[..i];
      FindCharIs(t, sep, i);
      assert t[i + 1..] == s[i + 1..] + [sep] + piece;
      SplitAppend(s[i + 1..], sep, piece);
  }

  /** Unpacking one more well-formed piece appends one more pair. */
  lemma UnpackAppend(pieces: seq<string>, piece: string)
    requires Unpack(pieces).Ok? && |Split(piece, '=')| == 2
    ensures Unpack(pieces + [piece])
            == Ok(Unpack(pieces).value + [(Split(piece, '=')[0], Split(piece, '=')[1])])
  {
    var all := pieces + [piece];
    forall k | 0 <= k < |all|
      ensures |Split(all[k], '=')| == 2
    {
      if k < |pieces| { assert all[k] == pieces[k]; }
    }
    var r := Unpack(all);
    var expected := Unpack(pieces).value + [(Split(piece, '=')[0], Split(piece, '=')[1])];
    assert |r.value| == |expected|;
    forall k | 0 <= k < |all|
      ensures r.value[k] == expected[k]
    {
      if k < |pieces| { assert all[k] == pieces[k]; }
    }
    assert r.value == expected;
  }

  /** One more `&`-separated well-formed piece adds one more pair. */
  lemma ParseAppend(qs: string, piece: string)
    requires ParsePairsAsWritten(qs).Ok?
    requires '&' !in piece && |Split(piece, '=')| == 2
    ensures ParsePairsAsWritten(qs + ['&'] + piece)
            == Ok(ParsePairsAsWritten(qs).value + [(Split(piece, '=')[0], Split(piece, '=')[1])])
  {
    SplitAppend(qs, '&', piece);
    UnpackAppend(Split(qs, '&'), piece);
  }

  /** Appending `&name=text` to a query string that parses adds exactly one
      pair at the end. */
  lemma LaterPairAppended(qs: string, name: string, text: string)
    requires ParsePairsAsWritten(qs).Ok?
    requires '&' !in name && '&' !in text && '=' !in name && '=' !in text
    ensures ParsePairsAsWritten(qs + "&" + name + "=" + text) == Ok(ParsePairsAsWritten(qs).value + [(name, text)])
  {
    var piece := name + ['='] + text;
    PieceSplits(name, text);
    assert '&' !in piece;
    ParseAppend(qs, piece);
    Regroup(qs, name, text);
  }

  lemma Regroup(qs: string, name: string, text: string)
    ensures qs + "&" + name + "=" + text == qs + ['&'] + (name + ['='] + text)
  {
  }

  /** A `name=text` piece unpacks into its two halves. */
  lemma PieceSplits(name: string, text: string)
    requires '=' !in name && '=' !in text
    ensures Split(name + ['='] + text, '=') == [name, text]
  {
    assert Join([name, text], '=') == name + ['='] + text;
    SplitJoin([name, text], '=');
  }

  /** A later `&name=text` overrides every earlier value given for `name`. */
  lemma LaterDuplicateWins(qs: string, name: string, text: string)
    requires ParsePairsAsWritten(qs).Ok?
    requires '&' !in name && '&' !in text && '=' !in name && '=' !in text
    ensures var r := ParsePairsAsWritten(qs + "&" + name + "=" + text);
            r.Ok? && Lookup(r.value, name) == Some(text)
  {
    LaterPairAppended(qs, name, text);
    LastPairWins(ParsePairsAsWritten(qs).value, name, text);
  }

  /** The last pair for a name is the one looked up. */
  lemma LastPairWins(pairs: seq<Pair>, name: string, text: string)
    ensures Lookup(pairs + [(name, text)], name) == Some(text)
  {
    var all := pairs + [(name, text)];
    assert all[|all| - 1] == (name, text);
  }

  /** The query string that carries `pairs`: `name=text` pieces joined by
      `&`. */
  function EncodeQuery(pairs: seq<Pair>): string {
    Join(Pieces(pairs), '&')
  }

  function Pieces(pairs: seq<Pair>): (r: seq<string>)
    ensures |r| == |pairs|
    ensures forall k :: 0 <= k < |pairs| ==> r[k] == pairs[k].0 + "=" + pairs[k].1
  {
    seq(|pairs|, k requires 0 <= k < |pairs| => pairs[k].0 + "=" + pairs[k].1)
  }

  /** Names and values that hold neither separator. */
  predicate PlainPairs(pairs: seq<Pair>) {
    forall k :: 0 <= k < |pairs| ==>
      '&' !in pairs[k].0 && '&' !in pairs[k].1 && '=' !in pairs[k].0 && '=' !in pairs[k].1
  }

  /** Parsing a query string built from at least one plain pair gives the
      pairs back. No pairs build the empty query string, which fails as
      written and gives no pairs as intended. */
  lemma QueryRoundTrip(pairs: seq<Pair>)
    requires PlainPairs(pairs)
    ensures |pairs| > 0 ==> ParsePairsAsWritten(EncodeQuery(pairs)) == Ok(pairs)
    ensures |pairs| == 0 ==> ParsePairsAsWritten(EncodeQuery(pairs)) == Err(MalformedQuery(""))
    ensures ParsePairs(EncodeQuery(pairs)) == Ok(pairs)
  {
    var pieces := Pieces(pairs);
    if |pairs| > 0 {
      forall k | 0 <= k < |pieces|
        ensures '&' !in pieces[k] && Split(pieces[k], '=') == [pairs[k].0, pairs[k].1]
      {
        PieceSplits(pairs[k].0, pairs[k].1);
      }
      JoinStartsWith(pieces, '&');
      assert EncodeQuery(pairs) != "" by {
        assert '=' in pieces[0];
      }
      SplitJoin(pieces, '&');
      var r := Unpack(pieces);
      assert r.Ok?;
      assert r.value == pairs;
    }
  }

  /** A parameter missing from a query string built from at least one plain
      pair validates to `None`, without consulting `literal_eval` or the
      validator. With no pairs at all the query string is empty: that fails
      as written and validates to `None` as intended. */
  lemma EncodedAbsentIsNone(name: string, pairs: seq<Pair>, validator: Validator,
                            literal: string -> Result<Value>,
                            validate: (Validator, Value) -> Result<Value>)
    requires PlainPairs(pairs) && Lookup(pairs, name).None?
    ensures var qs := StrValue(EncodeQuery(pairs));
            && (|pairs| > 0 ==> GetValidatedParamAsWritten(name, validator, qs, literal, validate) == Ok(NoneValue))
            && (|pairs| == 0 ==> GetValidatedParamAsWritten(name, validator, qs, literal, validate)
                                 == Err(MalformedQuery("")))
            && GetValidatedParam(name, validator, qs, literal, validate) == Ok(NoneValue)
  {
    QueryRoundTrip(pairs);
    LookupShape(pairs, name);
    AbsentNameIsNone(name, validator, EncodeQuery(pairs), literal, validate);
  }

  /** A parameter present in a well-formed query string has its last text,
      with `true` capitalised, passed to `literal_eval` and then to the
      validator. */
  lemma EncodedPresentIsValidated(name: string, pairs: seq<Pair>, validator: Validator,
                                  literal: string -> Result<Value>,
                                  validate: (Validator, Value) -> Result<Value>)
    requires PlainPairs(pairs) && Lookup(pairs, name) == Some("true")
    ensures GetValidatedParamAsWritten(name, validator, StrValue(EncodeQuery(pairs)), literal, validate)
            == (match literal("True") case Err(e) => Err(e) case Ok(v) => validate(validator, v))
  {
    QueryRoundTrip(pairs);
    PresentNameIsValidated(name, "true", validator, EncodeQuery(pairs), literal, validate);
  }

  lemma JoinStartsWith(parts: seq<string>, sep: char)
    requires |parts| >= 1
    ensures |Join(parts, sep)| >= |parts[0]| && Join(parts, sep)[..|parts[0]|] == parts[0]
  {
    if |parts| > 1 {
      assert Join(parts, sep) == parts[0] + ([sep] + Join(parts[1..], sep));
    }
  }

  /** A request without a query string: as written, resolving any
      validator-annotated parameter fails on the empty piece. */
  lemma EmptyQueryStringFailsAsWritten(name: string, validator: Validator,
                                       literal: string -> Result<Value>,
                                       validate: (Validator, Value) -> Result<Value>)
    ensures GetValidatedParamAsWritten(name, validator, StrValue(""), literal, validate)
            == Err(MalformedQuery(""))
  {
    assert FindChar("", '&').None?;
    assert Split("", '&') == [""];
    assert FindChar("", '=').None?;
    assert Split("", '=') == [""];
  }

  /** With the empty query string read as empty, the parameter is absent and
      resolves to `None`. */
  lemma EmptyQueryStringIsAbsent(name: string, validator: Validator,
                                 literal: string -> Result<Value>,
                                 validate: (Validator, Value) -> Result<Value>)
    ensures GetValidatedParam(name, validator, StrValue(""), literal, validate) == Ok(NoneValue)
  {
  }
}
