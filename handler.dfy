/**
 * The request handler: `RequestHandler` caches the classification of its
 * target function and, per request, builds the keyword-argument map, checks
 * it and calls the target (www/coroweb.py, lines 85-157).
 *
 * The functions below state what one call produces; the class's `Call` method
 * builds the same result with the source's loops and is proved to agree.
 */
module Handler {
  import opened Wrappers
  import opened Sequences
  import opened Signature
  import opened Web

  const JsonType: string := "application/json"
  const FormType: string := "application/x-www-form-urlencoded"
  const MultipartType: string := "multipart/form-data"

  const MissingContentType: string := "Missing Content-Type."
  const JsonNotObject: string := "JSON body must be object."
  const UnsupportedPrefix: string := "Unsupported Content-Type: "
  /** The message of line 151, spelling included. */
  const MissingArgPrefix: string := "Missing argumeny: "

  // ---------------------------------------------------------------------
  // What one call computes
  // ---------------------------------------------------------------------

  /** Line 99: the target takes some keyword data, so a data source is chosen. */
  predicate NeedsData(c: Classification)
  {
    c.hasVarKwArg || c.hasNamedKwArgs || c.requiredKwArgs != []
  }

  function JsonArgs(fields: map<string, Json>): Args
  {
    map k | k in fields :: JsonValue(fields[k])
  }

  function FormArgs(form: map<string, string>): Args
  {
    map k | k in form :: Text(form[k])
  }

  function PathArgs(matchInfo: map<string, string>): Args
  {
    map k | k in matchInfo :: Text(matchInfo[k])
  }

  /** The collapse of the parsed query pairs: a key keeps the first value given for it. */
  function FirstValues(pairs: seq<(string, string)>): Args
  {
    if pairs == [] then map[]
    else
      var m := FirstValues(pairs[..|pairs| - 1]);
      var last := pairs[|pairs| - 1];
      if last.0 in m then m else m[last.0 := Text(last.1)]
  }

  /** Lines 101-116: the map a POST body gives, or the Bad Request message. */
  function PostArgs(req: Request): Result<Args, string>
  {
    if req.contentType == "" then Failure(MissingContentType)
    else
      var ct := Lower(req.contentType);
      if StartsWith(ct, JsonType) then
        if req.jsonBody.JObject? then Success(JsonArgs(req.jsonBody.fields))
        else Failure(JsonNotObject)
      else if StartsWith(ct, FormType) || StartsWith(ct, MultipartType) then
        Success(FormArgs(req.form))
      else Failure(UnsupportedPrefix + req.contentType)
  }

  /** Lines 97-126: the map built from body or query (None when `kw` stays None), or a Bad Request. */
  function SelectSource(c: Classification, req: Request): Result<Option<Args>, string>
  {
    if !NeedsData(c) then Success(None)
    else if req.httpMethod == "POST" then
      match PostArgs(req)
      case Failure(msg) => Failure(msg)
      case Success(kw) => Success(Some(kw))
    else if req.httpMethod == "GET" && req.queryString != "" then Success(Some(FirstValues(req.query)))
    else Success(None)
  }

  /** `kw` limited to the given names (lines 134-139). */
  function Restrict(kw: Args, names: seq<string>): Args
  {
    map k | k in kw && k in names :: kw[k]
  }

  /** Lines 132-139: the map before path variables are laid over it. */
  function Filtered(c: Classification, kw: Args): Args
  {
    if !c.hasVarKwArg && c.namedKwArgs != [] then Restrict(kw, c.namedKwArgs) else kw
  }

  /** Lines 127-146: the final argument map, before the required-name check. */
  function Bound(c: Classification, src: Option<Args>, req: Request): Args
  {
    var merged := match src
      case None => PathArgs(req.matchInfo)
      case Some(kw) => Filtered(c, kw) + PathArgs(req.matchInfo);
    if c.hasRequestArg then merged[RequestName := RequestObject(req)] else merged
  }

  /** Line 143: the path variables that were already in the map and draw a warning. */
  function Duplicates(c: Classification, src: Option<Args>, req: Request): set<string>
  {
    match src
    case None => {}
    case Some(kw) => Filtered(c, kw).Keys * req.matchInfo.Keys
  }

  /** Lines 148-151: the first name, in order, that the map lacks. */
  function FirstMissing(names: seq<string>, kw: Args): (r: Option<string>)
    ensures r.None? <==> forall n :: n in names ==> n in kw
    ensures r.Some? ==> r.value in names && r.value !in kw
  {
    if names == [] then None
    else if names[0] !in kw then Some(names[0])
    else FirstMissing(names[1..], kw)
  }

  /** Lines 153-157: a returned value passes through, an `APIError` becomes a dict. */
  function Normalize(o: Outcome): Reply
  {
    match o
    case Returned(v) => Body(v)
    case Raised(e, d, m) => ApiErrorDict(e, d, m)
    case Crashed => Propagated
  }

  /** The reply, the warned keys and the map the target was called with (None: not called). */
  datatype Dispatched = Dispatched(reply: Reply, warned: set<string>, invokedWith: Option<Args>)

  /** One call of `RequestHandler.__call__`. */
  function Dispatch(c: Classification, call: Args -> Outcome, req: Request): Dispatched
  {
    match SelectSource(c, req)
    case Failure(msg) => Dispatched(BadRequest(msg), {}, None)
    case Success(src) =>
      var kw := Bound(c, src, req);
      var warned := Duplicates(c, src, req);
      match FirstMissing(c.requiredKwArgs, kw)
      case Some(name) => Dispatched(BadRequest(MissingArgPrefix + name), warned, None)
      case None => Dispatched(Normalize(call(kw)), warned, Some(kw))
  }

  // ---------------------------------------------------------------------
  // The loops of __call__
  // ---------------------------------------------------------------------

  /** Lines 121-126: fill a fresh map from the query pairs, first value per key. */
  method CollapseQuery(pairs: seq<(string, string)>) returns (kw: Args)
    ensures kw == FirstValues(pairs)
  {
    kw := map[];
    for i := 0 to |pairs|
      invariant kw == FirstValues(pairs[..i])
    {
      assert pairs[..i + 1][..i] == pairs[..i];
      var (k, v) := pairs[i];
      if k !in kw {
        kw := kw[k := Text(v)];
      }
    }
    assert pairs[..|pairs|] == pairs;
  }

  /** Lines 134-139: copy the entries of `kw` whose key is one of `names`. */
  method KeepNamed(kw: Args, names: seq<string>) returns (copy: Args)
    ensures copy == Restrict(kw, names)
  {
    copy := map[];
    for i := 0 to |names|
      invariant copy == Restrict(kw, names[..i])
    {
      assert names[..i + 1] == names[..i] + [names[i]];
      if names[i] in kw {
        copy := copy[names[i] := kw[names[i]]];
      }
    }
    assert names[..|names|] == names;
  }

  /** Lines 141-144: lay the path variables over `kw`, listing each key that was already there. */
  method OverlayPath(kw: Args, matchInfo: map<string, string>) returns (r: Args, warned: seq<string>)
    ensures r == kw + PathArgs(matchInfo)
    ensures Distinct(warned)
    ensures forall k :: k in warned <==> k in kw && k in matchInfo
  {
    r, warned := kw, [];
    var todo := matchInfo.Keys;
    while todo != {}
      invariant todo <= matchInfo.Keys
      invariant forall k :: k in r <==> k in kw || (k in matchInfo && k !in todo)
      invariant forall k :: k in r ==>
        r[k] == if k in matchInfo && k !in todo then Text(matchInfo[k]) else kw[k]
      invariant Distinct(warned)
      invariant forall k :: k in warned <==> k in kw && k in matchInfo && k !in todo
      decreases todo
    {
      var k :| k in todo;
      assert k !in warned;
      if k in r {
        warned := warned + [k];
      }
      r := r[k := Text(matchInfo[k])];
      todo := todo - {k};
    }
    assert r == kw + PathArgs(matchInfo);
  }

  /** Lines 148-151: the first required name the map lacks. */
  method FindMissing(names: seq<string>, kw: Args) returns (missing: Option<string>)
    ensures missing == FirstMissing(names, kw)
  {
    for i := 0 to |names|
      invariant FirstMissing(names, kw) == FirstMissing(names[i..], kw)
    {
      assert names[i..][1..] == names[i + 1..];
      if names[i] !in kw {
        return Some(names[i]);
      }
    }
    return None;
  }

  /** A handler bound to one target function; its fields are set once, by the constructor. */
  class RequestHandler {
    const func: Func
    const hasRequestArg: bool
    const hasVarKwArg: bool
    const hasNamedKwArgs: bool
    const namedKwArgs: seq<string>
    const requiredKwArgs: seq<string>

    /** The cached classification. */
    function Cached(): Classification
    {
      Classification(hasRequestArg, hasVarKwArg, hasNamedKwArgs, namedKwArgs, requiredKwArgs)
    }

    /**
     * Lines 87-94. In the source the constructor raises when `has_request_arg` does;
     * registration checks that first (see Routes.AddRoute).
     */
    constructor (fn: Func)
      requires HasRequestArg(fn.params).Success?
      ensures func == fn
      ensures Cached() == Classify(fn.params).value
    {
      func := fn;
      hasRequestArg := HasRequestArg(fn.params).value;
      hasVarKwArg := HasVarKwArg(fn.params);
      hasNamedKwArgs := HasNamedKwArgs(fn.params);
      namedKwArgs := NamedKwArgs(fn.params);
      requiredKwArgs := RequiredKwArgs(fn.params);
    }

    /** Lines 97-126: choose the data source and build `kw` from it, or reply Bad Request. */
    method ReadArguments(request: Request) returns (r: Result<Option<Args>, string>)
      ensures r == SelectSource(Cached(), request)
    {
      var kw: Option<Args> := None;
      if hasVarKwArg || hasNamedKwArgs || requiredKwArgs != [] {
        if request.httpMethod == "POST" {
          if request.contentType == "" {
            return Failure(MissingContentType);
          }
          var ct := Lower(request.contentType);
          if StartsWith(ct, JsonType) {
            if !request.jsonBody.JObject? {
              return Failure(JsonNotObject);
            }
            kw := Some(JsonArgs(request.jsonBody.fields));
          } else if StartsWith(ct, FormType) || StartsWith(ct, MultipartType) {
            kw := Some(FormArgs(request.form));
          } else {
            return Failure(UnsupportedPrefix + request.contentType);
          }
        }
        if request.httpMethod == "GET" {
          if request.queryString != "" {
            var q := CollapseQuery(request.query);
            kw := Some(q);
          }
        }
      }
      return Success(kw);
    }

    /** Lines 96-157: handle one request. */
    method Call(request: Request) returns (reply: Reply, warned: seq<string>, invokedWith: Option<Args>)
      ensures var d := Dispatch(Cached(), func.call, request);
        reply == d.reply && invokedWith == d.invokedWith &&
        (forall k :: k in warned <==> k in d.warned)
      ensures Distinct(warned)
    {
      warned, invokedWith := [], None;
      var source := ReadArguments(request);
      if source.Failure? {
        return BadRequest(source.error), [], None;
      }
      var kw := source.value;
      var args: Args;
      if kw.None? {
        args := PathArgs(request.matchInfo);
      } else {
        args := kw.value;
        if !hasVarKwArg && namedKwArgs != [] {
          args := KeepNamed(args, namedKwArgs);
        }
        assert args == Filtered(Cached(), kw.value);
        args, warned := OverlayPath(args, request.matchInfo);
      }
      if hasRequestArg {
        args := args[RequestName := RequestObject(request)];
      }
      assert args == Bound(Cached(), kw, request);
      var missing := FindMissing(requiredKwArgs, args);
      if missing.Some? {
        return BadRequest(MissingArgPrefix + missing.value), warned, None;
      }
      invokedWith := Some(args);
      reply := Normalize(func.call(args));
    }
  }

  // ---------------------------------------------------------------------
  // Properties of one call
  // ---------------------------------------------------------------------

  /** `pairs[i]` is the first pair with its key. */
  ghost predicate IsFirstKey(pairs: seq<(string, string)>, i: int)
    requires 0 <= i < |pairs|
  {
    forall j :: 0 <= j < i ==> pairs[j].0 != pairs[i].0
  }

  /** The collapsed query has exactly the parsed keys. */
  lemma {:induction false} FirstValuesKeys(pairs: seq<(string, string)>)
    ensures forall k :: k in FirstValues(pairs) <==> exists i :: 0 <= i < |pairs| && pairs[i].0 == k
  {
    if pairs != [] {
      var front := pairs[..|pairs| - 1];
      FirstValuesKeys(front);
      assert forall i :: 0 <= i < |front| ==> front[i] == pairs[i];
      forall k | k !in FirstValues(pairs) ensures forall i :: 0 <= i < |pairs| ==> pairs[i].0 != k {
        assert k !in FirstValues(front);
      }
    }
  }

  /** The collapsed query binds the key of a first pair to that pair's value. */
  lemma {:induction false} FirstValueAt(pairs: seq<(string, string)>, i: nat)
    requires i < |pairs| && IsFirstKey(pairs, i)
    ensures pairs[i].0 in FirstValues(pairs) && FirstValues(pairs)[pairs[i].0] == Text(pairs[i].1)
  {
    var front := pairs[..|pairs| - 1];
    var last := pairs[|pairs| - 1];
    var m := FirstValues(front);
    assert FirstValues(pairs) == if last.0 in m then m else m[last.0 := Text(last.1)];
    assert forall j :: 0 <= j < |front| ==> front[j] == pairs[j];
    if i < |front| {
      assert IsFirstKey(front, i);
      FirstValueAt(front, i);
    } else {
      FirstValuesKeys(front);
      assert forall j :: 0 <= j < |front| ==> front[j].0 != last.0;
    }
  }

  /** The collapsed query has every parsed key, bound to the first value given for it. */
  lemma FirstValuesSpec(pairs: seq<(string, string)>)
    ensures forall k :: k in FirstValues(pairs) <==> exists i :: 0 <= i < |pairs| && pairs[i].0 == k
    ensures forall i :: 0 <= i < |pairs| && IsFirstKey(pairs, i) ==>
      FirstValues(pairs)[pairs[i].0] == Text(pairs[i].1)
  {
    FirstValuesKeys(pairs);
    forall i | 0 <= i < |pairs| && IsFirstKey(pairs, i)
      ensures FirstValues(pairs)[pairs[i].0] == Text(pairs[i].1)
    {
      FirstValueAt(pairs, i);
    }
  }

  /** The name `FirstMissing` reports is the first missing one in declaration order. */
  lemma {:induction false} FirstMissingIsFirst(names: seq<string>, kw: Args)
    requires FirstMissing(names, kw).Some?
    ensures exists i :: (0 <= i < |names| && names[i] == FirstMissing(names, kw).value &&
                         forall j :: 0 <= j < i ==> names[j] in kw)
  {
    if names[0] in kw {
      FirstMissingIsFirst(names[1..], kw);
      var i :| 0 <= i < |names[1..]| && names[1..][i] == FirstMissing(names[1..], kw).value &&
        forall j :: 0 <= j < i ==> names[1..][j] in kw;
      assert names[i + 1] == FirstMissing(names, kw).value;
      forall j | 0 <= j < i + 1 ensures names[j] in kw {
        if j > 0 { assert names[j] == names[1..][j - 1]; }
      }
    } else {
      assert names[0] == FirstMissing(names, kw).value;
    }
  }

  /**
   * For a POST to a function that takes keyword data, the content type decides:
   * each error case replies Bad Request with its message, warns about nothing,
   * and never calls the target.
   */
  lemma PostContentTypeDecides(c: Classification, call: Args -> Outcome, req: Request)
    requires NeedsData(c) && req.httpMethod == "POST"
    ensures req.contentType == "" ==>
      Dispatch(c, call, req) == Dispatched(BadRequest(MissingContentType), {}, None)
    ensures req.contentType != "" && StartsWith(Lower(req.contentType), JsonType) && !req.jsonBody.JObject? ==>
      Dispatch(c, call, req) == Dispatched(BadRequest(JsonNotObject), {}, None)
    ensures (req.contentType != "" && !StartsWith(Lower(req.contentType), JsonType) &&
      !StartsWith(Lower(req.contentType), FormType) && !StartsWith(Lower(req.contentType), MultipartType)) ==>
      Dispatch(c, call, req) == Dispatched(BadRequest(UnsupportedPrefix + req.contentType), {}, None)
    ensures req.contentType != "" && StartsWith(Lower(req.contentType), JsonType) && req.jsonBody.JObject? ==>
      SelectSource(c, req) == Success(Some(JsonArgs(req.jsonBody.fields)))
    ensures (req.contentType != "" && !StartsWith(Lower(req.contentType), JsonType) &&
      (StartsWith(Lower(req.contentType), FormType) || StartsWith(Lower(req.contentType), MultipartType))) ==>
      SelectSource(c, req) == Success(Some(FormArgs(req.form)))
  {
  }

  /**
   * For a GET with a query string, a key of the query that is neither dropped by the
   * keyword filter, nor a path variable, nor the injected `request` is bound to its first value.
   */
  lemma GetQueryFirstValueWins(c: Classification, req: Request, i: int)
    requires NeedsData(c) && req.httpMethod == "GET" && req.queryString != ""
    requires 0 <= i < |req.query| && IsFirstKey(req.query, i)
    requires c.hasVarKwArg || c.namedKwArgs == [] || req.query[i].0 in c.namedKwArgs
    requires req.query[i].0 !in req.matchInfo
    requires !(c.hasRequestArg && req.query[i].0 == RequestName)
    ensures SelectSource(c, req) == Success(Some(FirstValues(req.query)))
    ensures var kw := Bound(c, SelectSource(c, req).value, req);
      req.query[i].0 in kw && kw[req.query[i].0] == Text(req.query[i].1)
  {
    FirstValuesSpec(req.query);
  }

  /** A repeated query key `k=1&k=2` binds `k` to "1". */
  lemma RepeatedQueryKeyExample()
    ensures FirstValues([("k", "1"), ("k", "2")]) == map["k" := Text("1")]
  {
    var pairs := [("k", "1"), ("k", "2")];
    assert pairs[..1] == [("k", "1")];
    assert [("k", "1")][..0] == [];
  }

  /**
   * No map is built from body or query exactly when the target takes no keyword data,
   * or the request is neither a POST nor a GET with a non-empty query string (lines 99-126).
   */
  lemma NoMapBuiltIff(c: Classification, req: Request)
    ensures SelectSource(c, req) == Success(None) <==>
      !NeedsData(c) || (req.httpMethod != "POST" && !(req.httpMethod == "GET" && req.queryString != ""))
  {
  }

  /**
   * When no map is built from body or query (the target takes no keyword data, or
   * the method and query give none), the final map is exactly the path variables,
   * plus the request object if the target asks for it; nothing is warned, and a
   * call, if made, receives that map.
   */
  lemma NoDataMeansPathOnly(c: Classification, call: Args -> Outcome, req: Request)
    requires !NeedsData(c) || (req.httpMethod != "POST" && !(req.httpMethod == "GET" && req.queryString != ""))
    ensures SelectSource(c, req) == Success(None)
    ensures Bound(c, None, req) ==
      if c.hasRequestArg then PathArgs(req.matchInfo)[RequestName := RequestObject(req)]
      else PathArgs(req.matchInfo)
    ensures Duplicates(c, None, req) == {}
    ensures var d := Dispatch(c, call, req);
      d.warned == {} &&
      (d.invokedWith.Some? ==>
         d.invokedWith.value == (if c.hasRequestArg then PathArgs(req.matchInfo)[RequestName := RequestObject(req)]
                                 else PathArgs(req.matchInfo)))
  {
  }

  /**
   * Line 146 runs last: when the target declares `request`, the request object is bound
   * under that name over any body, query or path value of the same name.
   */
  lemma RequestInjectedLast(c: Classification, src: Option<Args>, req: Request)
    ensures c.hasRequestArg ==>
      RequestName in Bound(c, src, req) && Bound(c, src, req)[RequestName] == RequestObject(req)
    ensures forall k :: k in Bound(c, src, req) && k != RequestName ==>
      k in req.matchInfo || (src.Some? && k in Filtered(c, src.value))
    ensures !c.hasRequestArg ==> forall k :: k in Bound(c, src, req) ==>
      k in req.matchInfo || (src.Some? && k in Filtered(c, src.value))
  {
  }

  /** A target without `**kw` but with named keyword parameters receives only names it declares. */
  lemma FilteredKeysAccounted(c: Classification, kw: Args, req: Request)
    requires !c.hasVarKwArg && c.namedKwArgs != []
    ensures forall k :: k in Bound(c, Some(kw), req) ==>
      k in c.namedKwArgs || k in req.matchInfo || (c.hasRequestArg && k == RequestName)
  {
  }

  /**
   * Path variables win over body and query values, except that the injected request
   * object wins over a path variable called `request`; duplicates are exactly the
   * path variables already present in the filtered map.
   */
  lemma PathVariablesWin(c: Classification, src: Option<Args>, req: Request)
    ensures forall k :: k in req.matchInfo ==> (k in Bound(c, src, req) &&
      Bound(c, src, req)[k] ==
        if c.hasRequestArg && k == RequestName then RequestObject(req) else Text(req.matchInfo[k]))
    ensures forall k :: k in Duplicates(c, src, req) <==>
      src.Some? && k in req.matchInfo && k in Filtered(c, src.value)
  {
  }

  /**
   * The target is called exactly when source selection succeeds and every required
   * name is bound; otherwise the first missing name, in declaration order, is reported.
   * A call's outcome is passed through, an `APIError` becomes its dict.
   */
  lemma InvokedIffRequiredPresent(c: Classification, call: Args -> Outcome, req: Request)
    ensures var d := Dispatch(c, call, req);
      d.invokedWith.Some? <==>
        SelectSource(c, req).Success? &&
        forall n :: n in c.requiredKwArgs ==> n in Bound(c, SelectSource(c, req).value, req)
    ensures var d := Dispatch(c, call, req);
      d.invokedWith.Some? ==>
        d.invokedWith.value == Bound(c, SelectSource(c, req).value, req) &&
        d.reply == Normalize(call(d.invokedWith.value))
    ensures var d := Dispatch(c, call, req);
      SelectSource(c, req).Success? && d.invokedWith.None? ==>
        exists i :: 0 <= i < |c.requiredKwArgs| &&
          c.requiredKwArgs[i] !in Bound(c, SelectSource(c, req).value, req) &&
          d.reply == BadRequest(MissingArgPrefix + c.requiredKwArgs[i]) &&
          forall j :: 0 <= j < i ==> c.requiredKwArgs[j] in Bound(c, SelectSource(c, req).value, req)
  {
    match SelectSource(c, req)
    case Failure(_) =>
    case Success(src) =>
      var kw := Bound(c, src, req);
      if FirstMissing(c.requiredKwArgs, kw).Some? {
        FirstMissingIsFirst(c.requiredKwArgs, kw);
      }
  }

  /** Normal values pass through unchanged; an `APIError` becomes `{error, data, message}`. */
  lemma NormalizeSpec(o: Outcome)
    ensures o.Returned? ==> Normalize(o) == Body(o.v)
    ensures o.Raised? ==> Normalize(o) == ApiErrorDict(o.error, o.data, o.message)
    ensures o.Crashed? <==> Normalize(o) == Propagated
  {
  }

  /** A required name supplied as a path variable always passes the required-name check. */
  lemma PathVariableSatisfiesRequired(c: Classification, call: Args -> Outcome, req: Request)
    requires SelectSource(c, req).Success?
    requires forall n :: n in c.requiredKwArgs ==> n in req.matchInfo
    ensures Dispatch(c, call, req).invokedWith.Some?
  {
    PathVariablesWin(c, SelectSource(c, req).value, req);
    InvokedIffRequiredPresent(c, call, req);
  }

  /** The classification of `f(id, *, title, content=None)`. */
  lemma ExampleClassification()
    ensures Classify([Param("id", PositionalOrKeyword, false), Param("title", KeywordOnly, false),
                      Param("content", KeywordOnly, true)])
      == Success(Classification(false, false, true, ["title", "content"], ["title"]))
  {
    var params := [Param("id", PositionalOrKeyword, false), Param("title", KeywordOnly, false),
                   Param("content", KeywordOnly, true)];
    assert params[1..] == [params[1], params[2]];
    assert params[1..][1..] == [params[2]];
    assert params[1..][1..][1..] == [];
    assert HasRequestArg(params) == Success(false);
    assert NamedKwArgs(params[1..][1..]) == ["content"];
    assert NamedKwArgs(params) == ["title", "content"];
    assert RequiredKwArgs(params[1..][1..]) == [];
    assert RequiredKwArgs(params) == ["title"];
  }

  /**
   * `f(id, *, title, content=None)` tagged `POST /post/{id}`, given the JSON body
   * `{"title": "T"}` and the path variable `id=42`, is called with `id` bound to the
   * path string "42" and `title` to the JSON string "T", and its result is passed through.
   */
  lemma PostJsonExample(call: Args -> Outcome)
    ensures var params := [Param("id", PositionalOrKeyword, false), Param("title", KeywordOnly, false),
                           Param("content", KeywordOnly, true)];
      var req := Request("POST", "application/json", JObject(map["title" := JString("T")]), map[], "", [],
                         map["id" := "42"]);
      var expected: Args := map["id" := Text("42"), "title" := JsonValue(JString("T"))];
      Classify(params).Success? &&
      Dispatch(Classify(params).value, call, req) == Dispatched(Normalize(call(expected)), {}, Some(expected))
  {
    ExampleClassification();
    var c := Classification(false, false, true, ["title", "content"], ["title"]);
    var req := Request("POST", "application/json", JObject(map["title" := JString("T")]), map[], "", [],
                       map["id" := "42"]);
    var expected: Args := map["id" := Text("42"), "title" := JsonValue(JString("T"))];
    var body: Args := map["title" := JsonValue(JString("T"))];
    ExampleSource(c, req, body);
    ExampleBound(c, req, body, expected);
    assert FirstMissing(c.requiredKwArgs, expected) == None;
  }

  /** The JSON body of the example is selected as the keyword map. */
  lemma ExampleSource(c: Classification, req: Request, body: Args)
    requires c == Classification(false, false, true, ["title", "content"], ["title"])
    requires req == Request("POST", "application/json", JObject(map["title" := JString("T")]), map[], "", [],
                            map["id" := "42"])
    requires body == map["title" := JsonValue(JString("T"))]
    ensures SelectSource(c, req) == Success(Some(body))
  {
    assert Lower(req.contentType) == req.contentType;
    assert StartsWith(Lower(req.contentType), JsonType);
    assert JsonArgs(req.jsonBody.fields) == body;
  }

  /** The example's final map: the body's `title` and the path's `id`, with nothing warned. */
  lemma ExampleBound(c: Classification, req: Request, body: Args, expected: Args)
    requires c == Classification(false, false, true, ["title", "content"], ["title"])
    requires req.matchInfo == map["id" := "42"]
    requires body == map["title" := JsonValue(JString("T"))]
    requires expected == map["id" := Text("42"), "title" := JsonValue(JString("T"))]
    ensures Bound(c, Some(body), req) == expected
    ensures Duplicates(c, Some(body), req) == {}
  {
    assert Restrict(body, c.namedKwArgs) == body;
    assert PathArgs(req.matchInfo) == map["id" := Text("42")];
  }
}
