/**
 * The parameter classifier: the five helpers that inspect a handler's
 * declared parameters once, at registration time (www/coroweb.py, lines 35-83).
 * A signature is the ordered list of parameters `inspect.signature` reports.
 */
module Signature {
  import opened Wrappers
  import opened Sequences

  /** The kinds of parameter Python distinguishes (`inspect.Parameter.kind`). */
  datatype Kind = PositionalOnly | PositionalOrKeyword | VarPositional | KeywordOnly | VarKeyword

  /** One declared parameter. `hasDefault` is false when its default is `Parameter.empty`. */
  datatype Param = Param(name: string, kind: Kind, hasDefault: bool)

  /** What `has_request_arg` raises when the request parameter is followed by a positional one. */
  datatype SignatureError = RequestParamMisplaced

  /** The name under which the raw request object is injected. */
  const RequestName: string := "request"

  /** The parameter names in declaration order. */
  function Names(params: seq<Param>): seq<string>
  {
    seq(|params|, i requires 0 <= i < |params| => params[i].name)
  }

  /** A keyword-only parameter without a default value (line 42). */
  predicate IsRequiredKw(p: Param)
  {
    p.kind == KeywordOnly && !p.hasDefault
  }

  /** `get_required_kw_args`: names of the required keyword-only parameters, in order. */
  function RequiredKwArgs(params: seq<Param>): seq<string>
  {
    if params == [] then []
    else (if IsRequiredKw(params[0]) then [params[0].name] else []) + RequiredKwArgs(params[1..])
  }

  /** `get_named_kw_args`: names of all keyword-only parameters, in order. */
  function NamedKwArgs(params: seq<Param>): seq<string>
  {
    if params == [] then []
    else (if params[0].kind == KeywordOnly then [params[0].name] else []) + NamedKwArgs(params[1..])
  }

  /** `has_named_kw_args`: some parameter is keyword-only. */
  function HasNamedKwArgs(params: seq<Param>): (r: bool)
    ensures r <==> exists i :: 0 <= i < |params| && params[i].kind == KeywordOnly
  {
    if params == [] then false
    else params[0].kind == KeywordOnly || HasNamedKwArgs(params[1..])
  }

  /** `has_var_kw_arg`: some parameter is a `**kw` catch-all. */
  function HasVarKwArg(params: seq<Param>): (r: bool)
    ensures r <==> exists i :: 0 <= i < |params| && params[i].kind == VarKeyword
  {
    if params == [] then false
    else params[0].kind == VarKeyword || HasVarKwArg(params[1..])
  }

  /** The kinds line 81 accepts after the request parameter. */
  predicate MayFollowRequest(k: Kind)
  {
    k == VarPositional || k == KeywordOnly || k == VarKeyword
  }

  /**
   * The loop of `has_request_arg`, from the current position on; `found`
   * records whether a parameter named `request` has been seen already.
   */
  function ScanRequest(params: seq<Param>, found: bool): Result<bool, SignatureError>
  {
    if params == [] then Success(found)
    else if params[0].name == RequestName then ScanRequest(params[1..], true)
    else if found && !MayFollowRequest(params[0].kind) then Failure(RequestParamMisplaced)
    else ScanRequest(params[1..], found)
  }

  /** `has_request_arg`: whether there is a `request` parameter, failing on a bad ordering. */
  function HasRequestArg(params: seq<Param>): Result<bool, SignatureError>
  {
    ScanRequest(params, false)
  }

  /** Some parameter after `request` is positional (neither `*args`, keyword-only nor `**kw`). */
  ghost predicate RequestMisplaced(params: seq<Param>)
  {
    exists i, j :: 0 <= i < j < |params| && params[i].name == RequestName &&
      params[j].name != RequestName && !MayFollowRequest(params[j].kind)
  }

  /** Some parameter is named `request`. */
  ghost predicate DeclaresRequest(params: seq<Param>)
  {
    exists i :: 0 <= i < |params| && params[i].name == RequestName
  }

  /** The five results `RequestHandler.__init__` caches (lines 90-94). */
  datatype Classification = Classification(
    hasRequestArg: bool,
    hasVarKwArg: bool,
    hasNamedKwArgs: bool,
    namedKwArgs: seq<string>,
    requiredKwArgs: seq<string>)

  /** The classification of a signature; it fails exactly when `has_request_arg` raises. */
  function Classify(params: seq<Param>): Result<Classification, SignatureError>
  {
    match HasRequestArg(params)
    case Failure(e) => Failure(e)
    case Success(found) =>
      Success(Classification(found, HasVarKwArg(params), HasNamedKwArgs(params),
                             NamedKwArgs(params), RequiredKwArgs(params)))
  }

  /** The relations between the cached fields that every classification satisfies. */
  ghost predicate Consistent(c: Classification)
  {
    && IsSubsequence(c.requiredKwArgs, c.namedKwArgs)
    && (forall n :: n in c.requiredKwArgs ==> n in c.namedKwArgs)
    && (c.hasNamedKwArgs <==> c.namedKwArgs != [])
  }

  // ---------------------------------------------------------------------
  // Properties of the classifier
  // ---------------------------------------------------------------------

  /** The named keyword names are exactly the keyword-only parameters, in declaration order. */
  lemma {:induction false} NamedKwArgsExactly(params: seq<Param>)
    ensures forall n :: n in NamedKwArgs(params) <==>
      exists i :: 0 <= i < |params| && params[i].kind == KeywordOnly && params[i].name == n
    ensures IsSubsequence(NamedKwArgs(params), Names(params))
  {
    if params != [] {
      var t := params[1..];
      NamedKwArgsExactly(t);
      assert Names(params) == [params[0].name] + Names(t);
      forall n ensures n in NamedKwArgs(params) <==>
        exists i :: 0 <= i < |params| && params[i].kind == KeywordOnly && params[i].name == n
      {
        if exists i :: 0 <= i < |params| && params[i].kind == KeywordOnly && params[i].name == n {
          var i :| 0 <= i < |params| && params[i].kind == KeywordOnly && params[i].name == n;
          if i > 0 { assert t[i - 1] == params[i]; }
        }
        if n in NamedKwArgs(t) {
          var i :| 0 <= i < |t| && t[i].kind == KeywordOnly && t[i].name == n;
          assert params[i + 1] == t[i];
        }
      }
      if params[0].kind == KeywordOnly {
        assert NamedKwArgs(params)[1..] == NamedKwArgs(t);
        assert Names(params)[1..] == Names(t);
      } else {
        assert NamedKwArgs(params) == NamedKwArgs(t);
        SkipHead(NamedKwArgs(params), params[0].name, Names(t));
      }
    }
  }

  /** The required keyword names are exactly the keyword-only parameters without a default, in order. */
  lemma {:induction false} RequiredKwArgsExactly(params: seq<Param>)
    ensures forall n :: n in RequiredKwArgs(params) <==>
      exists i :: 0 <= i < |params| && IsRequiredKw(params[i]) && params[i].name == n
    ensures IsSubsequence(RequiredKwArgs(params), Names(params))
  {
    if params != [] {
      var t := params[1..];
      RequiredKwArgsExactly(t);
      assert Names(params) == [params[0].name] + Names(t);
      forall n ensures n in RequiredKwArgs(params) <==>
        exists i :: 0 <= i < |params| && IsRequiredKw(params[i]) && params[i].name == n
      {
        if exists i :: 0 <= i < |params| && IsRequiredKw(params[i]) && params[i].name == n {
          var i :| 0 <= i < |params| && IsRequiredKw(params[i]) && params[i].name == n;
          if i > 0 { assert t[i - 1] == params[i]; }
        }
        if n in RequiredKwArgs(t) {
          var i :| 0 <= i < |t| && IsRequiredKw(t[i]) && t[i].name == n;
          assert params[i + 1] == t[i];
        }
      }
      if IsRequiredKw(params[0]) {
        assert RequiredKwArgs(params)[1..] == RequiredKwArgs(t);
        assert Names(params)[1..] == Names(t);
      } else {
        assert RequiredKwArgs(params) == RequiredKwArgs(t);
        SkipHead(RequiredKwArgs(params), params[0].name, Names(t));
      }
    }
  }

  /** The required names keep their order inside the named ones, so required is a subset of named. */
  lemma {:induction false} RequiredWithinNamed(params: seq<Param>)
    ensures IsSubsequence(RequiredKwArgs(params), NamedKwArgs(params))
    ensures forall n :: n in RequiredKwArgs(params) ==> n in NamedKwArgs(params)
  {
    if params != [] {
      var t := params[1..];
      RequiredWithinNamed(t);
      if IsRequiredKw(params[0]) {
        assert RequiredKwArgs(params)[1..] == RequiredKwArgs(t);
        assert NamedKwArgs(params)[1..] == NamedKwArgs(t);
      } else if params[0].kind == KeywordOnly {
        assert NamedKwArgs(params) == [params[0].name] + NamedKwArgs(t);
        assert RequiredKwArgs(params) == RequiredKwArgs(t);
        SkipHead(RequiredKwArgs(t), params[0].name, NamedKwArgs(t));
      } else {
        assert RequiredKwArgs(params) == RequiredKwArgs(t);
        assert NamedKwArgs(params) == NamedKwArgs(t);
      }
    }
    SubsequenceMembers(RequiredKwArgs(params), NamedKwArgs(params));
  }

  /** `has_named_kw_args` is true exactly when `get_named_kw_args` is non-empty. */
  lemma {:induction false} HasNamedIffNamedNonEmpty(params: seq<Param>)
    ensures HasNamedKwArgs(params) <==> NamedKwArgs(params) != []
  {
    if params != [] {
      HasNamedIffNamedNonEmpty(params[1..]);
    }
  }

  /** One parameter of `params` after the scan's position that breaks the ordering rule. */
  ghost predicate Offends(params: seq<Param>, j: int, found: bool)
    requires 0 <= j < |params|
  {
    params[j].name != RequestName && !MayFollowRequest(params[j].kind) &&
    (found || exists i :: 0 <= i < j && params[i].name == RequestName)
  }

  /** The scan raises exactly when some later parameter breaks the ordering rule. */
  lemma {:induction false} ScanRequestFails(params: seq<Param>, found: bool)
    ensures ScanRequest(params, found).Failure? <==>
      exists j :: 0 <= j < |params| && Offends(params, j, found)
  {
    if params != [] {
      var t := params[1..];
      if params[0].name == RequestName {
        ScanRequestFails(t, true);
        forall j | 1 <= j < |params| ensures Offends(params, j, found) <==> Offends(t, j - 1, true) {
          assert params[j] == t[j - 1];
        }
        if exists j :: 0 <= j < |params| && Offends(params, j, found) {
          var j :| 0 <= j < |params| && Offends(params, j, found);
          assert j >= 1 && Offends(t, j - 1, true);
        }
        if exists j :: 0 <= j < |t| && Offends(t, j, true) {
          var j :| 0 <= j < |t| && Offends(t, j, true);
          assert Offends(params, j + 1, found);
        }
      } else if found && !MayFollowRequest(params[0].kind) {
        assert Offends(params, 0, found);
      } else {
        ScanRequestFails(t, found);
        forall j | 1 <= j < |params| ensures Offends(params, j, found) <==> Offends(t, j - 1, found) {
          assert params[j] == t[j - 1];
          if exists i :: 0 <= i < j && params[i].name == RequestName {
            var i :| 0 <= i < j && params[i].name == RequestName;
            assert i >= 1 && t[i - 1] == params[i];
          }
          if exists i :: 0 <= i < j - 1 && t[i].name == RequestName {
            var i :| 0 <= i < j - 1 && t[i].name == RequestName;
            assert params[i + 1] == t[i];
          }
        }
        if exists j :: 0 <= j < |params| && Offends(params, j, found) {
          var j :| 0 <= j < |params| && Offends(params, j, found);
          assert j >= 1 && Offends(t, j - 1, found);
        }
        if exists j :: 0 <= j < |t| && Offends(t, j, found) {
          var j :| 0 <= j < |t| && Offends(t, j, found);
          assert Offends(params, j + 1, found);
        }
      }
    }
  }

  /** A scan that does not raise reports whether `request` was seen before or is declared now. */
  lemma {:induction false} ScanRequestValue(params: seq<Param>, found: bool)
    ensures ScanRequest(params, found).Success? ==>
      (ScanRequest(params, found).value <==> found || DeclaresRequest(params))
  {
    if params != [] {
      var t := params[1..];
      if params[0].name == RequestName {
        ScanRequestValue(t, true);
      } else if !(found && !MayFollowRequest(params[0].kind)) {
        ScanRequestValue(t, found);
        if DeclaresRequest(params) {
          var i :| 0 <= i < |params| && params[i].name == RequestName;
          assert i >= 1 && t[i - 1] == params[i];
        }
        if DeclaresRequest(t) {
          var i :| 0 <= i < |t| && t[i].name == RequestName;
          assert params[i + 1] == t[i];
        }
      }
    }
  }

  /**
   * `has_request_arg` fails exactly when some parameter after `request` is positional,
   * and otherwise reports whether a parameter is named `request`.
   */
  lemma HasRequestArgSpec(params: seq<Param>)
    ensures HasRequestArg(params).Failure? <==> RequestMisplaced(params)
    ensures HasRequestArg(params).Success? ==> (HasRequestArg(params).value <==> DeclaresRequest(params))
  {
    ScanRequestFails(params, false);
    ScanRequestValue(params, false);
    if RequestMisplaced(params) {
      var i, j :| 0 <= i < j < |params| && params[i].name == RequestName &&
        params[j].name != RequestName && !MayFollowRequest(params[j].kind);
      assert Offends(params, j, false);
    }
  }

  /**
   * A `request` parameter, of any kind and with or without a default, followed only by
   * `*args`, keyword-only or `**kw` parameters is accepted and reported.
   */
  lemma RequestThenKeywordsAccepted(positional: seq<Param>, kind: Kind, hasDefault: bool, rest: seq<Param>)
    requires forall p :: p in positional ==> p.name != RequestName
    requires forall p :: p in rest ==> MayFollowRequest(p.kind)
    ensures HasRequestArg(positional + [Param(RequestName, kind, hasDefault)] + rest) == Success(true)
  {
    var ps := positional + [Param(RequestName, kind, hasDefault)] + rest;
    HasRequestArgSpec(ps);
    assert ps[|positional|].name == RequestName;
    assert forall k :: 0 <= k < |positional| ==> ps[k] == positional[k];
    assert forall k :: |positional| < k < |ps| ==> ps[k] == rest[k - |positional| - 1];
  }

  /** A positional parameter anywhere after `request` (of any kind) makes classification fail. */
  lemma RequestThenPositionalRejected(before: seq<Param>, kind: Kind, hasDefault: bool,
                                      between: seq<Param>, p: Param, after: seq<Param>)
    requires p.name != RequestName && !MayFollowRequest(p.kind)
    ensures Classify(before + [Param(RequestName, kind, hasDefault)] + between + [p] + after).Failure?
  {
    var ps := before + [Param(RequestName, kind, hasDefault)] + between + [p] + after;
    HasRequestArgSpec(ps);
    assert ps[|before|].name == RequestName;
    assert ps[|before| + 1 + |between|] == p;
  }

  /** A successful classification keeps required within named, and the flag agrees with the list. */
  lemma ClassifyConsistent(params: seq<Param>)
    requires Classify(params).Success?
    ensures Consistent(Classify(params).value)
  {
    RequiredWithinNamed(params);
    HasNamedIffNamedNonEmpty(params);
  }
}
