/**
 * The rule list of `HttpMock` as a value: what a rule is, how the dispatcher
 * picks the response for a request (the lazy `asSequence().mapNotNull { … }
 * .firstOrNull()` scan), and the by-id lookups behind `removeRule` and
 * `updateRule`. The class that owns and mutates the list is in HttpMocks.
 */
module MockRules {
  import opened Wrappers
  import opened Text

  /** The parts of a recorded request that checks and response functions can read. */
  datatype Request = Request(
    verb: string,
    path: Option<string>,
    headers: seq<(string, string)>,
    body: string)

  /** A mock response: status code, headers and body. */
  datatype Response = Response(status: int, headers: seq<(string, string)>, body: string)

  /** `MockFlag`: a check that may answer yes, no, or nothing at all (`null`). */
  type Check = Request -> Option<bool>

  /** `MockRule`: a response function that may decline by returning `null`. */
  type Responder = Request -> Option<Response>

  /** `MockRules(check, fn, id)`. */
  datatype Rule = Rule(check: Check, fn: Responder, id: Option<string>)

  /** The thrown `IllegalArgumentException("No function matches request=…")`. */
  datatype DispatchError = NoFunctionMatches(request: Request)

  // ---------------------------------------------------------------------------
  // Checks built by the rule builders
  // ---------------------------------------------------------------------------

  /** The default check `{ true }`. */
  function AlwaysCheck(): Check {
    (req: Request) => Some(true)
  }

  /** `{ path?.endsWith(suffix) }`: no answer when the request has no path. */
  function PathEndsWithCheck(suffix: string): (c: Check)
    ensures forall req: Request :: c(req) == None <==> req.path.None?
  {
    (req: Request) => if req.path.None? then None else Some(EndsWith(req.path.value, suffix))
  }

  /** `{ path?.contains(sub) }`: no answer when the request has no path. */
  function PathContainsCheck(sub: string): (c: Check)
    ensures forall req: Request :: c(req) == None <==> req.path.None?
  {
    (req: Request) => if req.path.None? then None else Some(Contains(req.path.value, sub))
  }

  /** The rule `rulePathEndsWith(suffix, fn)` appends; its id is the suffix itself. */
  function PathEndsWithRule(suffix: string, fn: Responder): Rule {
    Rule(PathEndsWithCheck(suffix), fn, Some(suffix))
  }

  /** The rule `rulePathContains(sub, fn)` appends; its id is the substring itself. */
  function PathContainsRule(sub: string, fn: Responder): Rule {
    Rule(PathContainsCheck(sub), fn, Some(sub))
  }

  /** The path-suffix check abstains exactly on path-less requests and says yes exactly on paths ending in the suffix. */
  lemma PathEndsWithCheckMeaning(suffix: string, req: Request)
    ensures PathEndsWithCheck(suffix)(req) == None <==> req.path == None
    ensures PathEndsWithCheck(suffix)(req) == Some(true) <==>
              req.path.Some? && exists front: string :: req.path.value == front + suffix
  {
    if req.path.Some? {
      EndsWithIffConcat(req.path.value, suffix);
    }
  }

  /** The substring check abstains exactly on path-less requests and says yes exactly when the path holds the string. */
  lemma PathContainsCheckMeaning(sub: string, req: Request)
    ensures PathContainsCheck(sub)(req) == None <==> req.path == None
    ensures PathContainsCheck(sub)(req) == Some(true) <==>
              req.path.Some? && exists i :: OccursAt(req.path.value, sub, i)
  {
    if req.path.Some? {
      ContainsIffOccurs(req.path.value, sub);
    }
  }

  // ---------------------------------------------------------------------------
  // Dispatch
  // ---------------------------------------------------------------------------

  /** The body of the `mapNotNull` step: run `fn` only when the check is exactly `true`. */
  function Attempt(rule: Rule, req: Request): (r: Option<Response>)
    ensures r.Some? <==> Fires(rule, req)
    ensures r.Some? ==> r == rule.fn(req)
  {
    if rule.check(req) == Some(true) then rule.fn(req) else None
  }

  /** A rule fires for a request when its check says `true` and its function does not decline. */
  ghost predicate Fires(rule: Rule, req: Request) {
    rule.check(req) == Some(true) && rule.fn(req).Some?
  }

  /** Rule `i` is the first rule of the list that fires for `req`. */
  ghost predicate IsFirstFiring(rules: seq<Rule>, req: Request, i: int) {
    0 <= i < |rules| && Fires(rules[i], req) &&
    forall j :: 0 <= j < i ==> !Fires(rules[j], req)
  }

  /** The lazy scan: the first non-null `Attempt`, in list order, or `null`. */
  function Select(rules: seq<Rule>, req: Request): (r: Option<Response>)
    ensures r.Some? ==> exists i :: 0 <= i < |rules| && Fires(rules[i], req) && rules[i].fn(req) == r
    decreases |rules|
  {
    if rules == [] then None
    else
      var head := Attempt(rules[0], req);
      if head.Some? then head
      else
        var rest := Select(rules[1..], req);
        assert forall i :: 0 <= i < |rules[1..]| ==> rules[1..][i] == rules[i + 1];
        rest
  }

  /** The dispatcher: the selected response, or the no-match error carrying the request. */
  function Dispatch(rules: seq<Rule>, req: Request): (r: Result<Response, DispatchError>)
    ensures r.Failure? <==> forall i :: 0 <= i < |rules| ==> !Fires(rules[i], req)
    ensures r.Failure? ==> r.error == NoFunctionMatches(req)
    ensures r.Success? ==>
              exists i :: IsFirstFiring(rules, req, i) && rules[i].fn(req) == Some(r.value)
  {
    var matching := Select(rules, req);
    SelectNoneIffNoneFires(rules, req);
    if matching.None? then
      Failure(NoFunctionMatches(req))
    else
      SelectHasFirstFiring(rules, req);
      Success(matching.value)
  }

  /** The scan returns the response of the first firing rule. */
  lemma {:induction false} SelectFirstFiring(rules: seq<Rule>, req: Request, i: int)
    requires IsFirstFiring(rules, req, i)
    ensures Select(rules, req) == rules[i].fn(req)
    decreases |rules|
  {
    if i > 0 {
      assert !Fires(rules[0], req);
      assert IsFirstFiring(rules[1..], req, i - 1) by {
        forall j | 0 <= j < i - 1 ensures !Fires(rules[1..][j], req) {
          assert rules[1..][j] == rules[j + 1];
        }
      }
      SelectFirstFiring(rules[1..], req, i - 1);
    }
  }

  /** The scan comes up empty exactly when no rule fires. */
  lemma {:induction false} SelectNoneIffNoneFires(rules: seq<Rule>, req: Request)
    ensures Select(rules, req).None? <==> forall i :: 0 <= i < |rules| ==> !Fires(rules[i], req)
    decreases |rules|
  {
    if rules != [] {
      SelectNoneIffNoneFires(rules[1..], req);
      if Select(rules, req).None? {
        forall i | 0 <= i < |rules| ensures !Fires(rules[i], req) {
          if i > 0 {
            assert rules[i] == rules[1..][i - 1];
          }
        }
      } else if !Fires(rules[0], req) {
        var i :| 0 <= i < |rules[1..]| && Fires(rules[1..][i], req);
        assert Fires(rules[i + 1], req);
      }
    }
  }

  /** When the scan answers, its answer is the response of a first firing rule. */
  lemma {:induction false} SelectHasFirstFiring(rules: seq<Rule>, req: Request)
    requires Select(rules, req).Some?
    ensures exists i :: IsFirstFiring(rules, req, i) && rules[i].fn(req) == Select(rules, req)
    decreases |rules|
  {
    if Fires(rules[0], req) {
      assert IsFirstFiring(rules, req, 0);
    } else {
      SelectHasFirstFiring(rules[1..], req);
      var i :| IsFirstFiring(rules[1..], req, i) && rules[1..][i].fn(req) == Select(rules[1..], req);
      assert rules[1..][i] == rules[i + 1];
      forall j | 0 <= j < i + 1 ensures !Fires(rules[j], req) {
        if j > 0 {
          assert rules[j] == rules[1..][j - 1];
        }
      }
      assert IsFirstFiring(rules, req, i + 1);
    }
  }

  /** Scanning `a + b`: `b` is consulted only when `a` gives no answer. */
  lemma {:induction false} SelectConcat(a: seq<Rule>, b: seq<Rule>, req: Request)
    ensures Select(a + b, req) == if Select(a, req).Some? then Select(a, req) else Select(b, req)
    decreases |a|
  {
    if a == [] {
      assert a + b == b;
    } else {
      assert (a + b)[0] == a[0];
      assert (a + b)[1..] == a[1..] + b;
      SelectConcat(a[1..], b, req);
    }
  }

  /** Rules after the first firing one are never evaluated: replacing them changes nothing. */
  lemma SelectIgnoresLaterRules(rules: seq<Rule>, req: Request, i: int, later: seq<Rule>)
    requires IsFirstFiring(rules, req, i)
    ensures Select(rules[..i + 1] + later, req) == rules[i].fn(req)
  {
    assert IsFirstFiring(rules[..i + 1], req, i);
    SelectFirstFiring(rules[..i + 1], req, i);
    SelectConcat(rules[..i + 1], later, req);
  }

  /** A rule that does not fire (check false or null, or function null) never blocks a later rule. */
  lemma SelectSkipsNonFiring(rules: seq<Rule>, k: int, req: Request)
    requires 0 <= k < |rules| && !Fires(rules[k], req)
    ensures Select(RemoveAt(rules, k), req) == Select(rules, req)
  {
    var front, back := rules[..k], rules[k + 1..];
    assert rules == front + ([rules[k]] + back);
    SelectConcat(front, [rules[k]] + back, req);
    SelectConcat([rules[k]], back, req);
    assert Select([rules[k]], req) == None by {
      assert [rules[k]][1..] == [];
    }
    SelectConcat(front, back, req);
  }

  /** The rule's check is one of the two path checks the builders install. */
  ghost predicate IsPathRule(rule: Rule) {
    exists s: string :: rule.check == PathEndsWithCheck(s) || rule.check == PathContainsCheck(s)
  }

  /** A request with a null path is answered by no list of path rules: every one of them abstains. */
  lemma PathRulesSkipPathlessRequest(rules: seq<Rule>, req: Request)
    requires forall i :: 0 <= i < |rules| ==> IsPathRule(rules[i])
    requires req.path == None
    ensures Dispatch(rules, req) == Failure(NoFunctionMatches(req))
  {
    forall i | 0 <= i < |rules| ensures !Fires(rules[i], req) {
      var s: string :| rules[i].check == PathEndsWithCheck(s) || rules[i].check == PathContainsCheck(s);
    }
  }

  // ---------------------------------------------------------------------------
  // Lookup, removal and update by id
  // ---------------------------------------------------------------------------

  /** Rule `k` is the first rule whose id is `id` (`find { it.id == id }`). */
  ghost predicate IsFirstWithId(rules: seq<Rule>, id: string, k: int) {
    0 <= k < |rules| && rules[k].id == Some(id) &&
    forall j :: 0 <= j < k ==> rules[j].id != Some(id)
  }

  /** The position `find { it.id == id }` stops at; rules without an id never match. */
  function FirstIndexWithId(rules: seq<Rule>, id: string): (r: Option<nat>)
    ensures r.Some? ==> IsFirstWithId(rules, id, r.value)
    ensures r.None? <==> forall j :: 0 <= j < |rules| ==> rules[j].id != Some(id)
    decreases |rules|
  {
    if rules == [] then None
    else if rules[0].id == Some(id) then Some(0)
    else
      match FirstIndexWithId(rules[1..], id)
      case None => (assert forall j :: 1 <= j < |rules| ==> rules[j] == rules[1..][j - 1]; None)
      case Some(k) => (assert forall j :: 1 <= j <= k ==> rules[j] == rules[1..][j - 1]; Some(k + 1))
  }

  /** The list without its element at `k`; the others keep their order. */
  function RemoveAt(rules: seq<Rule>, k: int): (r: seq<Rule>)
    requires 0 <= k < |rules|
    ensures |r| == |rules| - 1
    ensures forall j :: 0 <= j < k ==> r[j] == rules[j]
    ensures forall j :: k <= j < |r| ==> r[j] == rules[j + 1]
  {
    rules[..k] + rules[k + 1..]
  }

  /** Putting the removed element back at `k` restores the list. */
  lemma RemoveAtReinsert(rules: seq<Rule>, k: int)
    requires 0 <= k < |rules|
    ensures RemoveAt(rules, k)[..k] + [rules[k]] + RemoveAt(rules, k)[k..] == rules
  {
    var r := RemoveAt(rules, k);
    assert r[..k] == rules[..k];
    assert r[k..] == rules[k + 1..];
  }

  /** What `removeRule(id)` returns and leaves behind. */
  datatype Removal = Removal(removed: Option<Rule>, rest: seq<Rule>)

  /**
   * `removeRule(id)`: the first rule with that id is taken out and returned;
   * with no such rule the result is `null` and the list is unchanged.
   */
  function RemoveById(rules: seq<Rule>, id: string): (r: Removal)
    ensures r.removed.None? <==> forall j :: 0 <= j < |rules| ==> rules[j].id != Some(id)
    ensures r.removed.None? ==> r.rest == rules
    ensures r.removed.Some? ==> r.removed.value.id == Some(id) && |r.rest| == |rules| - 1
    ensures r.removed.Some? ==>
              exists k :: IsFirstWithId(rules, id, k) && r.removed.value == rules[k] && r.rest == RemoveAt(rules, k)
  {
    match FirstIndexWithId(rules, id)
    case None => Removal(None, rules)
    case Some(k) => Removal(Some(rules[k]), RemoveAt(rules, k))
  }

  /** The rule `removeRule` returns can be put back where it was: nothing else was lost or reordered. */
  lemma RemoveByIdReinsert(rules: seq<Rule>, id: string)
    requires RemoveById(rules, id).removed.Some?
    ensures var r := RemoveById(rules, id);
            exists k :: 0 <= k <= |r.rest| && rules == r.rest[..k] + [r.removed.value] + r.rest[k..]
  {
    var k := FirstIndexWithId(rules, id).value;
    RemoveAtReinsert(rules, k);
  }

  /** Removing a rule that does not fire for a request leaves that request's answer unchanged. */
  lemma RemoveByIdKeepsDispatch(rules: seq<Rule>, id: string, req: Request)
    requires RemoveById(rules, id).removed.Some?
    requires !Fires(RemoveById(rules, id).removed.value, req)
    ensures Select(RemoveById(rules, id).rest, req) == Select(rules, req)
  {
    var k := FirstIndexWithId(rules, id).value;
    SelectSkipsNonFiring(rules, k, req);
  }

  /**
   * `updateRule(id, fn)`: the first rule with that id is removed and a copy
   * with the new function is appended at the end; `None` when no rule has that id
   * (the thrown "No rule with id … was found").
   */
  function UpdateById(rules: seq<Rule>, id: string, fn: Responder): (r: Option<seq<Rule>>)
    ensures r.None? <==> forall j :: 0 <= j < |rules| ==> rules[j].id != Some(id)
    ensures r.Some? ==> |r.value| == |rules|
    ensures r.Some? ==> exists k :: IsFirstWithId(rules, id, k) && r.value == RemoveAt(rules, k) + [rules[k].(fn := fn)]
  {
    var removal := RemoveById(rules, id);
    match removal.removed
    case None => None
    case Some(found) => Some(removal.rest + [found.(fn := fn)])
  }

  /**
   * After an update the rule keeps its check and id, takes the new function and
   * sits last; the other rules keep their relative order.
   */
  lemma UpdateByIdMovesToEnd(rules: seq<Rule>, id: string, fn: Responder)
    requires UpdateById(rules, id, fn).Some?
    ensures var u := UpdateById(rules, id, fn).value;
            var found := RemoveById(rules, id).removed.value;
            && u[|u| - 1].check == found.check
            && u[|u| - 1].id == Some(id)
            && u[|u| - 1].fn == fn
            && u[..|u| - 1] == RemoveById(rules, id).rest
  {
    var u := UpdateById(rules, id, fn).value;
    var rest := RemoveById(rules, id).rest;
    assert u == rest + [RemoveById(rules, id).removed.value.(fn := fn)];
    assert u[..|u| - 1] == rest;
  }

  /**
   * After an update a request is answered by the remaining rules if one of them
   * fires, and otherwise by the new function when the moved rule's check says `true`.
   */
  lemma UpdateByIdDispatch(rules: seq<Rule>, id: string, fn: Responder, req: Request)
    requires UpdateById(rules, id, fn).Some?
    ensures var rest := RemoveById(rules, id).rest;
            var found := RemoveById(rules, id).removed.value;
            Select(UpdateById(rules, id, fn).value, req) ==
              if Select(rest, req).Some? then Select(rest, req)
              else if found.check(req) == Some(true) then fn(req)
              else None
  {
    var removal := RemoveById(rules, id);
    var moved := removal.removed.value.(fn := fn);
    SelectConcat(removal.rest, [moved], req);
    assert [moved][1..] == [];
  }
}
