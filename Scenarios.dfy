/**
 * The usage scenarios of the mock's own test suite, replayed against the
 * contracts of HttpMocks and MockRules: each client method below is verified
 * from those contracts alone, as a caller would use them.
 */
module Scenarios {
  import opened Wrappers
  import opened MockRules
  import opened HttpMocks
  import Text

  function TextBody(text: string): Response {
    Response(200, [], text)
  }

  /** A response function that always answers with a 200 and the given body. */
  function Answer(text: string): Responder {
    (req: Request) => Some(TextBody(text))
  }

  function Get(path: string): Request {
    Request("GET", Some(path), [], "")
  }

  /** The id-less rules of `assert two rules`: `endsWith("jedi")` first, then the `/sith` rule. */
  function TwoRules(): seq<Rule> {
    [Rule(PathEndsWithCheck("jedi"), Answer("Yoda"), None),
     Rule(PathEndsWithCheck("/sith"), Answer("Darth Vader"), None)]
  }

  /**
   * `assert two rules`: "/jedi" gets Yoda, "/sith" gets Darth Vader, and a path
   * ending in neither is the no-match error.
   */
  lemma TwoRulesDispatch()
    ensures Dispatch(TwoRules(), Get("/jedi")) == Success(TextBody("Yoda"))
    ensures Dispatch(TwoRules(), Get("/sith")) == Success(TextBody("Darth Vader"))
    ensures forall p: string :: !Text.EndsWith(p, "jedi") && !Text.EndsWith(p, "/sith") ==>
              Dispatch(TwoRules(), Get(p)) == Failure(NoFunctionMatches(Get(p)))
  {
    var rules := TwoRules();
    assert Select(rules, Get("/jedi")) == Some(TextBody("Yoda"));
    assert "/sith"[1..] != "jedi";
    assert Select(rules, Get("/sith")) == Some(TextBody("Darth Vader"));
  }

  /** `Remove specific rule`: the rule added with id "jedi" is removed and returned. */
  method RemoveSpecificRule() {
    var registry := new Registry();
    var mock := InitHttpMockServer(registry, []);
    var self := mock.RulePathEndsWith("jedi", Answer("Yoda"));
    var removed := mock.RemoveRule("jedi");
    assert mock.mockRules == [];
    assert removed.Some? && removed.value.id == Some("jedi");
  }

  /** `Update rule`: after the update the new function answers. */
  method UpdateRuleAnswersWithNewFunction() {
    var registry := new Registry();
    var mock := InitHttpMockServer(registry, [PathEndsWithRule("jedi", Answer("Yoda"))]);
    var outcome := mock.UpdateRule("jedi", Answer("Obi-Wan Kenobi"));
    assert outcome == Pass;
    var started := mock.Start(true);
    var server := started.value;
    assert mock.mockRules == [PathEndsWithRule("jedi", Answer("Yoda")).(fn := Answer("Obi-Wan Kenobi"))];
    assert server.Dispatch(Get("/jedi")) == Success(TextBody("Obi-Wan Kenobi"));
  }

  /** `Throw exception when updating rule id that does not exist`. */
  method UpdateUnknownRuleFails() {
    var registry := new Registry();
    var mock := InitHttpMockServer(registry, [PathEndsWithRule("jedi", Answer("Yoda"))]);
    var outcome := mock.UpdateRule("non-existing-rule-id", Answer(""));
    assert outcome == Fail(RuleNotFound("non-existing-rule-id"));
    assert |mock.mockRules| == 1;
  }

  /** `Add rule after server has been created`: the dispatcher reads the live list. */
  method AddRuleAfterServerCreated() {
    var registry := new Registry();
    var mock := InitHttpMockServer(registry, [PathContainsRule("sith", Answer("Darth Vader"))]);
    var initial := mock.server;
    var self := mock.AddRule(Rule(PathEndsWithCheck("jedi"), Answer("Yoda"), Some("123")));
    assert "/jedi"[1..] == "jedi" && "jedi"[1..] == "edi";
    Text.ShorterNotContained("edi", "sith");
    assert "/jedi"[..4][0] != "sith"[0] && "jedi"[..4][0] != "sith"[0];
    assert !Text.Contains("/jedi", "sith");
    var jedi := Rule(PathEndsWithCheck("jedi"), Answer("Yoda"), Some("123"));
    assert mock.mockRules == [PathContainsRule("sith", Answer("Darth Vader")), jedi];
    assert Attempt(mock.mockRules[0], Get("/jedi")) == None;
    assert mock.mockRules[1..] == [jedi];
    assert Select([jedi], Get("/jedi")) == Some(TextBody("Yoda"));
    assert initial.owner == mock;
    assert initial.Dispatch(Get("/jedi")) == Success(TextBody("Yoda"));
    assert |mock.mockRules| == 2;
  }

  /** `clearAllHttpMocks` after two started servers: both are shut down and none stays registered. */
  method ClearAllAfterTwoServers() {
    var registry := new Registry();
    var first := HttpMockServer(registry, [PathEndsWithRule("/jedi", Answer("Yoda"))], true);
    var second := HttpMockServer(registry, [], true);
    assert first.value.Running() && second.value.Running();
    registry.ClearAllHttpMocks((s: MockServer) => true);
    assert registry.httpMocks == [];
    assert !first.value.Running() && !second.value.Running();
  }

  /** `executeRulesAndClearMocks` whose test code throws leaves the registry and its servers as they were. */
  method FailingBodyKeepsRegistry() {
    var registry := new Registry();
    var other := HttpMockServer(registry, [], true);
    var mock := InitHttpMockServer(registry, []);
    var outcome := mock.ExecuteRulesAndClearMocks(registry, true, false, (s: MockServer) => true);
    assert outcome == Fail(BodyFailed);
    assert |registry.httpMocks| == 2 && registry.httpMocks[1].Running();
    assert other.value.Running();
  }

  /** A start whose bind failed marks the server started, so a later `executeRules` does not make it listen. */
  method FailedBindIsNotRetried() {
    var registry := new Registry();
    var mock := InitHttpMockServer(registry, []);
    var server := mock.server;
    var first := mock.ExecuteRules(false, true);
    var second := mock.ExecuteRules(true, true);
    assert second == Pass && !server.Running();
  }

  /** A server cleared away before its first start is not started by a later `executeRules`. */
  method ClearedBeforeStartStaysUnstarted() {
    var registry := new Registry();
    var mock := InitHttpMockServer(registry, []);
    var server := mock.server;
    registry.ClearAllHttpMocks((s: MockServer) => true);
    var outcome := mock.ExecuteRules(true, true);
    assert outcome == Pass && !server.started && !server.Running();
  }
}
