/**
 * `HttpMock`, the servers it starts, and the process-wide registry of started
 * servers (`HttpMock.httpMocks`, passed here as an explicit `Registry` object).
 *
 * The transport is an opaque handle: a `MockServer` only records whether it was
 * started, whether its port was bound and whether it was shut down, and its
 * dispatcher reads the live rule
 * list of the `HttpMock` that created it. Outcomes of socket I/O (binding a
 * port, closing it) and of the test code handed to `executeRules` are
 * parameters.
 */
module HttpMocks {
  import opened Wrappers
  import opened Text
  import opened MockRules

  /** The exceptions the lifecycle operations can raise or swallow. */
  datatype LifecycleError =
    | BindFailed               // the transport could not start listening
    | StartRejected            // start() on a server that was already shut down
    | ShutdownFailed           // shutdown() failed while closing the transport
    | NullServer               // `server!!` on an HttpMock that was never started or initialised
    | BodyFailed               // the test code passed to executeRules threw
    | RuleNotFound(id: string) // "No rule with id $id was found"
    | NumberFormat(port: string) // `port.toInt()` on a string that is not a 32-bit Int

  /** A transport instance whose dispatcher is owned by one `HttpMock`. */
  class MockServer {
    /** The `HttpMock` whose rule list the dispatcher reads at each request. */
    const owner: HttpMock
    /** `start()` was called (it is marked before the port is bound). */
    var started: bool
    /** The port was bound: the server listens until it is shut down. */
    var bound: bool
    var shutDown: bool

    predicate Running()
      reads this
    {
      bound && !shutDown
    }

    /** `MockWebServer().apply { dispatcher = createDispatcher() }`: created, not listening. */
    constructor (owner: HttpMock)
      ensures this.owner == owner && !started && !bound && !shutDown
    {
      this.owner := owner;
      started := false;
      bound := false;
      shutDown := false;
    }

    /**
     * The installed dispatcher. It closes over the owner, not over a copy of its
     * list, so rules added or removed after the server was created are seen.
     */
    function Dispatch(req: Request): (r: Result<Response, DispatchError>)
      reads owner
      ensures r.Failure? <==> forall i :: 0 <= i < |owner.mockRules| ==> !Fires(owner.mockRules[i], req)
    {
      MockRules.Dispatch(owner.mockRules, req)
    }

    /**
     * `start()`: refused after a shutdown and a no-op once started (even if
     * that first start failed to bind); otherwise the server is marked started
     * and listens when the port could be bound.
     */
    method Start(bindOk: bool) returns (r: Outcome<LifecycleError>)
      modifies this
      ensures shutDown == old(shutDown)
      ensures old(shutDown) ==> r == Fail(StartRejected) && started == old(started) && bound == old(bound)
      ensures !old(shutDown) && old(started) ==> r == Pass && started && bound == old(bound)
      ensures !old(shutDown) && !old(started) ==>
                started && bound == (old(bound) || bindOk) && r == (if bindOk then Pass else Fail(BindFailed))
    {
      if shutDown {
        r := Fail(StartRejected);
      } else if started {
        r := Pass;
      } else {
        started := true;
        if bindOk {
          bound := true;
          r := Pass;
        } else {
          r := Fail(BindFailed);
        }
      }
    }

    /** `shutdown()`: marks the server shut down first; closing the socket may still fail. */
    method Shutdown(closeOk: bool) returns (r: Outcome<LifecycleError>)
      modifies this
      ensures shutDown && started == old(started) && bound == old(bound)
      ensures r == if closeOk then Pass else Fail(ShutdownFailed)
    {
      shutDown := true;
      r := if closeOk then Pass else Fail(ShutdownFailed);
    }
  }

  /** The rule-based mock: an ordered, mutable rule list and the server it last created. */
  class HttpMock {
    var mockRules: seq<Rule>
    var server: MockServer?

    constructor ()
      ensures mockRules == [] && server == null
    {
      mockRules := [];
      server := null;
    }

    /** `start(port)`: a fresh server owned by this mock, listening; `server` is set only on success. */
    method Start(bindOk: bool) returns (r: Result<MockServer, LifecycleError>)
      modifies this
      ensures mockRules == old(mockRules)
      ensures bindOk ==>
                r.Success? && fresh(r.value) && r.value.owner == this && r.value.Running() && server == r.value
      ensures !bindOk ==> r == Failure(BindFailed) && server == old(server)
    {
      var s := new MockServer(this);
      var outcome := s.Start(bindOk);
      if outcome.Fail? {
        return Failure(outcome.error);
      }
      server := s;
      r := Success(s);
    }

    /** `init()`: a fresh server owned by this mock, not yet listening. */
    method Init() returns (s: MockServer)
      modifies this
      ensures fresh(s) && s.owner == this && !s.started && !s.bound && !s.shutDown
      ensures server == s && mockRules == old(mockRules)
    {
      s := new MockServer(this);
      server := s;
    }

    /** `rulePathEndsWith(endsWith, fn)`: appends a path-suffix rule whose id is `endsWith`. */
    method RulePathEndsWith(endsWith: string, fn: Responder) returns (self: HttpMock)
      modifies this
      ensures self == this && server == old(server)
      ensures mockRules == old(mockRules) + [PathEndsWithRule(endsWith, fn)]
    {
      mockRules := mockRules + [PathEndsWithRule(endsWith, fn)];
      self := this;
    }

    /** `rulePathContains(contains, fn)`: appends a path-substring rule whose id is `contains`. */
    method RulePathContains(contains: string, fn: Responder) returns (self: HttpMock)
      modifies this
      ensures self == this && server == old(server)
      ensures mockRules == old(mockRules) + [PathContainsRule(contains, fn)]
    {
      mockRules := mockRules + [PathContainsRule(contains, fn)];
      self := this;
    }

    /** `rule(r: MockRules)`: appends the given rule as it is. */
    method AddRule(r: Rule) returns (self: HttpMock)
      modifies this
      ensures self == this && server == old(server)
      ensures mockRules == old(mockRules) + [r]
    {
      mockRules := mockRules + [r];
      self := this;
    }

    /** `rule(fn)`: appends a rule that always checks true and has no id. */
    method AddResponder(fn: Responder) returns (self: HttpMock)
      modifies this
      ensures self == this && server == old(server)
      ensures mockRules == old(mockRules) + [Rule(AlwaysCheck(), fn, None)]
    {
      mockRules := mockRules + [Rule(AlwaysCheck(), fn, None)];
      self := this;
    }

    /** `rule(check, fn)`: appends a rule with the given check and no id. */
    method AddChecked(check: Check, fn: Responder) returns (self: HttpMock)
      modifies this
      ensures self == this && server == old(server)
      ensures mockRules == old(mockRules) + [Rule(check, fn, None)]
    {
      mockRules := mockRules + [Rule(check, fn, None)];
      self := this;
    }

    /** `rule(check, id, fn)`: appends a rule with the given check and id; duplicate ids are not refused. */
    method AddCheckedWithId(check: Check, id: string, fn: Responder) returns (self: HttpMock)
      modifies this
      ensures self == this && server == old(server)
      ensures mockRules == old(mockRules) + [Rule(check, fn, Some(id))]
    {
      mockRules := mockRules + [Rule(check, fn, Some(id))];
      self := this;
    }

    /** `removeRule(id)`: removes and returns the first rule with that id, or returns null. */
    method RemoveRule(id: string) returns (removed: Option<Rule>)
      modifies this
      ensures server == old(server)
      ensures Removal(removed, mockRules) == RemoveById(old(mockRules), id)
    {
      var found := FirstIndexWithId(mockRules, id);
      if found.Some? {
        removed := Some(mockRules[found.value]);
        mockRules := RemoveAt(mockRules, found.value);
      } else {
        removed := None;
      }
    }

    /** `updateRule(id, fn)`: re-appends the removed rule with the new function, or throws. */
    method UpdateRule(id: string, fn: Responder) returns (r: Outcome<LifecycleError>)
      modifies this
      ensures server == old(server)
      ensures UpdateById(old(mockRules), id, fn).None? ==>
                r == Fail(RuleNotFound(id)) && mockRules == old(mockRules)
      ensures UpdateById(old(mockRules), id, fn).Some? ==>
                r == Pass && mockRules == UpdateById(old(mockRules), id, fn).value
    {
      var removed := RemoveRule(id);
      if removed.Some? {
        mockRules := mockRules + [removed.value.(fn := fn)];
        r := Pass;
      } else {
        r := Fail(RuleNotFound(id));
      }
    }

    /**
     * `executeRules(port, fn)`: tries to start the server, swallowing any failure,
     * then runs the test code; neither the rules nor the registry are cleared.
     * Without a server the start's null dereference is swallowed and the one
     * before `fn` is not.
     */
    method ExecuteRules(bindOk: bool, bodyOk: bool) returns (r: Outcome<LifecycleError>)
      modifies server
      ensures mockRules == old(mockRules) && server == old(server)
      ensures old(server) == null ==> r == Fail(NullServer)
      ensures old(server) != null ==>
                && server.started == (old(server.started) || !old(server.shutDown))
                && server.bound == (old(server.bound) || (!old(server.started) && !old(server.shutDown) && bindOk))
                && server.shutDown == old(server.shutDown)
                && r == (if bodyOk then Pass else Fail(BodyFailed))
    {
      if server == null {
        return Fail(NullServer);
      }
      var ignored := server.Start(bindOk);
      r := if bodyOk then Pass else Fail(BodyFailed);
    }

    /**
     * `executeRulesAndClearMocks(port, fn)`: as `executeRules`, then clears every
     * registered server, but only when the test code returned normally.
     */
    method ExecuteRulesAndClearMocks(registry: Registry, bindOk: bool, bodyOk: bool, closeOk: MockServer -> bool)
      returns (r: Outcome<LifecycleError>)
      modifies server, registry, registry.httpMocks
      ensures mockRules == old(mockRules) && server == old(server)
      ensures old(server) == null ==> r == Fail(NullServer) && registry.httpMocks == old(registry.httpMocks)
      ensures old(server) != null ==> r == (if bodyOk then Pass else Fail(BodyFailed))
      ensures old(server) != null ==>
                && server.started == (old(server.started) || !old(server.shutDown))
                && server.bound == (old(server.bound) || (!old(server.started) && !old(server.shutDown) && bindOk))
      ensures forall s :: s in old(registry.httpMocks) && s != old(server) ==>
                s.started == old(s.started) && s.bound == old(s.bound)
      ensures old(server) != null && bodyOk ==>
                registry.httpMocks == [] && forall s :: s in old(registry.httpMocks) ==> s.shutDown
      ensures old(server) != null && bodyOk && old(server) !in old(registry.httpMocks) ==>
                server.shutDown == old(server.shutDown)
      ensures old(server) != null && !bodyOk ==>
                registry.httpMocks == old(registry.httpMocks) && server.shutDown == old(server.shutDown)
      ensures old(server) == null || !bodyOk ==>
                forall s :: s in old(registry.httpMocks) ==> s.shutDown == old(s.shutDown)
    {
      if server == null {
        return Fail(NullServer);
      }
      var ignored := server.Start(bindOk);
      if !bodyOk {
        return Fail(BodyFailed);
      }
      registry.ClearAllHttpMocks(closeOk);
      r := Pass;
    }
  }

  /** `HttpMock.httpMocks`: every server the factories created, for bulk shutdown. */
  class Registry {
    var httpMocks: seq<MockServer>

    constructor ()
      ensures httpMocks == []
    {
      httpMocks := [];
    }

    /** `httpMocks.add(server)`. */
    method Add(s: MockServer)
      modifies this
      ensures httpMocks == old(httpMocks) + [s]
    {
      httpMocks := httpMocks + [s];
    }

    /**
     * `clearAllHttpMocks()`: shuts down every registered server, swallowing
     * failures, and leaves the registry empty.
     */
    method ClearAllHttpMocks(closeOk: MockServer -> bool)
      modifies this, httpMocks
      ensures httpMocks == []
      ensures forall s :: s in old(httpMocks) ==> s.shutDown && s.started == old(s.started) && s.bound == old(s.bound)
    {
      var servers := httpMocks;
      for i := 0 to |servers|
        invariant forall j :: 0 <= j < i ==> servers[j].shutDown
        invariant forall s :: s in servers ==> s.started == old(s.started) && s.bound == old(s.bound)
      {
        var ignored := servers[i].Shutdown(closeOk(servers[i]));
      }
      httpMocks := [];
    }
  }

  /**
   * `httpMockServer(port, block)` and `httpMockServer(block)`: a fresh mock
   * configured by `block` (given here as the rule list it leaves), started and
   * registered. A failed start propagates and registers nothing.
   */
  method HttpMockServer(registry: Registry, configured: seq<Rule>, bindOk: bool)
    returns (r: Result<MockServer, LifecycleError>)
    modifies registry
    ensures bindOk ==>
              && r.Success? && fresh(r.value) && fresh(r.value.owner) && r.value.Running()
              && r.value.owner.mockRules == configured && r.value.owner.server == r.value
              && registry.httpMocks == old(registry.httpMocks) + [r.value]
    ensures !bindOk ==> r == Failure(BindFailed) && registry.httpMocks == old(registry.httpMocks)
  {
    var instance := new HttpMock();
    instance.mockRules := configured;
    r := instance.Start(bindOk);
    if r.Success? {
      registry.Add(r.value);
    }
  }

  /** `httpMockServer(port: String, block)`: the port is parsed with `toInt()` before anything is created. */
  method HttpMockServerOnPort(registry: Registry, port: string, configured: seq<Rule>, bindOk: bool)
    returns (r: Result<MockServer, LifecycleError>)
    modifies registry
    ensures ToInt(port).None? ==> r == Failure(NumberFormat(port)) && registry.httpMocks == old(registry.httpMocks)
    ensures ToInt(port).Some? && bindOk ==>
              && r.Success? && fresh(r.value) && fresh(r.value.owner) && r.value.Running()
              && r.value.owner.mockRules == configured && r.value.owner.server == r.value
              && registry.httpMocks == old(registry.httpMocks) + [r.value]
    ensures ToInt(port).Some? && !bindOk ==>
              r == Failure(BindFailed) && registry.httpMocks == old(registry.httpMocks)
  {
    if ToInt(port).None? {
      return Failure(NumberFormat(port));
    }
    r := HttpMockServer(registry, configured, bindOk);
  }

  /** `initHttpMockServer(block)`: a fresh mock with an unstarted server, registered. */
  method InitHttpMockServer(registry: Registry, configured: seq<Rule>) returns (m: HttpMock)
    modifies registry
    ensures fresh(m) && m.mockRules == configured
    ensures m.server != null && fresh(m.server) && m.server.owner == m
    ensures !m.server.started && !m.server.bound && !m.server.shutDown
    ensures registry.httpMocks == old(registry.httpMocks) + [m.server]
  {
    m := new HttpMock();
    m.mockRules := configured;
    var s := m.Init();
    registry.Add(s);
  }
}
