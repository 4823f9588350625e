/**
 * generate_openapi_spec: the fixed document header and the `paths` table
 * built from the parsed endpoint records. `paths` maps a route to a table
 * from lower-case method to operation; both are insertion-ordered.
 */
module OpenApi {
  import opened Results
  import OrderedMap
  import opened Annotations
  import opened PyText
  import opened Scan

  /** One operation object; `parameters` is present only when the endpoint recorded some. */
  datatype Operation = Operation(
    summary: string,
    description: string,
    tags: seq<string>,
    responses: OrderedMap.Dict<string, Response>,
    parameters: Option<seq<Param>>)

  datatype Info = Info(title: string, description: string, version: string, contactName: string)

  datatype Server = Server(url: string, description: string)

  datatype Tag = Tag(name: string, description: string)

  type Paths = OrderedMap.Dict<string, OrderedMap.Dict<string, Operation>>

  datatype Spec = Spec(openapi: string, info: Info, servers: seq<Server>, tags: seq<Tag>, paths: Paths)

  const OpenApiVersion: string := "3.0.3"

  const ServiceInfo: Info :=
    Info("q2git API", "Query execution and Git commit service for wasmCloud", "1.0.0", "q2git")

  const Servers: seq<Server> := [Server("http://localhost:8000", "Local development server")]

  const Tags: seq<Tag> := [
    Tag("query", "Query execution and commit operations"),
    Tag("health", "Health and status endpoints"),
    Tag("info", "Service information")
  ]

  /** An endpoint contributes an operation only when both its path and its method were recorded. */
  predicate Complete(e: Endpoint) {
    e.path.Some? && e.verb.Some?
  }

  /**
   * The operation object for an endpoint: each missing key becomes its empty
   * default (`''`, `[]`, `{}`), and `parameters` is carried over only when present.
   */
  function OperationOf(e: Endpoint): (op: Operation)
    ensures op.summary == (if e.summary.Some? then e.summary.value else "")
    ensures op.description == (if e.description.Some? then e.description.value else "")
    ensures op.tags == (if e.tags.Some? then e.tags.value else [])
    ensures op.responses == (if e.responses.Some? then e.responses.value else [])
    ensures op.parameters == e.parameters
  {
    Operation(e.summary.GetOr(""), e.description.GetOr(""), e.tags.GetOr([]),
              e.responses.GetOr([]), e.parameters)
  }

  /** `spec['paths'][path][method]`, when both keys are present. */
  function Lookup(paths: Paths, path: string, verb: string): Option<Operation> {
    match OrderedMap.Get(paths, path)
    case None => None
    case Some(ops) => OrderedMap.Get(ops, verb)
  }

  /**
   * One iteration of the loop: an endpoint without a path or a method is
   * skipped; otherwise its operation is stored under its path and method,
   * and a new path goes to the end of the table.
   */
  function AddEndpoint(paths: Paths, e: Endpoint): (r: Paths)
    ensures !Complete(e) ==> r == paths
    ensures Complete(e) ==> Lookup(r, e.path.value, e.verb.value) == Some(OperationOf(e))
    ensures Complete(e) ==> OrderedMap.Keys(r) == if OrderedMap.HasKey(paths, e.path.value)
                                                   then OrderedMap.Keys(paths)
                                                   else OrderedMap.Keys(paths) + [e.path.value]
  {
    if !Complete(e) then paths
    else
      var ops := OrderedMap.Get(paths, e.path.value).GetOr([]);
      var ops' := OrderedMap.Put(ops, e.verb.value, OperationOf(e));
      OrderedMap.GetPut(paths, e.path.value, ops', e.path.value);
      OrderedMap.GetPut(ops, e.verb.value, OperationOf(e), e.verb.value);
      OrderedMap.KeysPut(paths, e.path.value, ops');
      OrderedMap.Put(paths, e.path.value, ops')
  }

  /**
   * The loop over the endpoints, first to last (written as a fold from the
   * right end); no path, and no method under a path, appears twice.
   */
  function GeneratePaths(endpoints: seq<Endpoint>): (r: Paths)
    ensures WellFormed(r)
    decreases |endpoints|
  {
    if endpoints == [] then []
    else
      var init := GeneratePaths(endpoints[..|endpoints| - 1]);
      AddEndpointKeepsWellFormed(init, endpoints[|endpoints| - 1]);
      AddEndpoint(init, endpoints[|endpoints| - 1])
  }

  /** The whole document: the constant header and the generated paths. */
  function GenerateSpec(endpoints: seq<Endpoint>): (s: Spec)
    ensures s.openapi == "3.0.3"
    ensures s.info == Info("q2git API", "Query execution and Git commit service for wasmCloud",
                           "1.0.0", "q2git")
    ensures s.servers == [Server("http://localhost:8000", "Local development server")]
    ensures s.tags == [Tag("query", "Query execution and commit operations"),
                       Tag("health", "Health and status endpoints"),
                       Tag("info", "Service information")]
    ensures s.paths == GeneratePaths(endpoints) && WellFormed(s.paths)
  {
    Spec(OpenApiVersion, ServiceInfo, Servers, Tags, GeneratePaths(endpoints))
  }

  /** Reference definition: the last complete endpoint declaring this path and method. */
  function LastFor(endpoints: seq<Endpoint>, path: string, verb: string): Option<Endpoint>
    decreases |endpoints|
  {
    if endpoints == [] then None
    else
      var e := endpoints[|endpoints| - 1];
      if Complete(e) && e.path.value == path && e.verb.value == verb then Some(e)
      else LastFor(endpoints[..|endpoints| - 1], path, verb)
  }

  /** Reference definition: some complete endpoint declares this path. */
  predicate Declares(endpoints: seq<Endpoint>, path: string) {
    exists i :: 0 <= i < |endpoints| && Complete(endpoints[i]) && endpoints[i].path.value == path
  }

  /** One step: only the endpoint's own (path, method) entry changes, and its path is then present. */
  lemma AddEndpointEffect(paths: Paths, e: Endpoint, path: string, verb: string)
    ensures Lookup(AddEndpoint(paths, e), path, verb)
            == if Complete(e) && e.path.value == path && e.verb.value == verb
               then Some(OperationOf(e)) else Lookup(paths, path, verb)
    ensures OrderedMap.HasKey(AddEndpoint(paths, e), path)
            <==> OrderedMap.HasKey(paths, path) || (Complete(e) && e.path.value == path)
  {
    if Complete(e) {
      var p := e.path.value;
      var ops := OrderedMap.Get(paths, p).GetOr([]);
      var ops' := OrderedMap.Put(ops, e.verb.value, OperationOf(e));
      OrderedMap.GetPut(paths, p, ops', path);
      OrderedMap.GetPut(ops, e.verb.value, OperationOf(e), verb);
    }
  }

  /**
   * The generated table holds, under each path and method, the operation of
   * the last complete endpoint declaring them, and nothing for a pair no
   * complete endpoint declares; a path is present exactly when some complete
   * endpoint declares it.
   */
  lemma {:induction false} LastEndpointWins(endpoints: seq<Endpoint>, path: string, verb: string)
    ensures Lookup(GeneratePaths(endpoints), path, verb)
            == match LastFor(endpoints, path, verb)
               case None => None
               case Some(e) => Some(OperationOf(e))
    ensures OrderedMap.HasKey(GeneratePaths(endpoints), path) <==> Declares(endpoints, path)
    decreases |endpoints|
  {
    if endpoints != [] {
      var init := endpoints[..|endpoints| - 1];
      var e := endpoints[|endpoints| - 1];
      LastEndpointWins(init, path, verb);
      AddEndpointEffect(GeneratePaths(init), e, path, verb);
      assert Declares(endpoints, path) <==> Declares(init, path) || (Complete(e) && e.path.value == path) by {
        if Declares(endpoints, path) && !(Complete(e) && e.path.value == path) {
          var i :| 0 <= i < |endpoints| && Complete(endpoints[i]) && endpoints[i].path.value == path;
          assert init[i] == endpoints[i];
        }
        if Declares(init, path) {
          var i :| 0 <= i < |init| && Complete(init[i]) && init[i].path.value == path;
          assert endpoints[i] == init[i];
        }
      }
    }
  }

  /** Every path, and every method under a path, appears at most once. */
  predicate WellFormed(paths: Paths) {
    OrderedMap.Unique(paths) && forall i :: 0 <= i < |paths| ==> OrderedMap.Unique(paths[i].1)
  }

  lemma AddEndpointKeepsWellFormed(paths: Paths, e: Endpoint)
    requires WellFormed(paths)
    ensures WellFormed(AddEndpoint(paths, e))
  {
    if Complete(e) {
      var p := e.path.value;
      var ops := OrderedMap.Get(paths, p).GetOr([]);
      StoredUnique(paths, p);
      OrderedMap.PutKeepsUnique(ops, e.verb.value, OperationOf(e));
      PutKeepsWellFormed(paths, p, OrderedMap.Put(ops, e.verb.value, OperationOf(e)));
    }
  }

  /** The method table stored under a path has no repeated method. */
  lemma StoredUnique(paths: Paths, p: string)
    requires WellFormed(paths)
    ensures OrderedMap.Unique(OrderedMap.Get(paths, p).GetOr([]))
  {
    if OrderedMap.Get(paths, p).Some? {
      var i :| 0 <= i < |paths| && paths[i] == (p, OrderedMap.Get(paths, p).value);
    }
  }

  /** Storing a table without repeated methods keeps the whole table well formed. */
  lemma PutKeepsWellFormed(paths: Paths, p: string, ops: OrderedMap.Dict<string, Operation>)
    requires WellFormed(paths) && OrderedMap.Unique(ops)
    ensures WellFormed(OrderedMap.Put(paths, p, ops))
  {
    OrderedMap.PutKeepsUnique(paths, p, ops);
    var r := OrderedMap.Put(paths, p, ops);
    OrderedMap.GetPut(paths, p, ops, p);
    forall i | 0 <= i < |r| ensures OrderedMap.Unique(r[i].1) {
      PutEntryUnique(paths, p, ops, i);
    }
  }

  /** Each entry after the write is either an untouched entry or the new table. */
  lemma PutEntryUnique(paths: Paths, p: string, ops: OrderedMap.Dict<string, Operation>, i: int)
    requires WellFormed(paths) && OrderedMap.Unique(ops)
    requires OrderedMap.Unique(OrderedMap.Put(paths, p, ops))
    requires OrderedMap.Get(OrderedMap.Put(paths, p, ops), p) == Some(ops)
    requires 0 <= i < |OrderedMap.Put(paths, p, ops)|
    ensures OrderedMap.Unique(OrderedMap.Put(paths, p, ops)[i].1)
  {
    var r := OrderedMap.Put(paths, p, ops);
    if i < |paths| && paths[i].0 != p {
      assert r[i] == paths[i];
    } else {
      assert r[i].0 == p;
      UniqueEntry(r, i, p, ops);
    }
  }

  /** In a dictionary without repeated keys, the entry at a key's position is what `Get` returns. */
  lemma UniqueEntry<K, V>(d: OrderedMap.Dict<K, V>, i: int, k: K, v: V)
    requires OrderedMap.Unique(d)
    requires 0 <= i < |d| && d[i].0 == k
    requires OrderedMap.Get(d, k) == Some(v)
    ensures d[i].1 == v
  {
    var j :| 0 <= j < |d| && d[j] == (k, v);
    assert i == j;
  }

  /** Missing keys of a complete endpoint become the documented defaults. */
  lemma BareEndpointDefaults(path: string, verb: string)
    ensures Lookup(GeneratePaths([Empty.(path := Some(path), verb := Some(verb))]), path, verb)
            == Some(Operation("", "", [], [], None))
  {
    LastEndpointWins([Empty.(path := Some(path), verb := Some(verb))], path, verb);
  }

  /**
   * From comment block to document: a handler annotated with nothing but
   * `// @Router /p [VERB]` is documented under `/p` and the lower-cased
   * method with an operation of empty defaults.
   */
  lemma RouterOnlyHandler(path: string, verb: string)
    requires Token(path, NotSpace)
    requires Token(verb, Word)
    ensures var e := ParseAnnotations("// " + ("@Router " + (path + " [" + verb + "]")));
            && e.Some?
            && Lookup(GenerateSpec([e.value]).paths, path, Lower(verb)) == Some(Operation("", "", [], [], None))
  {
    RouterBlock(path, verb);
    BareEndpointDefaults(path, Lower(verb));
  }

  /** Reference definition: the declared paths, each at the place it was first declared. */
  function FirstDeclared(endpoints: seq<Endpoint>): seq<string>
    decreases |endpoints|
  {
    if endpoints == [] then []
    else
      var seen := FirstDeclared(endpoints[..|endpoints| - 1]);
      var e := endpoints[|endpoints| - 1];
      if Complete(e) && e.path.value !in seen then seen + [e.path.value] else seen
  }

  /** Paths come out in the order in which they were first declared. */
  lemma {:induction false} PathsInDeclarationOrder(endpoints: seq<Endpoint>)
    ensures OrderedMap.Keys(GeneratePaths(endpoints)) == FirstDeclared(endpoints)
    decreases |endpoints|
  {
    if endpoints != [] {
      var init := endpoints[..|endpoints| - 1];
      var e := endpoints[|endpoints| - 1];
      PathsInDeclarationOrder(init);
      if Complete(e) {
        var paths := GeneratePaths(init);
        var ops := OrderedMap.Get(paths, e.path.value).GetOr([]);
        OrderedMap.KeysPut(paths, e.path.value, OrderedMap.Put(ops, e.verb.value, OperationOf(e)));
      }
    }
  }
}
