/**
 * The shared SPARQL triple-store implementation (`OtTripleStore`): the escaping
 * of assertion ids, the assertion graphs `assertion:<id>` of each repository,
 * the insert-if-absent guard, the per-repository query and update contexts,
 * and the bounded retry loop that waits for each repository to come up.
 *
 * A repository's contents are a map from graph name to its set of quads. The
 * existence check and the read address the graph named after the ESCAPED id,
 * while the insert and the drop address the graph named after the RAW id.
 * Every query embeds its graph name as an IRI, and the query parser rejects a
 * name with a character that SPARQL does not admit in an IRI; a backslash is
 * one, so any id the escaper changes makes the existence check reject.
 */
module TripleStore {
  import opened Commands

  // ---------------------------------------------------------------------
  // cleanEscapeCharacter

  /** The characters the escaper prefixes with a backslash: ' | [ ] \ */
  predicate IsSpecial(c: char) {
    c == '\'' || c == '|' || c == '[' || c == ']' || c == '\\'
  }

  predicate NoSpecial(s: string) {
    forall i :: 0 <= i < |s| ==> !IsSpecial(s[i])
  }

  function SpecialCount(s: string): nat {
    if s == [] then 0 else (if IsSpecial(s[0]) then 1 else 0) + SpecialCount(s[1..])
  }

  /** `cleanEscapeCharacter`: every special character gets a backslash in
      front of it; every other character is kept. */
  function CleanEscapeCharacter(s: string): (r: string)
    ensures |r| == |s| + SpecialCount(s)
    ensures |r| >= |s|
  {
    if s == [] then []
    else (if IsSpecial(s[0]) then ['\\', s[0]] else [s[0]]) + CleanEscapeCharacter(s[1..])
  }

  /** Drops the backslash in front of every escaped character. */
  function Unescape(s: string): string
    decreases |s|
  {
    if s == [] then []
    else if s[0] == '\\' && |s| >= 2 then [s[1]] + Unescape(s[2..])
    else [s[0]] + Unescape(s[1..])
  }

  /** Removing the inserted backslashes gives back the input. */
  lemma {:induction false} UnescapeCleanEscapeCharacter(s: string)
    ensures Unescape(CleanEscapeCharacter(s)) == s
    decreases |s|
  {
    if s != [] {
      var rest := CleanEscapeCharacter(s[1..]);
      UnescapeCleanEscapeCharacter(s[1..]);
      if IsSpecial(s[0]) {
        assert (['\\', s[0]] + rest)[2..] == rest;
      } else {
        assert ([s[0]] + rest)[1..] == rest;
      }
    }
  }

  /** Text without special characters is returned unchanged. */
  lemma {:induction false} CleanEscapeCharacterPlain(s: string)
    requires NoSpecial(s)
    ensures CleanEscapeCharacter(s) == s
    decreases |s|
  {
    if s != [] {
      assert NoSpecial(s[1..]) by {
        forall i | 0 <= i < |s[1..]|
          ensures !IsSpecial(s[1..][i])
        {
          assert s[1..][i] == s[i + 1];
        }
      }
      CleanEscapeCharacterPlain(s[1..]);
      assert s == [s[0]] + s[1..];
    }
  }

  /** The escaper works character by character: it distributes over `+`. */
  lemma {:induction false} CleanEscapeCharacterAppend(a: string, b: string)
    ensures CleanEscapeCharacter(a + b) == CleanEscapeCharacter(a) + CleanEscapeCharacter(b)
    decreases |a|
  {
    if a != [] {
      assert (a + b)[0] == a[0];
      assert (a + b)[1..] == a[1..] + b;
      CleanEscapeCharacterAppend(a[1..], b);
    } else {
      assert a + b == b;
    }
  }

  // ---------------------------------------------------------------------
  // Assertion graphs

  /** A repository's contents: the quads of each named graph. */
  type GraphStore = map<string, set<string>>

  function GraphName(assertionId: string): string
  {
    "assertion:" + assertionId
  }

  /** A character production [139] IRIREF of the SPARQL 1.1 Query Language
      grammar admits between `<` and `>`: no control character or space, and
      none of  < > " { } | ^ ` \  */
  predicate IriChar(c: char) {
    ' ' < c && c != '<' && c != '>' && c != '"' && c != '{' && c != '}'
    && c != '|' && c != '^' && c != '`' && c != '\\'
  }

  /** Text that the query parser accepts inside `<...>`. */
  predicate ValidIri(s: string) {
    forall i :: 0 <= i < |s| ==> IriChar(s[i])
  }

  /** The prefix `assertion:` is itself valid, so a graph name is valid iff
      the id it embeds is. */
  lemma GraphNameValid(assertionId: string)
    ensures ValidIri(GraphName(assertionId)) <==> ValidIri(assertionId)
  {
    var name := GraphName(assertionId);
    if ValidIri(assertionId) {
      forall i | 0 <= i < |name|
        ensures IriChar(name[i])
      {
        if i >= 10 {
          assert name[i] == name[10..][i - 10];
        }
      }
    } else {
      var j :| 0 <= j < |assertionId| && !IriChar(assertionId[j]);
      assert name[j + 10] == name[10..][j];
    }
  }

  /** A special character puts a backslash into the escaped text. */
  lemma {:induction false} EscapedSpecialHasBackslash(s: string)
    requires !NoSpecial(s)
    ensures '\\' in CleanEscapeCharacter(s)
    decreases |s|
  {
    var rest := CleanEscapeCharacter(s[1..]);
    if IsSpecial(s[0]) {
      assert (['\\', s[0]] + rest)[0] == '\\';
    } else {
      var j :| 0 <= j < |s| && IsSpecial(s[j]);
      assert s[1..][j - 1] == s[j];
      EscapedSpecialHasBackslash(s[1..]);
      var k :| 0 <= k < |rest| && rest[k] == '\\';
      assert ([s[0]] + rest)[k + 1] == '\\';
    }
  }

  /** `ask`: run `ASK WHERE { GRAPH <assertion:escaped> { ?s ?p ?o } }`. The
      parser rejects the query when the escaped graph name is not a valid
      IRI; otherwise it answers whether that graph holds a quad. */
  function Ask(store: GraphStore, assertionId: string): Result<bool> {
    var graph := GraphName(CleanEscapeCharacter(assertionId));
    if !ValidIri(graph) then Err(QueryParseError(graph))
    else Ok(graph in store && store[graph] != {})
  }

  /** The existence check of `assertionExists` gets an answer exactly for the
      ids without special characters whose text is a valid IRI; every id with
      one of the five special characters makes the query itself fail, because
      its escaped form carries a backslash. */
  lemma AskAnsweredIffPlain(store: GraphStore, assertionId: string)
    ensures Ask(store, assertionId).Ok? <==> NoSpecial(assertionId) && ValidIri(assertionId)
  {
    var escaped := CleanEscapeCharacter(assertionId);
    GraphNameValid(escaped);
    if NoSpecial(assertionId) {
      CleanEscapeCharacterPlain(assertionId);
    } else {
      EscapedSpecialHasBackslash(assertionId);
      var k :| 0 <= k < |escaped| && escaped[k] == '\\';
      assert !IriChar(escaped[k]);
    }
  }

  /** An id the existence check answers for also makes a valid `INSERT DATA`
      and `DROP GRAPH` query, which use the raw id. */
  lemma AnsweredIdHasValidGraph(store: GraphStore, assertionId: string)
    requires Ask(store, assertionId).Ok?
    ensures ValidIri(GraphName(assertionId))
  {
    AskAnsweredIffPlain(store, assertionId);
    GraphNameValid(assertionId);
  }

  /** `INSERT DATA { GRAPH <graph> { quads } }`. */
  function InsertData(store: GraphStore, graph: string, quads: set<string>): GraphStore
  {
    store[graph := (if graph in store then store[graph] else {}) + quads]
  }

  /** `DROP GRAPH <graph>`. */
  function DropGraph(store: GraphStore, graph: string): GraphStore
  {
    store - {graph}
  }

  /** The quads the CONSTRUCT of `getAssertion` returns. It embeds the same
      escaped graph name as the existence check, so it fails exactly when
      that check fails, and is non-empty exactly when it answers true. */
  function Construct(store: GraphStore, assertionId: string): (quads: Result<set<string>>)
    ensures quads.Ok? <==> Ask(store, assertionId).Ok?
    ensures quads.Ok? ==> (quads.value != {} <==> Ask(store, assertionId).value)
  {
    var graph := GraphName(CleanEscapeCharacter(assertionId));
    if !ValidIri(graph) then Err(QueryParseError(graph))
    else if graph in store then Ok(store[graph])
    else Ok({})
  }

  /** For an id the existence check answers for, an insert of some quads
      makes the id exist, so the guard of a second `insertAssertion` skips
      the write, and `getAssertion` returns the inserted quads. */
  lemma InsertThenExists(store: GraphStore, assertionId: string, quads: set<string>)
    requires NoSpecial(assertionId) && ValidIri(assertionId) && quads != {}
    ensures Ask(InsertData(store, GraphName(assertionId), quads), assertionId) == Ok(true)
    ensures var read := Construct(InsertData(store, GraphName(assertionId), quads), assertionId);
      read.Ok? && quads <= read.value
  {
    CleanEscapeCharacterPlain(assertionId);
    GraphNameValid(assertionId);
  }

  /** For such an id, dropping its graph makes it absent. */
  lemma DropThenAbsent(store: GraphStore, assertionId: string)
    requires NoSpecial(assertionId) && ValidIri(assertionId)
    ensures Ask(DropGraph(store, GraphName(assertionId)), assertionId) == Ok(false)
    ensures Construct(DropGraph(store, GraphName(assertionId)), assertionId) == Ok({})
  {
    CleanEscapeCharacterPlain(assertionId);
    GraphNameValid(assertionId);
  }

  // ---------------------------------------------------------------------
  // Repositories

  datatype Source = Sparql(value: string)

  /** A comunica query context: where to read, and where updates go. */
  datatype Context = Context(sources: seq<Source>, destination: Option<Source>)

  /** A configured repository; the contexts are unset until
      `initializeContexts` runs. */
  datatype Repository = Repository(
    url: string,
    sparqlEndpoint: string,
    sparqlEndpointUpdate: string,
    queryContext: Option<Context>,
    updateContext: Option<Context>)

  /** An update query sent to a repository. */
  datatype Update =
    | InsertDataQuery(repository: string, graph: string, quads: set<string>)
    | DropGraphQuery(repository: string, graph: string)

  /** A repository after `initializeContexts`. */
  function WithContexts(r: Repository): Repository {
    var sources := [Sparql(r.sparqlEndpoint)];
    r.(updateContext := Some(Context(sources, Some(Sparql(r.sparqlEndpointUpdate)))),
       queryContext := Some(Context(sources, None)))
  }

  /** Both contexts read from the SPARQL endpoint alone; only the update
      context has a destination, the update endpoint; nothing else changes. */
  lemma ContextsShareSources(r: Repository)
    ensures var c := WithContexts(r);
      && c.queryContext.Some? && c.updateContext.Some?
      && c.queryContext.value.sources == c.updateContext.value.sources == [Sparql(r.sparqlEndpoint)]
      && c.queryContext.value.destination == None
      && c.updateContext.value.destination == Some(Sparql(r.sparqlEndpointUpdate))
      && c.url == r.url && c.sparqlEndpoint == r.sparqlEndpoint && c.sparqlEndpointUpdate == r.sparqlEndpointUpdate
  {
  }


  // ---------------------------------------------------------------------
  // ensureConnections

  /** The loop of one repository in `ensureConnections`. `healthCheck(k)` is
      the answer of its k-th health check, counting from 0. The loop counts
      the failed checks up to `maxRetries`; the process exits when the count
      reaches the maximum, which also happens when the last check succeeded. */
  method EnsureConnection(healthCheck: nat -> bool, maxRetries: nat) returns (retries: nat, exits: bool)
    ensures retries <= maxRetries
    ensures forall k :: 0 <= k < retries ==> !healthCheck(k)
    ensures retries < maxRetries ==> healthCheck(retries)
    ensures exits <==> retries == maxRetries
    ensures exits <==> forall k :: 0 <= k < maxRetries ==> !healthCheck(k)
  {
    var ready := healthCheck(0);
    retries := 0;
    while !ready && retries < maxRetries
      invariant retries <= maxRetries
      invariant ready == healthCheck(retries)
      invariant forall k :: 0 <= k < retries ==> !healthCheck(k)
      decreases maxRetries - retries
    {
      retries := retries + 1;
      ready := healthCheck(retries);
    }
    exits := retries == maxRetries;
  }

  /** A repository whose health checks all fail before the maximum is reached. */
  predicate GivesUp(healthCheck: (string, nat) -> bool, repository: string, maxRetries: nat) {
    forall k :: 0 <= k < maxRetries ==> !healthCheck(repository, k)
  }

  class OtTripleStore {
    var repositories: map<string, Repository>
    /** The contents of each repository. */
    var graphs: map<string, GraphStore>
    /** The update queries sent so far. */
    var updates: seq<Update>

    constructor (repositories: map<string, Repository>, graphs: map<string, GraphStore>)
      ensures this.repositories == repositories && this.graphs == graphs && updates == []
    {
      this.repositories := repositories;
      this.graphs := graphs;
      updates := [];
    }

    /** A repository's contents; one never written to is empty. */
    function Store(repository: string): GraphStore
      reads this
    {
      if repository in graphs then graphs[repository] else map[]
    }

    /** `initializeContexts`: give every repository its query and update
        context, leaving the set of repositories and the stored data alone. */
    method InitializeContexts()
      modifies this
      ensures repositories.Keys == old(repositories).Keys
      ensures forall r :: r in repositories ==> repositories[r] == WithContexts(old(repositories)[r])
      ensures graphs == old(graphs) && updates == old(updates)
    {
      var pending := repositories.Keys;
      while pending != {}
        invariant pending <= repositories.Keys == old(repositories).Keys
        invariant forall r :: r in repositories && r !in pending ==> repositories[r] == WithContexts(old(repositories)[r])
        invariant forall r :: r in pending ==> repositories[r] == old(repositories)[r]
        invariant graphs == old(graphs) && updates == old(updates)
        decreases |pending|
      {
        var repository :| repository in pending;
        var sources := [Sparql(repositories[repository].sparqlEndpoint)];
        repositories := repositories[repository := repositories[repository].(
          updateContext := Some(Context(sources, Some(Sparql(repositories[repository].sparqlEndpointUpdate)))))];
        repositories := repositories[repository := repositories[repository].(
          queryContext := Some(Context(sources, None)))];
        pending := pending - {repository};
      }
    }

    /** `ensureConnections`: run the retry loop for every repository; the
        process exits iff some repository gives up. */
    method EnsureConnections(healthCheck: (string, nat) -> bool, maxRetries: nat) returns (exits: bool)
      ensures exits <==> exists r :: r in repositories && GivesUp(healthCheck, r, maxRetries)
    {
      var pending := repositories.Keys;
      exits := false;
      while pending != {}
        invariant pending <= repositories.Keys
        invariant exits <==> exists r :: r in repositories && r !in pending && GivesUp(healthCheck, r, maxRetries)
        decreases |pending|
      {
        var repository :| repository in pending;
        var check := (k: nat) => healthCheck(repository, k);
        var _, gaveUp := EnsureConnection(check, maxRetries);
        assert gaveUp <==> GivesUp(healthCheck, repository, maxRetries) by {
          assert forall k: nat :: check(k) == healthCheck(repository, k);
        }
        exits := exits || gaveUp;
        pending := pending - {repository};
      }
    }

    /** `assertionExists`: the answer of the ASK query, or its rejection. */
    function AssertionExists(repository: string, assertionId: string): (answer: Result<bool>)
      requires repository in repositories
      reads this
      ensures answer.Ok? <==> NoSpecial(assertionId) && ValidIri(assertionId)
    {
      AskAnsweredIffPlain(Store(repository), assertionId);
      Ask(Store(repository), assertionId)
    }

    /** `insertAssertion`: write the quads into the graph named after the raw
        id, unless the existence check finds the id; a rejected check
        rejects the call before anything is written. */
    method InsertAssertion(repository: string, assertionId: string, quads: set<string>) returns (result: Result<()>)
      requires repository in repositories
      modifies this
      ensures repositories == old(repositories)
      ensures old(AssertionExists(repository, assertionId)).Err? ==>
        && result == Err(old(AssertionExists(repository, assertionId)).error)
        && graphs == old(graphs) && updates == old(updates)
      ensures old(AssertionExists(repository, assertionId)) == Ok(true) ==>
        result == Ok(()) && graphs == old(graphs) && updates == old(updates)
      ensures old(AssertionExists(repository, assertionId)) == Ok(false) ==>
        && result == Ok(())
        && graphs == old(graphs)[repository := InsertData(old(Store(repository)), GraphName(assertionId), quads)]
        && updates == old(updates) + [InsertDataQuery(repository, GraphName(assertionId), quads)]
    {
      var found := AssertionExists(repository, assertionId);
      if found.Err? {
        return Err(found.error);
      }
      if !found.value {
        var graph := "assertion:" + assertionId;
        graphs := graphs[repository := InsertData(Store(repository), graph, quads)];
        updates := updates + [InsertDataQuery(repository, graph, quads)];
      }
      return Ok(());
    }

    /** `deleteAssertion`: drop the graph named after the raw id; a raw id
        that is not a valid IRI makes the query fail. */
    method DeleteAssertion(repository: string, assertionId: string) returns (result: Result<()>)
      requires repository in repositories
      modifies this
      ensures repositories == old(repositories)
      ensures !ValidIri(GraphName(assertionId)) ==>
        result == Err(QueryParseError(GraphName(assertionId))) && graphs == old(graphs) && updates == old(updates)
      ensures ValidIri(GraphName(assertionId)) ==>
        && result == Ok(())
        && graphs == old(graphs)[repository := DropGraph(old(Store(repository)), GraphName(assertionId))]
        && updates == old(updates) + [DropGraphQuery(repository, GraphName(assertionId))]
    {
      var graph := "assertion:" + assertionId;
      if !ValidIri(graph) {
        return Err(QueryParseError(graph));
      }
      graphs := graphs[repository := DropGraph(Store(repository), graph)];
      updates := updates + [DropGraphQuery(repository, graph)];
      return Ok(());
    }

    /** `getAssertion`: the quads of the graph named after the escaped id. */
    function GetAssertion(repository: string, assertionId: string): (quads: Result<set<string>>)
      requires repository in repositories
      reads this
      ensures quads.Ok? <==> AssertionExists(repository, assertionId).Ok?
      ensures quads.Ok? ==> (quads.value != {} <==> AssertionExists(repository, assertionId).value)
    {
      Construct(Store(repository), assertionId)
    }
  }
}
