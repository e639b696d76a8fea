/** internal/storage/postgres/enrollment_state.go: the shared authority and the token registry, each transaction
    one step, over any serial run of any number of hubs. */
module Enrollment {
  import opened Wrappers
  import opened Text
  import opened Tenancy
  import opened Clock

  /** The stored authority: its key, and when its own certificate holds. */
  datatype Root = Root(key: Bytes, notBefore: Time, notAfter: Time)

  /** A row of enrollment_tokens, keyed by the token's hash. */
  datatype Token = Token(scope: Scope, consumedBy: Option<Bytes>, revoked: bool)

  datatype Database = Database(sites: set<Scope>, authority: Option<Root>, tokens: map<Bytes, Token>,
      agents: map<Bytes, Scope>)

  predicate Live(t: Token) { t.consumedBy.None? && !t.revoked }

  datatype Move =
    | LoadOrCreate(candidate: Root)
    | Register(hash: Bytes, scope: Scope)
    | Consume(hash: Bytes, agentId: Bytes)

  /** The authority a hub gets. */
  function Loaded(db: Database, candidate: Root): Root {
    if db.authority.Some? then db.authority.value else candidate
  }

  /** `INSERT ... ON CONFLICT DO NOTHING`, and revocation of the scope's other live tokens. */
  function Registered(tokens: map<Bytes, Token>, hash: Bytes, scope: Scope): map<Bytes, Token> {
    map h | h in tokens.Keys + {hash} ::
      if h == hash then Token(scope, None, false)
      else if tokens[h].scope == scope && Live(tokens[h]) then tokens[h].(revoked := true)
      else tokens[h]
  }

  function ConsumeResult(db: Database, hash: Bytes, agentId: Bytes): Result<Agent> {
    if hash !in db.tokens then Err(ErrInvalidToken)
    else if db.tokens[hash].revoked then Err(ErrInvalidToken)
    else if db.tokens[hash].consumedBy.Some? then Err(ErrTokenConsumed)
    else if agentId in db.agents then Err(ErrDuplicateAgent)
    else Ok(Agent(agentId, db.tokens[hash].scope))
  }

  function Resolve(db: Database, agentId: Bytes): Result<Agent> {
    if agentId in db.agents then Ok(Agent(agentId, db.agents[agentId])) else Err(ErrNotFound)
  }

  function Apply(db: Database, m: Move): Database {
    match m
    case LoadOrCreate(candidate) => db.(authority := Some(Loaded(db, candidate)))
    case Register(hash, scope) =>
      if hash in db.tokens || scope !in db.sites then db else db.(tokens := Registered(db.tokens, hash, scope))
    case Consume(hash, agentId) =>
      if ConsumeResult(db, hash, agentId).Err? then db
      else db.(tokens := db.tokens[hash := db.tokens[hash].(consumedBy := Some(agentId))],
               agents := db.agents[agentId := db.tokens[hash].scope])
  }

  function Run(db: Database, moves: seq<Move>): Database {
    if moves == [] then db else Apply(Run(db, moves[..|moves| - 1]), moves[|moves| - 1])
  }

  // ---------------------------------------------------------------- what every run keeps

  ghost predicate RowsInv(db: Database) {
    && (forall h | h in db.tokens ::
          db.tokens[h].scope in db.sites && !(db.tokens[h].consumedBy.Some? && db.tokens[h].revoked))
    && (forall h | h in db.tokens && db.tokens[h].consumedBy.Some? ::
          db.tokens[h].consumedBy.value in db.agents && db.agents[db.tokens[h].consumedBy.value] == db.tokens[h].scope)
  }

  ghost predicate OneTokenPerAgent(tokens: map<Bytes, Token>) {
    forall g, h | g in tokens && h in tokens && tokens[g].consumedBy.Some?
      && tokens[g].consumedBy == tokens[h].consumedBy :: g == h
  }

  ghost predicate OneLivePerScope(tokens: map<Bytes, Token>) {
    forall g, h | g in tokens && h in tokens && Live(tokens[g]) && Live(tokens[h])
      && tokens[g].scope == tokens[h].scope :: g == h
  }

  ghost predicate RegistryInv(db: Database) { RowsInv(db) && OneTokenPerAgent(db.tokens) && OneLivePerScope(db.tokens) }

  /** Nothing that has been decided is undone. */
  ghost predicate Extends(old_: Database, db: Database) {
    && db.sites == old_.sites
    && (old_.authority.Some? ==> db.authority == old_.authority)
    && (forall h | h in old_.tokens ::
          && h in db.tokens && db.tokens[h].scope == old_.tokens[h].scope
          && (old_.tokens[h].consumedBy.Some? ==> db.tokens[h].consumedBy == old_.tokens[h].consumedBy)
          && (old_.tokens[h].revoked ==> db.tokens[h].revoked && db.tokens[h].consumedBy == old_.tokens[h].consumedBy))
    && (forall a | a in old_.agents :: a in db.agents && db.agents[a] == old_.agents[a])
  }

  /** What registration does to each row. */
  lemma RowOfRegistered(tokens: map<Bytes, Token>, hash: Bytes, scope: Scope, h: Bytes)
    requires hash !in tokens && h in tokens
    ensures var t := Registered(tokens, hash, scope)[h];
      && t.scope == tokens[h].scope && t.consumedBy == tokens[h].consumedBy
      && (tokens[h].revoked ==> t.revoked) && (t.consumedBy.Some? ==> t == tokens[h])
      && (Live(t) <==> Live(tokens[h]) && t.scope != scope)
  {}

  lemma RegisterKeeps(db: Database, hash: Bytes, scope: Scope)
    requires RegistryInv(db) && hash !in db.tokens && scope in db.sites
    ensures RegistryInv(Apply(db, Register(hash, scope))) && Extends(db, Apply(db, Register(hash, scope)))
  {
    hide Registered, Live;
    var rows := Registered(db.tokens, hash, scope);
    assert rows.Keys == db.tokens.Keys + {hash} && rows[hash] == Token(scope, None, false) by {
      NewRow(db.tokens, hash, scope);
    }
    forall h | h in db.tokens
      ensures rows[h].scope == db.tokens[h].scope && rows[h].consumedBy == db.tokens[h].consumedBy
      ensures (db.tokens[h].revoked ==> rows[h].revoked) && (rows[h].consumedBy.Some? ==> rows[h] == db.tokens[h])
      ensures Live(rows[h]) <==> Live(db.tokens[h]) && rows[h].scope != scope
    {
      RowOfRegistered(db.tokens, hash, scope, h);
    }
  }

  lemma NewRow(tokens: map<Bytes, Token>, hash: Bytes, scope: Scope)
    ensures Registered(tokens, hash, scope).Keys == tokens.Keys + {hash}
      && Registered(tokens, hash, scope)[hash] == Token(scope, None, false)
  {}

  lemma ConsumeKeeps(db: Database, hash: Bytes, agentId: Bytes)
    requires RegistryInv(db) && ConsumeResult(db, hash, agentId).Ok?
    ensures RegistryInv(Apply(db, Consume(hash, agentId))) && Extends(db, Apply(db, Consume(hash, agentId)))
  {
    var rows := Apply(db, Consume(hash, agentId)).tokens;
    assert forall h | h in db.tokens && h != hash :: rows[h] == db.tokens[h] && rows[h].consumedBy != Some(agentId);
    ConsumedPairs(db.tokens, rows, hash);
  }

  lemma ConsumedPairs(tokens: map<Bytes, Token>, rows: map<Bytes, Token>, hash: Bytes)
    requires OneTokenPerAgent(tokens) && OneLivePerScope(tokens) && hash in tokens && rows.Keys == tokens.Keys
    requires rows[hash].consumedBy.Some?
    requires forall h | h in tokens && h != hash :: rows[h] == tokens[h] && rows[h].consumedBy != rows[hash].consumedBy
    ensures OneTokenPerAgent(rows) && OneLivePerScope(rows)
  {}

  lemma ApplyKeeps(db: Database, m: Move)
    requires RegistryInv(db)
    ensures RegistryInv(Apply(db, m)) && Extends(db, Apply(db, m))
  {
    match m
    case LoadOrCreate(_) =>
    case Register(hash, scope) => if hash !in db.tokens && scope in db.sites { RegisterKeeps(db, hash, scope); }
    case Consume(hash, agentId) => if ConsumeResult(db, hash, agentId).Ok? { ConsumeKeeps(db, hash, agentId); }
  }

  lemma {:induction false} RunKeeps(db: Database, moves: seq<Move>)
    requires RegistryInv(db)
    ensures RegistryInv(Run(db, moves)) && Extends(db, Run(db, moves))
  {
    hide RegistryInv, Apply;
    if moves != [] {
      var before := Run(db, moves[..|moves| - 1]);
      RunKeeps(db, moves[..|moves| - 1]);
      ApplyKeeps(before, moves[|moves| - 1]);
    }
  }

  lemma {:induction false} RunOfConcat(db: Database, first: seq<Move>, rest: seq<Move>)
    ensures Run(db, first + rest) == Run(Run(db, first), rest)
  {
    if rest == [] {
      assert first + rest == first;
    } else {
      var n := |rest| - 1;
      RunOfConcat(db, first, rest[..n]);
      assert (first + rest)[..|first + rest| - 1] == first + rest[..n];
    }
  }

  // ---------------------------------------------------------------- the main results

  /** All hubs share the first authority stored: whatever two of them load in one run is the same. */
  lemma {:induction false} HubsShareOneAuthority(db: Database, before: seq<Move>, first: Root, between: seq<Move>,
      second: Root)
    requires RegistryInv(db)
    ensures var d1 := Run(db, before); var d2 := Run(Apply(d1, LoadOrCreate(first)), between);
      && Loaded(d2, second) == Loaded(d1, first)
      && Loaded(d1, first) == (if d1.authority == None then first else d1.authority.value)
  {
    var d1 := Run(db, before);
    RunKeeps(db, before);
    ApplyKeeps(d1, LoadOrCreate(first));
    RunKeeps(Apply(d1, LoadOrCreate(first)), between);
  }

  /** A token yields at most one agent, for ever: once consumed, every later attempt is told so. */
  lemma {:induction false} TokenYieldsOneAgent(db: Database, hash: Bytes, agentId: Bytes, rest: seq<Move>, other: Bytes)
    requires RegistryInv(db) && ConsumeResult(db, hash, agentId).Ok?
    ensures var later := Run(Apply(db, Consume(hash, agentId)), rest);
      && ConsumeResult(later, hash, other) == Err(ErrTokenConsumed)
      && Resolve(later, agentId) == Ok(Agent(agentId, db.tokens[hash].scope))
  {
    ApplyKeeps(db, Consume(hash, agentId));
    RunKeeps(Apply(db, Consume(hash, agentId)), rest);
  }

  /** A revoked token is never consumed. */
  lemma {:induction false} RevokedForEver(db: Database, hash: Bytes, rest: seq<Move>, agentId: Bytes)
    requires RegistryInv(db) && hash in db.tokens && db.tokens[hash].revoked
    ensures var later := Run(db, rest);
      ConsumeResult(later, hash, agentId) == Err(ErrInvalidToken) && hash in later.tokens
        && later.tokens[hash].consumedBy.None?
  {
    RunKeeps(db, rest);
  }

  /** A consumption, spelled out: when it is refused, and what it writes. */
  lemma ConsumeIsExact(db: Database, hash: Bytes, agentId: Bytes)
    ensures var (r, after) := (ConsumeResult(db, hash, agentId), Apply(db, Consume(hash, agentId)));
      if hash !in db.tokens || db.tokens[hash].revoked then r == Err(ErrInvalidToken) && after == db
      else if db.tokens[hash].consumedBy != None then r == Err(ErrTokenConsumed) && after == db
      else if agentId in db.agents then r == Err(ErrDuplicateAgent) && after == db
      else
        var scope := db.tokens[hash].scope;
        && r == Ok(Agent(agentId, scope))
        && after == Database(db.sites, db.authority, db.tokens[hash := Token(scope, Some(agentId), false)],
                             db.agents[agentId := scope])
  {}

  /** Registering a new token leaves it the one live token of its scope and touches no other scope and no consumed
      token; registering a known one changes nothing, even if it was revoked or belongs to another scope. */
  lemma RegisterIsExact(db: Database, hash: Bytes, scope: Scope)
    requires RegistryInv(db)
    ensures var after := Apply(db, Register(hash, scope));
      && (hash in db.tokens ==> after == db)
      && (hash !in db.tokens && scope in db.sites ==>
            && (forall h | h in after.tokens && after.tokens[h].scope == scope :: Live(after.tokens[h]) <==> h == hash)
            && (forall h | h in db.tokens && (db.tokens[h].scope != scope || db.tokens[h].consumedBy.Some?) ::
              after.tokens[h] == db.tokens[h])
            && after.agents == db.agents)
  {
    var after := Apply(db, Register(hash, scope));
    if hash !in db.tokens && scope in db.sites {
      assert after.tokens.Keys == db.tokens.Keys + {hash};
    }
  }

  /** An agent enrolled in a run has consumed exactly one token, and always resolves to that token's scope. */
  lemma {:induction false} AgentsComeFromTokens(db: Database, moves: seq<Move>, agentId: Bytes)
    requires RegistryInv(db) && agentId in Run(db, moves).agents && agentId !in db.agents
    ensures var after := Run(db, moves);
      exists h | h in after.tokens ::
        && after.tokens[h].consumedBy == Some(agentId)
          && Resolve(after, agentId) == Ok(Agent(agentId, after.tokens[h].scope))
        && forall g | g in after.tokens && after.tokens[g].consumedBy == Some(agentId) :: g == h
  {
    hide RegistryInv;
    var front := moves[..|moves| - 1];
    var before, m := Run(db, front), moves[|moves| - 1];
    RunKeeps(db, moves);
    RunKeeps(db, front);
    ApplyKeeps(before, m);
    if agentId in before.agents {
      AgentsComeFromTokens(db, front, agentId);
      var h :| h in before.tokens && before.tokens[h].consumedBy == Some(agentId);
      ConsumedOnce(Run(db, moves), h);
    } else {
      ConsumedOnce(Run(db, moves), m.hash);
    }
  }

  lemma ConsumedOnce(db: Database, h: Bytes)
    requires RegistryInv(db) && h in db.tokens && db.tokens[h].consumedBy.Some?
    ensures Resolve(db, db.tokens[h].consumedBy.value) == Ok(Agent(db.tokens[h].consumedBy.value, db.tokens[h].scope))
    ensures forall g | g in db.tokens && db.tokens[g].consumedBy == db.tokens[h].consumedBy :: g == h
  {}

  // ---------------------------------------------------------------- as written

  /** What goes wrong in a transaction, if anything: its first query; a later statement or the commit, and all is rolled
      back; or only the acknowledgement of the commit, and all of it has happened. */
  datatype Fault = NoFault | QueryFails | CommitFails | AnswerLost

  /** The answer of a transaction that commits exactly if it would have this result. */
  function Answer<T>(result: Result<T>, fault: Fault): Result<T> {
    if fault.QueryFails? || (result.Ok? && !fault.NoFault?) then Err(ErrIO) else result
  }

  /** The database after it. */
  function Done(db: Database, m: Move, committing: bool, fault: Fault): Database {
    if committing && (fault.NoFault? || fault.AnswerLost?) then Apply(db, m) else db
  }

  /** One PostgreSQL database. */
  class Store {
    const sites: set<Scope>
    var authority: Option<Root>
    var tokens: map<Bytes, Token>
    var agents: map<Bytes, Scope>

    function View(): Database
      reads this
    {
      Database(sites, authority, tokens, agents)
    }

    constructor (sites: set<Scope>)
      ensures View() == Database(sites, None, map[], map[])
    {
      this.sites := sites;
      authority, tokens, agents := None, map[], map[];
    }

    method LoadOrCreateEnrollmentAuthority(candidate: Root, fault: Fault) returns (r: Result<Root>)
      requires RegistryInv(View())
      modifies `authority
      ensures RegistryInv(View())
      ensures r == Answer(Ok(Loaded(old(View()), candidate)), fault)
      ensures View() == Done(old(View()), LoadOrCreate(candidate), true, fault)
    {
      hide RegistryInv;
      ApplyKeeps(View(), LoadOrCreate(candidate));
      if fault.QueryFails? { return Err(ErrIO); }
      var stored := authority;
      if stored.None? { stored := Some(candidate); }
      if fault.CommitFails? { return Err(ErrIO); }
      authority := stored;
      return if fault.AnswerLost? then Err(ErrIO) else Ok(stored.value);
    }

    /** A known token is acknowledged before there is anything to commit. */
    method RegisterEnrollmentToken(hash: Bytes, scope: Scope, fault: Fault) returns (r: Result<()>)
      requires RegistryInv(View())
      modifies `tokens
      ensures RegistryInv(View())
      ensures r ==
        if hash in old(tokens) then if fault.QueryFails? then Err(ErrIO) else Ok(())
        else Answer(if scope in sites then Ok(()) else Err(ErrIO), fault)
      ensures View() == Done(old(View()), Register(hash, scope), true, fault)
    {
      hide RegistryInv;
      ApplyKeeps(View(), Register(hash, scope));
      if fault.QueryFails? { return Err(ErrIO); }
      if hash in tokens { return Ok(()); }
      if scope !in sites { return Err(ErrIO); }
      var rows := tokens[hash := Token(scope, None, false)];
      var todo := tokens.Keys;
      while todo != {}
        invariant todo <= tokens.Keys && rows.Keys == tokens.Keys + {hash} && tokens == old(tokens)
        invariant rows[hash] == Token(scope, None, false)
        invariant forall h | h in tokens ::
          rows[h] ==
            if h !in todo && tokens[h].scope == scope && Live(tokens[h]) then tokens[h].(revoked := true) else tokens[h]
      {
        var h :| h in todo;
        if rows[h].scope == scope && Live(rows[h]) { rows := rows[h := rows[h].(revoked := true)]; }
        todo := todo - {h};
      }
      if fault.CommitFails? { return Err(ErrIO); }
      assert rows == Registered(tokens, hash, scope);
      tokens := rows;
      return if fault.AnswerLost? then Err(ErrIO) else Ok(());
    }

    method ConsumeEnrollmentToken(hash: Bytes, agentId: Bytes, fault: Fault) returns (r: Result<Agent>)
      requires RegistryInv(View())
      modifies `tokens, `agents
      ensures RegistryInv(View())
      ensures r == Answer(ConsumeResult(old(View()), hash, agentId), fault)
      ensures View() == Done(old(View()), Consume(hash, agentId), ConsumeResult(old(View()), hash, agentId).Ok?, fault)
    {
      hide RegistryInv;
      ApplyKeeps(View(), Consume(hash, agentId));
      if fault.QueryFails? { return Err(ErrIO); }
      if hash !in tokens { return Err(ErrInvalidToken); }
      var token := tokens[hash];
      if token.revoked { return Err(ErrInvalidToken); }
      if token.consumedBy.Some? { return Err(ErrTokenConsumed); }
      if agentId in agents { return Err(ErrDuplicateAgent); }
      if fault.CommitFails? { return Err(ErrIO); }
      agents := agents[agentId := token.scope];
      tokens := tokens[hash := token.(consumedBy := Some(agentId))];
      return if fault.AnswerLost? then Err(ErrIO) else Ok(Agent(agentId, token.scope));
    }

    method ResolveAgent(agentId: Bytes, fails: bool) returns (r: Result<Agent>)
      ensures r == if fails then Err(ErrIO) else Resolve(View(), agentId)
    {
      if fails { return Err(ErrIO); }
      if agentId !in agents { return Err(ErrNotFound); }
      return Ok(Agent(agentId, agents[agentId]));
    }
  }
}
