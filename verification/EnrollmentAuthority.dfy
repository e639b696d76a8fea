/** internal/enrollment/authority.go over the registry: enrolling, renewing and authenticating agents. A signature
    is ideal: a certificate names the key that issued it. */
module EnrollmentAuthority {
  import opened Wrappers
  import opened Text
  import opened Tenancy
  import opened Clock
  import opened Enrollment

  datatype Certificate = Certificate(issuer: Bytes, agentId: Bytes, system: Bytes, publicKey: Bytes, notBefore: Time,
      notAfter: Time)

  /** `csr` is the public key of a well-formed certificate request, if it is one. */
  datatype Request = Request(token: Bytes, name: Bytes, operatingSystem: Bytes, csr: Option<Bytes>)

  const MINUTE: int := 60 * SECOND
  const CERTIFICATE_LIFETIME: int := 24 * 60 * MINUTE

  /** `strings.ToLower` on ASCII. */
  function Lower(s: Bytes): Bytes { seq(|s|, i requires 0 <= i < |s| => LowerByte(s[i])) }

  predicate SupportedOS(value: Bytes) {
    Lower(TrimSpace(value)) == Ascii("linux") || Lower(TrimSpace(value)) == Ascii("windows")
  }

  lemma LowerReads(text: Bytes, name: string)
    requires forall i | 0 <= i < |name| :: 'a' <= name[i] <= 'z'
    ensures Lower(text) == Ascii(name) <==> Reads(text, name)
  {
    if Lower(text) == Ascii(name) {
      forall i | 0 <= i < |name| ensures text[i] == name[i] as int || text[i] == name[i] as int - 32 {
        assert Lower(text)[i] == Ascii(name)[i];
      }
    }
  }

  lemma SystemsRead(value: Bytes)
    ensures SupportedOS(value) <==> Reads(TrimSpace(value), "linux") || Reads(TrimSpace(value), "windows")
  {
    hide TrimSpace, Lower, Reads;
    LowerReads(TrimSpace(value), "linux");
    LowerReads(TrimSpace(value), "windows");
  }

  predicate ValidRequest(r: Request) { r.csr.Some? && TrimSpace(r.name) != [] && SupportedOS(r.operatingSystem) }

  function Issue(key: Bytes, agentId: Bytes, system: Bytes, publicKey: Bytes, now: Time): Certificate {
    Certificate(key, agentId, system, publicKey, now - MINUTE, now + CERTIFICATE_LIFETIME)
  }

  /** The certificate and the root's own must both hold. */
  function Authenticate(root: Root, peer: Option<Certificate>, now: Time): Result<Bytes> {
    if peer.None? || peer.value.issuer != root.key || peer.value.agentId == []
      || !(peer.value.notBefore <= now <= peer.value.notAfter) || !(root.notBefore <= now <= root.notAfter) then
      Err(ErrInvalidIdentity)
    else Ok(peer.value.agentId)
  }

  function AuthenticateIn(db: Database, root: Root, peer: Option<Certificate>, now: Time): Result<Agent> {
    var id := Authenticate(root, peer, now);
    if id.Err? then Err(id.error)
    else
      var agent := Resolve(db, id.value);
      if agent.Err? || !agent.value.Valid() then Err(ErrInvalidIdentity) else agent
  }

  /** `defect` is why no certificate can be made, if so: no serial number can be drawn, or signing fails. */
  function Renewed(
    db: Database, root: Root, peer: Option<Certificate>, csr: Option<Bytes>, now: Time, defect: Option<Error>)
    : Result<Certificate>
  {
    if csr.None? || peer.None? then Err(ErrInvalidIdentity)
    else
      var agent := AuthenticateIn(db, root, peer, now);
      if agent.Err? then Err(agent.error)
      else if defect.Some? then Err(defect.value)
      else Ok(Issue(root.key, agent.value.id, peer.value.system, csr.value, now))
  }

  lemma IdIsNotEmpty(id: Bytes)
    requires ValidId(id)
    ensures id != []
  {}

  /** A renewal request: when, and for which key. */
  datatype Renewal = Renewal(now: Time, csr: Option<Bytes>, defect: Option<Error>)

  /** The certificate held after a number of renewals, while the registry goes on changing. */
  function AfterRenewals(db: Database, root: Root, first: Certificate, history: seq<seq<Move>>,
      renewals: seq<Renewal>): Result<(Database, Certificate)>
    requires |history| == |renewals|
  {
    if renewals == [] then Ok((db, first))
    else
      var n := |renewals| - 1;
      var before := AfterRenewals(db, root, first, history[..n], renewals[..n]);
      if before.Err? then before
      else
        var now := Run(before.value.0, history[n]);
        var r := renewals[n];
        var next := Renewed(now, root, Some(before.value.1), r.csr, r.now, r.defect);
        if next.Err? then Err(next.error) else Ok((now, next.value))
  }

  /** However often it renews, and whatever the registry goes through meanwhile, an agent stays the agent it was
      enrolled as. */
  lemma {:induction false} RenewalKeepsTheAgent(db: Database, root: Root, first: Certificate, history: seq<seq<Move>>,
      renewals: seq<Renewal>)
    requires |history| == |renewals| && AfterRenewals(db, root, first, history, renewals).Ok?
    requires RegistryInv(db) && first.issuer == root.key && first.agentId in db.agents
    ensures var (now, last) := AfterRenewals(db, root, first, history, renewals).value;
      && RegistryInv(now) && Extends(db, now)
      && last.issuer == root.key && last.agentId == first.agentId && last.system == first.system
      && Resolve(now, last.agentId) == Ok(Agent(first.agentId, db.agents[first.agentId]))
      && (renewals != [] ==> Agent(first.agentId, db.agents[first.agentId]).Valid())
  {
    hide RegistryInv, Run, ValidId;
    if renewals != [] {
      var n := |renewals| - 1;
      RenewalKeepsTheAgent(db, root, first, history[..n], renewals[..n]);
      var before := AfterRenewals(db, root, first, history[..n], renewals[..n]).value;
      RunKeeps(before.0, history[n]);
    }
  }

  // ---------------------------------------------------------------- enrolling, with faults

  type Hash = Bytes -> Bytes

  /** One enrollment: what the agent gets, and the database after it. `agentId` is what drawing an ID yields; the
      certificate is made before the token is touched. */
  function Enrolled(
    db: Database, root: Root, hash: Hash, request: Request, agentId: Result<Bytes>, defect: Option<Error>, now: Time,
    fault: Fault) : (Result<Certificate>, Database)
  {
    if !ValidRequest(request) then (Err(ErrInvalidRequest), db)
    else if agentId.Err? then (Err(agentId.error), db)
    else if defect.Some? then (Err(defect.value), db)
    else
      var h := hash(request.token);
      var consumed := ConsumeResult(db, h, agentId.value);
      (if Answer(consumed, fault).Err? then Err(Answer(consumed, fault).error)
       else Ok(Issue(root.key, agentId.value, Lower(request.operatingSystem), request.csr.value, now)),
       Done(db, Consume(h, agentId.value), consumed.Ok?, fault))
  }

  /** The certificate an enrollment hands out is the drawn agent's, for the key and system of its request, for a day;
      and at every hub and in every later state of the run it is accepted, exactly while it and the authority's own
      hold, as this agent in the scope of its token. */
  lemma EnrolledIsKnownEverywhere(
    db: Database, root: Root, hash: Hash, request: Request, agentId: Result<Bytes>, defect: Option<Error>, at: Time,
    fault: Fault, rest: seq<Move>, candidate: Root, now: Time)
    requires RegistryInv(db) && db.authority == Some(root)
    requires Enrolled(db, root, hash, request, agentId, defect, at, fault).0.Ok?
    ensures var (r, after) := Enrolled(db, root, hash, request, agentId, defect, at, fault);
      var (certificate, later) := (r.value, Run(after, rest));
      && agentId == Ok(certificate.agentId) && request.csr == Some(certificate.publicKey)
      && |certificate.system| == |request.operatingSystem|
      && (forall i | 0 <= i < |certificate.system| ::
            var b: int := request.operatingSystem[i];
            certificate.system[i] as int == if 'A' as int <= b <= 'Z' as int then b + 32 else b)
      && certificate.notBefore == at - 60 * SECOND && certificate.notAfter == at + 24 * 3600 * SECOND
      && hash(request.token) in db.tokens
      && var agent := Agent(certificate.agentId, db.tokens[hash(request.token)].scope);
         AuthenticateIn(later, Loaded(later, candidate), Some(certificate), now) ==
           if agent.Valid() && certificate.notBefore <= now <= certificate.notAfter
             && root.notBefore <= now <= root.notAfter then Ok(agent) else Err(ErrInvalidIdentity)
  {
    hide RegistryInv, Run, ValidId, Enrolled, Apply, Extends;
    var h := hash(request.token);
    CertificateOf(db, root, hash, request, agentId, defect, at, fault);
    ApplyKeeps(db, Consume(h, agentId.value));
    RunKeeps(Apply(db, Consume(h, agentId.value)), rest);
    TokenYieldsOneAgent(db, h, agentId.value, rest, agentId.value);
    AuthoritySurvives(db, h, agentId.value, rest, candidate);
    if Agent(agentId.value, db.tokens[h].scope).Valid() { IdIsNotEmpty(agentId.value); }
  }

  lemma CertificateOf(
    db: Database, root: Root, hash: Hash, request: Request, agentId: Result<Bytes>, defect: Option<Error>, at: Time,
    fault: Fault)
    requires Enrolled(db, root, hash, request, agentId, defect, at, fault).0.Ok?
    ensures var (r, after) := Enrolled(db, root, hash, request, agentId, defect, at, fault);
      && agentId.Ok? && request.csr.Some? && hash(request.token) in db.tokens
      && ConsumeResult(db, hash(request.token), agentId.value).Ok?
      && after == Apply(db, Consume(hash(request.token), agentId.value))
      && r.value == Certificate(root.key, agentId.value, Lower(request.operatingSystem), request.csr.value,
                                at - 60 * SECOND, at + 24 * 3600 * SECOND)
  {
    hide Lower, TrimSpace, SupportedOS, Apply;
  }

  lemma AuthoritySurvives(db: Database, h: Bytes, agentId: Bytes, rest: seq<Move>, candidate: Root)
    requires RegistryInv(db) && db.authority.Some?
    ensures Loaded(Run(Apply(db, Consume(h, agentId)), rest), candidate) == db.authority.value
  {
    hide RegistryInv, Run;
    ApplyKeeps(db, Consume(h, agentId));
    RunKeeps(Apply(db, Consume(h, agentId)), rest);
  }

  /** Who a certificate authenticates, if anyone. */
  lemma AuthenticatedExactly(db: Database, root: Root, peer: Option<Certificate>, now: Time)
    ensures AuthenticateIn(db, root, peer, now) ==
      if peer.Some? && peer.value.issuer == root.key && peer.value.agentId != []
        && peer.value.notBefore <= now <= peer.value.notAfter && root.notBefore <= now <= root.notAfter
        && peer.value.agentId in db.agents && Agent(peer.value.agentId, db.agents[peer.value.agentId]).Valid()
      then Ok(Agent(peer.value.agentId, db.agents[peer.value.agentId])) else Err(ErrInvalidIdentity)
  {
    hide ValidId;
  }

  /** A renewal is granted to whom the old certificate authenticates: for the new key, with the same agent and system,
      and for a day from now. */
  lemma RenewedExactly(db: Database, root: Root, peer: Option<Certificate>, csr: Option<Bytes>, now: Time,
      defect: Option<Error>)
    ensures var r := Renewed(db, root, peer, csr, now, defect);
      && (r.Ok? <==> csr.Some? && defect.None? && AuthenticateIn(db, root, peer, now).Ok?)
      && (r.Ok? ==> peer.Some? && r.value == peer.value.(
           issuer := root.key, publicKey := csr.value, notBefore := now - 60 * SECOND,
           notAfter := now + 24 * 3600 * SECOND))
      && (csr.None? || AuthenticateIn(db, root, peer, now).Err? ==> r == Err(ErrInvalidIdentity))
  {
    hide ValidId;
  }

  predicate Used(db: Database, h: Bytes) { h in db.tokens && db.tokens[h].consumedBy.Some? }

  /** A certificate is handed out exactly when the token is consumed, but for one case: an enrollment uses its token up
      without one exactly if everything is in order and only the acknowledgement of the commit is lost. */
  lemma TokenUsedUpExactlyWhen(
    db: Database, root: Root, hash: Hash, request: Request, agentId: Result<Bytes>, defect: Option<Error>, now: Time,
    fault: Fault)
    ensures var ((r, after), h) :=
        (Enrolled(db, root, hash, request, agentId, defect, now, fault), hash(request.token));
      var system := TrimSpace(request.operatingSystem);
      var inOrder :=
        && request.csr.Some? && TrimSpace(request.name) != [] && (Reads(system, "linux") || Reads(system, "windows"))
        && agentId.Ok? && defect.None?
        && h in db.tokens && !db.tokens[h].revoked && db.tokens[h].consumedBy.None? && agentId.value !in db.agents;
      && (r.Ok? <==> inOrder && fault.NoFault?)
      && (r.Err? && Used(after, h) && !Used(db, h) <==> inOrder && fault.AnswerLost?)
      && (r.Err? && after != db <==> inOrder && fault.AnswerLost?)
  {
    hide Lower, TrimSpace, SupportedOS, Reads;
    SystemsRead(request.operatingSystem);
    if agentId.Ok? && ConsumeResult(db, hash(request.token), agentId.value).Ok? {
      var h := hash(request.token);
      assert h in db.tokens && !Used(db, h) && Used(Apply(db, Consume(h, agentId.value)), h);
    }
  }

  /** Such a token is lost: no certificate is ever issued for it, at any hub and whatever happens in between. */
  lemma UsedUpForEver(
    db: Database, root: Root, hash: Hash, request: Request, agentId: Bytes, now: Time,
    rest: seq<Move>, again: Request, other: Result<Bytes>, defect: Option<Error>, at: Time, fault: Fault)
    requires RegistryInv(db) && ConsumeResult(db, hash(request.token), agentId).Ok?
    requires hash(again.token) == hash(request.token)
    ensures ValidRequest(request) ==>
      var lost := Enrolled(db, root, hash, request, Ok(agentId), None, now, AnswerLost);
      var later := Run(lost.1, rest);
      var (r, after) := Enrolled(later, root, hash, again, other, defect, at, fault);
      && lost.0 == Err(ErrIO) && r.Err? && after == later
      && (ValidRequest(again) && other.Ok? && defect.None? && !fault.QueryFails? ==> r == Err(ErrTokenConsumed))
  {
    hide ValidRequest, Lower, RegistryInv, Run, ConsumeResult;
    TokenYieldsOneAgent(db, hash(request.token), agentId, rest, if other.Ok? then other.value else []);
  }

  /** The failure is real: a token newly registered in a database without others. */
  lemma LostAnswerInstance(scope: Scope, root: Root, hash: Hash, request: Request, agentId: Bytes, now: Time)
    ensures var db := Apply(Database({scope}, Some(root), map[], map[]), Register(hash(request.token), scope));
      && RegistryInv(db) && ConsumeResult(db, hash(request.token), agentId).Ok?
      && var (r, after) := Enrolled(db, root, hash, request, Ok(agentId), None, now, AnswerLost);
         ValidRequest(request) ==> r == Err(ErrIO) && Used(after, hash(request.token))
  {
    hide ValidRequest, Lower;
    var empty := Database({scope}, Some(root), map[], map[]);
    assert RegistryInv(empty);
    ApplyKeeps(empty, Register(hash(request.token), scope));
  }

  // ---------------------------------------------------------------- as written

  class Authority {
    const root: Root
    const hash: Hash
    const tokens: Store

    constructor (root: Root, hash: Hash, tokens: Store)
      ensures this.root == root && this.hash == hash && this.tokens == tokens
    {
      this.root, this.hash, this.tokens := root, hash, tokens;
    }

    /** The certificate is made first and handed out only if the token could be consumed. */
    method EnrollContext(request: Request, agentId: Result<Bytes>, defect: Option<Error>, now: Time, fault: Fault)
      returns (r: Result<Certificate>)
      requires RegistryInv(tokens.View())
      modifies tokens
      ensures RegistryInv(tokens.View())
      ensures (r, tokens.View()) == Enrolled(old(tokens.View()), root, hash, request, agentId, defect, now, fault)
    {
      hide RegistryInv, TrimSpace, SupportedOS, Apply;
      if request.csr.None? || TrimSpace(request.name) == [] || !SupportedOS(request.operatingSystem) {
        return Err(ErrInvalidRequest);
      }
      if agentId.Err? { return Err(agentId.error); }
      if defect.Some? { return Err(defect.value); }
      var certificate := Issue(root.key, agentId.value, Lower(request.operatingSystem), request.csr.value, now);
      var consumed := tokens.ConsumeEnrollmentToken(hash(request.token), agentId.value, fault);
      if consumed.Err? { return Err(consumed.error); }
      return Ok(certificate);
    }

    /** A registry that cannot be read authenticates nobody. */
    method AuthenticateContext(peer: Option<Certificate>, now: Time, fails: bool) returns (r: Result<Agent>)
      ensures r == if fails then Err(ErrInvalidIdentity) else AuthenticateIn(tokens.View(), root, peer, now)
    {
      hide ValidId;
      var id := Authenticate(root, peer, now);
      if id.Err? { return Err(id.error); }
      var agent := tokens.ResolveAgent(id.value, fails);
      if agent.Err? || agent.value.id != id.value || !agent.value.Valid() { return Err(ErrInvalidIdentity); }
      return agent;
    }

    method RenewContext(
      peer: Option<Certificate>, csr: Option<Bytes>, now: Time, fails: bool, defect: Option<Error>)
      returns (r: Result<Certificate>)
      ensures r == if fails then Err(ErrInvalidIdentity) else Renewed(tokens.View(), root, peer, csr, now, defect)
    {
      hide ValidId;
      if csr.None? || peer.None? { return Err(ErrInvalidIdentity); }
      var agent := AuthenticateContext(peer, now, fails);
      if agent.Err? { return Err(agent.error); }
      if defect.Some? { return Err(defect.value); }
      return Ok(Issue(root.key, agent.value.id, peer.value.system, csr.value, now));
    }
  }

  /** NewPersistentAuthority: one hub's start. `candidate` is what generating an authority yields. */
  method NewPersistentAuthority(
    token: Bytes, scope: Scope, candidate: Result<Root>, hash: Hash, store: Store, loading: Fault, registering: Fault)
    returns (r: Result<Authority>)
    requires RegistryInv(store.View())
    modifies store
    ensures RegistryInv(store.View())
    ensures TrimSpace(token) == [] ==> r == Err(ErrInvalidToken)
    ensures TrimSpace(token) != [] && !scope.Valid() ==> r == Err(ErrInvalidScope)
    ensures TrimSpace(token) != [] && scope.Valid() && candidate.Err? ==> r == Err(candidate.error)
    ensures TrimSpace(token) == [] || !scope.Valid() || candidate.Err? ==> store.View() == old(store.View())
    ensures TrimSpace(token) != [] && scope.Valid() && candidate.Ok? ==>
      var loaded := Done(old(store.View()), LoadOrCreate(candidate.value), true, loading);
      if !loading.NoFault? then r == Err(ErrIO) && store.View() == loaded
      else
        && store.View() == Done(loaded, Register(hash(token), scope), true, registering)
        && (r.Ok? <==> if hash(token) in old(store.tokens) then !registering.QueryFails?
                       else registering.NoFault? && scope in store.sites)
        && (r.Err? ==> r.error == ErrIO)
    ensures r.Ok? ==>
      && r.value.root == Loaded(old(store.View()), candidate.value) && store.authority == Some(r.value.root)
      && r.value.tokens == store && r.value.hash == hash && fresh(r.value)
  {
    hide RegistryInv, TrimSpace, ValidId, Registered;
    if TrimSpace(token) == [] { return Err(ErrInvalidToken); }
    if !scope.Valid() { return Err(ErrInvalidScope); }
    if candidate.Err? { return Err(candidate.error); }
    var state := store.LoadOrCreateEnrollmentAuthority(candidate.value, loading);
    if state.Err? { return Err(state.error); }
    var registered := store.RegisterEnrollmentToken(hash(token), scope, registering);
    if registered.Err? { return Err(registered.error); }
    var authority := new Authority(state.value, hash, store);
    return Ok(authority);
  }

  /** memoryTokenStore behaves as a registry holding one token of the default scope. */
  class MemoryTokenStore {
    const bootstrapHash: Bytes
    var consumed: bool
    var agents: map<Bytes, Agent>
    ghost var consumer: Bytes

    ghost predicate Valid()
      reads this
    {
      agents == if consumed then map[consumer := Agent(consumer, DEFAULT_SCOPE)] else map[]
    }

    ghost function View(): Database
      reads this
    {
      Database({DEFAULT_SCOPE}, None,
               map[bootstrapHash := Token(DEFAULT_SCOPE, if consumed then Some(consumer) else None, false)],
               map id | id in agents :: agents[id].scope)
    }

    constructor (bootstrapHash: Bytes)
      ensures Valid() && View()
        == Apply(Database({DEFAULT_SCOPE}, None, map[], map[]), Register(bootstrapHash, DEFAULT_SCOPE))
    {
      this.bootstrapHash := bootstrapHash;
      consumed, agents, consumer := false, map[], [];
    }

    method ConsumeEnrollmentToken(hash: Bytes, agentId: Bytes) returns (r: Result<Agent>)
      requires Valid()
      modifies this
      ensures Valid() && r == ConsumeResult(old(View()), hash, agentId)
        && View() == Apply(old(View()), Consume(hash, agentId))
    {
      if hash != bootstrapHash { return Err(ErrInvalidToken); }
      if consumed { return Err(ErrTokenConsumed); }
      var agent := Agent(agentId, DEFAULT_SCOPE);
      agents := agents[agentId := agent];
      consumed := true;
      consumer := agentId;
      return Ok(agent);
    }

    method ResolveAgent(agentId: Bytes) returns (r: Result<Agent>)
      requires Valid()
      ensures r == Resolve(View(), agentId)
    {
      if agentId !in agents { return Err(ErrNotFound); }
      return Ok(agents[agentId]);
    }
  }
}
