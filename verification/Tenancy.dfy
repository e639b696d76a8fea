/** internal/tenancy: the (organization, site) pair every record belongs to. */
module Tenancy {
  import opened Text

  datatype Scope = Scope(organizationId: Bytes, siteId: Bytes) {
    predicate Valid() { ValidId(organizationId) && ValidId(siteId) }
  }

  datatype Agent = Agent(id: Bytes, scope: Scope) {
    predicate Valid() { ValidId(id) && scope.Valid() }
  }

  lemma TrimmedAgentIsValid(agent: Agent)
    requires agent.Valid()
    ensures Agent(TrimSpace(agent.id), agent.scope).Valid()
  {
    var id := agent.id;
    TrimSpaceIsTrimmed(id);
    TrimmedIsFixed(TrimSpace(id));
    BlankIsTrimmedAway(id);
    BlankIsTrimmedAway(TrimSpace(id));
    TrimLeftKeepsEnd(id);
  }

  /** Agent, organization and site each have an ID that is not blank, at most 128 bytes long, and without NUL. */
  lemma ValidExactlyWhen(agent: Agent)
    ensures agent.Valid() <==>
      forall id | id in [agent.id, agent.scope.organizationId, agent.scope.siteId] ::
        TrimSpace(id) != [] && |id| <= 128 && 0 !in id
  {
    hide TrimSpace, Blank;
    BlankIsTrimmedAway(agent.id);
    BlankIsTrimmedAway(agent.scope.organizationId);
    BlankIsTrimmedAway(agent.scope.siteId);
    var ids := [agent.id, agent.scope.organizationId, agent.scope.siteId];
    assert ids[0] in ids && ids[1] in ids && ids[2] in ids;
  }

  predicate ValidId(id: Bytes) { !Blank(id) && |id| <= 128 && 0 !in id }

  /** "org_default", "site_default" */
  const DEFAULT_SCOPE := Scope(
    [0x6F, 0x72, 0x67, 0x5F, 0x64, 0x65, 0x66, 0x61, 0x75, 0x6C, 0x74],
    [0x73, 0x69, 0x74, 0x65, 0x5F, 0x64, 0x65, 0x66, 0x61, 0x75, 0x6C, 0x74])
}
