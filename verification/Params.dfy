/** The records of params/params.go, with the fields the modelled code reads. */
module Params {
  import opened Decimal
  import opened Wrappers

  datatype Forge = Github | Gitea | OtherForge

  datatype Endpoint = Endpoint(name: string, url: string)

  /** `reset` is the Unix time of the reset; 0 means it was not reported. */
  datatype RateLimit = RateLimit(limit: Int64, used: Int64, remaining: Int64, reset: Int64)

  datatype Credentials = Credentials(
    id: nat,
    forge: Forge,
    endpoint: Endpoint,
    reserveUsageEnabled: bool,
    reserveUsagePercentage: Int64,
    rateLimit: Option<RateLimit>,
    secret: string)

  datatype ForgeEntity = ForgeEntity(id: string, createdAt: int, credentials: Credentials)

  datatype Pool = Pool(
    id: string,
    repoId: string,
    orgId: string,
    enterpriseId: string,
    forgeInstanceId: string,
    createdAt: int,
    tags: seq<string>)

  datatype ScaleSet = ScaleSet(
    id: nat,
    repoId: string,
    orgId: string,
    enterpriseId: string,
    name: string,
    tags: seq<string>)

  datatype Instance = Instance(name: string, poolId: string, scaleSetId: nat, createdAt: int)

  function PoolId(p: Pool): string { p.id }

  function ScaleSetId(s: ScaleSet): nat { s.id }

  /** The ID that Pool.GetEntity returns, if any. */
  function PoolOwner(p: Pool): (r: Option<string>)
    ensures r.Some? ==> r.value != ""
  {
    if p.repoId != "" then Some(p.repoId)
    else if p.orgId != "" then Some(p.orgId)
    else if p.enterpriseId != "" then Some(p.enterpriseId)
    else if p.forgeInstanceId != "" then Some(p.forgeInstanceId)
    else None
  }

  /** The ID that ScaleSet.GetEntity returns, if any; scale sets have no forge instance. */
  function ScaleSetOwner(s: ScaleSet): (r: Option<string>)
    ensures r.Some? ==> r.value != ""
  {
    if s.repoId != "" then Some(s.repoId)
    else if s.orgId != "" then Some(s.orgId)
    else if s.enterpriseId != "" then Some(s.enterpriseId)
    else None
  }

  /** The first ID that is set. */
  function FirstSet(ids: seq<string>): Option<string> {
    if ids == [] then None else if ids[0] != "" then Some(ids[0]) else FirstSet(ids[1..])
  }

  /** A pool belongs to its repository, else its organization, else its enterprise, else its forge instance. */
  lemma PoolOwnerIsFirstSet(p: Pool)
    ensures PoolOwner(p) == FirstSet([p.repoId, p.orgId, p.enterpriseId, p.forgeInstanceId])
  {
    assert [p.repoId, p.orgId, p.enterpriseId, p.forgeInstanceId] == [p.repoId] + [p.orgId, p.enterpriseId, p.forgeInstanceId];
    assert [p.orgId, p.enterpriseId, p.forgeInstanceId] == [p.orgId] + [p.enterpriseId, p.forgeInstanceId];
    assert [p.enterpriseId, p.forgeInstanceId] == [p.enterpriseId] + [p.forgeInstanceId];
    assert [p.forgeInstanceId] == [p.forgeInstanceId] + [];
    FirstSetUnfolds(p.repoId, [p.orgId, p.enterpriseId, p.forgeInstanceId]);
    FirstSetUnfolds(p.orgId, [p.enterpriseId, p.forgeInstanceId]);
    FirstSetUnfolds(p.enterpriseId, [p.forgeInstanceId]);
    FirstSetUnfolds(p.forgeInstanceId, []);
  }

  lemma FirstSetUnfolds(id: string, rest: seq<string>)
    ensures FirstSet([id] + rest) == if id != "" then Some(id) else FirstSet(rest)
  {
    assert ([id] + rest)[1..] == rest;
  }

  /** A scale set belongs to its repository, else its organization, else its enterprise. */
  lemma ScaleSetOwnerIsFirstSet(s: ScaleSet)
    ensures ScaleSetOwner(s) == FirstSet([s.repoId, s.orgId, s.enterpriseId])
  {
    assert [s.repoId, s.orgId, s.enterpriseId] == [s.repoId] + [s.orgId, s.enterpriseId];
    assert [s.orgId, s.enterpriseId] == [s.orgId] + [s.enterpriseId] && [s.enterpriseId] == [s.enterpriseId] + [];
    FirstSetUnfolds(s.repoId, [s.orgId, s.enterpriseId]);
    FirstSetUnfolds(s.orgId, [s.enterpriseId]);
    FirstSetUnfolds(s.enterpriseId, []);
  }
}
