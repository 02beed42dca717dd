/**
 Specification of the credential broker and its capability store, at the granularity of their locks.

 A capability's digest is injective, so a stored digest is the capability itself. The vault, the execution
 verifier and the comparisons of identities and scopes are inputs.
 */
module CredentialModel {
  import opened Wrappers

  type Reference = int
  type Version = int
  type CapabilityId = int

  datatype Capability = Capability(
    id: CapabilityId,
    reference: Reference,
    execution: int,
    version: Version,
    issuedAt: int,
    expiresAt: int)

  /******* The capability store *******/

  datatype EntryState = Stored | Consumed | Revoked | Expired

  datatype Entry = Entry(capability: Capability, state: EntryState)

  type Items = map<CapabilityId, Entry>

  datatype Registration = Registered | Replay | Collision

  function Register(items: Items, limit: nat, c: Capability): (Items, Registration) {
    if c.id in items then (items, if items[c.id].capability == c then Replay else Collision)
    else if |items| >= limit then (items, Collision)
    else (items[c.id := Entry(c, Stored)], Registered)
  }

  datatype Consumption = Missing | WasRevoked | WasConsumed | TooLate | Taken

  function Consume(items: Items, c: Capability, now: int): (Items, Consumption) {
    if c.id !in items || items[c.id].capability != c then (items, Missing)
    else match items[c.id].state
      case Revoked => (items, WasRevoked)
      case Consumed => (items, WasConsumed)
      case _ =>
        if now >= c.expiresAt then (items[c.id := Entry(c, Expired)], TooLate)
        else (items[c.id := Entry(c, Consumed)], Taken)
  }

  /** What is still stored for a reference. */
  function StoredUnder(items: Items, r: Reference): set<CapabilityId> {
    set i | i in items && items[i].capability.reference == r && items[i].state == Stored
  }

  function RevokeReference(items: Items, r: Reference): Items {
    map i | i in items ::
      if items[i].capability.reference == r && items[i].state == Stored then items[i].(state := Revoked) else items[i]
  }

  /******* The broker *******/

  datatype Binding = Binding(maxTtl: int, active: bool)

  datatype Policy = Policy(bindings: map<Reference, Binding>, limit: nat)

  /** `matches`: broker, scope and integrity all agree with the policy. */
  datatype Execution = Execution(digest: int, issuedAt: int, expiresAt: int, matches: bool, verified: bool)

  predicate ExecutionCurrent(x: Execution, now: int) {
    x.issuedAt <= now < x.expiresAt
  }

  /** A lifetime of zero counts as none requested. */
  function Lifetime(b: Binding, ttl: Option<int>): int {
    if ttl.None? || ttl.value == 0 then b.maxTtl else ttl.value
  }

  predicate IssueOk(p: Policy, r: Reference, x: Execution, ttl: Option<int>, now: int) {
    && r in p.bindings && p.bindings[r].active
    && x.matches && ExecutionCurrent(x, now) && x.verified
    && 1 <= Lifetime(p.bindings[r], ttl) <= p.bindings[r].maxTtl
  }

  function Expiry(b: Binding, x: Execution, ttl: Option<int>, now: int): int {
    if now + Lifetime(b, ttl) < x.expiresAt then now + Lifetime(b, ttl) else x.expiresAt
  }

  predicate ResolveOk(c: Capability, x: Execution, intact: bool, now: int) {
    && intact
    && c.execution == x.digest
    && x.matches && ExecutionCurrent(x, now) && x.verified
    && c.issuedAt <= now < c.expiresAt
  }

  /** What a call in progress has learnt; one that is fetching has used its capability up. */
  datatype Call =
    | Issuing(draft: Capability)
    | Resolving(capability: Capability, now: int)
    | Fetching(taken: Capability)
    | Withdrawing(reference: Reference)

  datatype State = State(
    items: Items,
    versions: map<Reference, Version>,
    withdrawn: set<Reference>,
    calls: map<int, Call>)

  function Initial(versions: map<Reference, Version>): State {
    State(map[], versions, {}, map[])
  }

  predicate Current(s: State, r: Reference, v: Version) {
    r !in s.withdrawn && r in s.versions && s.versions[r] == v
  }

  /**
   The locked sections, and the reading of the vault. `StartIssue` and `StartResolve` read the broker's tables;
   `FinishIssue` and `Take` act on the store; `Fetch` then asks the vault, which answers with some version;
   `StartRevoke` and `StartRotate` change the tables and `FinishWithdraw` reaches the store.
   */
  datatype Step =
    | StartIssue(t: int, reference: Reference, execution: Execution, ttl: Option<int>, now: int)
    | FinishIssue(t: int, id: CapabilityId, vaultVersion: Option<Version>)
    | StartResolve(t: int, capability: Capability, execution: Execution, intact: bool, now: int)
    | Take(t: int)
    | Fetch(t: int, vaultVersion: Option<Version>)
    | StartRevoke(t: int, reference: Reference)
    | StartRotate(t: int, reference: Reference, version: Version)
    | FinishWithdraw(t: int)

  /** A resolution first uses its capability up, and then hands out material if the vault has its version. */
  datatype Outcome = Nothing | Issued(capability: Capability) | UsedUp(taken: Capability) | HandedOut(material: Capability)

  function Begin(s: State, t: int, c: Call): State {
    s.(calls := s.calls[t := c])
  }

  function End(s: State, t: int): State {
    s.(calls := s.calls - {t})
  }

  function Apply(p: Policy, s: State, step: Step): (State, Outcome) {
    match step
    case StartIssue(t, r, x, ttl, now) =>
      if t !in s.calls && IssueOk(p, r, x, ttl, now) && r !in s.withdrawn && r in s.versions then
        (Begin(s, t, Issuing(Capability(0, r, x.digest, s.versions[r], now, Expiry(p.bindings[r], x, ttl, now)))), Nothing)
      else
        (s, Nothing)
    case FinishIssue(t, id, vaultVersion) =>
      if t in s.calls && s.calls[t].Issuing? then
        var c := s.calls[t].draft.(id := id);
        var (items, result) := Register(s.items, p.limit, c);
        if vaultVersion == Some(c.version) && result == Registered
          then (End(s, t).(items := items), Issued(c))
          else (End(s, t), Nothing)
      else
        (s, Nothing)
    case StartResolve(t, c, x, intact, now) =>
      if t !in s.calls && ResolveOk(c, x, intact, now) && Current(s, c.reference, c.version) then
        (Begin(s, t, Resolving(c, now)), Nothing)
      else
        (s, Nothing)
    case Take(t) =>
      if t in s.calls && s.calls[t].Resolving? then
        var c := s.calls[t].capability;
        var (items, result) := Consume(s.items, c, s.calls[t].now);
        if result == Taken
          then (Begin(s, t, Fetching(c)).(items := items), UsedUp(c))
          else (End(s, t).(items := items), Nothing)
      else
        (s, Nothing)
    case Fetch(t, vaultVersion) =>
      if t in s.calls && s.calls[t].Fetching? then
        var c := s.calls[t].taken;
        (End(s, t), if vaultVersion == Some(c.version) then HandedOut(c) else Nothing)
      else
        (s, Nothing)
    case StartRevoke(t, r) =>
      if t in s.calls then (s, Nothing)
      else (Begin(s, t, Withdrawing(r)).(withdrawn := s.withdrawn + {r}), Nothing)
    case StartRotate(t, r, v) =>
      if t in s.calls || r !in p.bindings then (s, Nothing)
      else (Begin(s, t, Withdrawing(r)).(withdrawn := s.withdrawn - {r}, versions := s.versions[r := v]), Nothing)
    case FinishWithdraw(t) =>
      if t in s.calls && s.calls[t].Withdrawing?
        then (End(s, t).(items := RevokeReference(s.items, s.calls[t].reference)), Nothing)
        else (s, Nothing)
  }

  function Run(p: Policy, s: State, run: seq<Step>): State {
    if run == [] then s else Apply(p, Run(p, s, run[..|run| - 1]), run[|run| - 1]).0
  }

  function OutcomeAt(p: Policy, s: State, run: seq<Step>, i: nat): Outcome
    requires i < |run|
  {
    Apply(p, Run(p, s, run[..i]), run[i]).1
  }
}
