/**
 Specification of trusted context assembly: labelled segments become one ordered provider request with a
 signed manifest, and an adapted request is verified against that manifest before it is sent.

 Hashes are injective, so a reference is the normalised text it hashes and a request digest is the request
 with its texts normalised. The signature binds the key and the whole manifest body.
 */
module ContextModel {
  import opened Wrappers

  /******* Text *******/

  datatype Scan = Clean | Syntax | Smuggling

  /** The text operations this component takes from its libraries and detectors. */
  datatype Text = Text(
    nfc: string -> string,
    fold: string -> string,
    json: string -> string,
    escape: string -> string,
    scan: string -> Scan,
    blank: string -> bool)
  {
    /** Texts with one canonical form have one compatibility-folded form. */
    ghost predicate Valid() {
      forall x, y :: nfc(x) == nfc(y) ==> fold(x) == fold(y)
    }
  }

  const DATA_BEGIN := "[TRUSTRAIL_DATA_V1]"
  const DATA_END := "[/TRUSTRAIL_DATA_V1]"

  /******* Segments and messages *******/

  datatype Origin = SystemPolicy | Developer | User | Retrieval | Memory | Tool | External | Multimodal

  datatype Role = SystemRole | DeveloperRole | UserRole | DataRole
  {
    function Rank(): nat {
      match this
      case SystemRole => 0
      case DeveloperRole => 1
      case UserRole => 2
      case DataRole => 3
    }
  }

  datatype Trust = Trusted | Untrusted | OtherTrust

  datatype Permission = MaySystem | MayDeveloper | MayUser | MayNothing

  datatype Segment = Segment(
    id: string,
    ordinal: nat,
    content: string,
    origin: Origin,
    role: Role,
    trust: Trust,
    tenant: string,
    purpose: string,
    provenance: string,
    permission: Permission,
    metadata: int,
    metadataNodes: nat)

  datatype Message = Message(
    role: Role,
    content: string,
    origin: Origin,
    trust: Trust,
    permission: Permission,
    isData: bool,
    segment: string)

  datatype Request = Request(
    profile: int, adapter: int, id: string, tenant: string, purpose: string, messages: seq<Message>)

  /** The only adapter of this format version. */
  const ADAPTER := 1

  datatype Fingerprint = Fingerprint(
    segment: string, ordinal: nat, origin: Origin, role: Role, trust: Trust, permission: Permission,
    tenant: string, purpose: string, provenance: string, content: string, metadata: int)

  datatype Body = Body(
    profile: int,
    adapter: int,
    request: string,
    tenant: string,
    purpose: string,
    policy: Policy,
    fingerprints: seq<Fingerprint>,
    digest: Request,
    issuedAt: int)

  datatype Manifest = Manifest(body: Body, signature: (int, Body))

  datatype Policy = Policy(
    profile: int,
    rejectSyntax: bool,
    maxSegments: nat,
    maxSegmentChars: nat,
    maxTotalChars: nat,
    maxMetadataNodes: nat,
    requireSystem: bool,
    maxAge: nat,
    maxSkew: nat)

  /** The texts of a message in normal form; what a digest can tell apart. */
  function Normal(text: Text, m: Message): Message {
    m.(content := text.nfc(m.content))
  }

  function DigestOf(text: Text, r: Request): Request {
    Request(r.profile, r.adapter, text.nfc(r.id), text.nfc(r.tenant), text.nfc(r.purpose),
            seq(|r.messages|, i requires 0 <= i < |r.messages| => Normal(text, r.messages[i])))
  }

  /******* Structure *******/

  predicate HierarchyValid(s: Segment) {
    match s.origin
    case SystemPolicy => s.role == SystemRole && s.trust == Trusted && s.permission == MaySystem
    case Developer => s.role == DeveloperRole && s.trust == Trusted && s.permission == MayDeveloper
    case User => s.role == UserRole && s.trust == Untrusted && s.permission == MayUser
    case _ => s.role == DataRole && s.permission == MayNothing
  }

  function TotalChars(segments: seq<Segment>): nat {
    if segments == [] then 0
    else TotalChars(segments[..|segments| - 1]) + |segments[|segments| - 1].content|
  }

  function Systems(segments: seq<Segment>): nat {
    if segments == [] then 0
    else Systems(segments[..|segments| - 1]) + if segments[|segments| - 1].role == SystemRole then 1 else 0
  }

  predicate SegmentOk(p: Policy, s: Segment, tenant: string, purpose: string) {
    && |s.content| <= p.maxSegmentChars
    && s.metadataNodes <= p.maxMetadataNodes
    && s.tenant == tenant && s.purpose == purpose
    && HierarchyValid(s)
  }

  predicate StructureOk(p: Policy, text: Text, segments: seq<Segment>, id: string, tenant: string, purpose: string) {
    && !text.blank(id) && !text.blank(tenant) && !text.blank(purpose)
    && 1 <= |segments| <= p.maxSegments
    && (forall i, j :: 0 <= i < j < |segments| ==> text.fold(segments[i].id) != text.fold(segments[j].id))
    && (forall i, j :: 0 <= i < j < |segments| ==> segments[i].ordinal != segments[j].ordinal)
    && Systems(segments) <= 1 && (p.requireSystem ==> Systems(segments) == 1)
    && (forall i :: 0 <= i < |segments| ==> SegmentOk(p, segments[i], tenant, purpose))
    && TotalChars(segments) <= p.maxTotalChars
  }

  /******* Assembly *******/

  function Prepare(p: Policy, text: Text, s: Segment): Option<Segment> {
    match text.scan(s.content)
    case Clean => Some(s)
    case Smuggling => None
    case Syntax => if p.rejectSyntax then None else Some(s.(content := text.escape(s.content)))
  }

  predicate AllPrepared(p: Policy, text: Text, segments: seq<Segment>) {
    forall i :: 0 <= i < |segments| ==> Prepare(p, text, segments[i]).Some?
  }

  function Prepared(p: Policy, text: Text, segments: seq<Segment>): (r: seq<Segment>)
    requires AllPrepared(p, text, segments)
    ensures |r| == |segments|
  {
    seq(|segments|, i requires 0 <= i < |segments| => Prepare(p, text, segments[i]).value)
  }

  predicate Before(x: Segment, y: Segment) {
    x.role.Rank() < y.role.Rank() || (x.role == y.role && x.ordinal <= y.ordinal)
  }

  function Insert(x: Segment, s: seq<Segment>): seq<Segment> {
    if s == [] then [x] else if Before(x, s[0]) then [x] + s else [s[0]] + Insert(x, s[1..])
  }

  function Sort(s: seq<Segment>): seq<Segment> {
    if s == [] then [] else Insert(s[|s| - 1], Sort(s[..|s| - 1]))
  }

  function OriginName(o: Origin): string {
    match o
    case SystemPolicy => "system_policy"
    case Developer => "developer"
    case User => "user"
    case Retrieval => "retrieval"
    case Memory => "memory"
    case Tool => "tool"
    case External => "external"
    case Multimodal => "multimodal"
  }

  /** Untrusted data travels between markers, as quoted text. */
  function Wrap(text: Text, s: Segment): string {
    DATA_BEGIN + "\n"
    + ("origin=" + OriginName(s.origin) + "\ninstruction_permission=none\ncontent_json=" + text.json(s.content))
    + "\n" + DATA_END
  }

  function MessageOf(text: Text, s: Segment): Message {
    if s.role == DataRole
      then Message(UserRole, Wrap(text, s), s.origin, s.trust, s.permission, true, text.nfc(s.id))
      else Message(s.role, s.content, s.origin, s.trust, s.permission, false, text.nfc(s.id))
  }

  function MessagesOf(text: Text, segments: seq<Segment>): (r: seq<Message>)
    ensures |r| == |segments|
  {
    seq(|segments|, i requires 0 <= i < |segments| => MessageOf(text, segments[i]))
  }

  function FingerprintOf(text: Text, s: Segment): Fingerprint {
    Fingerprint(text.nfc(s.id), s.ordinal, s.origin, s.role, s.trust, s.permission,
                text.nfc(s.tenant), text.nfc(s.purpose), text.nfc(s.provenance), text.nfc(s.content), s.metadata)
  }

  function FingerprintsOf(text: Text, segments: seq<Segment>): (r: seq<Fingerprint>)
    ensures |r| == |segments|
  {
    seq(|segments|, i requires 0 <= i < |segments| => FingerprintOf(text, segments[i]))
  }

  function Signed(key: int, body: Body): Manifest {
    Manifest(body, (key, body))
  }

  function Assemble(p: Policy, text: Text, key: int, segments: seq<Segment>, id: string, tenant: string,
                    purpose: string, now: int): Option<(Request, Manifest)>
  {
    if !StructureOk(p, text, segments, id, tenant, purpose) || !AllPrepared(p, text, segments) then None
    else
      var ordered := Sort(Prepared(p, text, segments));
      var request := Request(p.profile, ADAPTER, id, tenant, purpose, MessagesOf(text, ordered));
      var body := Body(p.profile, ADAPTER, text.nfc(id), text.nfc(tenant), text.nfc(purpose), p,
                       FingerprintsOf(text, ordered), DigestOf(text, request), now);
      Some((request, Signed(key, body)))
  }

  /******* Verification *******/

  function OriginRank(o: Origin): nat {
    match o
    case SystemPolicy => 0
    case Developer => 1
    case User => 2
    case _ => 3
  }

  predicate StartsWith(s: string, prefix: string) {
    prefix <= s
  }

  predicate EndsWith(s: string, suffix: string) {
    |suffix| <= |s| && s[|s| - |suffix|..] == suffix
  }

  /** The message carries exactly the authority of its origin. */
  predicate MessageValid(m: Message) {
    match m.origin
    case SystemPolicy => m.role == SystemRole && !m.isData && m.trust == Trusted && m.permission == MaySystem
    case Developer => m.role == DeveloperRole && !m.isData && m.trust == Trusted && m.permission == MayDeveloper
    case User => m.role == UserRole && !m.isData && m.trust == Untrusted && m.permission == MayUser
    case _ =>
      && m.role == UserRole && m.isData && m.permission == MayNothing
      && StartsWith(m.content, DATA_BEGIN + "\n") && EndsWith(m.content, "\n" + DATA_END)
  }

  /** Messages whose origin is the system policy. */
  function SystemMessages(messages: seq<Message>): nat {
    if messages == [] then 0
    else SystemMessages(messages[..|messages| - 1])
         + if messages[|messages| - 1].origin == SystemPolicy then 1 else 0
  }

  /** System, developer, user, data, in this order; distinct segments; one system message where required. */
  predicate RequestOk(p: Policy, messages: seq<Message>) {
    && (forall i :: 0 <= i < |messages| ==> MessageValid(messages[i]))
    && (forall i, j :: 0 <= i < j < |messages| ==> OriginRank(messages[i].origin) <= OriginRank(messages[j].origin))
    && (forall i, j :: 0 <= i < j < |messages| ==> messages[i].segment != messages[j].segment)
    && (p.requireSystem ==> SystemMessages(messages) == 1)
  }

  predicate InWindow(p: Policy, issuedAt: int, now: int) {
    issuedAt <= now + p.maxSkew && now - issuedAt <= p.maxAge
  }

  predicate Verify(p: Policy, text: Text, key: int, r: Request, m: Manifest, id: string, tenant: string,
                   purpose: string, now: int)
  {
    && m.signature == (key, m.body)
    && InWindow(p, m.body.issuedAt, now)
    && m.body.request == text.nfc(id) && m.body.tenant == text.nfc(tenant) && m.body.purpose == text.nfc(purpose)
    && r.id == id && r.tenant == tenant && r.purpose == purpose
    && r.profile == m.body.profile && r.adapter == m.body.adapter
    && m.body.policy == p
    && DigestOf(text, r) == m.body.digest
    && RequestOk(p, r.messages)
  }
}
