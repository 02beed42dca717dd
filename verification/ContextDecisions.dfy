/** Exactly what is assembled and what is accepted, message by message and field by field. */
module ContextDecisions {
  import opened Wrappers
  import opened ContextModel
  import opened ContextLaws

  /******* Authority *******/

  /** What an origin may be: its layer, its trust if fixed, and what it may instruct. */
  predicate HasAuthority(origin: Origin, role: Role, trust: Trust, permission: Permission) {
    match origin
    case SystemPolicy => (role, trust, permission) == (SystemRole, Trusted, MaySystem)
    case Developer => (role, trust, permission) == (DeveloperRole, Trusted, MayDeveloper)
    case User => (role, trust, permission) == (UserRole, Untrusted, MayUser)
    case Retrieval => role == DataRole && permission == MayNothing
    case Memory => role == DataRole && permission == MayNothing
    case Tool => role == DataRole && permission == MayNothing
    case External => role == DataRole && permission == MayNothing
    case Multimodal => role == DataRole && permission == MayNothing
  }

  /** The layer a message stands in: data travels under the user's role, between the markers. */
  function LayerOf(m: Message): Role {
    if m.isData then DataRole else m.role
  }

  predicate Marked(m: Message) {
    var begin, end := DATA_BEGIN + "\n", "\n" + DATA_END;
    && |begin| <= |m.content| && m.content[..|begin|] == begin
    && |end| <= |m.content| && m.content[|m.content| - |end|..] == end
  }

  /** The message has just the authority of its origin, and is marked if and only if it is data. */
  predicate Authorised(m: Message) {
    && HasAuthority(m.origin, LayerOf(m), m.trust, m.permission)
    && (m.isData ==> m.role == UserRole && Marked(m))
  }

  lemma ValidMeansAuthorised(m: Message)
    ensures MessageValid(m) <==> Authorised(m) && m.role != DataRole
  {
  }

  /******* Accepting *******/

  /** Later messages never stand in a higher layer. */
  ghost predicate Ordered(messages: seq<Message>) {
    forall i, j :: 0 <= i < |messages| && i <= j < |messages| ==> LayerOf(messages[i]).Rank() <= LayerOf(messages[j]).Rank()
  }

  ghost predicate AllAuthorised(messages: seq<Message>) {
    forall i :: 0 <= i < |messages| ==> Authorised(messages[i]) && messages[i].role != DataRole
  }

  ghost predicate OwnSegments(messages: seq<Message>) {
    forall i, j :: 0 <= i < |messages| && 0 <= j < |messages| && i != j ==> messages[i].segment != messages[j].segment
  }

  /** Every message authorised, in order, of its own segment, and one of the system policy where required. */
  ghost predicate WellLayered(p: Policy, messages: seq<Message>) {
    && AllAuthorised(messages) && Ordered(messages) && OwnSegments(messages)
    && (p.requireSystem ==> OneSystem(messages))
  }

  lemma {:induction false} OneSystemCounted(messages: seq<Message>)
    ensures OneSystem(messages) <==> SystemMessages(messages) == 1
  {
    if SystemMessages(messages) == 1 { CountedOne(messages); }
    if OneSystem(messages) {
      CountOne(messages);
    }
  }

  lemma AllAuthorisedIff(messages: seq<Message>)
    ensures AllAuthorised(messages) <==> forall i :: 0 <= i < |messages| ==> MessageValid(messages[i])
  {
    forall i | 0 <= i < |messages|
      ensures MessageValid(messages[i]) <==> Authorised(messages[i]) && messages[i].role != DataRole
    {
      ValidMeansAuthorised(messages[i]);
    }
  }

  lemma LayerIsOrigin(m: Message)
    requires Authorised(m) && m.role != DataRole
    ensures LayerOf(m).Rank() == OriginRank(m.origin)
  {
  }

  lemma OrderedIff(messages: seq<Message>)
    requires AllAuthorised(messages)
    ensures Ordered(messages) <==>
            forall i, j :: 0 <= i < j < |messages| ==> OriginRank(messages[i].origin) <= OriginRank(messages[j].origin)
  {
    forall i | 0 <= i < |messages| ensures LayerOf(messages[i]).Rank() == OriginRank(messages[i].origin) {
      LayerIsOrigin(messages[i]);
    }
  }

  lemma OwnSegmentsIff(messages: seq<Message>)
    ensures OwnSegments(messages) <==> forall i, j :: 0 <= i < j < |messages| ==> messages[i].segment != messages[j].segment
  {
  }

  lemma WellLayeredIff(p: Policy, messages: seq<Message>)
    ensures RequestOk(p, messages) <==> WellLayered(p, messages)
  {
    OneSystemCounted(messages);
    AllAuthorisedIff(messages);
    OwnSegmentsIff(messages);
    if AllAuthorised(messages) { OrderedIff(messages); }
  }

  /**
   Any request is accepted exactly when its manifest is signed with the key, no older than the policy's age and
   no further ahead than its skew, made under the same policy for the same identities, and covers the request,
   which keeps the hierarchy.
   */
  lemma VerifiedIff(p: Policy, text: Text, key: int, r: Request, m: Manifest, id: string, tenant: string,
                    purpose: string, now: int)
    ensures Verify(p, text, key, r, m, id, tenant, purpose, now) <==>
            && m.signature.0 == key && m.signature.1 == m.body
            && now - p.maxAge <= m.body.issuedAt && m.body.issuedAt <= now + p.maxSkew
            && m.body.policy == p
            && r.id == id && r.tenant == tenant && r.purpose == purpose
            && m.body.request == text.nfc(id) && m.body.tenant == text.nfc(tenant) && m.body.purpose == text.nfc(purpose)
            && r.profile == m.body.profile && r.adapter == m.body.adapter
            && m.body.digest == Request(r.profile, r.adapter, text.nfc(r.id), text.nfc(r.tenant), text.nfc(r.purpose),
                                        m.body.digest.messages)
            && |m.body.digest.messages| == |r.messages|
            && (forall i :: 0 <= i < |r.messages| ==>
                  m.body.digest.messages[i] == r.messages[i].(content := text.nfc(r.messages[i].content)))
            && WellLayered(p, r.messages)
  {
    WellLayeredIff(p, r.messages);
    var d := DigestOf(text, r);
    if d == m.body.digest {
      forall i | 0 <= i < |r.messages|
        ensures m.body.digest.messages[i] == r.messages[i].(content := text.nfc(r.messages[i].content))
      {
        assert d.messages[i] == m.body.digest.messages[i];
      }
    }
    if |m.body.digest.messages| == |r.messages|
       && (forall i :: 0 <= i < |r.messages| ==>
             m.body.digest.messages[i] == r.messages[i].(content := text.nfc(r.messages[i].content))) {
      assert d.messages == m.body.digest.messages;
    }
  }

  /******* Assembling *******/

  function Size(segments: seq<Segment>): nat {
    if segments == [] then 0 else |segments[0].content| + Size(segments[1..])
  }

  lemma {:induction false} SizeAppends(s: seq<Segment>, t: seq<Segment>)
    ensures Size(s + t) == Size(s) + Size(t)
  {
    if s == [] {
      assert s + t == t;
    } else {
      SizeAppends(s[1..], t);
      assert (s + t)[1..] == s[1..] + t;
    }
  }

  lemma {:induction false} SizeIsTotal(segments: seq<Segment>)
    ensures TotalChars(segments) == Size(segments)
  {
    if segments != [] {
      var front, last := segments[..|segments| - 1], segments[|segments| - 1];
      SizeIsTotal(front);
      SizeAppends(front, [last]);
      assert segments == front + [last];
    }
  }

  lemma {:induction false} SystemsCounted(segments: seq<Segment>)
    ensures Systems(segments) >= 1 <==> exists i :: 0 <= i < |segments| && segments[i].role == SystemRole
    ensures Systems(segments) <= 1 <==>
            forall i, j :: 0 <= i < j < |segments| ==> !(segments[i].role == SystemRole && segments[j].role == SystemRole)
  {
    if segments != [] {
      var last := |segments| - 1;
      var front := segments[..last];
      SystemsCounted(front);
      if Systems(front) >= 1 {
        var i :| 0 <= i < |front| && front[i].role == SystemRole;
        assert segments[i].role == SystemRole;
        if segments[last].role == SystemRole {
          assert !(Systems(segments) <= 1);
        }
      }
      forall i, j | 0 <= i < j < last ensures segments[i] == front[i] && segments[j] == front[j] {
      }
    }
  }

  /** Small enough, of the request's tenant and purpose, and with the authority of its origin. */
  predicate SegmentFits(p: Policy, s: Segment, tenant: string, purpose: string) {
    && |s.content| <= p.maxSegmentChars && s.metadataNodes <= p.maxMetadataNodes
    && s.tenant == tenant && s.purpose == purpose
    && HasAuthority(s.origin, s.role, s.trust, s.permission)
  }

  /** Identities given; enough segments and not too many, all different, each fitting, not too much together, one policy. */
  ghost predicate Structured(p: Policy, text: Text, segments: seq<Segment>, id: string, tenant: string, purpose: string) {
    && !text.blank(id) && !text.blank(tenant) && !text.blank(purpose)
    && segments != [] && |segments| <= p.maxSegments && Size(segments) <= p.maxTotalChars
    && (forall i :: 0 <= i < |segments| ==> SegmentFits(p, segments[i], tenant, purpose))
    && (forall i, j :: 0 <= i < |segments| && 0 <= j < |segments| && i != j ==>
          text.fold(segments[i].id) != text.fold(segments[j].id) && segments[i].ordinal != segments[j].ordinal)
    && (forall i, j :: 0 <= i < j < |segments| ==> !(segments[i].role == SystemRole && segments[j].role == SystemRole))
    && (p.requireSystem ==> exists i :: 0 <= i < |segments| && segments[i].role == SystemRole)
  }

  lemma StructuredIff(p: Policy, text: Text, segments: seq<Segment>, id: string, tenant: string, purpose: string)
    ensures StructureOk(p, text, segments, id, tenant, purpose) <==> Structured(p, text, segments, id, tenant, purpose)
  {
    SizeIsTotal(segments);
    SystemsCounted(segments);
    forall i | 0 <= i < |segments|
      ensures SegmentOk(p, segments[i], tenant, purpose) <==> SegmentFits(p, segments[i], tenant, purpose)
    {
    }
    AllDifferentIff(text, segments);
  }

  lemma AllDifferentIff(text: Text, segments: seq<Segment>)
    ensures (forall i, j :: 0 <= i < |segments| && 0 <= j < |segments| && i != j ==>
               text.fold(segments[i].id) != text.fold(segments[j].id) && segments[i].ordinal != segments[j].ordinal) <==>
            && (forall i, j :: 0 <= i < j < |segments| ==> text.fold(segments[i].id) != text.fold(segments[j].id))
            && (forall i, j :: 0 <= i < j < |segments| ==> segments[i].ordinal != segments[j].ordinal)
  {
  }

  /** The content may be sent: clean, or of a syntax that the policy lets pass escaped. */
  predicate Sendable(p: Policy, text: Text, content: string) {
    text.scan(content) == Clean || (text.scan(content) == Syntax && !p.rejectSyntax)
  }

  /** What is sent of a segment. */
  function Sent(text: Text, s: Segment): Segment {
    if text.scan(s.content) == Clean then s else s.(content := text.escape(s.content))
  }

  lemma PreparedIsSent(p: Policy, text: Text, segments: seq<Segment>)
    ensures AllPrepared(p, text, segments) <==> forall i :: 0 <= i < |segments| ==> Sendable(p, text, segments[i].content)
    ensures AllPrepared(p, text, segments) ==>
              forall i :: 0 <= i < |segments| ==> Prepared(p, text, segments)[i] == Sent(text, segments[i])
  {
    forall i | 0 <= i < |segments|
      ensures Prepare(p, text, segments[i]).Some? <==> Sendable(p, text, segments[i].content)
      ensures Prepare(p, text, segments[i]).Some? ==> Prepare(p, text, segments[i]).value == Sent(text, segments[i])
    {
    }
  }

  /** The message that a segment becomes: as it is, or quoted between the markers when it is data. */
  predicate Carries(text: Text, s: Segment, m: Message) {
    && m.origin == s.origin && m.trust == s.trust && m.permission == s.permission && m.segment == text.nfc(s.id)
    && if s.role == DataRole then
         && m.isData && m.role == UserRole
         && m.content == DATA_BEGIN + "\n" + ("origin=" + OriginName(s.origin)
              + "\ninstruction_permission=none\ncontent_json=" + text.json(s.content)) + "\n" + DATA_END
       else
         !m.isData && m.role == s.role && m.content == s.content
  }

  /** The segments as they are sent, by layer and by ordinal within each. */
  ghost predicate Arranged(text: Text, segments: seq<Segment>, ordered: seq<Segment>) {
    && multiset(ordered) == multiset(seq(|segments|, i requires 0 <= i < |segments| => Sent(text, segments[i])))
    && forall i, j :: 0 <= i < j < |ordered| ==>
         || ordered[i].role.Rank() < ordered[j].role.Rank()
         || (ordered[i].role == ordered[j].role && ordered[i].ordinal <= ordered[j].ordinal)
  }

  /** The request carries the identities and one message for each of the arranged segments, in their order. */
  ghost predicate Renders(p: Policy, text: Text, ordered: seq<Segment>, id: string, tenant: string, purpose: string, r: Request) {
    && r.profile == p.profile && r.adapter == ADAPTER && r.id == id && r.tenant == tenant && r.purpose == purpose
    && |r.messages| == |ordered|
    && forall i :: 0 <= i < |ordered| ==> Carries(text, ordered[i], r.messages[i])
  }

  /** The manifest is signed with the key and describes this request, its segments, policy, identities and time. */
  ghost predicate Describes(p: Policy, text: Text, key: int, ordered: seq<Segment>, r: Request, now: int, m: Manifest) {
    && m.signature == (key, m.body)
    && m.body.issuedAt == now && m.body.policy == p
    && m.body.profile == r.profile && m.body.adapter == r.adapter
    && m.body.request == text.nfc(r.id) && m.body.tenant == text.nfc(r.tenant) && m.body.purpose == text.nfc(r.purpose)
    && m.body.digest == DigestOf(text, r)
    && |m.body.fingerprints| == |ordered|
    && forall i :: 0 <= i < |ordered| ==>
         m.body.fingerprints[i] ==
           Fingerprint(text.nfc(ordered[i].id), ordered[i].ordinal, ordered[i].origin, ordered[i].role, ordered[i].trust,
                       ordered[i].permission, text.nfc(ordered[i].tenant), text.nfc(ordered[i].purpose),
                       text.nfc(ordered[i].provenance), text.nfc(ordered[i].content), ordered[i].metadata)
  }

  lemma PreparedIsArranged(p: Policy, text: Text, segments: seq<Segment>)
    requires AllPrepared(p, text, segments)
    ensures Arranged(text, segments, Sort(Prepared(p, text, segments)))
  {
    var prepared := Prepared(p, text, segments);
    PreparedIsSent(p, text, segments);
    SortKeeps(prepared);
    assert prepared == seq(|segments|, i requires 0 <= i < |segments| => Sent(text, segments[i]));
    forall i, j | 0 <= i < j < |Sort(prepared)| ensures Before(Sort(prepared)[i], Sort(prepared)[j]) {
    }
  }

  lemma MessageCarries(text: Text, s: Segment)
    ensures Carries(text, s, MessageOf(text, s))
  {
  }

  lemma MessagesRender(p: Policy, text: Text, ordered: seq<Segment>, id: string, tenant: string, purpose: string)
    ensures Renders(p, text, ordered, id, tenant, purpose,
                    Request(p.profile, ADAPTER, id, tenant, purpose, MessagesOf(text, ordered)))
  {
    forall i | 0 <= i < |ordered| ensures Carries(text, ordered[i], MessagesOf(text, ordered)[i]) {
      MessageCarries(text, ordered[i]);
    }
  }

  /**
   A request is assembled exactly when the segments are well structured and may all be sent; it then renders
   them arranged by layer and ordinal, under a manifest that describes it.
   */
  lemma AssembledIff(p: Policy, text: Text, key: int, segments: seq<Segment>, id: string, tenant: string,
                     purpose: string, now: int)
    ensures var assembled := Assemble(p, text, key, segments, id, tenant, purpose, now);
            && (assembled.Some? <==>
                  && Structured(p, text, segments, id, tenant, purpose)
                  && forall i :: 0 <= i < |segments| ==> Sendable(p, text, segments[i].content))
            && (assembled.Some? ==>
                  exists ordered :: Arranged(text, segments, ordered)
                    && Renders(p, text, ordered, id, tenant, purpose, assembled.value.0)
                    && Describes(p, text, key, ordered, assembled.value.0, now, assembled.value.1))
  {
    StructuredIff(p, text, segments, id, tenant, purpose);
    PreparedIsSent(p, text, segments);
    if StructureOk(p, text, segments, id, tenant, purpose) && AllPrepared(p, text, segments) {
      AssembledAs(p, text, key, segments, id, tenant, purpose, now);
    }
  }

  lemma AssembledAs(p: Policy, text: Text, key: int, segments: seq<Segment>, id: string, tenant: string,
                    purpose: string, now: int)
    requires Assemble(p, text, key, segments, id, tenant, purpose, now).Some?
    ensures var (request, manifest) := Assemble(p, text, key, segments, id, tenant, purpose, now).value;
            var ordered := Sort(Prepared(p, text, segments));
            && Arranged(text, segments, ordered)
            && Renders(p, text, ordered, id, tenant, purpose, request)
            && Describes(p, text, key, ordered, request, now, manifest)
  {
    PreparedIsArranged(p, text, segments);
    MessagesRender(p, text, Sort(Prepared(p, text, segments)), id, tenant, purpose);
  }
}
