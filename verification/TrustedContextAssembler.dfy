/** The assembler with its loops, proved against ContextModel. */
module TrustedContext {
  import opened Wrappers
  import opened ContextModel
  import opened ContextLaws

  class TrustedContextAssembler {
    const policy: Policy
    const text: Text
    const key: int

    constructor (policy: Policy, text: Text, key: int)
      ensures this.policy == policy && this.text == text && this.key == key
    {
      this.policy, this.text, this.key := policy, text, key;
    }

    /** Whether every normalised identity occurs once, by collecting them. */
    method DistinctIds(segments: seq<Segment>) returns (ok: bool)
      ensures ok <==> forall i, j :: 0 <= i < j < |segments| ==> text.fold(segments[i].id) != text.fold(segments[j].id)
    {
      var seen: set<string> := {};
      var k := 0;
      while k < |segments|
        invariant 0 <= k <= |segments|
        invariant forall x :: x in seen <==> exists i :: 0 <= i < k && text.fold(segments[i].id) == x
        invariant forall i, j :: 0 <= i < j < k ==> text.fold(segments[i].id) != text.fold(segments[j].id)
      {
        if text.fold(segments[k].id) in seen {
          return false;
        }
        seen := seen + {text.fold(segments[k].id)};
        k := k + 1;
      }
      return true;
    }

    method DistinctOrdinals(segments: seq<Segment>) returns (ok: bool)
      ensures ok <==> forall i, j :: 0 <= i < j < |segments| ==> segments[i].ordinal != segments[j].ordinal
    {
      var seen: set<nat> := {};
      var k := 0;
      while k < |segments|
        invariant 0 <= k <= |segments|
        invariant forall x :: x in seen <==> exists i :: 0 <= i < k && segments[i].ordinal == x
        invariant forall i, j :: 0 <= i < j < k ==> segments[i].ordinal != segments[j].ordinal
      {
        if segments[k].ordinal in seen {
          return false;
        }
        seen := seen + {segments[k].ordinal};
        k := k + 1;
      }
      return true;
    }

    /** Count the system segments and the characters, and check each segment on the way. */
    method ScanSegments(segments: seq<Segment>, tenant: string, purpose: string)
      returns (systems: nat, chars: nat, ok: bool)
      ensures systems == Systems(segments) && chars == TotalChars(segments)
      ensures ok <==> forall i :: 0 <= i < |segments| ==> SegmentOk(policy, segments[i], tenant, purpose)
    {
      systems, chars, ok := 0, 0, true;
      var k := 0;
      while k < |segments|
        invariant 0 <= k <= |segments|
        invariant systems == Systems(segments[..k]) && chars == TotalChars(segments[..k])
        invariant ok <==> forall i :: 0 <= i < k ==> SegmentOk(policy, segments[i], tenant, purpose)
      {
        assert segments[..k + 1][..k] == segments[..k];
        var s := segments[k];
        if s.role == SystemRole {
          systems := systems + 1;
        }
        chars := chars + |s.content|;
        if !SegmentOk(policy, s, tenant, purpose) {
          ok := false;
        }
        k := k + 1;
      }
      assert segments[..k] == segments;
    }

    method StructureAllowed(segments: seq<Segment>, id: string, tenant: string, purpose: string) returns (ok: bool)
      ensures ok <==> StructureOk(policy, text, segments, id, tenant, purpose)
    {
      if text.blank(id) || text.blank(tenant) || text.blank(purpose) {
        return false;
      }
      if segments == [] || |segments| > policy.maxSegments {
        return false;
      }
      var ids := DistinctIds(segments);
      var ordinals := DistinctOrdinals(segments);
      var systems, chars, each := ScanSegments(segments, tenant, purpose);
      ok := ids && ordinals && each && systems <= 1 && (!policy.requireSystem || systems == 1)
        && chars <= policy.maxTotalChars;
    }

    /** Escape what may be escaped; anything else found in the content refuses the whole assembly. */
    method PrepareAll(segments: seq<Segment>) returns (prepared: seq<Segment>, ok: bool, transformed: bool)
      ensures ok <==> AllPrepared(policy, text, segments)
      ensures ok ==> prepared == Prepared(policy, text, segments)
      ensures transformed <==> exists i :: 0 <= i < |segments| && text.scan(segments[i].content) == Syntax
                                && !policy.rejectSyntax
    {
      prepared, ok, transformed := [], true, false;
      var k := 0;
      while k < |segments|
        invariant 0 <= k <= |segments|
        invariant ok <==> forall i :: 0 <= i < k ==> Prepare(policy, text, segments[i]).Some?
        invariant ok ==> |prepared| == k
        invariant ok ==> forall i :: 0 <= i < k ==> prepared[i] == Prepare(policy, text, segments[i]).value
        invariant transformed <==> exists i :: 0 <= i < k && text.scan(segments[i].content) == Syntax
                                    && !policy.rejectSyntax
      {
        var s := segments[k];
        var found := text.scan(s.content);
        if found == Smuggling || (found == Syntax && policy.rejectSyntax) {
          ok := false;
        } else if found == Syntax {
          transformed := true;
          prepared := prepared + [s.(content := text.escape(s.content))];
        } else {
          prepared := prepared + [s];
        }
        k := k + 1;
      }
    }

    method AssembleRequest(segments: seq<Segment>, id: string, tenant: string, purpose: string, now: int)
      returns (result: Option<(Request, Manifest)>, transformed: bool)
      ensures result == Assemble(policy, text, key, segments, id, tenant, purpose, now)
      ensures transformed ==> result.Some?
      ensures result.Some? && !transformed ==> Prepared(policy, text, segments) == segments
    {
      var structure := StructureAllowed(segments, id, tenant, purpose);
      if !structure {
        return None, false;
      }
      var prepared, ok, changed := PrepareAll(segments);
      if !ok {
        return None, false;
      }
      var ordered := Sort(prepared);
      var request := Request(policy.profile, ADAPTER, id, tenant, purpose, MessagesOf(text, ordered));
      var body := Body(policy.profile, ADAPTER, text.nfc(id), text.nfc(tenant), text.nfc(purpose), policy,
                       FingerprintsOf(text, ordered), DigestOf(text, request), now);
      return Some((request, Signed(key, body))), changed;
    }

    /** One pass over the messages, remembering the previous rank, the references seen and the system messages. */
    method HierarchyKept(messages: seq<Message>) returns (ok: bool)
      ensures ok <==> RequestOk(policy, messages)
    {
      ok := true;
      var previous: int := -1;
      var systems := 0;
      var seen: set<string> := {};
      var k := 0;
      while k < |messages|
        invariant 0 <= k <= |messages|
        invariant previous == if k == 0 then -1 else OriginRank(messages[k - 1].origin)
        invariant systems == SystemMessages(messages[..k])
        invariant forall x :: x in seen <==> exists i :: 0 <= i < k && messages[i].segment == x
        invariant ok <==> KeptUpTo(messages, k)
      {
        assert messages[..k + 1][..k] == messages[..k];
        KeptOneMore(messages, k);
        var m := messages[k];
        if m.segment in seen {
          ok := false;
        }
        seen := seen + {m.segment};
        if m.origin == SystemPolicy {
          systems := systems + 1;
        }
        var rank := OriginRank(m.origin);
        if !MessageValid(m) || rank < previous {
          ok := false;
        }
        previous := rank;
        k := k + 1;
      }
      assert messages[..k] == messages;
      if policy.requireSystem && systems != 1 {
        ok := false;
      }
    }

    method VerifyProviderRequest(r: Request, m: Manifest, id: string, tenant: string, purpose: string, now: int)
      returns (ok: bool)
      ensures ok <==> Verify(policy, text, key, r, m, id, tenant, purpose, now)
    {
      if m.signature != (key, m.body) {
        return false;
      }
      ok := true;
      if m.body.issuedAt > now + policy.maxSkew || now - m.body.issuedAt > policy.maxAge {
        ok := false;
      }
      if m.body.request != text.nfc(id) || m.body.tenant != text.nfc(tenant) || m.body.purpose != text.nfc(purpose)
         || r.id != id || r.tenant != tenant || r.purpose != purpose {
        ok := false;
      }
      if r.profile != m.body.profile || r.adapter != m.body.adapter {
        ok := false;
      }
      if m.body.policy != policy || DigestOf(text, r) != m.body.digest {
        ok := false;
      }
      var kept := HierarchyKept(r.messages);
      ok := ok && kept;
    }
  }
}
