/** What assembly guarantees of its own requests, and verification of any request. */
module ContextLaws {
  import opened Wrappers
  import opened ContextModel

  /******* Sorting *******/

  predicate Sorted(s: seq<Segment>) {
    forall i, j :: 0 <= i < j < |s| ==> Before(s[i], s[j])
  }

  lemma {:induction false} InsertKeeps(x: Segment, s: seq<Segment>)
    ensures multiset(Insert(x, s)) == multiset(s) + multiset{x}
    ensures Sorted(s) ==> Sorted(Insert(x, s))
  {
    if s == [] {
    } else if Before(x, s[0]) {
      assert [x] + s == Insert(x, s);
    } else {
      var rest := Insert(x, s[1..]);
      InsertKeeps(x, s[1..]);
      assert s == [s[0]] + s[1..];
      assert Insert(x, s) == [s[0]] + rest;
      if Sorted(s) {
        forall i | 0 <= i < |rest| ensures Before(s[0], rest[i]) {
          assert rest[i] in multiset(rest);
          assert rest[i] == x || rest[i] in s[1..];
        }
      }
    }
  }

  /** Sorting rearranges the segments by role and then by ordinal. */
  lemma {:induction false} SortKeeps(s: seq<Segment>)
    ensures multiset(Sort(s)) == multiset(s) && Sorted(Sort(s)) && |Sort(s)| == |s|
  {
    if s != [] {
      var last := s[|s| - 1];
      var front := s[..|s| - 1];
      assert s == front + [last];
      SortKeeps(front);
      InsertKeeps(last, Sort(front));
      assert |Insert(last, Sort(front))| == |multiset(Insert(last, Sort(front)))|;
    }
  }

  lemma {:induction false} SystemsAppends(s: seq<Segment>, t: seq<Segment>)
    ensures Systems(s + t) == Systems(s) + Systems(t)
  {
    if t == [] {
      assert s + t == s;
    } else {
      SystemsAppends(s, t[..|t| - 1]);
      assert (s + t)[..|s + t| - 1] == s + t[..|t| - 1];
    }
  }

  lemma {:induction false} InsertSystems(x: Segment, s: seq<Segment>)
    ensures Systems(Insert(x, s)) == Systems(s) + Systems([x])
  {
    if s == [] {
      assert Systems([]) == 0;
    } else if Before(x, s[0]) {
      SystemsAppends([x], s);
    } else {
      InsertSystems(x, s[1..]);
      SystemsAppends([s[0]], s[1..]);
      SystemsAppends([s[0]], Insert(x, s[1..]));
      assert s == [s[0]] + s[1..];
    }
  }

  lemma {:induction false} SortSystems(s: seq<Segment>)
    ensures Systems(Sort(s)) == Systems(s)
  {
    if s != [] {
      var front := s[..|s| - 1];
      SortSystems(front);
      InsertSystems(s[|s| - 1], Sort(front));
      SystemsAppends(front, [s[|s| - 1]]);
      assert s == front + [s[|s| - 1]];
    }
  }

  /******* An assembled request keeps the hierarchy *******/

  /** What preparation and sorting keep of the segments' structure. */
  ghost predicate OrderedOk(p: Policy, text: Text, ordered: seq<Segment>) {
    && Sorted(ordered)
    && (forall i :: 0 <= i < |ordered| ==> HierarchyValid(ordered[i]))
    && (forall i, j :: 0 <= i < j < |ordered| ==> text.nfc(ordered[i].id) != text.nfc(ordered[j].id))
    && (p.requireSystem ==> Systems(ordered) == 1)
  }

  lemma {:induction false} PreparedSystems(p: Policy, text: Text, segments: seq<Segment>)
    requires AllPrepared(p, text, segments)
    ensures Systems(Prepared(p, text, segments)) == Systems(segments)
  {
    if segments != [] {
      var front := segments[..|segments| - 1];
      assert AllPrepared(p, text, front);
      PreparedSystems(p, text, front);
      assert Prepared(p, text, segments)[..|segments| - 1] == Prepared(p, text, front);
    }
  }

  lemma PreparedDistinct(p: Policy, text: Text, segments: seq<Segment>, id: string, tenant: string, purpose: string)
    requires StructureOk(p, text, segments, id, tenant, purpose) && AllPrepared(p, text, segments)
    ensures Distinct(Prepared(p, text, segments))
  {
    var prepared := Prepared(p, text, segments);
    forall i, j | 0 <= i < j < |prepared| ensures prepared[i] != prepared[j] {
      assert prepared[i].ordinal == segments[i].ordinal && prepared[j].ordinal == segments[j].ordinal;
    }
  }

  lemma PreparedKeepsId(p: Policy, text: Text, segments: seq<Segment>, x: Segment)
    requires AllPrepared(p, text, segments) && x in Prepared(p, text, segments)
    ensures exists i :: 0 <= i < |segments| && Prepared(p, text, segments)[i] == x && segments[i].id == x.id
  {
    var prepared := Prepared(p, text, segments);
    var i :| 0 <= i < |prepared| && prepared[i] == x;
    assert segments[i].id == x.id;
  }

  /** Two prepared segments with one normalised id are the same segment. */
  lemma SameIdSameSegment(p: Policy, text: Text, segments: seq<Segment>, x: Segment, y: Segment)
    requires text.Valid() && AllPrepared(p, text, segments)
    requires forall i, j :: 0 <= i < j < |segments| ==> text.fold(segments[i].id) != text.fold(segments[j].id)
    requires x in Prepared(p, text, segments) && y in Prepared(p, text, segments) && text.nfc(x.id) == text.nfc(y.id)
    ensures x == y
  {
    PreparedKeepsId(p, text, segments, x);
    PreparedKeepsId(p, text, segments, y);
    assert text.fold(x.id) == text.fold(y.id);
  }

  lemma InMultiset(s: seq<Segment>, t: seq<Segment>, i: nat)
    requires multiset(s) == multiset(t) && i < |s|
    ensures s[i] in t
  {
    assert s[i] in multiset(s);
  }

  lemma OrderedKeepsStructure(p: Policy, text: Text, segments: seq<Segment>, id: string, tenant: string, purpose: string)
    requires text.Valid() && StructureOk(p, text, segments, id, tenant, purpose) && AllPrepared(p, text, segments)
    ensures OrderedOk(p, text, Sort(Prepared(p, text, segments)))
  {
    var prepared := Prepared(p, text, segments);
    var ordered := Sort(prepared);
    SortKeeps(prepared);
    PreparedSystems(p, text, segments);
    SortSystems(prepared);
    PreparedDistinct(p, text, segments, id, tenant, purpose);
    DistinctShuffled(prepared, ordered);
    forall i | 0 <= i < |ordered| ensures ordered[i] in prepared && HierarchyValid(ordered[i]) {
      InMultiset(ordered, prepared, i);
      var k :| 0 <= k < |prepared| && prepared[k] == ordered[i];
      assert SegmentOk(p, segments[k], tenant, purpose);
    }
    forall i, j | 0 <= i < j < |ordered| ensures text.nfc(ordered[i].id) != text.nfc(ordered[j].id) {
      if text.nfc(ordered[i].id) == text.nfc(ordered[j].id) {
        SameIdSameSegment(p, text, segments, ordered[i], ordered[j]);
      }
    }
  }

  lemma WrapIsMarked(text: Text, s: Segment)
    ensures StartsWith(Wrap(text, s), DATA_BEGIN + "\n") && EndsWith(Wrap(text, s), "\n" + DATA_END)
  {
    var inside := "origin=" + OriginName(s.origin) + "\ninstruction_permission=none\ncontent_json=" + text.json(s.content);
    Marked(DATA_BEGIN + "\n", inside, "\n" + DATA_END);
    assert Wrap(text, s) == (DATA_BEGIN + "\n") + inside + ("\n" + DATA_END);
  }

  lemma Marked(begin: string, inside: string, end: string)
    ensures StartsWith(begin + inside + end, begin) && EndsWith(begin + inside + end, end)
  {
  }

  lemma MessageIsValid(text: Text, s: Segment)
    requires HierarchyValid(s)
    ensures MessageValid(MessageOf(text, s))
    ensures OriginRank(MessageOf(text, s).origin) == s.role.Rank()
    ensures MessageOf(text, s).origin == SystemPolicy <==> s.role == SystemRole
  {
    WrapIsMarked(text, s);
  }

  lemma {:induction false} SystemsCarryOver(text: Text, segments: seq<Segment>)
    requires forall i :: 0 <= i < |segments| ==> HierarchyValid(segments[i])
    ensures SystemMessages(MessagesOf(text, segments)) == Systems(segments)
  {
    if segments != [] {
      var front := segments[..|segments| - 1];
      SystemsCarryOver(text, front);
      MessageIsValid(text, segments[|segments| - 1]);
      assert MessagesOf(text, segments)[..|segments| - 1] == MessagesOf(text, front);
    }
  }

  lemma OrderedRequestOk(p: Policy, text: Text, ordered: seq<Segment>)
    requires OrderedOk(p, text, ordered)
    ensures RequestOk(p, MessagesOf(text, ordered))
  {
    var messages := MessagesOf(text, ordered);
    SystemsCarryOver(text, ordered);
    forall i | 0 <= i < |messages|
      ensures MessageValid(messages[i]) && OriginRank(messages[i].origin) == ordered[i].role.Rank()
    {
      MessageIsValid(text, ordered[i]);
    }
    forall i, j | 0 <= i < j < |messages|
      ensures messages[i].segment != messages[j].segment
      ensures OriginRank(messages[i].origin) <= OriginRank(messages[j].origin)
    {
      assert Before(ordered[i], ordered[j]);
    }
  }

  /** Assembly and verification agree: what one returns the other accepts, exactly within the time window. */
  lemma AssembledIsAccepted(p: Policy, text: Text, key: int, segments: seq<Segment>, id: string, tenant: string,
                            purpose: string, now: int, later: int)
    requires text.Valid() && Assemble(p, text, key, segments, id, tenant, purpose, now).Some?
    ensures var (request, manifest) := Assemble(p, text, key, segments, id, tenant, purpose, now).value;
            Verify(p, text, key, request, manifest, id, tenant, purpose, later) <==> InWindow(p, now, later)
  {
    OrderedKeepsStructure(p, text, segments, id, tenant, purpose);
    OrderedRequestOk(p, text, Sort(Prepared(p, text, segments)));
  }

  /** Each segment becomes exactly one message: none is lost, invented or doubled. */
  lemma EverySegmentOnce(p: Policy, text: Text, key: int, segments: seq<Segment>, id: string, tenant: string,
                         purpose: string, now: int)
    requires Assemble(p, text, key, segments, id, tenant, purpose, now).Some?
    ensures var request := Assemble(p, text, key, segments, id, tenant, purpose, now).value.0;
            exists ordered :: multiset(ordered) == multiset(Prepared(p, text, segments)) && Sorted(ordered)
              && request.messages == MessagesOf(text, ordered)
  {
    SortKeeps(Prepared(p, text, segments));
  }

  /******* An accepted request *******/

  /** Index by which the messages split into system, developer, user and data. */
  ghost predicate Layered(messages: seq<Message>, developers: nat, users: nat, data: nat) {
    && developers <= users <= data <= |messages|
    && (forall i :: 0 <= i < developers ==> messages[i].role == SystemRole && messages[i].origin == SystemPolicy)
    && (forall i :: developers <= i < users ==> messages[i].role == DeveloperRole && messages[i].origin == Developer)
    && (forall i :: users <= i < data ==>
          messages[i].role == UserRole && messages[i].origin == User && !messages[i].isData)
    && (forall i :: data <= i < |messages| ==>
          messages[i].role == UserRole && messages[i].isData && messages[i].permission == MayNothing)
  }

  /** Where the messages of rank `r` or more begin. */
  function Boundary(messages: seq<Message>, r: nat): (k: nat)
    ensures k <= |messages|
  {
    if messages == [] then 0
    else if OriginRank(messages[|messages| - 1].origin) >= r then Boundary(messages[..|messages| - 1], r)
    else |messages|
  }

  lemma {:induction false} BoundaryDivides(messages: seq<Message>, r: nat)
    requires forall i, j :: 0 <= i < j < |messages| ==>
               OriginRank(messages[i].origin) <= OriginRank(messages[j].origin)
    ensures forall i :: 0 <= i < |messages| ==>
              (i < Boundary(messages, r) <==> OriginRank(messages[i].origin) < r)
  {
    if messages != [] {
      var last := |messages| - 1;
      var front := messages[..last];
      if OriginRank(messages[last].origin) >= r {
        BoundaryDivides(front, r);
        forall i | 0 <= i < |messages|
          ensures i < Boundary(messages, r) <==> OriginRank(messages[i].origin) < r
        {
          if i < last { assert front[i] == messages[i]; }
        }
      }
    }
  }

  lemma {:induction false} BoundaryGrows(messages: seq<Message>, r: nat)
    ensures Boundary(messages, r) <= Boundary(messages, r + 1)
  {
    if messages != [] { BoundaryGrows(messages[..|messages| - 1], r); }
  }

  lemma {:induction false} CountOne(messages: seq<Message>)
    ensures SystemMessages(messages) >= 1 <==> exists i :: 0 <= i < |messages| && messages[i].origin == SystemPolicy
    ensures SystemMessages(messages) <= 1 <==>
            forall i, j :: 0 <= i < j < |messages| ==>
              !(messages[i].origin == SystemPolicy && messages[j].origin == SystemPolicy)
  {
    if messages != [] {
      var last := |messages| - 1;
      var front := messages[..last];
      CountOne(front);
      if SystemMessages(front) >= 1 {
        var i :| 0 <= i < |front| && front[i].origin == SystemPolicy;
        assert messages[i].origin == SystemPolicy;
        if messages[last].origin == SystemPolicy {
          assert !(SystemMessages(messages) <= 1);
        }
      }
      forall i, j | 0 <= i < j < last ensures messages[i] == front[i] && messages[j] == front[j] {
      }
    }
  }

  lemma OkIsLayered(p: Policy, messages: seq<Message>)
    requires RequestOk(p, messages)
    ensures Layered(messages, Boundary(messages, 1), Boundary(messages, 2), Boundary(messages, 3))
  {
    BoundaryDivides(messages, 1);
    BoundaryDivides(messages, 2);
    BoundaryDivides(messages, 3);
    BoundaryGrows(messages, 1);
    BoundaryGrows(messages, 2);
    RequestLayers(p, messages, Boundary(messages, 1), Boundary(messages, 2), Boundary(messages, 3));
  }

  /** Exactly one message comes from the system policy. */
  ghost predicate OneSystem(messages: seq<Message>) {
    exists i :: 0 <= i < |messages| && messages[i].origin == SystemPolicy
      && forall j :: 0 <= j < |messages| && messages[j].origin == SystemPolicy ==> j == i
  }

  lemma CountedOne(messages: seq<Message>)
    requires SystemMessages(messages) == 1
    ensures OneSystem(messages)
  {
    CountOne(messages);
    var i :| 0 <= i < |messages| && messages[i].origin == SystemPolicy;
    assert forall j :: 0 <= j < |messages| && messages[j].origin == SystemPolicy ==> !(j < i) && !(i < j);
  }

  /**
   Any accepted request lists system, developer, user and data messages in that order, each with exactly its
   origin's authority, from distinct segments and, where required, with exactly one system message.
   */
  lemma AcceptedIsLayered(p: Policy, text: Text, key: int, r: Request, m: Manifest, id: string, tenant: string,
                          purpose: string, now: int)
    requires Verify(p, text, key, r, m, id, tenant, purpose, now)
    ensures exists developers, users, data :: Layered(r.messages, developers, users, data)
    ensures forall i, j :: 0 <= i < j < |r.messages| ==> r.messages[i].segment != r.messages[j].segment
    ensures p.requireSystem ==> OneSystem(r.messages)
  {
    OkIsLayered(p, r.messages);
    if p.requireSystem { CountedOne(r.messages); }
  }

  lemma RequestLayers(p: Policy, messages: seq<Message>, developers: nat, users: nat, data: nat)
    requires RequestOk(p, messages) && developers <= users <= data <= |messages|
    requires forall i :: 0 <= i < |messages| ==> (i < developers <==> OriginRank(messages[i].origin) < 1)
    requires forall i :: 0 <= i < |messages| ==> (i < users <==> OriginRank(messages[i].origin) < 2)
    requires forall i :: 0 <= i < |messages| ==> (i < data <==> OriginRank(messages[i].origin) < 3)
    ensures Layered(messages, developers, users, data)
  {
    forall i | 0 <= i < |messages| ensures MessageValid(messages[i]) {
    }
  }

  /** Two requests that no digest can tell apart: equal but for the normal form of their texts. */
  ghost predicate SameUpToNormalForm(text: Text, r: Request, s: Request) {
    && r.profile == s.profile && r.adapter == s.adapter
    && text.nfc(r.id) == text.nfc(s.id) && text.nfc(r.tenant) == text.nfc(s.tenant)
    && text.nfc(r.purpose) == text.nfc(s.purpose)
    && |r.messages| == |s.messages|
    && forall i :: 0 <= i < |r.messages| ==>
         && r.messages[i] == s.messages[i].(content := r.messages[i].content)
         && text.nfc(r.messages[i].content) == text.nfc(s.messages[i].content)
  }

  lemma DigestsAgreeIff(text: Text, r: Request, s: Request)
    ensures DigestOf(text, r) == DigestOf(text, s) <==> SameUpToNormalForm(text, r, s)
  {
    var x, y := DigestOf(text, r), DigestOf(text, s);
    if x == y {
      forall i | 0 <= i < |r.messages|
        ensures r.messages[i] == s.messages[i].(content := r.messages[i].content)
        ensures text.nfc(r.messages[i].content) == text.nfc(s.messages[i].content)
      {
        assert x.messages[i] == y.messages[i];
      }
    }
    if SameUpToNormalForm(text, r, s) {
      forall i | 0 <= i < |r.messages| ensures x.messages[i] == y.messages[i] {
      }
      assert x.messages == y.messages;
    }
  }

  /**
   Against the manifest of an assembled request, verification accepts precisely the requests that are within
   the window, keep the hierarchy, carry the same identities, and equal the assembled one but for the normal
   form of its texts: no role, order, marker or other change gets through.
   */
  lemma AcceptedIsAssembled(p: Policy, text: Text, key: int, segments: seq<Segment>, id: string, tenant: string,
                            purpose: string, now: int, r: Request, later: int)
    requires text.Valid() && Assemble(p, text, key, segments, id, tenant, purpose, now).Some?
    ensures var (request, manifest) := Assemble(p, text, key, segments, id, tenant, purpose, now).value;
            Verify(p, text, key, r, manifest, id, tenant, purpose, later) <==>
              && InWindow(p, now, later)
              && r.id == id && r.tenant == tenant && r.purpose == purpose
              && RequestOk(p, r.messages)
              && SameUpToNormalForm(text, r, request)
  {
    var (request, manifest) := Assemble(p, text, key, segments, id, tenant, purpose, now).value;
    DigestsAgreeIff(text, r, request);
  }

  /** A system-policy segment with this content. */
  function PolicySegment(content: string): Segment {
    Segment("s", 0, content, SystemPolicy, SystemRole, Trusted, "t", "p", "o", MaySystem, 0, 0)
  }

  /** A policy that takes one segment of this size. */
  function PolicyFor(size: nat): Policy {
    Policy(0, true, 1, size, size, 1, true, 10, 0)
  }

  lemma OneSegmentAssembles(p: Policy, text: Text, key: int, content: string, now: int)
    requires p == PolicyFor(|content|) && text.scan(content) == Clean && !text.blank("r") && !text.blank("t") && !text.blank("p")
    ensures var assembled := Assemble(p, text, key, [PolicySegment(content)], "r", "t", "p", now);
            && assembled.Some?
            && assembled.value.0 == Request(0, ADAPTER, "r", "t", "p", [MessageOf(text, PolicySegment(content))])
  {
    var s := [PolicySegment(content)];
    assert s[..|s| - 1] == [] && s[|s| - 1].content == content;
    assert TotalChars([]) == 0 && Systems([]) == 0;
    assert TotalChars(s) == |content|;
    assert Systems(s) == 1;
    assert Prepared(p, text, s) == s;
    assert Sort(s) == s;
  }

  /** A request assembled with system message `y` is accepted with `x` in its place, which is another text. */
  predicate AcceptedInPlace(text: Text, key: int, x: string, y: string, now: int) {
    var p := PolicyFor(|y|);
    var assembled := Assemble(p, text, key, [PolicySegment(y)], "r", "t", "p", now);
    && assembled.Some? && |assembled.value.0.messages| == 1
    && var (request, manifest) := assembled.value;
       var r := request.(messages := [request.messages[0].(content := x)]);
       r != request && Verify(p, text, key, r, manifest, "r", "t", "p", now)
  }

  /**
   A request that is not the one assembled and is accepted all the same: its system message differs, in a way
   that the normal form of texts does not show.
   */
  lemma OtherFormIsAccepted(text: Text, key: int, x: string, y: string, now: int)
    requires text.Valid() && x != y && text.nfc(x) == text.nfc(y)
    requires text.scan(y) == Clean && !text.blank("r") && !text.blank("t") && !text.blank("p")
    ensures AcceptedInPlace(text, key, x, y, now)
  {
    var p, segments := PolicyFor(|y|), [PolicySegment(y)];
    OneSegmentAssembles(p, text, key, y, now);
    var (request, manifest) := Assemble(p, text, key, segments, "r", "t", "p", now).value;
    var r := request.(messages := [request.messages[0].(content := x)]);
    assert r.messages[0].content != request.messages[0].content;
    AssembledIsAccepted(p, text, key, segments, "r", "t", "p", now, now);
    assert r.messages[..0] == request.messages[..0] == [];
    AcceptedIsAssembled(p, text, key, segments, "r", "t", "p", now, r, now);
  }

  const DECOMPOSED := "e\U{301}"
  const COMPOSED := "\U{e9}"

  /** Text operations that compose this one letter. */
  function Composing(): Text {
    var compose := (s: string) => if s == DECOMPOSED then COMPOSED else s;
    Text(compose, compose, s => s, s => s, s => Clean, s => s == "")
  }

  /** The failing input: a letter with its accent apart is accepted in place of the accented letter. */
  lemma DecomposedIsAccepted()
    ensures Composing().Valid() && DECOMPOSED != COMPOSED
    ensures AcceptedInPlace(Composing(), 0, DECOMPOSED, COMPOSED, 0)
  {
    assert |DECOMPOSED| != |COMPOSED|;
    OtherFormIsAccepted(Composing(), 0, DECOMPOSED, COMPOSED, 0);
  }

  /******* One pass over the messages *******/

  /** What the first `k` messages show of the hierarchy. */
  predicate KeptUpTo(messages: seq<Message>, k: nat)
    requires k <= |messages|
  {
    && (forall i :: 0 <= i < k ==> MessageValid(messages[i]))
    && (forall i, j :: 0 <= i < j < k ==> OriginRank(messages[i].origin) <= OriginRank(messages[j].origin))
    && (forall i, j :: 0 <= i < j < k ==> messages[i].segment != messages[j].segment)
  }

  /** Looking at the previous rank and the references seen decides the next message. */
  lemma KeptOneMore(messages: seq<Message>, k: nat)
    requires k < |messages|
    ensures KeptUpTo(messages, k + 1) <==>
            && KeptUpTo(messages, k) && MessageValid(messages[k])
            && (k > 0 ==> OriginRank(messages[k - 1].origin) <= OriginRank(messages[k].origin))
            && !exists i :: 0 <= i < k && messages[i].segment == messages[k].segment
  {
    if KeptUpTo(messages, k) && k > 0 && OriginRank(messages[k - 1].origin) <= OriginRank(messages[k].origin) {
      forall i | 0 <= i < k ensures OriginRank(messages[i].origin) <= OriginRank(messages[k].origin) {
        assert i < k - 1 ==> OriginRank(messages[i].origin) <= OriginRank(messages[k - 1].origin);
      }
    }
  }
}
