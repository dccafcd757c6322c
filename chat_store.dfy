/**
 * The chatbot's three tables held as one store: FAQ entries in the model's
 * default order (newest first), chat sessions, and chat messages in
 * timestamp order. One counter supplies every primary key and timestamp,
 * so a later record always gets a larger value.
 */
module ChatStore {
  import opened Wrappers
  import opened ChatModels

  /** `ChatSession.objects.get(session_id=...)`, with `None` for `DoesNotExist`. */
  function FindSession(sessions: seq<ChatSession>, sessionId: string): (r: Option<ChatSession>)
    ensures r.Some? ==> r.value in sessions && r.value.sessionId == sessionId
    ensures r.None? ==> forall i :: 0 <= i < |sessions| ==> sessions[i].sessionId != sessionId
  {
    if |sessions| == 0 then None
    else if sessions[0].sessionId == sessionId then Some(sessions[0])
    else FindSession(sessions[1..], sessionId)
  }

  predicate HasSession(sessions: seq<ChatSession>, pk: nat) {
    exists i :: 0 <= i < |sessions| && sessions[i].pk == pk
  }

  predicate HasFaq(faqs: seq<Faq>, id: nat) {
    exists i :: 0 <= i < |faqs| && faqs[i].id == id
  }

  /** `ChatMessage.objects.filter(session=...)`: the messages of one session,
      in the order of the table. */
  function MessagesOf(messages: seq<ChatMessage>, pk: nat): (r: seq<ChatMessage>)
    ensures |r| <= |messages|
    ensures forall m :: m in r <==> m in messages && m.session == pk
  {
    if |messages| == 0 then []
    else (if messages[0].session == pk then [messages[0]] else []) + MessagesOf(messages[1..], pk)
  }

  /** The messages left once the session with key `pk` is deleted. */
  function MessagesNotOf(messages: seq<ChatMessage>, pk: nat): (r: seq<ChatMessage>)
    ensures |r| <= |messages|
    ensures forall m :: m in r <==> m in messages && m.session != pk
  {
    if |messages| == 0 then []
    else (if messages[0].session != pk then [messages[0]] else []) + MessagesNotOf(messages[1..], pk)
  }

  /** The sessions left once the session with key `pk` is deleted. */
  function SessionsWithout(sessions: seq<ChatSession>, pk: nat): (r: seq<ChatSession>)
    ensures |r| <= |sessions|
    ensures forall s :: s in r <==> s in sessions && s.pk != pk
  {
    if |sessions| == 0 then []
    else (if sessions[0].pk != pk then [sessions[0]] else []) + SessionsWithout(sessions[1..], pk)
  }

  /** `FAQ.objects.filter(is_active=True)`: the active entries, in the
      table's order. */
  function ActiveFaqs(faqs: seq<Faq>): (r: seq<Faq>)
    ensures |r| <= |faqs|
    ensures forall f :: f in r <==> f in faqs && f.isActive
  {
    if |faqs| == 0 then []
    else (if faqs[0].isActive then [faqs[0]] else []) + ActiveFaqs(faqs[1..])
  }

  /** The FAQ entries left once the entry with `id` is deleted. */
  function FaqsWithout(faqs: seq<Faq>, id: nat): (r: seq<Faq>)
    ensures |r| <= |faqs|
    ensures forall f :: f in r <==> f in faqs && f.id != id
  {
    if |faqs| == 0 then []
    else (if faqs[0].id != id then [faqs[0]] else []) + FaqsWithout(faqs[1..], id)
  }

  /** `Meta.ordering = ['timestamp']` with distinct timestamps. */
  predicate TimestampsIncrease(ms: seq<ChatMessage>) {
    forall i, j :: 0 <= i < j < |ms| ==> ms[i].timestamp < ms[j].timestamp
  }

  /** `Meta.ordering = ['-created_at']`: newest entry first. */
  predicate NewestFirst(faqs: seq<Faq>) {
    forall i, j :: 0 <= i < j < |faqs| ==> faqs[j].id < faqs[i].id
  }

  /** `unique=True` on `session_id`, and distinct primary keys. */
  predicate SessionsUnique(sessions: seq<ChatSession>) {
    forall i, j :: 0 <= i < j < |sessions| ==>
      sessions[i].sessionId != sessions[j].sessionId && sessions[i].pk != sessions[j].pk
  }

  /** Every message belongs to a stored session (the CASCADE foreign key)
      and refers only to stored FAQ entries (the SET_NULL foreign key). */
  predicate ReferencesResolve(faqs: seq<Faq>, sessions: seq<ChatSession>, messages: seq<ChatMessage>) {
    && (forall i :: 0 <= i < |messages| ==> HasSession(sessions, messages[i].session))
    && (forall i :: 0 <= i < |messages| && messages[i].matchedFaq.Some? ==>
          HasFaq(faqs, messages[i].matchedFaq.value))
  }

  /** Prepending a message older than every other keeps timestamp order. */
  lemma {:induction false} PrependKeepsTimestampOrder(m: ChatMessage, ms: seq<ChatMessage>)
    requires TimestampsIncrease(ms)
    requires forall k :: 0 <= k < |ms| ==> m.timestamp < ms[k].timestamp
    ensures TimestampsIncrease([m] + ms)
  {
    var r := [m] + ms;
    forall i, j | 0 <= i < j < |r| ensures r[i].timestamp < r[j].timestamp {
      assert r[j] == ms[j - 1];
      if i > 0 { assert r[i] == ms[i - 1]; }
    }
  }

  /** A message older than every message of `rest` is older than every
      message of any selection `a` from it. */
  lemma {:induction false} OlderThanSelection(m: ChatMessage, rest: seq<ChatMessage>, a: seq<ChatMessage>)
    requires forall j :: 0 <= j < |rest| ==> m.timestamp < rest[j].timestamp
    requires forall x :: x in a ==> x in rest
    ensures forall k :: 0 <= k < |a| ==> m.timestamp < a[k].timestamp
  {
    forall k | 0 <= k < |a| ensures m.timestamp < a[k].timestamp {
      assert a[k] in rest;
    }
  }

  /** The first message of a timestamp-ordered sequence is older than the
      rest, which is ordered too. */
  lemma {:induction false} FirstIsOldest(messages: seq<ChatMessage>)
    requires TimestampsIncrease(messages) && |messages| > 0
    ensures TimestampsIncrease(messages[1..])
    ensures forall j :: 0 <= j < |messages[1..]| ==> messages[0].timestamp < messages[1..][j].timestamp
  {
    var rest := messages[1..];
    assert forall j :: 0 <= j < |rest| ==> rest[j] == messages[j + 1];
  }

  /** The messages of one session stay in timestamp order. */
  lemma {:induction false} MessagesOfKeepsOrder(messages: seq<ChatMessage>, pk: nat)
    requires TimestampsIncrease(messages)
    ensures TimestampsIncrease(MessagesOf(messages, pk))
  {
    if |messages| > 0 {
      var rest := messages[1..];
      FirstIsOldest(messages);
      MessagesOfKeepsOrder(rest, pk);
      var a := MessagesOf(rest, pk);
      if messages[0].session == pk {
        OlderThanSelection(messages[0], rest, a);
        PrependKeepsTimestampOrder(messages[0], a);
      } else {
        assert MessagesOf(messages, pk) == a;
      }
    }
  }

  /** The messages left by a cascade delete stay in timestamp order. */
  lemma {:induction false} MessagesNotOfKeepsOrder(messages: seq<ChatMessage>, pk: nat)
    requires TimestampsIncrease(messages)
    ensures TimestampsIncrease(MessagesNotOf(messages, pk))
  {
    if |messages| > 0 {
      var rest := messages[1..];
      FirstIsOldest(messages);
      MessagesNotOfKeepsOrder(rest, pk);
      var a := MessagesNotOf(rest, pk);
      if messages[0].session != pk {
        OlderThanSelection(messages[0], rest, a);
        PrependKeepsTimestampOrder(messages[0], a);
      } else {
        assert MessagesNotOf(messages, pk) == a;
      }
    }
  }

  class ChatStore {
    var faqs: seq<Faq>
    var sessions: seq<ChatSession>
    var messages: seq<ChatMessage>
    var clock: nat

    ghost predicate Valid()
      reads this
    {
      && NewestFirst(faqs)
      && SessionsUnique(sessions)
      && TimestampsIncrease(messages)
      && (forall i :: 0 <= i < |faqs| ==> faqs[i].id < clock)
      && (forall i :: 0 <= i < |sessions| ==> sessions[i].pk < clock)
      && (forall i :: 0 <= i < |messages| ==> messages[i].timestamp < clock)
      && ReferencesResolve(faqs, sessions, messages)
    }

    constructor ()
      ensures Valid()
      ensures faqs == [] && sessions == [] && messages == [] && clock == 0
    {
      faqs, sessions, messages, clock := [], [], [], 0;
    }

    /** `FAQ.objects.create(...)`: the new entry gets the next id and, being
        the newest, comes first. */
    method CreateFaq(question: string, answer: string, keywords: string, isActive: bool) returns (faq: Faq)
      requires Valid()
      modifies this
      ensures Valid()
      ensures faq == Faq(old(clock), question, answer, keywords, isActive)
      ensures faqs == [faq] + old(faqs)
      ensures sessions == old(sessions) && messages == old(messages) && clock == old(clock) + 1
    {
      faq := Faq(clock, question, answer, keywords, isActive);
      forall id | HasFaq(faqs, id) ensures HasFaq([faq] + faqs, id) {
        var i :| 0 <= i < |faqs| && faqs[i].id == id;
        assert ([faq] + faqs)[i + 1] == faqs[i];
      }
      faqs := [faq] + faqs;
      clock := clock + 1;
    }

    /** Deleting one FAQ entry (`on_delete=SET_NULL`): the messages that
        matched it stay, with their reference cleared; nothing else changes. */
    method DeleteFaq(id: nat)
      requires Valid()
      modifies this
      ensures Valid()
      ensures faqs == FaqsWithout(old(faqs), id)
      ensures |messages| == |old(messages)|
      ensures forall i :: 0 <= i < |messages| ==>
        messages[i] == old(messages[i]).(matchedFaq := if old(messages[i]).matchedFaq == Some(id) then None else old(messages[i]).matchedFaq)
      ensures sessions == old(sessions) && clock == old(clock)
    {
      var kept := FaqsWithout(faqs, id);
      var ms := messages;
      var unlinked := seq(|ms|, i requires 0 <= i < |ms| =>
        ms[i].(matchedFaq := if ms[i].matchedFaq == Some(id) then None else ms[i].matchedFaq));
      FaqsWithoutKeepsOrder(faqs, id);
      forall i | 0 <= i < |unlinked| ensures HasSession(sessions, unlinked[i].session) {
        assert unlinked[i].session == ms[i].session;
      }
      assert TimestampsIncrease(unlinked) by {
        forall i | 0 <= i < |unlinked| ensures unlinked[i].timestamp == ms[i].timestamp {}
      }
      UnlinkedReferencesResolve(faqs, ms, unlinked, id);
      forall i | 0 <= i < |kept| ensures kept[i].id < clock {
        assert kept[i] in faqs;
      }
      faqs := kept;
      messages := unlinked;
    }

    /** `FAQ.objects.all().delete()`: the catalog is emptied and every
        message keeps its text but loses its FAQ reference. */
    method DeleteAllFaqs()
      requires Valid()
      modifies this
      ensures Valid()
      ensures faqs == []
      ensures |messages| == |old(messages)|
      ensures forall i :: 0 <= i < |messages| ==> messages[i] == old(messages[i]).(matchedFaq := None)
      ensures sessions == old(sessions) && clock == old(clock)
    {
      var ms := messages;
      var unlinked := seq(|ms|, i requires 0 <= i < |ms| => ms[i].(matchedFaq := None));
      forall i | 0 <= i < |unlinked| ensures HasSession(sessions, unlinked[i].session) {
        assert unlinked[i].session == ms[i].session;
      }
      assert TimestampsIncrease(unlinked) by {
        forall i | 0 <= i < |unlinked| ensures unlinked[i].timestamp == ms[i].timestamp {}
      }
      faqs := [];
      messages := unlinked;
    }

    /** `ChatSession.objects.get_or_create(session_id=...)`: an existing
        session is returned unchanged; otherwise one is appended. Either way
        exactly one stored session carries the id afterwards. */
    method GetOrCreateSession(sessionId: string) returns (session: ChatSession, created: bool)
      requires Valid()
      modifies this
      ensures Valid()
      ensures FindSession(sessions, sessionId) == Some(session)
      ensures created <==> FindSession(old(sessions), sessionId).None?
      ensures !created ==> session == FindSession(old(sessions), sessionId).value
                           && sessions == old(sessions) && clock == old(clock)
      ensures created ==> session == ChatSession(old(clock), sessionId)
                          && sessions == old(sessions) + [session] && clock == old(clock) + 1
      ensures faqs == old(faqs) && messages == old(messages)
    {
      var found := FindSession(sessions, sessionId);
      if found.Some? {
        session, created := found.value, false;
        FindSessionUnique(sessions, sessionId, session);
      } else {
        session, created := ChatSession(clock, sessionId), true;
        var grown := sessions + [session];
        forall pk | HasSession(sessions, pk) ensures HasSession(grown, pk) {
          var i :| 0 <= i < |sessions| && sessions[i].pk == pk;
          assert grown[i] == sessions[i];
        }
        FindSessionAppend(sessions, sessionId, session);
        sessions := grown;
        clock := clock + 1;
      }
    }

    /** `ChatMessage.objects.create(...)`: the message gets the next
        timestamp and goes last. */
    method CreateMessage(session: nat, userMessage: string, botResponse: string, matchedFaq: Option<nat>)
      returns (msg: ChatMessage)
      requires Valid()
      requires HasSession(sessions, session)
      requires matchedFaq.Some? ==> HasFaq(faqs, matchedFaq.value)
      modifies this
      ensures Valid()
      ensures msg == ChatMessage(session, userMessage, botResponse, matchedFaq, old(clock))
      ensures messages == old(messages) + [msg]
      ensures faqs == old(faqs) && sessions == old(sessions) && clock == old(clock) + 1
    {
      msg := ChatMessage(session, userMessage, botResponse, matchedFaq, clock);
      messages := messages + [msg];
      clock := clock + 1;
    }

    /** Deleting a session (`on_delete=CASCADE`): its messages go with it;
        the other sessions and their messages stay, in order. */
    method DeleteSession(pk: nat)
      requires Valid()
      modifies this
      ensures Valid()
      ensures sessions == SessionsWithout(old(sessions), pk)
      ensures messages == MessagesNotOf(old(messages), pk)
      ensures faqs == old(faqs) && clock == old(clock)
    {
      var keptSessions := SessionsWithout(sessions, pk);
      var keptMessages := MessagesNotOf(messages, pk);
      MessagesNotOfKeepsOrder(messages, pk);
      SessionsWithoutKeepsUnique(sessions, pk);
      KeptMessagesHaveSessions(sessions, messages, pk);
      forall i | 0 <= i < |keptMessages| && keptMessages[i].matchedFaq.Some?
        ensures HasFaq(faqs, keptMessages[i].matchedFaq.value)
      {
        assert keptMessages[i] in messages;
      }
      forall i | 0 <= i < |keptMessages| ensures keptMessages[i].timestamp < clock {
        assert keptMessages[i] in messages;
      }
      forall i | 0 <= i < |keptSessions| ensures keptSessions[i].pk < clock {
        assert keptSessions[i] in sessions;
      }
      sessions := keptSessions;
      messages := keptMessages;
    }
  }

  /** After `id` is deleted and the references to it cleared, every
      remaining reference names a remaining FAQ entry. */
  lemma {:induction false} UnlinkedReferencesResolve(faqs: seq<Faq>, ms: seq<ChatMessage>, unlinked: seq<ChatMessage>, id: nat)
    requires forall i :: 0 <= i < |ms| && ms[i].matchedFaq.Some? ==> HasFaq(faqs, ms[i].matchedFaq.value)
    requires |unlinked| == |ms|
    requires forall i :: 0 <= i < |ms| ==>
      unlinked[i] == ms[i].(matchedFaq := if ms[i].matchedFaq == Some(id) then None else ms[i].matchedFaq)
    ensures forall i :: 0 <= i < |unlinked| && unlinked[i].matchedFaq.Some? ==>
      HasFaq(FaqsWithout(faqs, id), unlinked[i].matchedFaq.value)
  {
    var kept := FaqsWithout(faqs, id);
    forall i | 0 <= i < |unlinked| && unlinked[i].matchedFaq.Some? ensures HasFaq(kept, unlinked[i].matchedFaq.value) {
      var fid := unlinked[i].matchedFaq.value;
      assert ms[i].matchedFaq == Some(fid) && fid != id;
      var j :| 0 <= j < |faqs| && faqs[j].id == fid;
      assert faqs[j] in kept;
      var k :| 0 <= k < |kept| && kept[k] == faqs[j];
    }
  }

  /** After a cascade delete, every remaining message still belongs to a
      remaining session. */
  lemma {:induction false} KeptMessagesHaveSessions(sessions: seq<ChatSession>, messages: seq<ChatMessage>, pk: nat)
    requires forall i :: 0 <= i < |messages| ==> HasSession(sessions, messages[i].session)
    ensures forall i :: 0 <= i < |MessagesNotOf(messages, pk)| ==>
      HasSession(SessionsWithout(sessions, pk), MessagesNotOf(messages, pk)[i].session)
  {
    var keptSessions := SessionsWithout(sessions, pk);
    var keptMessages := MessagesNotOf(messages, pk);
    forall i | 0 <= i < |keptMessages| ensures HasSession(keptSessions, keptMessages[i].session) {
      var m := keptMessages[i];
      assert m in messages;
      var j :| 0 <= j < |messages| && messages[j] == m;
      var k :| 0 <= k < |sessions| && sessions[k].pk == m.session;
      assert sessions[k] in keptSessions;
      var l :| 0 <= l < |keptSessions| && keptSessions[l] == sessions[k];
    }
  }

  lemma {:induction false} FindSessionUnique(sessions: seq<ChatSession>, sessionId: string, s: ChatSession)
    requires SessionsUnique(sessions)
    requires FindSession(sessions, sessionId) == Some(s)
    ensures forall i :: 0 <= i < |sessions| && sessions[i].sessionId == sessionId ==> sessions[i] == s
  {
    if sessions[0].sessionId != sessionId {
      assert SessionsUnique(sessions[1..]);
      FindSessionUnique(sessions[1..], sessionId, s);
      forall i | 1 <= i < |sessions| && sessions[i].sessionId == sessionId ensures sessions[i] == s {
        assert sessions[1..][i - 1] == sessions[i];
      }
    }
  }

  lemma {:induction false} FindSessionAppend(sessions: seq<ChatSession>, sessionId: string, s: ChatSession)
    requires FindSession(sessions, sessionId).None?
    requires s.sessionId == sessionId
    ensures FindSession(sessions + [s], sessionId) == Some(s)
  {
    if |sessions| == 0 {
    } else {
      assert (sessions + [s])[1..] == sessions[1..] + [s];
      FindSessionAppend(sessions[1..], sessionId, s);
    }
  }

  lemma {:induction false} FaqsWithoutKeepsOrder(faqs: seq<Faq>, id: nat)
    requires NewestFirst(faqs)
    ensures NewestFirst(FaqsWithout(faqs, id))
  {
    if |faqs| > 0 {
      var rest := faqs[1..];
      assert NewestFirst(rest);
      FaqsWithoutKeepsOrder(rest, id);
      var r := FaqsWithout(rest, id);
      forall k | 0 <= k < |r| ensures r[k].id < faqs[0].id {
        assert r[k] in rest;
        var j :| 0 <= j < |rest| && rest[j] == r[k];
        assert faqs[j + 1] == r[k];
      }
    }
  }

  /** The active entries are listed newest first, like the whole table. */
  lemma {:induction false} ActiveFaqsKeepsOrder(faqs: seq<Faq>)
    requires NewestFirst(faqs)
    ensures NewestFirst(ActiveFaqs(faqs))
  {
    if |faqs| > 0 {
      var rest := faqs[1..];
      assert NewestFirst(rest);
      ActiveFaqsKeepsOrder(rest);
      var r := ActiveFaqs(rest);
      forall k | 0 <= k < |r| ensures r[k].id < faqs[0].id {
        assert r[k] in rest;
        var j :| 0 <= j < |rest| && rest[j] == r[k];
        assert faqs[j + 1] == r[k];
      }
    }
  }

  /** Filtering entry by entry keeps the relative order of what it keeps:
      the active entries of two tables placed one after the other. */
  lemma {:induction false} ActiveFaqsConcat(a: seq<Faq>, b: seq<Faq>)
    ensures ActiveFaqs(a + b) == ActiveFaqs(a) + ActiveFaqs(b)
    decreases |a|
  {
    if |a| == 0 {
      assert a + b == b;
    } else {
      assert (a + b)[0] == a[0];
      assert (a + b)[1..] == a[1..] + b;
      ActiveFaqsConcat(a[1..], b);
    }
  }

  lemma {:induction false} SessionsWithoutKeepsUnique(sessions: seq<ChatSession>, pk: nat)
    requires SessionsUnique(sessions)
    ensures SessionsUnique(SessionsWithout(sessions, pk))
  {
    if |sessions| > 0 {
      var rest := sessions[1..];
      assert SessionsUnique(rest);
      SessionsWithoutKeepsUnique(rest, pk);
      var r := SessionsWithout(rest, pk);
      forall k | 0 <= k < |r|
        ensures r[k].sessionId != sessions[0].sessionId && r[k].pk != sessions[0].pk
      {
        assert r[k] in rest;
        var j :| 0 <= j < |rest| && rest[j] == r[k];
        assert sessions[j + 1] == r[k];
      }
    }
  }
}
