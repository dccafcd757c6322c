/**
 * The chatbot's request handlers: seeding the FAQ catalog, the manual
 * re-population endpoint, the chat endpoint (empty-message check and session
 * get-or-create around the service) and the history endpoint.
 */
module ChatViews {
  import opened Wrappers
  import opened Text
  import opened ChatModels
  import opened ChatStore
  import opened ChatServices

  /** One seed record: question, answer, comma-separated keywords. */
  datatype SeedFaq = SeedFaq(question: string, answer: string, keywords: string)

  /** The six FAQ records `populate_initial_faqs` creates, in creation order. */
  const SeedData: seq<SeedFaq> := [
    SeedFaq("What is your return policy?",
      "Our return policy allows you to request a return within 7 days of your purchase. The product must be in its original condition. Please visit your Purchase History page to start a return request.",
      "return,policy,refund,exchange"),
    SeedFaq("How long does shipping take?",
      "Standard shipping usually takes 3-5 business days. Express shipping takes 1-2 business days. You can use our Shipping Calculator on the website for a more precise estimate for your pincode.",
      "shipping,delivery,how long,time,when arrive"),
    SeedFaq("How can I track my order?",
      "You can track your order using the 'Track Shipment' tool on our website. You will need the tracking number that was sent to your email after your purchase was confirmed.",
      "track,order,status,where is my package"),
    SeedFaq("Can I request a custom product?",
      "Yes! We have a full customization service. You can submit a request through the 'Customization' section of our website, and our vendors will provide you with quotes.",
      "custom,customization,bespoke,made to order,special"),
    SeedFaq("My product arrived damaged, what do I do?",
      "We're sorry to hear that! Please initiate a return request from your Purchase History page within 7 days of delivery. Select 'Damaged Item' as the reason and upload photos of the damage.",
      "damaged,broken,defective,issue,wrong item"),
    SeedFaq("How do I contact customer support?",
      "For any issues not covered here, you can reach our human helpline at support@ddecor.com or call us at +91 22 1234 5678 during business hours.",
      "help,support,contact,human,talk to someone,phone,email")
  ]

  // ---------------------------------------------------------------------
  // Seeding
  // ---------------------------------------------------------------------

  /** The catalog built by creating the records of `data` one after the
      other, ids counting up from `start`; each new, newest entry goes first. */
  function Created(data: seq<SeedFaq>, start: nat): seq<Faq> {
    if |data| == 0 then []
    else
      var d := data[|data| - 1];
      [Faq(start + |data| - 1, d.question, d.answer, d.keywords, true)] + Created(data[..|data| - 1], start)
  }

  /** The created catalog has one active entry per record, entry `k` coming
      from record `|data| - 1 - k`, and is newest first. */
  lemma {:induction false} CreatedShape(data: seq<SeedFaq>, start: nat)
    ensures |Created(data, start)| == |data|
    ensures forall k :: 0 <= k < |data| ==>
      var d := data[|data| - 1 - k];
      Created(data, start)[k] == Faq(start + |data| - 1 - k, d.question, d.answer, d.keywords, true)
    ensures NewestFirst(Created(data, start))
  {
    if |data| > 0 {
      var init := data[..|data| - 1];
      CreatedShape(init, start);
      var c := Created(data, start);
      var rest := Created(init, start);
      assert c == [c[0]] + rest;
      forall k | 1 <= k < |data|
        ensures c[k] == Faq(start + |data| - 1 - k, data[|data| - 1 - k].question,
                            data[|data| - 1 - k].answer, data[|data| - 1 - k].keywords, true)
      {
        assert c[k] == rest[k - 1];
        assert init[|init| - 1 - (k - 1)] == data[|data| - 1 - k];
      }
    }
  }

  /** What `populate_initial_faqs` does to the catalog and the counter: on
      an empty catalog, create the six seed records; otherwise nothing. */
  function Populate(faqs: seq<Faq>, clock: nat): (r: (seq<Faq>, nat))
    ensures |r.0| > 0 && clock <= r.1
    ensures forall f :: f in faqs ==> f in r.0
  {
    if |faqs| > 0 then (faqs, clock)
    else
      CreatedShape(SeedData, clock);
      (Created(SeedData, clock), clock + |SeedData|)
  }

  /** Seeding twice is seeding once. */
  lemma {:induction false} PopulateIdempotent(faqs: seq<Faq>, clock: nat)
    ensures Populate(Populate(faqs, clock).0, Populate(faqs, clock).1) == Populate(faqs, clock)
  {
    if |faqs| == 0 {
      CreatedShape(SeedData, clock);
    }
  }

  /** An empty catalog is seeded with exactly six active entries. */
  lemma {:induction false} PopulateEmpty(clock: nat)
    ensures |Populate([], clock).0| == 6
    ensures forall f :: f in Populate([], clock).0 ==> f.isActive
  {
    CreatedShape(SeedData, clock);
  }

  /** `populate_initial_faqs`: return when the catalog holds anything;
      otherwise create each seed record, active, in order. */
  method PopulateInitialFaqs(store: ChatStore)
    requires store.Valid()
    modifies store
    ensures store.Valid()
    ensures (store.faqs, store.clock) == Populate(old(store.faqs), old(store.clock))
    ensures store.sessions == old(store.sessions) && store.messages == old(store.messages)
  {
    if |store.faqs| > 0 {
      return;
    }
    ghost var start := store.clock;
    for i := 0 to |SeedData|
      invariant store.Valid()
      invariant store.faqs == Created(SeedData[..i], start)
      invariant store.clock == start + i
      invariant store.sessions == old(store.sessions) && store.messages == old(store.messages)
    {
      var d := SeedData[i];
      var _ := store.CreateFaq(d.question, d.answer, d.keywords, true);
      assert SeedData[..i + 1][..i] == SeedData[..i];
    }
    assert SeedData[..|SeedData|] == SeedData;
  }

  /** `populate_faqs_view`: delete every FAQ entry (messages keep their text
      and lose their FAQ reference), reseed, and report the count, which is
      always 6. */
  method PopulateFaqsView(store: ChatStore) returns (count: nat)
    requires store.Valid()
    modifies store
    ensures store.Valid()
    ensures count == |store.faqs| == 6
    ensures store.faqs == Created(SeedData, old(store.clock)) && store.clock == old(store.clock) + 6
    ensures forall f :: f in store.faqs ==> f.isActive
    ensures store.sessions == old(store.sessions)
    ensures |store.messages| == |old(store.messages)|
    ensures forall i :: 0 <= i < |store.messages| ==> store.messages[i] == old(store.messages[i]).(matchedFaq := None)
  {
    store.DeleteAllFaqs();
    PopulateInitialFaqs(store);
    PopulateEmpty(old(store.clock));
    count := |store.faqs|;
  }

  // ---------------------------------------------------------------------
  // The chat endpoint
  // ---------------------------------------------------------------------

  /** The JSON body of a chat reply: an error with status 400, or the
      service's reply. Both carry the session id in use. */
  datatype ChatResponse =
    | EmptyMessage(error: string, sessionId: string)
    | Answered(response: string, sessionId: string, matchedFaqId: Option<nat>, confidence: nat)

  /** `ChatAPIView.post` on a decoded body. `message` and `sessionId` are the
      optional fields of the body; `freshId` stands for the `uuid4()` used
      when no session id is given. A message that is blank after stripping is
      rejected and nothing is stored; otherwise the session is found or
      created and exactly one exchange is recorded for it. */
  method ChatPost(store: ChatStore, message: Option<string>, sessionId: Option<string>, freshId: string)
    returns (resp: ChatResponse)
    requires store.Valid()
    modifies store
    ensures store.Valid()
    ensures Strip(message.GetOr("")) == "" ==>
      resp == EmptyMessage("Message cannot be empty", sessionId.GetOr(freshId))
      && store.faqs == old(store.faqs) && store.sessions == old(store.sessions)
      && store.messages == old(store.messages) && store.clock == old(store.clock)
    ensures Strip(message.GetOr("")) != "" ==>
      && resp.Answered? && resp.sessionId == sessionId.GetOr(freshId)
      && IsReplyTo(Strip(message.GetOr("")), ActiveFaqs(old(store.faqs)),
                   Reply(resp.response, resp.matchedFaqId, resp.confidence))
    ensures Strip(message.GetOr("")) != "" && FindSession(old(store.sessions), sessionId.GetOr(freshId)).Some? ==>
      && store.sessions == old(store.sessions)
      && store.clock == old(store.clock) + 1
    ensures Strip(message.GetOr("")) != "" && FindSession(old(store.sessions), sessionId.GetOr(freshId)).None? ==>
      && store.sessions == old(store.sessions) + [ChatSession(old(store.clock), sessionId.GetOr(freshId))]
      && store.clock == old(store.clock) + 2
    ensures Strip(message.GetOr("")) != "" ==>
      && store.faqs == old(store.faqs)
      && FindSession(store.sessions, sessionId.GetOr(freshId)).Some?
      && store.messages == old(store.messages)
         + [ChatMessage(FindSession(store.sessions, sessionId.GetOr(freshId)).value.pk,
                        Strip(message.GetOr("")), resp.response, resp.matchedFaqId, store.clock - 1)]
  {
    var text := Strip(message.GetOr(""));
    var sid := sessionId.GetOr(freshId);
    if text == "" {
      return EmptyMessage("Message cannot be empty", sid);
    }
    var session, created := store.GetOrCreateSession(sid);
    var reply := GetResponse(store, text, session);
    resp := Answered(reply.response, sid, reply.matchedFaqId, reply.confidence);
  }

  // ---------------------------------------------------------------------
  // The history endpoint
  // ---------------------------------------------------------------------

  /** One history entry: the two texts and the timestamp of an exchange. */
  datatype HistoryEntry = HistoryEntry(userMessage: string, botResponse: string, timestamp: nat)

  datatype HistoryResult = SessionNotFound | History(entries: seq<HistoryEntry>)

  function EntryOf(m: ChatMessage): HistoryEntry {
    HistoryEntry(m.userMessage, m.botResponse, m.timestamp)
  }

  /** `chat_history`: "Session not found" (status 404) for an unknown id;
      otherwise one entry per message of the session, oldest first. */
  method ChatHistory(store: ChatStore, sessionId: string) returns (result: HistoryResult)
    requires store.Valid()
    ensures FindSession(store.sessions, sessionId).None? <==> result == SessionNotFound
    ensures result.History? ==>
      var ms := MessagesOf(store.messages, FindSession(store.sessions, sessionId).value.pk);
      && |result.entries| == |ms|
      && (forall i :: 0 <= i < |ms| ==> result.entries[i] == EntryOf(ms[i]))
      && (forall i, j :: 0 <= i < j < |ms| ==> result.entries[i].timestamp < result.entries[j].timestamp)
  {
    var found := FindSession(store.sessions, sessionId);
    if found.None? {
      return SessionNotFound;
    }
    var ms := MessagesOf(store.messages, found.value.pk);
    MessagesOfKeepsOrder(store.messages, found.value.pk);
    var history := [];
    for i := 0 to |ms|
      invariant |history| == i
      invariant forall k :: 0 <= k < i ==> history[k] == EntryOf(ms[k])
    {
      history := history + [EntryOf(ms[i])];
    }
    result := History(history);
  }

  /** A session without messages has an empty history. */
  lemma {:induction false} HistoryOfQuietSession(messages: seq<ChatMessage>, pk: nat)
    requires forall i :: 0 <= i < |messages| ==> messages[i].session != pk
    ensures MessagesOf(messages, pk) == []
  {
    if |messages| > 0 {
      HistoryOfQuietSession(messages[1..], pk);
    }
  }
}
