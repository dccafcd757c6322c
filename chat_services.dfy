/**
 * The FAQ chatbot service: message cleaning, the greeting short-circuit,
 * keyword and question scoring, best-match selection with a first-seen
 * tie-break, and the reply that is recorded for every request.
 */
module ChatServices {
  import opened Wrappers
  import opened Text
  import opened ChatModels
  import opened ChatStore

  /** `default_response`. */
  const DefaultResponse: string :=
    "I'm sorry, I couldn't find an answer to your question. Please contact our support team at support@ddecor.com or call +91 22 1234 5678 for further assistance."

  /** `greeting_responses`, in the dictionary's insertion order. */
  const Greetings: seq<(string, string)> := [
    ("hello", "Hello! How can I help you today?"),
    ("hi", "Hi there! What can I do for you?"),
    ("hey", "Hey! How can I assist you?"),
    ("good morning", "Good morning! How may I help you?"),
    ("good afternoon", "Good afternoon! What can I do for you?"),
    ("good evening", "Good evening! How can I assist you today?")
  ]

  /** What `get_response` returns: the reply text, the matched FAQ id (only
      for an FAQ answer) and a confidence on a 0..100 scale. */
  datatype Reply = Reply(response: string, matchedFaqId: Option<nat>, confidence: nat)

  // ---------------------------------------------------------------------
  // Preprocessing
  // ---------------------------------------------------------------------

  /** The characters `[\w\s\?\!]` that the cleaning regex keeps. */
  predicate IsKept(c: char) {
    IsWordChar(c) || IsSpace(c) || c == '?' || c == '!'
  }

  predicate AllKept(s: string) {
    forall i :: 0 <= i < |s| ==> IsKept(s[i])
  }

  /** `re.sub(r'[^\w\s\?\!]', '', s)`: exactly the kept characters of `s`,
      in order; a string of kept characters is left as it is. */
  function RemoveSpecial(s: string): (r: string)
    ensures |r| <= |s|
    ensures forall c :: c in r <==> c in s && IsKept(c)
    ensures AllKept(r)
    ensures AllKept(s) ==> r == s
    ensures IsLowerCase(s) ==> IsLowerCase(r)
  {
    if |s| == 0 then []
    else
      var rest := RemoveSpecial(s[1..]);
      assert s == [s[0]] + s[1..];
      (if IsKept(s[0]) then [s[0]] else []) + rest
  }

  /** Characters are dropped one at a time, independently of their
      neighbours: cleaning distributes over concatenation. */
  lemma {:induction false} RemoveSpecialConcat(a: string, b: string)
    ensures RemoveSpecial(a + b) == RemoveSpecial(a) + RemoveSpecial(b)
    decreases |a|
  {
    if |a| > 0 {
      assert (a + b)[0] == a[0];
      assert (a + b)[1..] == a[1..] + b;
      RemoveSpecialConcat(a[1..], b);
    } else {
      assert a + b == b;
    }
  }

  /** `preprocess_message`: lower-case, strip, then drop every character
      other than word characters, whitespace, `?` and `!`. The result holds
      only kept, non-upper-case characters. */
  function Preprocess(message: string): (r: string)
    ensures |r| <= |message|
    ensures AllKept(r)
    ensures IsLowerCase(r)
  {
    var lowered := Lower(message);
    StripKeepsLowerCase(lowered);
    RemoveSpecial(Strip(lowered))
  }

  /** The cleaned text of a cleaned message is that message with its ends
      stripped: cleaning is not idempotent, because stripping runs before
      the removal of special characters and can leave spaces at the ends. */
  lemma {:induction false} PreprocessTwice(message: string)
    ensures Preprocess(Preprocess(message)) == Strip(Preprocess(message))
  {
    PreprocessCleaned(Preprocess(message));
  }

  /** Cleaning a string made only of lower-case kept characters only strips it. */
  lemma {:induction false} PreprocessCleaned(p: string)
    requires AllKept(p)
    requires IsLowerCase(p)
    ensures Preprocess(p) == Strip(p)
  {
    LowerOfLowerCase(p);
    StripKeepsAllKept(p);
  }

  lemma {:induction false} StripKeepsAllKept(p: string)
    requires AllKept(p)
    ensures AllKept(Strip(p))
  {
    var t := Strip(p);
    var k := LeadingSpaces(p);
    forall i | 0 <= i < |t| ensures IsKept(t[i]) {
      assert t[i] == p[k + i];
    }
  }

  /** A leading special character is removed only after stripping, so the
      space behind it survives. */
  lemma {:induction false} PreprocessKeepsInnerSpace(message: string)
    requires Strip(Lower(message)) == "@ hi"
    ensures Preprocess(message) == " hi"
  {
    var s := "@ hi";
    assert s[1..] == " hi" && !IsKept(s[0]);
    assert AllKept(" hi");
  }

  // ---------------------------------------------------------------------
  // Greetings
  // ---------------------------------------------------------------------

  /** Greeting `i` occurs in `m` and no earlier greeting does. */
  predicate IsFirstGreeting(m: string, greetings: seq<(string, string)>, i: int) {
    && 0 <= i < |greetings|
    && IsSubstring(greetings[i].0, m)
    && forall j :: 0 <= j < i ==> !IsSubstring(greetings[j].0, m)
  }

  /** The early-return scan of `check_greetings`: the reply of the first
      greeting, in order, that occurs in `m`. */
  function FirstGreeting(m: string, greetings: seq<(string, string)>): (r: Option<string>)
    ensures r.None? <==> forall i :: 0 <= i < |greetings| ==> !IsSubstring(greetings[i].0, m)
    ensures r.Some? ==> exists i :: IsFirstGreeting(m, greetings, i) && r.value == greetings[i].1
  {
    if |greetings| == 0 then None
    else if IsSubstring(greetings[0].0, m) then
      assert IsFirstGreeting(m, greetings, 0);
      Some(greetings[0].1)
    else
      var r := FirstGreeting(m, greetings[1..]);
      assert forall i :: 1 <= i < |greetings| ==> greetings[1..][i - 1] == greetings[i];
      assert forall i :: IsFirstGreeting(m, greetings[1..], i) ==> IsFirstGreeting(m, greetings, i + 1);
      r
  }

  /** `check_greetings`: a plain substring test on the lower-cased, stripped
      message, greetings tried in dictionary order. */
  function CheckGreetings(message: string): (r: Option<string>)
    ensures r.None? <==> forall i :: 0 <= i < |Greetings| ==> !IsSubstring(Greetings[i].0, Strip(Lower(message)))
    ensures r.Some? ==> exists i :: IsFirstGreeting(Strip(Lower(message)), Greetings, i) && r.value == Greetings[i].1
  {
    FirstGreeting(Strip(Lower(message)), Greetings)
  }

  /** A message containing `hello` always gets the `hello` reply: it is the
      first greeting tried. */
  lemma {:induction false} HelloComesFirst(message: string)
    requires IsSubstring("hello", Strip(Lower(message)))
    ensures CheckGreetings(message) == Some("Hello! How can I help you today?")
  {
  }

  /** A message containing `hi` but not `hello` gets the `hi` reply, whatever
      word the `hi` sits in. */
  lemma {:induction false} HiUnlessHello(message: string)
    requires IsSubstring("hi", Strip(Lower(message)))
    requires !IsSubstring("hello", Strip(Lower(message)))
    ensures CheckGreetings(message) == Some("Hi there! What can I do for you?")
  {
    var m := Strip(Lower(message));
    assert FirstGreeting(m, Greetings) == FirstGreeting(m, Greetings[1..]);
  }

  /** "shipping" contains `hi`, so a question about shipping is greeted. */
  lemma {:induction false} ShippingIsGreeted(message: string)
    requires Strip(Lower(message)) == "shipping"
    ensures CheckGreetings(message) == Some("Hi there! What can I do for you?")
  {
    CharMissingNotSubstring("hello", "shipping", 1);
    assert OccursAt("hi", "shipping", 1);
    HiUnlessHello(message);
  }

  // ---------------------------------------------------------------------
  // Scoring: the reference definitions
  // ---------------------------------------------------------------------

  /** Partial-match points of a keyword: one per message token that
      contains the keyword or is contained in it. */
  function PartialHits(keyword: string, words: seq<string>): (n: nat)
    ensures n <= |words|
  {
    if |words| == 0 then 0
    else
      var w := words[|words| - 1];
      PartialHits(keyword, words[..|words| - 1]) + (if IsSubstring(keyword, w) || IsSubstring(w, keyword) then 1 else 0)
  }

  /** Points of one keyword: 3 when it occurs in the processed message,
      otherwise its partial hits. */
  function KeywordPoints(keyword: string, processed: string, words: seq<string>): nat {
    if IsSubstring(keyword, processed) then 3 else PartialHits(keyword, words)
  }

  /** Points of all keywords, summed left to right. */
  function KeywordScore(keywords: seq<string>, processed: string, words: seq<string>): (r: nat)
    ensures (exists i :: 0 <= i < |keywords| && IsSubstring(keywords[i], processed)) ==> 3 <= r
  {
    if |keywords| == 0 then 0
    else
      var init := keywords[..|keywords| - 1];
      assert forall i :: 0 <= i < |init| ==> init[i] == keywords[i];
      KeywordScore(init, processed, words) + KeywordPoints(keywords[|keywords| - 1], processed, words)
  }

  /** Points of one question word: 2 when it is longer than two characters
      and occurs in the processed message. */
  function QuestionPoints(word: string, processed: string): nat {
    if |word| > 2 && IsSubstring(Lower(word), processed) then 2 else 0
  }

  /** Points of all question words, summed left to right. */
  function QuestionScore(questionWords: seq<string>, processed: string): (r: nat)
    ensures r % 2 == 0 && r <= 2 * |questionWords|
  {
    if |questionWords| == 0 then 0
    else QuestionScore(questionWords[..|questionWords| - 1], processed) + QuestionPoints(questionWords[|questionWords| - 1], processed)
  }

  /** `set(words_in_message) & set(question_words + keywords)`. */
  function CommonWords(words: seq<string>, questionWords: seq<string>, keywords: seq<string>): set<string> {
    (set w | w in words) * (set w | w in questionWords + keywords)
  }

  /** The bonus: the number of common words, counted only above one. */
  function CommonBonus(words: seq<string>, questionWords: seq<string>, keywords: seq<string>): (r: nat)
    ensures r != 1
    ensures words == [] ==> r == 0
  {
    assert words == [] ==> CommonWords(words, questionWords, keywords) == {};
    var n := |CommonWords(words, questionWords, keywords)|;
    if n > 1 then n else 0
  }

  /** The score of one FAQ entry against a processed message and its tokens.
      Question words come from the lower-cased question split on whitespace,
      punctuation included (`policy?` keeps its `?`). */
  function FaqScore(processed: string, words: seq<string>, faq: Faq): (r: nat)
    ensures (exists i :: 0 <= i < |KeywordsList(faq.keywords)| && IsSubstring(KeywordsList(faq.keywords)[i], processed)) ==> 3 <= r
  {
    var keywords := KeywordsList(faq.keywords);
    var questionWords := Words(Lower(faq.question));
    KeywordScore(keywords, processed, words) + QuestionScore(questionWords, processed)
      + CommonBonus(words, questionWords, keywords)
  }

  /** The score of one FAQ entry against a raw user message. */
  function Score(message: string, faq: Faq): (r: nat)
    ensures (exists i :: 0 <= i < |KeywordsList(faq.keywords)| && IsSubstring(KeywordsList(faq.keywords)[i], Preprocess(message))) ==> 3 <= r
  {
    var processed := Preprocess(message);
    FaqScore(processed, Words(processed), faq)
  }

  /** The largest element of `xs`, 0 for an empty sequence. */
  function MaxOf(xs: seq<nat>): (r: nat)
    ensures forall i :: 0 <= i < |xs| ==> xs[i] <= r
    ensures |xs| > 0 ==> exists i :: 0 <= i < |xs| && xs[i] == r
  {
    if |xs| == 0 then 0
    else
      var init := xs[..|xs| - 1];
      var prev := MaxOf(init);
      assert forall i :: 0 <= i < |init| ==> xs[i] == init[i];
      if xs[|xs| - 1] > prev then xs[|xs| - 1] else prev
  }

  /** The score of every entry of a catalog, in catalog order. */
  function Scores(message: string, catalog: seq<Faq>): (r: seq<nat>)
    ensures |r| == |catalog|
    ensures forall i :: 0 <= i < |catalog| ==> r[i] == Score(message, catalog[i])
  {
    if |catalog| == 0 then []
    else
      var rest := Scores(message, catalog[1..]);
      assert forall i :: 1 <= i < |catalog| ==> catalog[i] == catalog[1..][i - 1];
      [Score(message, catalog[0])] + rest
  }

  /** The largest score over a catalog, 0 for an empty one. */
  function MaxScore(message: string, catalog: seq<Faq>): (r: nat)
    ensures forall i :: 0 <= i < |catalog| ==> Score(message, catalog[i]) <= r
    ensures |catalog| > 0 ==> exists i :: 0 <= i < |catalog| && Score(message, catalog[i]) == r
  {
    var xs := Scores(message, catalog);
    var r := MaxOf(xs);
    assert forall i :: 0 <= i < |catalog| ==> xs[i] == Score(message, catalog[i]);
    r
  }

  /** Entry `k` is the one `find_best_match` keeps: it reaches the maximum
      and every earlier entry scores strictly less. */
  predicate IsFirstBest(message: string, catalog: seq<Faq>, k: int) {
    && 0 <= k < |catalog|
    && Score(message, catalog[k]) == MaxScore(message, catalog)
    && forall j :: 0 <= j < k ==> Score(message, catalog[j]) < MaxScore(message, catalog)
  }

  // ---------------------------------------------------------------------
  // Scoring: the loops of the service
  // ---------------------------------------------------------------------

  lemma {:induction false} PartialHitsStep(keyword: string, words: seq<string>, j: nat)
    requires j < |words|
    ensures PartialHits(keyword, words[..j + 1]) == PartialHits(keyword, words[..j])
      + (if IsSubstring(keyword, words[j]) || IsSubstring(words[j], keyword) then 1 else 0)
  {
    assert words[..j + 1][..j] == words[..j];
  }

  lemma {:induction false} KeywordScoreStep(keywords: seq<string>, processed: string, words: seq<string>, i: nat)
    requires i < |keywords|
    ensures KeywordScore(keywords[..i + 1], processed, words)
      == KeywordScore(keywords[..i], processed, words) + KeywordPoints(keywords[i], processed, words)
  {
    assert keywords[..i + 1][..i] == keywords[..i];
  }

  lemma {:induction false} QuestionScoreStep(questionWords: seq<string>, processed: string, i: nat)
    requires i < |questionWords|
    ensures QuestionScore(questionWords[..i + 1], processed)
      == QuestionScore(questionWords[..i], processed) + QuestionPoints(questionWords[i], processed)
  {
    assert questionWords[..i + 1][..i] == questionWords[..i];
  }

  /** The keyword loop of `find_best_match` (with its inner loop over the
      message tokens) for one FAQ entry. */
  method KeywordLoop(keywords: seq<string>, processed: string, words: seq<string>) returns (score: nat)
    ensures score == KeywordScore(keywords, processed, words)
  {
    score := 0;
    for i := 0 to |keywords|
      invariant score == KeywordScore(keywords[..i], processed, words)
    {
      var keyword := keywords[i];
      KeywordScoreStep(keywords, processed, words, i);
      if IsSubstring(keyword, processed) {
        score := score + 3;
      } else {
        ghost var before := score;
        for j := 0 to |words|
          invariant score == before + PartialHits(keyword, words[..j])
        {
          PartialHitsStep(keyword, words, j);
          if IsSubstring(keyword, words[j]) || IsSubstring(words[j], keyword) {
            score := score + 1;
          }
        }
        assert words[..|words|] == words;
      }
    }
    assert keywords[..|keywords|] == keywords;
  }

  /** The question-word loop of `find_best_match` for one FAQ entry. */
  method QuestionLoop(questionWords: seq<string>, processed: string) returns (score: nat)
    ensures score == QuestionScore(questionWords, processed)
  {
    score := 0;
    for i := 0 to |questionWords|
      invariant score == QuestionScore(questionWords[..i], processed)
    {
      QuestionScoreStep(questionWords, processed, i);
      var word := questionWords[i];
      if |word| > 2 && IsSubstring(Lower(word), processed) {
        score := score + 2;
      }
    }
    assert questionWords[..|questionWords|] == questionWords;
  }

  /** The body of the loop over FAQ entries in `find_best_match`: keyword
      points, question-word points and the common-word bonus. */
  method ScoreFaq(processed: string, words: seq<string>, faq: Faq) returns (score: nat)
    ensures score == FaqScore(processed, words, faq)
  {
    var keywords := KeywordsList(faq.keywords);
    var questionWords := Words(Lower(faq.question));
    var keywordPart := KeywordLoop(keywords, processed, words);
    var questionPart := QuestionLoop(questionWords, processed);
    score := keywordPart + questionPart;
    var common := (set w | w in words) * (set w | w in questionWords + keywords);
    if |common| > 1 {
      score := score + |common|;
    }
  }

  /** Position `k` holds the maximum of `xs` and every earlier position is
      strictly smaller. */
  predicate IsFirstMax(xs: seq<nat>, k: int) {
    0 <= k < |xs| && xs[k] == MaxOf(xs) && forall j :: 0 <= j < k ==> xs[j] < xs[k]
  }

  /** What a left-to-right scan that keeps the first strict improvement
      over 0 knows about `xs`: `k` is -1 while the maximum is still 0, and
      otherwise the first position of a positive maximum. */
  predicate Tracks(xs: seq<nat>, k: int) {
    if k < 0 then MaxOf(xs) == 0 else IsFirstMax(xs, k) && xs[k] > 0
  }

  /** One step of that scan. */
  lemma {:induction false} TracksStep(xs: seq<nat>, i: nat, k: int)
    requires i < |xs|
    requires Tracks(xs[..i], k)
    ensures MaxOf(xs[..i + 1]) == if xs[i] > MaxOf(xs[..i]) then xs[i] else MaxOf(xs[..i])
    ensures Tracks(xs[..i + 1], if xs[i] > MaxOf(xs[..i]) then i else k)
  {
    var pre := xs[..i + 1];
    assert pre[..i] == xs[..i];
    assert forall j :: 0 <= j < i ==> pre[j] == xs[..i][j];
  }

  lemma {:induction false} ScoresAt(message: string, catalog: seq<Faq>, i: nat, score: nat)
    requires i < |catalog|
    requires score == FaqScore(Preprocess(message), Words(Preprocess(message)), catalog[i])
    ensures Scores(message, catalog)[i] == score
  {
  }

  lemma {:induction false} FirstMaxIsFirstBest(message: string, catalog: seq<Faq>, k: int)
    requires IsFirstMax(Scores(message, catalog), k)
    ensures IsFirstBest(message, catalog, k)
    ensures exists k' :: IsFirstBest(message, catalog, k') && catalog[k'] == catalog[k]
  {
  }

  /** `find_best_match` over the active catalog: the maximum score, and the
      first entry reaching it; no entry exactly when the maximum is 0. */
  method FindBestMatch(userMessage: string, catalog: seq<Faq>) returns (best: Option<Faq>, maxScore: nat)
    ensures maxScore == MaxScore(userMessage, catalog)
    ensures best.None? <==> maxScore == 0
    ensures best.Some? ==> exists k :: IsFirstBest(userMessage, catalog, k) && best.value == catalog[k]
  {
    var processed := Preprocess(userMessage);
    var words := Words(processed);
    ghost var xs := Scores(userMessage, catalog);
    best, maxScore := None, 0;
    ghost var bestIndex := -1;
    for i := 0 to |catalog|
      invariant maxScore == MaxOf(xs[..i])
      invariant bestIndex < i && Tracks(xs[..i], bestIndex)
      invariant best == if bestIndex < 0 then None else Some(catalog[bestIndex])
    {
      var score := ScoreFaq(processed, words, catalog[i]);
      ScoresAt(userMessage, catalog, i, score);
      TracksStep(xs, i, bestIndex);
      if score > maxScore {
        best, maxScore, bestIndex := Some(catalog[i]), score, i;
      }
    }
    assert xs[..|catalog|] == xs;
    if best.Some? {
      FirstMaxIsFirstBest(userMessage, catalog, bestIndex);
    }
  }

  /** `min(score * 10, 100)`: a raw score of 2 or more maps into 20..100. */
  function Confidence(score: nat): (c: nat)
    ensures c <= 100
    ensures score >= 2 ==> c >= 20
    ensures c == 100 <==> score >= 10
  {
    if score * 10 < 100 then score * 10 else 100
  }

  /** The reply `get_response` owes to `userMessage` given the active
      entries `active`: a greeting's reply with confidence 100; else the first
      entry with the best score, when that score is at least 2, with its
      confidence; else the default reply with no entry and confidence 0. */
  ghost predicate IsReplyTo(userMessage: string, active: seq<Faq>, reply: Reply) {
    && (CheckGreetings(userMessage).Some? ==> reply == Reply(CheckGreetings(userMessage).value, None, 100))
    && (CheckGreetings(userMessage).None? && MaxScore(userMessage, active) >= 2 ==>
          exists k :: IsFirstBest(userMessage, active, k)
            && reply == Reply(active[k].answer, Some(active[k].id), Confidence(MaxScore(userMessage, active))))
    && (CheckGreetings(userMessage).None? && MaxScore(userMessage, active) < 2 ==>
          reply == Reply(DefaultResponse, None, 0))
  }

  /** `get_response`: a greeting short-circuits with confidence 100; else the
      first best active FAQ answers when its score is at least 2; else the
      default reply with confidence 0. Exactly one message is recorded, and
      it references an FAQ only in the answering case. */
  method GetResponse(store: ChatStore, userMessage: string, session: ChatSession) returns (reply: Reply)
    requires store.Valid()
    requires session in store.sessions
    modifies store
    ensures store.Valid()
    ensures store.faqs == old(store.faqs) && store.sessions == old(store.sessions)
    ensures store.clock == old(store.clock) + 1
    ensures store.messages == old(store.messages)
      + [ChatMessage(session.pk, userMessage, reply.response, reply.matchedFaqId, old(store.clock))]
    ensures IsReplyTo(userMessage, ActiveFaqs(old(store.faqs)), reply)
  {
    var i :| 0 <= i < |store.sessions| && store.sessions[i] == session;
    assert HasSession(store.sessions, session.pk);
    var greeting := CheckGreetings(userMessage);
    if greeting.Some? {
      reply := Reply(greeting.value, None, 100);
      var _ := store.CreateMessage(session.pk, userMessage, reply.response, None);
      return;
    }
    var catalog := ActiveFaqs(store.faqs);
    var best, score := FindBestMatch(userMessage, catalog);
    if best.Some? && score >= 2 {
      var faq := best.value;
      assert faq in catalog;
      var j :| 0 <= j < |store.faqs| && store.faqs[j] == faq;
      assert HasFaq(store.faqs, faq.id);
      reply := Reply(faq.answer, Some(faq.id), Confidence(score));
      var _ := store.CreateMessage(session.pk, userMessage, reply.response, Some(faq.id));
    } else {
      reply := Reply(DefaultResponse, None, 0);
      var _ := store.CreateMessage(session.pk, userMessage, reply.response, None);
    }
  }
}
