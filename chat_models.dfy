/**
 * The chatbot's records (FAQ entries, chat sessions, chat messages) and the
 * parsing of an FAQ's comma-separated keyword field.
 */
module ChatModels {
  import opened Wrappers
  import opened Text

  /** An FAQ entry. `id` comes from the store's counter at creation, so it
      orders entries exactly as `created_at` does. */
  datatype Faq = Faq(id: nat, question: string, answer: string, keywords: string, isActive: bool)

  /** A chat session: a primary key and the client's `session_id`. */
  datatype ChatSession = ChatSession(pk: nat, sessionId: string)

  /** One exchange. `session` is the primary key of the owning session;
      `matchedFaq` is a nullable reference to an FAQ id. */
  datatype ChatMessage = ChatMessage(
    session: nat,
    userMessage: string,
    botResponse: string,
    matchedFaq: Option<nat>,
    timestamp: nat)

  /** What every parsed keyword looks like: non-empty, without commas,
      lower case, and neither starting nor ending with whitespace. */
  predicate IsKeyword(k: string) {
    |k| > 0 && NoComma(k) && IsLowerCase(k) && !IsSpace(k[0]) && !IsSpace(k[|k| - 1])
  }

  predicate NoComma(s: string) {
    forall i :: 0 <= i < |s| ==> s[i] != ','
  }

  lemma {:induction false} StripKeepsOutComma(f: string)
    requires NoComma(f)
    ensures NoComma(Strip(f))
  {
    var t := Strip(f);
    var k := LeadingSpaces(f);
    forall i | 0 <= i < |t| ensures t[i] != ',' {
      assert t[i] == f[k + i];
    }
  }

  /** `f.strip().lower()` for a field of a comma split. */
  function NormalizeField(f: string): (r: string)
    requires NoComma(f)
    ensures r == "" <==> Strip(f) == ""
    ensures r != "" ==> IsKeyword(r)
  {
    var t := Strip(f);
    StripKeepsOutComma(f);
    var r := Lower(t);
    assert r != "" ==> r[0] == LowerChar(t[0]) && r[|r| - 1] == LowerChar(t[|t| - 1]);
    r
  }

  /** The comprehension `[f.strip().lower() for f in fields if f.strip()]`. */
  function CleanFields(fields: seq<string>): (r: seq<string>)
    requires forall k :: 0 <= k < |fields| ==> NoComma(fields[k])
    ensures |r| <= |fields|
    ensures forall k :: 0 <= k < |r| ==> IsKeyword(r[k])
  {
    if |fields| == 0 then []
    else (if Strip(fields[0]) != "" then [NormalizeField(fields[0])] else []) + CleanFields(fields[1..])
  }

  /** A single field is kept, normalised, exactly when it is not blank. */
  lemma {:induction false} CleanFieldsOne(f: string)
    requires NoComma(f)
    ensures CleanFields([f]) == if Strip(f) == "" then [] else [NormalizeField(f)]
  {
    assert [f][1..] == [];
  }

  /** `FAQ.get_keywords_list`: the comma-separated fields of `keywords`,
      trimmed and lower-cased, blank ones dropped, in their original order. */
  function KeywordsList(keywords: string): (r: seq<string>)
    ensures forall k :: 0 <= k < |r| ==> IsKeyword(r[k])
    ensures |r| <= Count(keywords, ',') + 1
    ensures keywords == "" ==> r == []
  {
    var fields := Split(keywords, ',');
    assert keywords == "" ==> fields == [""] && Strip(fields[0]) == "" && fields[1..] == [];
    CleanFields(fields)
  }

  lemma {:induction false} CleanFieldsConcat(a: seq<string>, b: seq<string>)
    requires forall k :: 0 <= k < |a| ==> NoComma(a[k])
    requires forall k :: 0 <= k < |b| ==> NoComma(b[k])
    ensures CleanFields(a + b) == CleanFields(a) + CleanFields(b)
  {
    var ab := a + b;
    assert forall k :: 0 <= k < |ab| ==> NoComma(ab[k]) by {
      forall k | 0 <= k < |ab| ensures NoComma(ab[k]) {
        if k < |a| { assert ab[k] == a[k]; } else { assert ab[k] == b[k - |a|]; }
      }
    }
    if |a| == 0 {
      assert ab == b;
    } else {
      assert ab[1..] == a[1..] + b;
      assert ab[0] == a[0];
      CleanFieldsConcat(a[1..], b);
    }
  }

  /** Parsing keeps the left-to-right order: the keywords of `a,b` are those
      of `a` followed by those of `b`. */
  lemma {:induction false} KeywordsListConcat(a: string, b: string)
    ensures KeywordsList(a + "," + b) == KeywordsList(a) + KeywordsList(b)
  {
    SplitConcat(a, b, ',');
    CleanFieldsConcat(Split(a, ','), Split(b, ','));
  }

  /** Text without a comma is one keyword, trimmed and lower-cased, or none
      when it is blank. */
  lemma {:induction false} KeywordsListField(f: string)
    requires NoComma(f)
    ensures KeywordsList(f) == if Strip(f) == "" then [] else [NormalizeField(f)]
  {
    SplitWithoutSeparator(f, ',');
    CleanFieldsOne(f);
  }
}
