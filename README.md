# D-Decor: FAQ chatbot and shopping cart, modelled in Dafny

This project models the two parts of the D-Decor Django shop that hold real
logic.

**The FAQ chatbot** takes a user message and works through these steps:

1. It cleans the message: lower-case, strip, then drop everything except
   `\w`, whitespace, `?` and `!`.
2. It short-circuits on greetings, which are plain substring tests tried in
   dictionary order.
3. Otherwise it scores every active FAQ entry:
   - +3 for a keyword found in the message;
   - otherwise +1 per message token that contains the keyword or is
     contained in it;
   - +2 per question word longer than two characters found in the message;
   - a bonus equal to the number of common words, when there is more than one.
4. It keeps the first entry with the strictly best positive score.
5. It answers when that score is at least 2, with confidence
   `min(10 × score, 100)`.
6. Every request records exactly one chat message.

The chatbot's views seed the catalog, re-populate it, validate and answer
chat posts, and list a session's history.

**The shopping cart** holds one line per product name. Its views cover:

- adding a product, which clamps the quantity to at least 1, merges into an
  existing line and checks the stock;
- setting a line's quantity, where a quantity of 0 or less deletes the line;
- removing a line;
- clearing the cart;
- the cart page, which shows totals, the coupon discount rounded to paise
  half-to-even, per-line stock status and checkout eligibility.

Modules, in dependency order:

- `Wrappers`: `Option`.
- `Text`: the Python string built-ins used, on ASCII. These are
  `str.lower`, `str.strip`, `str.split()`, `str.split(',')` and the substring
  test `in`.
- `ChatModels`: the FAQ, session and message records, and
  `FAQ.get_keywords_list`.
- `ChatStore`: a class holding the three chatbot tables and their integrity
  rules (ordering, unique session ids, CASCADE, SET_NULL). It also holds the
  create and delete operations the code relies on.
- `ChatServices`: the reference definitions of the scores, and the
  service's loops proved against them.
- `ChatViews`: seeding, the populate endpoint, the chat endpoint and the
  history endpoint.
- `CartModels`: cart lines, totals, and the `Cart` class with `clear`.
- `CartViews`: `add_to_cart`, `update_cart`, `remove_from_cart`,
  `clear_cart` and `cart_detail`.

Conventions of the model:

- **Prices** are integers in paise, so a price `p` with two decimals is
  `100 p`.
- **Primary keys and timestamps** come from one counter, so a later record
  always gets a larger value. The FAQ catalog is kept newest first
  (`ordering = ['-created_at']`); messages are kept oldest first
  (`ordering = ['timestamp']`).
- **Stock** comes from the inventory app, which is not part of this model.
  The stock of a product is an `Option<int>` parameter for the single-item
  views and a `map<string, int>` for the cart page.
- **Cart lines** may hold quantity 0. The field is a `PositiveIntegerField`,
  which admits 0, and the admin can store it. The views never create such a
  line, but they handle one like any other.

Three behaviours of the code are easy to get wrong when reading it:

- **The return-policy example.** The message "what is your refund policy"
  scores 15 against the entry "What is your return policy?" (keywords
  `return`, `policy`, `refund`), so its confidence is 100. The points are:
  - 3 for `policy` and 3 for `refund`;
  - 2 each for the question words `what` and `your`;
  - a common-word bonus of 5.

  No point comes from the question word `policy?`, because it keeps its `?`
  and so does not occur in the cleaned message.
- **A session's last activity.** `ChatSession.last_activity` is never
  updated after the session is created, because the session is never saved
  again. The model keeps no such field.
- **A malformed price in `add_to_cart`.** `Decimal` raises
  `InvalidOperation`, an `ArithmeticError` that `except (ValueError,
  TypeError)` does not catch. The request therefore ends in a server error,
  not the "Invalid price or quantity." message. The cart is unchanged either
  way.

## Model

| member | source | states |
|---|---|---|
| Text.Lower | chatbot/services.py:20 | `str.lower()` on ASCII: same length, character by character through `LowerChar`, which leaves no upper-case letter, maps A–Z into a–z, keeps whitespace whitespace and word characters word characters, and leaves every non-upper-case character unchanged |
| Text.Strip | chatbot/services.py:20 | `str.strip()`: the result is the slice of the input after its leading whitespace, and everything after that slice is whitespace; it is empty exactly when the input is all whitespace, and otherwise neither starts nor ends with whitespace |
| Text.StripOfTrimmed | chatbot/services.py:20 | a string with no whitespace at either end is its own strip |
| Text.IsSubstring | chatbot/services.py:29 | `needle in hay` holds exactly when the needle occurs at some position of the haystack |
| Text.CharMissingNotSubstring | chatbot/services.py:29 | a needle containing a character the haystack lacks is not a substring of it |
| Text.Words | chatbot/services.py:36 | `str.split()` yields only non-empty tokens without whitespace |
| Text.WordsOfWord | chatbot/services.py:36 | a single token splits into exactly itself |
| Text.WordsAtSpace | chatbot/services.py:36 | any whitespace character separates tokens: the tokens of `a c b`, with `c` whitespace, are those of `a` followed by those of `b` |
| Text.WordsOfJoin | chatbot/services.py:36 | splitting a space-joined list of tokens gives the same tokens back |
| Text.Split | chatbot/models.py:21 | `s.split(',')` yields one more field than there are commas, and no field contains a comma |
| Text.JoinSplit | chatbot/models.py:21 | joining the fields of a split with the separator restores the string |
| Text.SplitJoin | chatbot/models.py:21 | splitting a join of separator-free fields restores the fields |
| Text.SplitConcat | chatbot/models.py:21 | the fields of `a,b` are the fields of `a` followed by those of `b` |
| ChatModels.NormalizeField | chatbot/models.py:21 | a stripped, lower-cased field is empty exactly when its strip is, and is otherwise a well-formed keyword |
| ChatModels.CleanFields | chatbot/models.py:21 | the comprehension keeps at most one keyword per field, each non-empty, trimmed, lower case and free of commas |
| ChatModels.CleanFieldsOne | chatbot/models.py:21 | a single field gives its trimmed lower-cased text when it is not blank and nothing when it is; with CleanFieldsConcat this fixes the result on every list of fields |
| ChatModels.KeywordsList | chatbot/models.py:19-21 | every keyword is non-empty, trimmed, lower case and free of commas; there are at most commas + 1 of them; an empty field gives none |
| ChatModels.CleanFieldsConcat | chatbot/models.py:21 | the comprehension distributes over concatenation, so blank fields are dropped without reordering the rest |
| ChatModels.KeywordsListConcat | chatbot/models.py:19-21 | the keywords of `a,b` are those of `a` followed by those of `b` (left-to-right order is kept) |
| ChatModels.KeywordsListField | chatbot/models.py:19-21 | text without a comma gives exactly one keyword, its trimmed lower-cased text, or none when it is blank; with KeywordsListConcat this fixes the result on every string |
| ChatStore.FindSession | chatbot/views.py:118 | a found session is stored and has the id; `None` means no stored session has it |
| ChatStore.MessagesOf | chatbot/views.py:119 | exactly the stored messages of the session |
| ChatStore.MessagesNotOf | chatbot/models.py:32 | exactly the messages of other sessions (what a cascade delete leaves) |
| ChatStore.SessionsWithout | chatbot/models.py:32 | exactly the sessions with another key |
| ChatStore.ActiveFaqs | chatbot/services.py:42 | exactly the active FAQ entries |
| ChatStore.ActiveFaqsKeepsOrder | chatbot/services.py:42 | the active entries of a newest-first catalog are newest first |
| ChatStore.ActiveFaqsConcat | chatbot/services.py:42 | the filter keeps the relative order of the entries: the active entries of `a + b` are those of `a` followed by those of `b` |
| ChatStore.FaqsWithout | chatbot/models.py:35 | exactly the FAQ entries with another id |
| ChatStore.PrependKeepsTimestampOrder | chatbot/models.py:38-39 | a message older than all others can go first without breaking timestamp order |
| ChatStore.OlderThanSelection | chatbot/models.py:38-39 | a message older than all of a sequence is older than all of any selection from it |
| ChatStore.FirstIsOldest | chatbot/models.py:38-39 | in timestamp order the first message is the oldest and the rest stays ordered |
| ChatStore.MessagesOfKeepsOrder | chatbot/views.py:119 | the messages of one session stay in ascending timestamp order |
| ChatStore.MessagesNotOfKeepsOrder | chatbot/models.py:32-39 | the messages left by a cascade delete stay in ascending timestamp order |
| ChatStore.ChatStore.CreateFaq | chatbot/views.py:51-56 | the new entry gets the next id, goes first (newest first), and nothing else changes |
| ChatStore.ChatStore.DeleteFaq | chatbot/models.py:35 | SET_NULL: the entry is gone, every message stays, and exactly the references to it are cleared |
| ChatStore.ChatStore.DeleteAllFaqs | chatbot/views.py:104 | the catalog is empty and every message stays with its reference cleared |
| ChatStore.ChatStore.GetOrCreateSession | chatbot/views.py:79-81 | an existing session is returned and nothing changes; otherwise exactly one session is appended; either way the id then finds the returned session |
| ChatStore.ChatStore.CreateMessage | chatbot/services.py:81-85 | the message gets the next timestamp and is appended last; nothing else changes |
| ChatStore.ChatStore.DeleteSession | chatbot/models.py:32 | CASCADE: the session and exactly its messages are deleted; the rest keep their order and integrity |
| ChatStore.UnlinkedReferencesResolve | chatbot/models.py:35 | after the references to a deleted entry are cleared, every remaining reference names a remaining entry |
| ChatStore.KeptMessagesHaveSessions | chatbot/models.py:32 | after a cascade delete, every remaining message belongs to a remaining session |
| ChatStore.FindSessionUnique | chatbot/models.py:24 | with unique session ids, the session found is the only one with that id |
| ChatStore.FindSessionAppend | chatbot/views.py:79-81 | a newly created session is found by its id |
| ChatStore.FaqsWithoutKeepsOrder | chatbot/models.py:14 | deleting an entry keeps the catalog newest first |
| ChatStore.SessionsWithoutKeepsUnique | chatbot/models.py:24 | deleting a session keeps session ids and keys unique |
| ChatServices.RemoveSpecial | chatbot/services.py:22 | the regex keeps exactly the characters in `[\w\s?!]`, never lengthens the text, leaves clean text as it is, and keeps lower case |
| ChatServices.RemoveSpecialConcat | chatbot/services.py:22 | each character is kept or dropped on its own: cleaning `a + b` gives the cleaning of `a` followed by that of `b` |
| ChatServices.Preprocess | chatbot/services.py:17-23 | the cleaned message is no longer than the input and holds only lower-case word characters, whitespace, `?` and `!` |
| ChatServices.PreprocessTwice | chatbot/services.py:17-23 | cleaning a cleaned message only strips it again (cleaning is not idempotent) |
| ChatServices.PreprocessCleaned | chatbot/services.py:17-23 | cleaning clean lower-case text only strips it |
| ChatServices.PreprocessKeepsInnerSpace | chatbot/services.py:20-22 | stripping runs before the removal of characters, so `"@ hi"` cleans to `" hi"` with a leading space |
| ChatServices.FirstGreeting | chatbot/services.py:28-31 | `None` exactly when no greeting occurs; otherwise the reply of the first greeting, in order, that occurs |
| ChatServices.CheckGreetings | chatbot/services.py:25-31 | the same on the lower-cased, stripped message, with the greetings in dictionary order |
| ChatServices.HelloComesFirst | chatbot/services.py:8-31 | a message containing `hello` always gets the `hello` reply |
| ChatServices.HiUnlessHello | chatbot/services.py:8-31 | a message containing `hi` but not `hello` gets the `hi` reply, whatever word the `hi` sits in |
| ChatServices.ShippingIsGreeted | chatbot/services.py:8-31 | the message "shipping" is answered with the `hi` greeting |
| ChatServices.PartialHits | chatbot/services.py:55-57 | a keyword earns at most one partial point per message token |
| ChatServices.KeywordScore | chatbot/services.py:50-57 | a keyword that occurs in the cleaned message brings the keyword score to at least 3 |
| ChatServices.QuestionScore | chatbot/services.py:60-62 | the question score is even and at most 2 per question word |
| ChatServices.CommonBonus | chatbot/services.py:64-67 | the bonus is never 1 (a single common word earns nothing), and a message without tokens earns none |
| ChatServices.FaqScore | chatbot/services.py:44-67 | an entry one of whose keywords occurs in the cleaned message scores at least 3, above the answering floor of 2 |
| ChatServices.Score | chatbot/services.py:35-67 | the same on the raw message: a keyword occurring in the cleaned message is enough for a score of at least 3 |
| ChatServices.MaxOf | chatbot/services.py:69-71 | the running maximum bounds every element and is attained by one when there is any |
| ChatServices.MaxScore | chatbot/services.py:69-73 | the best score bounds every entry's score and is reached by some entry of a non-empty catalog |
| ChatServices.KeywordLoop | chatbot/services.py:50-57 | the keyword loop, with its inner loop over tokens, computes the keyword score: 3 per keyword found, otherwise its partial hits |
| ChatServices.QuestionLoop | chatbot/services.py:60-62 | the question-word loop computes the question score: 2 per word longer than two characters that occurs |
| ChatServices.ScoreFaq | chatbot/services.py:44-67 | the loop body computes the entry's score: keyword and question points plus the common-word bonus when more than one word is shared |
| ChatServices.TracksStep | chatbot/services.py:69-71 | one step of the strict `>` scan keeps the first position of a positive maximum (or none while the maximum is 0) |
| ChatServices.FindBestMatch | chatbot/services.py:33-73 | returns the maximum score over the catalog; no entry exactly when it is 0; otherwise an entry reaching it before which every entry scores less (ties go to the earliest) |
| ChatServices.Confidence | chatbot/services.py:108 | confidence is at most 100, at least 20 for a raw score of 2 or more, and exactly 100 from a score of 10 |
| ChatServices.GetResponse | chatbot/services.py:75-121 | greeting: its reply, no id, confidence 100; else the first best active entry when its score is at least 2: its answer, its id and the scaled confidence; else the default text with confidence 0; exactly one message is appended, referencing an entry only in the answering case |
| ChatViews.Populate | chatbot/views.py:12-56 | after seeding the catalog is never empty, the clock never goes back, and every entry already there is kept |
| ChatViews.CreatedShape | chatbot/views.py:50-56 | creating the records one by one yields one active entry per record, each with the next id, newest first |
| ChatViews.PopulateIdempotent | chatbot/views.py:14-15 | seeding twice has the effect of seeding once |
| ChatViews.PopulateEmpty | chatbot/views.py:17-56 | seeding an empty catalog yields exactly six active entries |
| ChatViews.PopulateInitialFaqs | chatbot/views.py:12-56 | a non-empty catalog is left alone; an empty one receives the six seed records, created in order; sessions and messages do not change |
| ChatViews.PopulateFaqsView | chatbot/views.py:99-112 | after the delete and the reseed the catalog holds exactly six active entries, which is the count reported; messages stay, with their references cleared |
| ChatViews.ChatPost | chatbot/views.py:66-92 | a blank message is rejected with "Message cannot be empty" and nothing is stored; otherwise the reply is the service's reply to the stripped message against the active entries before the request (greeting, first best entry with its confidence, or the default); an existing session is reused (clock + 1), an unknown id appends exactly one session (clock + 2); exactly one exchange is appended, with the session's key, the stripped message, the reply and the next timestamp |
| ChatViews.ChatHistory | chatbot/views.py:114-131 | "Session not found" exactly for an unknown id; otherwise one entry per message of the session, in strictly ascending timestamp order |
| ChatViews.HistoryOfQuietSession | chatbot/views.py:119-129 | a session without messages has an empty history |
| CartModels.ItemTotal | cart/models.py:44-46 | price × quantity of a line (a definition; its sums are stated by the lemmas below) |
| CartModels.TotalItems | cart/models.py:16-18 | the sum of the quantities (a definition; TotalsConcat, TotalsReplace, TotalsRemove and TotalItemsAtLeastLines state its properties) |
| CartModels.TotalPrice | cart/models.py:20-22 | the sum of the line totals (a definition; TotalsConcat, TotalsReplace, TotalsRemove and TotalPriceNonNegative state its properties) |
| CartModels.TotalsConcat | cart/models.py:16-22 | both totals add up over concatenated item lists |
| CartModels.TotalsReplace | cart/models.py:16-22 | changing one line changes the totals by exactly the difference of that line |
| CartModels.TotalsRemove | cart/models.py:16-22 | deleting a line takes exactly its quantity and its line total off the totals |
| CartModels.TotalItemsAtLeastLines | cart/models.py:16-18 | with quantities of at least 1, the item count is at least the number of lines and is 0 only for an empty cart |
| CartModels.TotalPriceNonNegative | cart/models.py:20-22 | with non-negative prices the total price is non-negative and at least each line's price × quantity |
| CartModels.Cart.Clear | cart/models.py:24-26 | the cart has no lines and both totals are 0 |
| CartViews.FindByName | cart/views.py:122-130 | the lookup of `get_or_create`: a found position holds the product; `None` exactly when no line does |
| CartViews.FindById | cart/views.py:169 | a found position holds the line with the id; `None` (the 404) exactly when no line has it |
| CartViews.RemoveKeepsRules | cart/models.py:37-39 | deleting a line keeps names unique and lines newest first |
| CartViews.ReplaceKeepsRules | cart/models.py:37-39 | changing a line's quantity, price or image keeps the cart's rules |
| CartViews.PrependKeepsRules | cart/models.py:37-39 | a new line for a new product, with the next id, goes first and keeps the rules |
| CartViews.ClampQuantity | cart/views.py:100-102 | the quantity is at least 1 and unchanged when already at least 1 |
| CartViews.AddToCart | cart/views.py:85-163 | missing data, a malformed price or quantity, or a known stock below the quantity (or below the merged quantity) leave the cart unchanged; a new product adds one line with the requested quantity, price and image; an existing one gains the quantity and takes the new price and image; the item count grows by the quantity |
| CartViews.UpdateCart | cart/views.py:167-230 | unknown id: 404; non-integer quantity or known stock below it: nothing changes; a quantity ≤ 0 deletes the line; otherwise the quantity is set exactly; other lines are untouched and the item count moves accordingly |
| CartViews.RemoveFromCart | cart/views.py:234-252 | exactly the line with the id is deleted (404 and no change when there is none), and the item count drops by its quantity |
| CartViews.ClearCart | cart/views.py:256-265 | the cart is emptied, both totals are 0, and the id counter is kept |
| CartViews.QuantizePaise | cart/views.py:28 | rounding to the paisa is within half a paisa, and a tie goes to the even paisa |
| CartViews.QuantizeUnique | cart/views.py:28 | those two properties determine the rounded value (it is round-half-even) |
| CartViews.QuantizeWithin | cart/views.py:28 | an amount between 0 and 100·m hundredths of a paisa rounds to between 0 and m paise |
| CartViews.Discount | cart/views.py:25-29 | the discount is within half a paisa of subtotal × percent / 100, and a tie goes to the even paisa |
| CartViews.DiscountBounds | cart/views.py:25-29 | a percentage between 0 and 100 of a non-negative subtotal gives a discount between 0 and the subtotal |
| CartViews.DiscountExact | cart/views.py:28 | a discount that divides evenly is exact |
| CartViews.StatusOf | cart/views.py:55-62 | out of stock exactly below the cart quantity, low stock exactly from the quantity up to 9, in stock otherwise |
| CartViews.EnhanceItem | cart/views.py:37-66 | one pass of the page loop: the line is the item's page line, and there is a warning, naming the product, the available stock and the cart quantity, exactly when the line is short |
| CartViews.LineOf | cart/views.py:37-66 | a page line keeps its item and has stock information exactly when the inventory knows the product, with the available count; its status is out of stock exactly when the line is short |
| CartViews.Warnings | cart/views.py:37-60 | at most one warning per line |
| CartViews.WarningsExactlyShortLines | cart/views.py:58-60 | there is no warning exactly when no line is short, and every warning names a short line |
| CartViews.CartDetail | cart/views.py:11-81 | the subtotal and item count are the totals; with no coupon the discount is 0 and the final total is the subtotal, and with a coupon it is the rounded percentage, subtracted; one page line per cart line with its stock information; the warnings list the short lines; checkout is allowed exactly when no line is short |

## Left out

- The Django ORM, HTTP, JSON encoding and decoding, redirects, flash messages, CSRF and login decorators, and URL routing. The tables are sequences held by a class, and the responses are datatypes.
- The catch-all error handlers of `ChatAPIView.post` and `populate_faqs_view` (status 500), and invalid JSON (status 400). The model starts from decoded fields. A `message` field that is present but not a string is not modelled.
- `uuid.uuid4()` becomes a `freshId` parameter. Real timestamps become a counter. `ChatSession.created_at` and `last_activity` are not modelled.
- Unicode: `str.lower`, `str.strip`, `str.split` and the regex classes `\w` and `\s` are modelled on ASCII only.
- The inventory app's stock lookup, its installation check and its bare `except: pass`. They become an optional stock parameter.
- `Decimal` arithmetic is modelled on integer paise:
  - a price with more than two decimals, which the `DecimalField` would round when saving, is not modelled;
  - `NaN` and `Infinity` prices are not modelled;
  - a fractional coupon percentage is not modelled (the percentage is an integer);
  - Decimal's 28-digit context precision is not modelled.
- The text of the stock warnings and flash messages. A warning is a record of the product name, the available stock and the quantity.
- The AJAX JSON bodies of the cart views, and the lookup of the user's cart (`Cart.objects.get_or_create` and the `DoesNotExist` branch of `clear_cart`, which shows a message and changes nothing). The views take the user's cart as an argument.
- The chat page rendering (`chatbot_home`), admin pages, the cart context processor and URL configuration, which hold no logic of the core.
- `ChatStore.ChatStore.DeleteSession` and `ChatStore.ChatStore.DeleteFaq` model the database's CASCADE and SET_NULL rules. No view of the core calls them.
