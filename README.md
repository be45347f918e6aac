# Beauty chatbot request pipeline — verified model

This project models the `/chat` request pipeline of the beauty-chatbot backend
(`main.py`). The pipeline has five steps:

1. The **relevance filter** lowercases the user's message and checks two keyword
   groups in priority order. If the message mentions "acne", "pimple" or
   "breakout", the result is every catalog product whose `skin_type` is
   `"acne-prone"`. Otherwise, if it mentions "face wash" or "cleanser", the
   result is every product whose `type` is `"face wash"`. Otherwise the result
   is empty.
2. The **context builder** renders the selected products as a text block:
   `"Available products:"` and then one `- name: description ($price)` line per
   product, joined with newlines. No products give the empty string.
3. **Prompt assembly** builds the message list sent upstream. It is a system
   message embedding the context, then the whole chat history in order, then
   the user's message.
4. **Response interpretation** reads what the completion endpoint answered.
   The result is the first choice's content, or an apology
   `"I apologize, but I encountered an error: "` followed by the upstream error
   message, `"Unknown error"`, or the text of the exception that was caught.
5. The **chat handler** returns `{reply, recommendations}`, where
   `recommendations` is the filter's result.

Modules, one per component: `Text` (substring test, ASCII lowercasing,
newline join/split), `Catalog` (the product record and the built-in
three-product catalog), `Relevance` (the filter), `ProductContext` (the context
builder), `Completion` (prompt assembly and response interpretation), `Chat`
(the handler), and `Wrappers` (Option/Result).

The HTTP call to the completion endpoint is a parameter,
`upstream: seq<Message> -> Exchange`. It maps the message list to what the call
produced: either an exception text or a status code with a parsed body. The
model id, `max_tokens` and the headers are constant, so the message list is the
only input that varies.

Three facts about the code shape the model:

- The history is forwarded whole (main.py:118). Nothing truncates it.
- No API-key check happens before the call (main.py:63-65, 124-125).
- `ChatMessage` has only `role` and `content` (main.py:96-98).

One edge case follows from the code: `chatHistory` is declared `Optional`, so a
request may send `null`. Building the message list then raises inside the
`try`. The reply is the apology followed by `'NoneType' object is not iterable`.

## Model

| member | source | states |
|---|---|---|
| `Text.Contains` | main.py:173-175 | Python's `pat in text`: true exactly when `pat` occurs at some offset of `text` (the empty pattern always occurs) |
| `Relevance.MentionsAny` | main.py:173 | `any(word in text for word in words)`: true exactly when some keyword of the list occurs in the text |
| `Relevance.Select` | main.py:174-176 | the list comprehension keeps exactly the entries meeting the condition: every kept entry meets it, every entry meeting it is kept as often as it appears, and catalog order is preserved (a subsequence) |
| `Relevance.SelectedFromIsSelect` | main.py:174-176 | the description of `Select` is exact: any sequence meeting it equals the comprehension's result |
| `Relevance.SelectAll` | main.py:174 | when every entry meets the condition, the comprehension returns the whole catalog unchanged |
| `Relevance.Relevant` | main.py:169-176 | acne keyword in the lowercased message ⇒ exactly the acne-prone entries (even if face-wash keywords also occur); else face-wash keyword ⇒ exactly the face-wash entries; else empty; always a subsequence of the catalog |
| `Relevance.RecommendationsFromCatalog` | main.py:174-176 | every recommendation is an unmodified catalog entry; none is synthesised |
| `Relevance.SubsequenceMembers` | main.py:174-176 | every element of a subsequence belongs to the original sequence |
| `Relevance.SubsequenceMultiset` | main.py:174-176 | a subsequence never holds more copies of a value than the original |
| `Relevance.RelevantIgnoresCase` | main.py:170 | matching is case-insensitive: lowercasing the message first changes nothing |
| `Text.ToLower` | main.py:170 | `str.lower()` keeps the length and lowercases each character on its own (ASCII letters only) |
| `Text.LowerConcat` | main.py:170 | lowercasing a concatenation lowercases each piece |
| `Text.LowerIdempotent` | main.py:170 | lowercasing already-lowercased text is the identity |
| `ProductContext.BuildContext` | main.py:181-186 | empty iff there are no products; otherwise starts with `"Available products:\n"` and ends with the `)` of the last product line (no trailing newline) |
| `ProductContext.ContextLines` | main.py:183-186 | splitting a non-empty context at its newlines gives the header followed by exactly one `- name: description ($price)` line per product in input order, when no printed field holds a newline |
| `Text.JoinLines` | main.py:183 | `"\n".join`: splitting the result at its newlines gives back exactly the lines, when none of them holds a newline |
| `ProductContext.ProductLine` | main.py:184 | the f-string line: `- ` then the name, `: `, the description, and ` ($price)` at the end; it holds a newline only if the name, description or price does |
| `ProductContext.ProductLines` | main.py:183-185 | the comprehension yields one line per product, the k-th line describing the k-th product |
| `Text.JoinSplit` | main.py:183 | `"\n".join(s.split("\n")) == s` for every text |
| `Text.JoinEndsWithLast` | main.py:183 | a newline join of a non-empty list ends with its last element |
| `Completion.SystemPrompt` | main.py:110-112 | the system text is the fixed introduction, the product context verbatim, then the fixed closing instructions |
| `Completion.PromptMessages` | main.py:115-119 | `|history| + 2` messages: the system message, the history unchanged, then ("user", message) |
| `Completion.AssembleMessages` | main.py:115-119 | the list built by literal, `extend` over the history and `append` equals the system message, the history, then the user message |
| `Completion.PromptShape` | main.py:110-119 | the message list has `|history| + 2` entries; entry 0 has role "system" and contains the product context verbatim; entries 1..`|history|` are the history in order (no truncation); the last is ("user", message) |
| `Completion.ErrorDetail` | main.py:151 | an error object's `message` is reported as is; a missing `error` key or a missing `message` gives "Unknown error"; an `error` that is not an object makes `.get` raise, giving "'T' object has no attribute 'get'" |
| `Completion.FirstContent` | main.py:155 | the first choice's content when the keys and the element exist; otherwise the exception text: `'choices'`, `list index out of range`, `'message'` or `'content'` |
| `Completion.Interpret` | main.py:148-161 | a completion is returned exactly when the status is 200, there is no `error` key and the first choice has a message with content, and it is that content; a raised exception or an undecodable body yields its exception text; a non-200 status or an `error` key yields the error detail; status 200 without `error` yields the lookup of the first choice's content |
| `Completion.Reply` | main.py:150-161 | the reply is the first choice's content for a well-formed completion, and otherwise the apology prefix followed by exactly the reason `Interpret` gives (error message, "Unknown error" or exception text) |
| `Completion.UpstreamErrorReported` | main.py:150-153 | an error object with a message gives exactly apology + message, whatever the status and whatever choices the body also holds |
| `Completion.ErrorStatusNeverCompletes` | main.py:150 | a status other than 200 never produces a completion |
| `Completion.RateLimitedExample` | main.py:150-153 | status 429 with error message "rate limited" gives a reply containing "rate limited" |
| `Completion.GetAiResponse` | main.py:104-161 | a `None` history yields the apology with "'NoneType' object is not iterable"; otherwise the reply is the interpretation of the upstream answer to the assembled messages |
| `Chat.HandleChat` | main.py:163-194 | `recommendations` is the filter's result and only holds catalog entries; `reply` is the completion client's answer for the context built from those recommendations |
| `Chat.UnmatchedRequest` | main.py:169-186 | a message matching neither keyword group gets no recommendations, the empty context, and a system message with only the fixed instructions |
| `Chat.AcneQuestionAsksAboutAcne` | main.py:170-173 | "I have acne, what should I use?" triggers the acne rule |
| `Catalog.CatalogContents` | main.py:69-94 | the built-in catalog holds three products, all face washes for acne-prone skin, with distinct names |
| `Chat.CatalogAllAcneProne` | main.py:69-94 | all three built-in products are acne-prone, so the acne rule selects the whole catalog |
| `Chat.AcneRequestExample` | main.py:173-174 | "I have acne, what should I use?" against the built-in catalog gets all three products, each acne-prone |

## Left out

- Text.ToLower: models Python's `str.lower()` on ASCII letters only. Unicode case mapping is not modelled.
- Prices are kept as the text Python prints for the float (for example `"27.89"`). Float formatting is not modelled.
- The call to the completion endpoint is a parameter. It is not modelled: `requests.post`, the URL, headers, model id and `max_tokens` (main.py:124-142).
- Response bodies are modelled as JSON objects only. These exception paths are not modelled, although the code catches each of them like the modelled ones:
  - a top-level JSON value that is not an object;
  - `choices` that is not a list (for example an object, where `[0]` raises `KeyError: 0`);
  - a choice or its `message` that is not an object;
  - any of them `null`.
- A non-string `error.message` or `content` is not modelled. Python would format the message with `str()`, and would return a non-string content as is.
- The API-key lookup and `.env` loading (main.py:12, 62-66) are not modelled. They do not change the pipeline, which sends the request even without a key.
- The route handlers are not modelled (main.py:32-60 and all of wsgi.py), nor CORS, FastAPI/pydantic request validation, or `async`/`await`. These are framework plumbing.
- The handler's outer `except` that turns an exception into HTTP 500 (main.py:196-200) is not modelled. No step the model covers can raise there.
- Logging with `print` and tracebacks is not modelled. It has no effect on results.
