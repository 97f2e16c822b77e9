# OpenSourceHub backend, modelled in Dafny

OpenSourceHub is a small FastAPI service. It lists open-source contribution programs (GSoC, Hacktoberfest, ...). It records newsletter e-mails in memory. Its mentor module (backend/agents/open_source_mentor.py:20-91) answers chat questions through a hosted language model and falls back to a static Git contribution guide when the model fails. The chat endpoint `POST /agent-chat`, as written, never reaches that module: it fails on every non-blank message (see "## Findings").

This project models the service's logic as pure Dafny functions over immutable records:

- `Models` holds the records of `backend/models.py`: `Program` with its defaults, `AgentQuery` and `AgentResponse`.
- `Catalog` covers where `load_programs` takes the catalog from (primary file, frontend cache or built-in list) and the difficulty filter of `GET /programs`. Each file read is given as its outcome: `Missing`, `Unparseable` or `Parsed(records)`.
- `Subscriptions` covers the check-then-append of `POST /subscribe-email`. The subscriber list is passed in and handed back, and the method `SubscribeAll` replays a series of requests.
- `ChatEndpoint` covers the empty-message guard of `POST /agent-chat` and its server-side `suggested_programs`.
- `Mentor` covers the mentor agent: its own loader, the context block built from the first eight programs, and the choice between the model's stripped text and the stripped fallback guide. The hosted model is a function parameter from prompt to `Generated(text) | Failed`.
- `Text` holds the Python string operations these rely on: `str.isspace`/`strip()` over the exact Unicode whitespace set, `lower()` on ASCII letters, and `join`/`split` on one character.
- `Wrappers` holds `Option` and `Result`.

The difficulty filter lower-cases only the query; the stored difficulty is compared as it is:

- So a stored `"Beginner"` is never matched by any non-empty filter (`Catalog.StoredUpperCaseNeverMatches`).
- A single-record catalog filtered by its own difficulty returns that record only when the stored value is empty or already lower-case (`Catalog.OwnDifficultyRoundTrip`).

The source files have CRLF line endings. Python reads source newlines as `"\n"`, so the fallback literal is modelled with `"\n"` line breaks and keeps the eight-space indentation of its inner lines.

## Model

| member | source | states |
|---|---|---|
| Text.Strip | backend/main.py:131 | The result is an infix of the input with only whitespace removed on each side. It neither starts nor ends with whitespace. It is empty exactly when the input is all whitespace. |
| Text.StripPadded | backend/agents/open_source_mentor.py:91 | Stripping whitespace padding from around a core that is already trimmed gives back exactly that core. |
| Text.StripTrimmed | backend/agents/open_source_mentor.py:66 | Stripping a string that is already trimmed changes nothing. |
| Text.LowerFixedPoint | backend/main.py:105 | Lower-casing leaves a string unchanged exactly when it has no upper-case letter, and lower-casing twice equals lower-casing once. |
| Text.Lower | backend/main.py:105 | The result has the input's length and no upper-case letter. Each upper-case ASCII letter becomes the letter 32 code points above it, and every other character is kept. |
| Text.Join | backend/agents/open_source_mentor.py:34 | Joining no pieces gives "". Otherwise the length is the pieces' total length plus one separator between each two pieces, the result starts with the first piece, and a separator follows it when there are more. |
| Text.JoinEndsWithLast | backend/agents/open_source_mentor.py:34 | A join of a non-empty list ends with its last piece. |
| Text.JoinSplit | backend/agents/open_source_mentor.py:34-37 | Joining the pieces of a newline split gives back the original string. |
| Text.SplitJoin | backend/agents/open_source_mentor.py:34-37 | Splitting a join of newline-free lines gives back the same lines, for any non-empty list of lines. |
| Catalog.LoadPrograms | backend/main.py:25-78 | Uses the primary file if it parses to a non-empty list. Otherwise uses the cache's contents unchanged if the cache parses, even when empty. Otherwise returns the two built-in records. |
| Catalog.PrimaryShadowsCache | backend/main.py:27-32 | When the primary file is usable, the result is its records whatever the cache holds. |
| Catalog.LoadedEmptyOnlyFromCache | backend/main.py:38-78 | The loaded catalog is empty if and only if the primary file is unusable and the cache parses to an empty list. |
| Catalog.NoFilesGiveFallback | backend/main.py:27-78 | With no usable file (a primary that is missing, unparseable or empty, and a cache that does not parse), the catalog is exactly two records: id 1 "Google Summer of Code (GSoC)" and then id 4 "Hacktoberfest", both "intermediate". |
| Catalog.WithDifficulty | backend/main.py:106 | The result is an order-preserving subsequence of the catalog, no longer than it. A record is in the result if and only if it is in the catalog and its stored difficulty equals the key. |
| Catalog.WithDifficultyCounts | backend/main.py:106 | Each matching record is kept as many times as the catalog holds it, and every other record is dropped. |
| Catalog.WithDifficultyAppend | backend/main.py:106 | Filtering a concatenation equals concatenating the filtered parts, so the filter works record by record and keeps catalog order. |
| Catalog.WithDifficultyKeepsAll | backend/main.py:104-109 | The filter returns the whole catalog if and only if every record matches. Keeping as many records as the catalog has happens only in that case. |
| Catalog.WithDifficultyIdempotent | backend/main.py:106 | Filtering twice by the same key equals filtering once. |
| Catalog.DifficultyFilter | backend/main.py:104-109 | A `None` or `""` filter returns the catalog unchanged. Any other filter keeps exactly the records whose stored difficulty equals the lower-cased filter, each as many times as the catalog holds it. The result is always an order-preserving subsequence no longer than the catalog. |
| Catalog.StoredUpperCaseNeverMatches | backend/main.py:105-106 | A record whose stored difficulty holds an upper-case letter is never returned by a non-empty filter. |
| Catalog.GetPrograms | backend/main.py:97-109 | `GET /programs` returns an order-preserving subsequence of the loaded catalog. With a falsy filter it is the whole catalog. Otherwise a record is returned exactly when it is in the loaded catalog with the lower-cased filter as its difficulty, and every matching record of the loaded catalog is returned as many times as it occurs there. |
| Catalog.OwnDifficultyRoundTrip | backend/main.py:103-109 | A one-record primary file filtered by that record's own difficulty returns exactly that record if and only if the difficulty is empty or already lower-case. |
| Catalog.FallbackFiltered | backend/main.py:104-107 | On the built-in records, the filter "INTERMEDIATE" returns both records and "beginner" returns none. |
| Subscriptions.Subscribe | backend/main.py:116-122 | Answers "subscribed" exactly when the address is new. The answer echoes the address. The list afterwards holds the address, extends the old list by at most one entry, is unchanged on "already_subscribed", and stays duplicate-free. |
| Subscriptions.SubscribeTwice | backend/main.py:119-122 | Subscribing the same address twice answers "already_subscribed" the second time and grows the list by exactly one entry in total when the address was new. |
| Subscriptions.SubscribeAll | backend/main.py:113-122 | Over a series of requests, request i is answered "subscribed" if and only if its address was neither on the initial list nor requested earlier. The final list extends the initial one, holds exactly the initial and requested addresses, and stays duplicate-free. |
| ChatEndpoint.AgentChatAsWritten | backend/main.py:131-147 | As written, every request fails: a blank message with the 400, any other message with a 500 from the `AttributeError` that the `execute` lookup raises. |
| ChatEndpoint.AsWrittenNeverAnswers | backend/main.py:144 | For "How do I start?", the handler as written answers 500, while the intended handler succeeds with the whole loaded catalog as suggestions. |
| ChatEndpoint.AgentChat | backend/main.py:125-163 | The intended handler refuses with 400 "Message cannot be empty" if and only if the message is all whitespace. Otherwise the reply is the agent's text and `suggested_programs` equals the `GET /programs` answer for the same filter. |
| ChatEndpoint.BlankMessageRefusedFirst | backend/main.py:131-132 | A blank message gets the same refusal whatever the catalog files and the agent's reply are. |
| ChatEndpoint.SuggestionsIgnoreReply | backend/main.py:150-163 | The suggested programs are the same whatever the reply text. |
| ChatEndpoint.SuggestionsMatchFilter | backend/main.py:150-158 | With a non-empty filter, a record is suggested if and only if it is in the loaded catalog and its stored difficulty equals the lower-cased filter. |
| Mentor.LoadLocalPrograms | backend/agents/open_source_mentor.py:10-18 | The mentor's loader returns the parsed records as they are, and `[]` when the file is missing or unparseable. |
| Mentor.LocalLoaderAgreement | backend/agents/open_source_mentor.py:10-18 | The mentor's loader agrees with the service's loader if and only if the primary file is usable or the cache parses to an empty list. |
| Mentor.ContextLine | backend/agents/open_source_mentor.py:35 | A context line starts with "- " and ends with ")". It holds a newline if and only if one of the five fields shown does. Where each field sits is stated by `Mentor.ContextLineFields`. |
| Mentor.ContextLineFields | backend/agents/open_source_mentor.py:35 | The line is `- ` then the name, `: `, the description, ` (Difficulty: `, the difficulty, `, Type: `, the program type, `, Deadline: `, the deadline and `)`, each field at its exact offset, so the line is 39 characters longer than its five fields together. |
| Mentor.ProgramsContext | backend/agents/open_source_mentor.py:34-37 | An empty program list gives an empty context. Otherwise, when no shown field holds a newline, splitting the context at newlines gives exactly min(8, n) lines, and line i is the line of program i. |
| Mentor.ContextIgnoresTail | backend/agents/open_source_mentor.py:36 | Programs after the eighth never affect the context block. |
| Mentor.BuildPrompt | backend/agents/open_source_mentor.py:39-63 | The prompt embeds the message verbatim. Its context block depends only on the first eight programs and is empty for an empty list. |
| Mentor.GuideTrimmed | backend/agents/open_source_mentor.py:68-91 | The guide neither starts nor ends with whitespace, is longer than its heading, and starts with "Here's how to contribute to open source projects:". |
| Mentor.FallbackLiteralStrips | backend/agents/open_source_mentor.py:68-91 | Stripping the fallback literal gives the guide text. The guide is trimmed and starts with "Here's how to contribute to open source projects:". |
| Mentor.MentorReply | backend/agents/open_source_mentor.py:20-91 | The model is asked with the context of the given programs and the message. On success the reply is the model text stripped; on failure it is the fallback guide. The reply never starts or ends with whitespace. |
| Mentor.FallbackIgnoresInput | backend/agents/open_source_mentor.py:68-91 | Every failed call yields the same reply for every message and program list, and that reply starts with the guide's heading. |
| Mentor.ReplyIsStripped | backend/agents/open_source_mentor.py:66 | Stripping the mentor's reply again changes nothing. |
| Mentor.EmptyCatalogStillAsks | backend/agents/open_source_mentor.py:34-39 | With no programs the prompt is still built, with an empty context, and a successful model text is still returned stripped. |

## Left out

- File I/O and JSON parsing are not modelled. Each read is an input outcome. A file that parses to something other than a list of records is not modelled; for example, a JSON object or `null` reaches the `data and len(data) > 0` test in backend/main.py with other values.
- An exception other than a JSON decode error or an I/O error while reading a file is not modelled. It is not caught in `load_programs` and would end the request.
- The `print` warnings of `load_programs` are output only and are not modelled.
- `get_programs_data` only calls `load_programs`, so it is the same function as `Catalog.LoadPrograms`.
- Pydantic validation is not modelled. This covers the `EmailStr` syntax check (a 422) and the required-field errors of `Program(**p)`; records here are always well-formed. The `email` that `Subscriptions.Subscribe` takes is `payload.email` after `EmailStr` validation (backend/models.py:30), the normalised address Pydantic hands over rather than the raw request text; that normalisation is not modelled, and addresses are then compared as exact strings, as backend/main.py:119 compares them.
- Program ids take no part in any modelled operation. Duplicate records are valid input, and the filter keeps every copy (`Catalog.WithDifficultyCounts`).
- The reply path of `agent_chat` (backend/main.py:134-147) is not modelled as an answer. `open_source_mentor_agent` is a plain `async def` (backend/agents/open_source_mentor.py:20), so the `.execute` lookup at backend/main.py:144 raises `AttributeError` on every non-blank message. As written, `POST /agent-chat` therefore returns the 400 of backend/main.py:131-132 for a blank message and a 500 for every non-blank message, and never reaches lines 150-163 (`ChatEndpoint.AgentChatAsWritten`). The Success branch of `ChatEndpoint.AgentChat` models the intended path, which the source never takes. It takes the reply text as a parameter, because the intended call to the mentor is not written anywhere.
- The Gemini call, the API-key lookup, `genai.configure` and the model name are not modelled. Any failure among them is the `Failed` outcome of the `generate` parameter.
- The prompt template wording around the context block and the message is not modelled. The prompt is the pair (context block, message).
- A `KeyError` raised while building the context is not modelled. In the source, a raw JSON record missing `program_type` goes to the fallback; records here always carry every field.
- Text.Lower: lower-cases only the ASCII letters A-Z. Python's `str.lower()` applies full Unicode case mapping.
- Concurrent requests to the subscriber list are not modelled. The list is single-threaded state passed explicitly, and there is no deletion operation.
- FastAPI routing, CORS middleware, dotenv loading and static files are not modelled.

## Findings

| source | as written | input that shows it | evidently intended | confidence | as-written member | corrected member |
|---|---|---|---|---|---|---|
| backend/main.py:144 | `open_source_mentor_agent.execute(payload)` looks up an attribute that a plain `async def` does not have, so every non-blank message ends in an uncaught `AttributeError` and a 500 | `POST /agent-chat {"message": "How do I start?"}` | call the mentor and answer with its reply plus the filtered catalog | high, not executed | ChatEndpoint.AgentChatAsWritten | ChatEndpoint.AgentChat |
