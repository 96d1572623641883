# Rule-based chatbot: reply selector, `/chat` handlers and exchange log

This project models the core of a small Flask chatbot in Dafny. The core comes in two variants:

- a serverless one, `api/index.py`, which keeps the conversation in a module-level list;
- a database-backed one, `app.py`.

What is modelled:

- **The reply selector `generate_bot_response`**, written once (`Selector.Respond`) over a trigger table and three reply templates. Both variants' tables are instances (`Personas`). The selector is a fixed decision list:
  1. Lower-case and strip the message.
  2. If the normalised message is a trigger, give that trigger's reply.
  3. Otherwise give the reply of the first trigger, in table order, that occurs anywhere in the normalised message.
  4. Otherwise, if the normalised message starts with `what`, `how`, `why`, `when`, `where` or `who`, answer with the question template around the original message.
  5. Otherwise, if the message has more than five words, answer with the long template around its first 50 characters.
  6. Otherwise echo the message in the default template.
- **The Python string operations the selector relies on** (`Text`). These are `str.isspace()` (the exact 29 code points), ASCII `lower()`, `strip()`, `split()`, `k in s`, `startswith` with a tuple, and `s[:50]`.
- **The serverless in-memory exchange log** (`History`). The operations are `save_to_memory` and `clear_chat_history`. `get_chat_history` returns the log as it stands, so in the model it is the log value itself.
- **The `/chat` request handlers of both variants** (`Chat`), as transitions from the old log to a new log plus an HTTP outcome:
  - 200 with a reply;
  - 400 with `No JSON data received` or `Empty message`;
  - 500 when the Python code would raise on a body of the wrong shape.
- **The `messages_stored` count of the serverless `health` endpoint** (`Chat.Health`).

Clock readings are parameters, not reads of a clock:

- the `%H:%M:%S` and `%Y-%m-%d` strings embedded in two replies;
- the stamp saved with an exchange;
- the stamp returned with a reply.

Properties proved include:

- Each branch of the selector, stated against independent descriptions of the two table scans ("first entry whose trigger equals / occurs in").
- An exact match beats any substring match, even an earlier one.
- The question branch beats the word count.
- Triggers that contain an earlier trigger are never chosen by the substring scan. In the serverless table, `goodbye` is shadowed by `bye` and `tell me about yourself` by `about`.
- The raw substring scan answers `"this"` with the `hi` reply.
- Both tables have distinct triggers and non-empty replies, so every reply is non-empty.
- `strip()` is pinned down by "whitespace, trimmed core, whitespace", and is idempotent.
- `len(split())` equals an independent count of word starts.
- A run of `/chat` requests leaves the old log untouched and appends exactly one entry per answered request, in order, carrying the reply that request returned.
- The two handlers disagree on whitespace-only messages: the serverless one answers 400 and the app answers with its default reply around the empty string.

## The two handlers differ on blank messages

- The serverless handler strips the message before it checks for emptiness (`api/index.py:98-101`), so a whitespace-only message is answered with 400 `Empty message`.
- The app checks the raw message before stripping it (`app.py:89-92`), so a whitespace-only message passes the check. It is then stripped to the empty string and answered with 200 and the default reply around it.
- `Chat.WhitespaceOnlyMessage` proves the difference.

## Characters kept as written

Several characters of `app.py` are stored in the source as mis-decoded UTF-8. For instance, the `thanks` reply ends in U+00F0 U+0178 U+02DC U+0160 where an emoji was meant. The model reproduces the code points as written.

## Model

| member | source | states |
|---|---|---|
| Text.IsSpaceListed | api/index.py:63 | `str.isspace()`, behind both `strip()` and `split()`, holds for exactly 29 distinct code points, listed one by one: tab to carriage return, U+001C to space, U+0085, U+00A0, U+1680, U+2000 to U+200A, U+2028, U+2029, U+202F, U+205F and U+3000 |
| Text.LowerChar | api/index.py:63 | one character of `lower()`: `A`-`Z` become the letter 32 code points higher, in `a`-`z`; every other character is kept; whitespace stays whitespace and nothing else becomes whitespace |
| Text.Lower | api/index.py:63 | `lower()` keeps the length and lowers the message character by character |
| Text.LowerKeepsSpaces | api/index.py:63 | a lowered message is all whitespace exactly when the message is |
| Text.LowerIdempotent | api/index.py:63 | lowering twice is lowering once, and a lowered message has no `A`-`Z` left |
| Text.Strip | api/index.py:63 | `strip()` leaves no whitespace at either end, and gives the empty string exactly when the message is all whitespace |
| Text.StripDecomposes | api/index.py:63 | what `strip()` removes is whitespace, and only from the two ends: the input is whitespace + result + whitespace |
| Text.StripUnique | api/index.py:63 | whitespace, then a core with no whitespace at its ends, then whitespace, strips to exactly that core |
| Text.StripIdempotent | api/index.py:98 | stripping an already stripped message (the handler strips, then the selector strips again) changes nothing |
| Text.Split | api/index.py:79 | `split()` yields only non-empty words containing no whitespace |
| Text.SplitRebuilds | api/index.py:79 | the words of `split()` are the message's maximal whitespace-free runs in order: interleaved with whitespace runs (non-empty between two words, the leading one exactly the message's leading whitespace) they rebuild the message |
| Text.SplitCountsWords | api/index.py:79 | `len(message.split())` equals the number of non-whitespace characters that start the message or follow whitespace |
| Text.Contains | api/index.py:71 | `key in text` holds if and only if `key` occurs in `text` at some position |
| Text.ContainsTransitive | api/index.py:71 | a part of a part of a string is a part of it |
| Text.StartsWithAny | api/index.py:75 | `s.startswith(prefixes)`, which tries the tuple's prefixes in turn, holds exactly when some prefix in the tuple is a prefix of `s` |
| Text.StartsWithAnySameMembers | api/index.py:75 | the order of the prefixes in the tuple, and repeats among them, do not change the answer |
| Text.Take | api/index.py:80 | `message[:50]` is the prefix of length min(50, len(message)) |
| Selector.Normalize | api/index.py:63 | `lower().strip()` leaves no whitespace at either end, and is empty exactly when the message is all whitespace |
| Selector.NormalizeLowersThenStrips | api/index.py:63 | `lower().strip()` lowers first, then strips: the lowered message is whitespace + the result + whitespace, and the result has no `A`-`Z` left |
| Selector.NormalizeIdempotent | api/index.py:63 | normalising a normalised message changes nothing |
| Selector.ExactIndex | api/index.py:66-67 | the dictionary lookup finds the first entry whose trigger equals the normalised message, and finds none exactly when no trigger equals it |
| Selector.PartialIndex | api/index.py:70-72 | the scan finds the first entry, in declaration order, whose trigger occurs in the normalised message, and finds none exactly when no trigger occurs |
| Selector.Respond | api/index.py:63-83 | the reply is: the exactly matching trigger's reply; else the first occurring trigger's reply; else the question template around the original message if the normalised one starts with an interrogative; else, for more than five words, the long template around the first 50 characters; else the default template around the message |
| Selector.ExactMatchReply | api/index.py:66-67 | with distinct triggers, a message that normalises to trigger `i` gets reply `i`, wherever `i` sits in the table |
| Selector.ExactBeatsPartial | api/index.py:65-72 | an exact match wins even over an earlier trigger that occurs in the message |
| Selector.QuestionBeatsLong | api/index.py:74-80 | a message matching no trigger and starting with an interrogative gets the question template, however many words it has |
| Selector.ShadowedTriggerNeverFirst | api/index.py:69-72 | a trigger containing an earlier trigger is never the first to occur in any message |
| Selector.ExactScanAppend | api/index.py:66-67 | the exact lookup in a table built as front + back finds a front entry first and finds a back entry at its shifted index only when front has no match |
| Selector.PartialScanAppend | api/index.py:70-72 | the substring scan over front + back meets the front part first, and reaches a back entry at its shifted index only when no front trigger occurs |
| Selector.ReplyNonEmpty | api/index.py:29-83 | when every canned reply and template prefix is non-empty, so is every reply |
| Selector.EmptyMessageFallsThrough | app.py:62-76 | the empty message matches no (non-empty) trigger, is no question and has no words, so it gets the default template around the empty string |
| Selector.ReplyShapes | api/index.py:66-83 | every reply is a canned reply of the table or one of the three templates filled with the message or its first 50 characters |
| Personas.ApiPersona | api/index.py:32-61 | the serverless table has 28 entries: `hello` first, `time` and `date` at positions 14 and 15 with replies embedding the two clock readings, `tell me about yourself` last |
| Personas.ApiPersonaWellFormed | api/index.py:32-61 | the serverless table has pairwise distinct triggers and non-empty replies, and its templates have non-empty fixed text, for any clock readings |
| Personas.AppPersonaWellFormed | app.py:50-76 | the app's table has 9 entries, from `hello` to `about`, with pairwise distinct triggers and non-empty replies; its question, long and default templates each put non-empty fixed text before the message |
| Personas.ApiScanOrder | api/index.py:32-61 | a trigger equals or occurs in a message exactly when it does so for one of the five consecutive groups of the table |
| Personas.ApiPaddedHello | api/index.py:63-67 | `"  Hello  "` normalises to `hello` and gets the `hello` reply |
| Personas.ApiExactBeatsAbout | api/index.py:66-72 | `"Tell me about yourself"` contains the earlier trigger `about`, yet gets the `tell me about yourself` reply through the exact lookup |
| Personas.ApiThisHitsHi | api/index.py:69-72 | the substring scan is raw: `"this"` contains `hi` and gets the `hi` reply |
| Personas.ApiShadowedTriggers | api/index.py:40-60 | in the serverless table the substring scan never selects `goodbye` (after `bye`) or `tell me about yourself` (after `about`) |
| History.Save | api/index.py:11-18 | saving appends one entry at the end with the given message, reply and stamp, and keeps every earlier entry |
| History.SaveAllOldestFirst | api/index.py:11-22 | after a run of saves the history lists the old entries unchanged, then one entry per save in the order made |
| History.Clear | api/index.py:24-27 | clearing leaves an empty history |
| History.ClearIdempotent | api/index.py:24-27 | clearing twice is clearing once |
| History.SaveAfterClear | api/index.py:11-27 | the first save after a clear gives a history of exactly that exchange |
| Chat.Truthy | api/index.py:95 | a decoded JSON body is falsy exactly when it is `null`, `false`, zero, the empty string, the empty array or the empty object |
| Chat.ApiChat | api/index.py:93-115 | serverless `/chat` answers 200 exactly when the body has a `message` string that is not all whitespace, with the selector's reply to the stripped message, appending exactly that exchange to the log; 400 `No JSON data received` exactly for a falsy body; 400 `Empty message` exactly for a non-empty object whose message is missing or blank; 500 exactly for a truthy non-object or a non-string message; the log is unchanged unless 200 |
| Chat.AppChat | app.py:87-103 | the app's `/chat` answers 200 exactly when the body has a non-empty `message` string, before stripping, with the selector's reply to the stripped message; 400 `Empty message` exactly for a falsy body or a falsy or missing message; 500 for a truthy non-object or a truthy non-string message |
| Chat.WhitespaceOnlyMessage | app.py:89-93 | a whitespace-only message is rejected with 400 and no log change by the serverless handler, but gets the app's default reply around the empty string |
| Chat.ApiChatAppendsOnReply | api/index.py:98-112 | one serverless request appends exactly one entry, carrying the response sent back, when it is answered with 200, and leaves the log as it was otherwise |
| Chat.RunLogsEachReply | api/index.py:104-107 | for any handler that appends exactly on success, a run of requests keeps the old log and appends, in request order, one entry per answered request carrying its response |
| Chat.SessionLogsEachReply | api/index.py:104-112 | a run of serverless `/chat` requests leaves the old log as a prefix and logs exactly the responses delivered with 200, in order |
| Chat.Health | api/index.py:144 | `messages_stored` is the number of exchanges in the log |
| Chat.ChatCountsExchanges | api/index.py:144 | each `/chat` request raises `messages_stored` by one if answered with 200 and leaves it unchanged otherwise; a clear resets it to 0 |

## Left out

- Flask routing, `render_template`, `jsonify`, the 404 and 500 error handlers, the `/history` and `/clear_history` response bodies: HTTP plumbing with no logic beyond the operations modelled.
- Request bodies that are not JSON, or have the wrong content type: Flask raises inside `get_json`. In both handlers this is caught and answered with 500. The model's input is the already decoded JSON value.
- The text of 500 responses: it embeds Python's exception message, which the model does not reproduce (`ServerError` carries no text).
- The clock: `datetime.datetime.now()` and `strftime` are replaced by already formatted strings passed in as parameters (`Clocks`).
- The `environment` and `database` fields of the serverless `health` report: constant strings (`api/index.py:140,142`), not modelled in `Chat.HealthReport`.
- The database layer of `app.py` (`get_connection`, `save_to_database`, `get_chat_history`, `clear_chat_history` over Supabase) and the app's `health` count. These are foreign calls. The app's `/chat` does not save at all, because the call is commented out.
- Concurrency: the serverless module-level list is shared between requests. The model threads one log value through one request after another.
- Lone surrogates: a JSON body may carry an escaped lone surrogate such as `"\ud800"`, which Python decodes into a `str`, but a Dafny `string` holds only Unicode scalar values. Such messages are outside the model.
- Text.Lower: models `str.lower()` on ASCII letters only, because Python's full Unicode case mapping (including changes of length) is not part of the model; non-ASCII letters are left unchanged.
- Duplicate dictionary keys: Python keeps the last value for a repeated key. Both tables are proved to have distinct triggers, so this never arises, and the model's scan does not reproduce it.
