# Chat widget conversation model

A Dafny model of the two pieces of logic in a single-page chat widget:

- **The conversation on the chat page** (`app/page.js`, `Home` / `sendMessage`).
  The state is a list of turns, the input draft, and the number of requests still pending.
  A turn has a role (user or assistant) and a content value.
  The page starts with one assistant greeting.
  Typing replaces the draft.
  Pressing send does nothing when the draft is blank. Otherwise it clears the draft, appends the untrimmed user turn and an empty assistant placeholder, and issues a request whose prompt wraps the draft in a fixed instruction template.
  When the request settles, the page either overwrites the content of whatever turn is last at that moment, or appends an error turn.
- **The library helper `getChatbotResponse`** (`lib/chatbot.js`).
  It wraps the prompt in the request body `{contents: [{parts: [prompt]}]}` and validates the response.
  It returns the first candidate's truthy `content`, or a keyword-chosen canned reply (`generateFallbackResponse`) when that content is falsy.
  Every failure gives one fixed error string.

The network is not modelled. A request is settled by a `Transport.FetchOutcome` given as input: either the fetch rejects, or a response arrives with an `ok` flag, a status and a body. The body is either a parsed JSON value or "not JSON" (`response.json()` rejects). JSON values are the datatype `JsValue.Json`. On it the model defines JavaScript truthiness and named property access: reading a property of `null` throws, and any other non-object yields `undefined`. These decide the edge cases of both files:

- On the page, the status is never checked. A `null` body makes `data.content` throw, so the error turn is appended.
- A truthy `data.content` is stored verbatim, even when it is not a string. For this reason turn content is a `Json` and not a `string`.
- In the library, a `null` first candidate makes `.content` throw, so the error string is returned. A primitive first candidate has no `content`, so the fallback is used.
- In the library, a body that is falsy, or whose `candidates` is missing, not an array or empty, returns the error string. It never reaches the keyword fallback, which is only used when the first candidate's content is falsy. The file's own comments (lib/chatbot.js:4, 43) describe the fallback as handling errors and unexpected responses, but the code sends those to the error string. The model follows the code.
- The user turn stores the untrimmed draft (app/page.js:45). Only the guard trims.

Asynchrony is modelled as an arbitrary sequence of `Conversation.Event`s: typing, pressing send, and a pending request settling. Sends are not serialised. Each settlement acts on the current last turn, so overlapping sends can write a reply into another send's placeholder, as in the code. The model adds no guard against this.

Modules: `Options` (optional values), `JsValue` (JSON values, truthiness, property access), `Transport` (fetch outcomes), `Text` (`trim`, `toLowerCase`, `includes`), `Chatbot` (`lib/chatbot.js`), `Conversation` (`app/page.js`).

## Model

| member | source | states |
|---|---|---|
| `Conversation.Init` | app/page.js:27-35 | The page starts with exactly one assistant turn holding the fixed greeting, an empty draft and nothing pending. |
| `Conversation.Edit` | app/page.js:170-171 | Typing replaces the draft and leaves the turns and pending requests alone. |
| `Conversation.CanSend` | app/page.js:39 | The send guard, which is also the enabling condition of the send button (app/page.js:188), holds exactly when the draft has at least one non-whitespace character. |
| `Conversation.Prompt` | app/page.js:56-66 | The outgoing prompt is the fixed head, then the raw draft verbatim, then the fixed tail. |
| `Conversation.PromptRoundTrip` | app/page.js:58 | The user's text can be read back out of the prompt, and a prompt that yields a text is exactly that text's prompt: the template embeds the draft without alteration. |
| `Conversation.Send` | app/page.js:38-47 | Send leaves the state unchanged exactly when every draft character is whitespace. Otherwise the draft becomes "", exactly two turns are appended after an unchanged prefix (the user turn with the untrimmed draft, then an empty assistant placeholder), and one more request is pending. |
| `Conversation.Request` | app/page.js:39-66 | A request is issued exactly when send changes the state, which is also when the send button is enabled. The draft is recoverable verbatim from the request's prompt. |
| `Conversation.Settle` | app/page.js:49-82 | The page fails exactly when the fetch rejects, the body is not JSON, or the body is null. Otherwise it writes the body's truthy `content` verbatim, or else the apology string. What it writes is never falsy. |
| `Conversation.SettleIgnoresStatus` | app/page.js:51-71 | Two responses with the same body settle the same way, whatever their status. |
| `Conversation.Complete` | app/page.js:75-86 | On success, the length is unchanged, every turn but the last is unchanged, and the last turn keeps its role and gets the written content. On failure, exactly one error turn is appended after an unchanged list, so the placeholder stays. The draft is untouched and one request fewer is pending. |
| `Conversation.SendThenWrite` | app/page.js:43-78 | A send followed by its success leaves the prior turns, the user turn, and an assistant turn with the reply. |
| `Conversation.SendThenFail` | app/page.js:43-86 | A send followed by its failure leaves the prior turns, the user turn, the still-empty placeholder, and the error turn. |
| `Conversation.Step` | app/page.js:38-171 | Events are typing (line 171), pressing send, and a pending request settling. No event shrinks the thread or alters any turn before the last. Typing only replaces the draft. A settlement with nothing pending changes nothing. |
| `Conversation.SendPreservesInv` | app/page.js:38-47 | Pressing send keeps the invariant: greeting first, an assistant turn last, a pending request only after some send, each user turn a non-blank string followed by an assistant turn. |
| `Conversation.CompletePreservesInv` | app/page.js:75-86 | A settlement keeps that invariant. |
| `Conversation.StepPreservesInv` | app/page.js:38-86 | Every event keeps the invariant, never shrinks the thread, and leaves every turn before the last one unchanged. |
| `Conversation.RunInv` | app/page.js:27-86 | Every state reachable from the initial one by any interleaving of events satisfies the invariant. |
| `Conversation.GreetingPersists` | app/page.js:27-32 | In every reachable state the first turn is still the greeting. |
| `Conversation.SettlementTargetsAssistantReply` | app/page.js:75-78 | In a reachable state with a request pending, the last turn is an assistant turn at index two or later, so a settlement never overwrites a user turn or the greeting. |
| `Chatbot.RequestBody` | lib/chatbot.js:17 | The request body is `{contents: [{parts: [prompt]}]}`: its single content entry's single part reads back as the prompt. |
| `Chatbot.RequestBodyRoundTrip` | lib/chatbot.js:17 | The prompt is the single part of the single content entry of the request body, unchanged, so distinct prompts give distinct bodies. |
| `Chatbot.Fallback` | lib/chatbot.js:44-53 | On the lower-cased prompt, the help reply is chosen exactly when it contains "help". The schedule reply is chosen exactly when it contains "schedule" but not "help". The clarification is chosen exactly when it contains neither. |
| `Chatbot.FallbackIgnoresCase` | lib/chatbot.js:46-48 | Lower-casing the prompt first does not change the fallback reply. |
| `Chatbot.FallbackHelpAnyCase` | lib/chatbot.js:46-47 | "help" in any capitalisation selects the help reply, even when "schedule" also occurs. |
| `Chatbot.FallbackScheduleAnyCase` | lib/chatbot.js:48-49 | "schedule" in any capitalisation selects the schedule reply when "help" does not occur. |
| `Chatbot.ChatbotResponse` | lib/chatbot.js:10-40 | The result is the error string when the fetch rejects, the status is not OK, the body is not JSON or not an object with a non-empty `candidates` array, or the first candidate is null. Otherwise it is that candidate's truthy `content`, or else the keyword fallback for the prompt. |
| `Chatbot.InvalidNeverFallback` | lib/chatbot.js:29-39 | A failed or structurally invalid response gives the error string, which is never the fallback reply. |
| `Chatbot.ErrorIff` | lib/chatbot.js:34-39 | The error string is returned exactly when the response is unusable, or when the first candidate's content is itself that string. |
| `Chatbot.OnlyFirstCandidateMatters` | lib/chatbot.js:34 | Outcomes that agree on the validated first candidate give the same result: later candidates are never consulted. |
| `Chatbot.ResponseIsStringOrContent` | lib/chatbot.js:10-40 | Every outcome yields a value. It is the error string, one of the three fallback strings, or the first candidate's truthy content verbatim. |
| `JsValue.Truthy` | lib/chatbot.js:29-34 | A JSON value is falsy exactly when it is null, false, zero or the empty string. This decides `!data` (lib/chatbot.js:29) and both `||` fallbacks (lib/chatbot.js:34, app/page.js:72). |
| `JsValue.Get` | lib/chatbot.js:34 | Reading a named property throws exactly on null, and finds a value exactly when the receiver is an object that has the key. |
| `Text.TrimStart` | app/page.js:39 | Removing leading whitespace gives a suffix that starts with a non-whitespace character, and everything removed is whitespace. |
| `Text.TrimEnd` | app/page.js:39 | Removing trailing whitespace gives a prefix that ends with a non-whitespace character, and everything removed is whitespace. |
| `Text.Trim` | app/page.js:39 | `trim` gives a contiguous slice with no whitespace at either end, and everything cut off is whitespace. |
| `Text.IsBlank` | app/page.js:39 | The trimmed draft is empty exactly when every character is whitespace. |
| `Text.TrimEmptyIff` | app/page.js:188 | The empty-trim test that disables the send button holds exactly for all-whitespace drafts. |
| `Text.Lower` | lib/chatbot.js:46 | Lower-casing keeps the length and maps each character on its own. |
| `Text.LowerIdempotent` | lib/chatbot.js:46-48 | Lower-casing twice is the same as once. |
| `Text.OccursShift` | lib/chatbot.js:46 | A substring occurs in a string exactly when it is a prefix of it or occurs once the first character is dropped. |
| `Text.Includes` | lib/chatbot.js:46-48 | `includes` holds exactly when the substring occurs at some index. |
| `Text.LowerOccurs` | lib/chatbot.js:46-48 | An occurrence at an index is still one at that index after both sides are lower-cased. |
| `Text.IncludesLower` | lib/chatbot.js:46-48 | An occurrence in the original prompt is still an occurrence after both sides are lower-cased. |

## Left out

- Rendering, styling and role-based alignment (app/page.js:92-196) are presentation. They change no state.
- `fetch`, `JSON.stringify`, `response.json()` and HTTP transport are network I/O. They are replaced by the `FetchOutcome` input and the JSON value datatype. Serialising the request body to text is not modelled.
- `console.error` / `console.warn` logging has no observable state.
- The update at app/page.js:77 mutates the shared last turn object in place. `Conversation.Complete` models it as a functional update of the last element. No state the model tracks can observe the difference.
- React's update batching is not modelled. Each settlement is applied atomically to the current state, in any order relative to other events.
- Text.Lower: maps only ASCII `A`-`Z`. Full Unicode `toLowerCase` mappings, including ones that change the length, are not modelled.
- JsValue.Get: only models named keys other than array indices and `length`. Inherited prototype properties are not modelled. The code only reads `content` and `candidates`, which are not affected.
- JSON numbers are reals. JSON cannot express NaN, so truthiness of a number is "not zero".
- `getChatbotResponse` is modelled for a string `prompt` only. A non-string prompt that reaches the fallback makes `toLowerCase` throw. That throw is caught at lib/chatbot.js:37 and the error string is returned; this path is not modelled.
- Conversation.Complete: requires a non-empty thread and a pending request. The code's update would throw on an empty thread, but no reachable state has one (`Conversation.RunInv`). A settlement with nothing pending has no continuation, so `Conversation.Step` ignores it.
