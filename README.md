# Chat widget: session buffer and local conversation history

A Dafny model of the chat component of a single-page assistant that forwards
the user's questions to a language-model completion endpoint. The model
covers the component's own logic:

- the live conversation (`messages`), an ordered list of `{sender, text}`
  messages to which a send appends one user message and, when the reply
  arrives, one bot message;
- the send guard (input that `trim()` reduces to nothing is ignored) and the
  prompt, one of two fixed Portuguese phrasings chosen by the response-mode
  switch followed by the input verbatim;
- the fixed Portuguese fallback text that replaces the reply when the
  request fails;
- the browser's local storage as a string-to-string store: saving writes the
  conversation, serialised as JSON, under `chat_history_<timestamp>`, lists
  the key at the end of the history and empties the conversation; loading a
  key shows the stored conversation on the history tab, or does nothing;
- the start-up history list: the store's keys that carry the
  `chat_history_` prefix.

Modules: `Messages` (the value types and the fallback text), `Trimming`
(ECMAScript `trim`), `Prompt` (prompt composition and its inverse), `Json`
(the serialisation of a message list, with `JSON.stringify`'s escapes, and a
parser proved to be its exact inverse), `HistoryStore` (keys, the start-up
filter, what loading a key yields, and the `LocalStorage` class) and
`ChatbotComponent` (the `Chatbot` class, one method per handler, and client
methods that run the handlers in sequence).

The component's state is the `Chatbot` class: its fields are the component's
state variables and its methods the event handlers, each an atomic step. The
local storage is a separate `LocalStorage` object held by the component,
because it outlives the component. The timestamp of a save is an opaque string
parameter. The completion endpoint is a function from prompt to `Reply`. The
order in which the browser enumerates storage keys is a parameter too.

Three behaviours of the code that the model keeps as they are:
- loading a key that holds no conversation changes nothing
  (src/components/Chatbot.tsx:42);
- the history list is ordered and may hold a key twice, since a save appends
  its key without looking for it (src/components/Chatbot.tsx:35);
- the prompt phrasings and the fallback text are the Portuguese literals of
  src/components/Chatbot.tsx:68 and :80-81.

## Model

| member | source | states |
|---|---|---|
| Messages.BotText | src/components/Chatbot.tsx:65-68 | the bot text is the endpoint's content when it answered, and exactly the fixed fallback text on any failure |
| Trimming.LeadingWhitespaceIsMaximal | src/components/Chatbot.tsx:73 | the leading run that trim removes is all ECMAScript white space, and the character after it is not white space |
| Trimming.TrailingWhitespaceIsMaximal | src/components/Chatbot.tsx:73 | the trailing run that trim removes is all white space, and the character before it is not white space |
| Trimming.Trim | src/components/Chatbot.tsx:73 | `input.trim()`: white space removed at both ends; its meaning is given by TrimIsInnerSlice and TrimEmptyIffBlank |
| Trimming.TrimEmptyIffBlank | src/components/Chatbot.tsx:73 | `trim()` yields the empty string exactly when every character of the input is white space (both directions) |
| Trimming.TrimIsInnerSlice | src/components/Chatbot.tsx:73 | trim keeps one contiguous slice of the input, drops only white space on both sides of it, and what it keeps neither starts nor ends with white space |
| Prompt.Compose | src/components/Chatbot.tsx:79-81 | the prompt starts with the phrasing the mode selects and ends with the input verbatim |
| Prompt.PrefixesDisjoint | src/components/Chatbot.tsx:79-81 | no prompt of one mode starts with the other mode's phrasing |
| Prompt.ParseCompose | src/components/Chatbot.tsx:79-81 | every prompt reads back as the mode and the input it was built from |
| Prompt.ComposeParse | src/components/Chatbot.tsx:79-81 | whatever reads back as a mode and an input is exactly the prompt built from them |
| Prompt.ComposeInjective | src/components/Chatbot.tsx:79-81 | different inputs or different modes never give the same prompt |
| Json.Escape | src/components/Chatbot.tsx:34 | the body of a JSON string literal as `JSON.stringify` writes it, one EscapeChar per character; read back by ParseEscaped |
| Json.EscapeChar | src/components/Chatbot.tsx:34 | each character is written as a non-empty text that never starts with a quotation mark, so a string literal ends only at its closing quote |
| Json.EncodeMessage | src/components/Chatbot.tsx:34 | one message as `JSON.stringify` writes it, sender before text; read back by ParseEncodedMessage and ParsedMessageIsEncoded |
| Json.Elements | src/components/Chatbot.tsx:34 | the comma-separated records of a message list, in order; read back by ParseEncodedElements and ParsedElementsAreEncoded |
| Json.Encode | src/components/Chatbot.tsx:34 | a stored conversation is a JSON array text: it starts with `[` and ends with `]` |
| Json.DecodeEscapedChar | src/components/Chatbot.tsx:34-43 | reading back the text `JSON.stringify` writes for a character yields that character and consumes exactly that text |
| Json.DecodedCharIsEscaped | src/components/Chatbot.tsx:43 | a character read from stored text consumed exactly the characters `JSON.stringify` writes for it |
| Json.ParseEscaped | src/components/Chatbot.tsx:34-43 | reading back a written string literal yields the string and leaves the text after the closing quote |
| Json.ParseString | src/components/Chatbot.tsx:43 | reading a string literal always consumes at least its closing quote |
| Json.ParseMessage | src/components/Chatbot.tsx:43 | reading a message record always consumes input |
| Json.Decode | src/components/Chatbot.tsx:43 | `JSON.parse` of a stored conversation: the exact inverse of Encode, see DecodeEncode and EncodeDecode |
| Json.DecodeEncode | src/components/Chatbot.tsx:34-43 | parsing the stored text of a conversation gives back the same messages in the same order |
| Json.EncodeDecode | src/components/Chatbot.tsx:41-43 | the parser accepts nothing but the stored text of the messages it returns |
| Json.EncodeInjective | src/components/Chatbot.tsx:34 | different conversations are stored as different texts |
| HistoryStore.IsHistoryKey | src/components/Chatbot.tsx:25 | the `startsWith('chat_history_')` test of the start-up filter; every save key passes it (HistoryKeyFor) |
| HistoryStore.HistoryKeyFor | src/components/Chatbot.tsx:33-35 | the save key carries the `chat_history_` prefix followed by the timestamp verbatim |
| HistoryStore.SavedHistoryKeys | src/components/Chatbot.tsx:24-26 | a key is in the start-up list exactly when it is a store key with the prefix |
| HistoryStore.SavedHistoryKeysAppend | src/components/Chatbot.tsx:24-26 | the start-up filter keeps the enumeration order |
| HistoryStore.SavedHistoryKeysDistinct | src/components/Chatbot.tsx:24-26 | the start-up list repeats no key when the enumeration repeats none |
| HistoryStore.StoredConversation | src/components/Chatbot.tsx:41-43 | a missing key yields nothing; a conversation is yielded only when the key holds exactly its serialised text |
| HistoryStore.SaveLoadRoundTrip | src/components/Chatbot.tsx:34-43 | writing a conversation under a key and loading that key yields the conversation |
| HistoryStore.LocalStorage.constructor | src/components/Chatbot.tsx:24 | the store holds exactly what the page finds persisted when it loads |
| HistoryStore.LocalStorage.SetItem | src/components/Chatbot.tsx:34 | a write replaces the value under its key and leaves every other key as it was |
| ChatbotComponent.Chatbot.constructor | src/components/Chatbot.tsx:11-17 | the component starts on the chat tab in simple mode with empty conversation, input, history and selected history |
| ChatbotComponent.Chatbot.RestoreHistory | src/components/Chatbot.tsx:22-29 | at start-up the history list becomes the prefixed store keys in enumeration order, and every listed key is in the store |
| ChatbotComponent.Chatbot.SetInput | src/components/Chatbot.tsx:172 | typing or picking a suggestion sets the input text |
| ChatbotComponent.Chatbot.SelectTab | src/components/Chatbot.tsx:116 | the tab buttons switch the active tab |
| ChatbotComponent.Chatbot.ToggleResponseType | src/components/Chatbot.tsx:92-94 | the switch negates the response-mode flag |
| ChatbotComponent.Chatbot.Submit | src/components/Chatbot.tsx:72-81 | blank input changes nothing and requests nothing; otherwise exactly one user message with the untrimmed input is appended, the input is cleared and the prompt for the current mode is requested |
| ChatbotComponent.Chatbot.Receive | src/components/Chatbot.tsx:83-85 | exactly one bot message, with the reply or the fallback text, is appended at the end |
| ChatbotComponent.Chatbot.Send | src/components/Chatbot.tsx:72-86 | a whole send appends nothing for blank input, else the user message then the bot message for that prompt's reply |
| ChatbotComponent.Chatbot.Save | src/components/Chatbot.tsx:32-37 | the conversation's JSON is stored under the timestamp's key, the key is appended to the history, the conversation is emptied and every listed key stays in the store |
| ChatbotComponent.Chatbot.Load | src/components/Chatbot.tsx:40-46 | a key holding a conversation shows it on the history tab; any other key changes nothing |
| ChatbotComponent.SaveThenLoad | src/components/Chatbot.tsx:32-46 | saving and then loading the returned key stores the conversation's text under that key, shows the saved messages in order on the history tab, leaves the conversation empty and does not touch the input or the response mode |
| ChatbotComponent.LoadMissing | src/components/Chatbot.tsx:40-46 | loading a key absent from the store changes nothing: selected history, tab, history, conversation, input and response mode stay as they were |
| ChatbotComponent.ToggleTwice | src/components/Chatbot.tsx:92-94 | toggling the response mode twice is the identity on the whole component |
| ChatbotComponent.FailedRequestScenario | src/components/Chatbot.tsx:22-85 | after mount over any store, the history is the restored prefixed keys; a first question that is not all white space, asked in simple mode with a failing request, yields the simple prompt and the conversation question, fallback text |
| ChatbotComponent.SaveScenario | src/components/Chatbot.tsx:22-46 | after mount over any store, a question that is not all white space, answered and saved at timestamp T, is stored under `chat_history_T`, listed after the restored history, and loads back as the same two messages |

## Left out

- The HTTP request to the completion endpoint (src/components/Chatbot.tsx:50-63) is a foreign network call: the endpoint is a function parameter that yields either the content of the first choice or a failure. A response whose content is missing or not a string is not modelled.
- The error log written on a failed request (`console.error`) is output only and is left out.
- Concurrent sends: `Submit` and `Receive` are separate steps, so a client can submit twice before the replies arrive and replies are then appended in arrival order. React's batching of state updates and stale closures within one render are not modelled; each handler is one atomic step.
- The save timestamp (`new Date().toISOString()`) is an opaque string parameter. Two saves with the same timestamp write the same key: the later conversation replaces the earlier one and the key is listed twice, as in the code.
- The order of `Object.keys(localStorage)` is browser-defined: it is the `keys` parameter of `RestoreHistory`, required to list exactly the store's keys.
- Json.Decode: accepts only the text `JSON.stringify` writes for a message list. Other JSON that `JSON.parse` accepts (white space, other property orders, other escapes) is treated as unreadable. So is JSON that is not a message list, which the code would place in the selected history unchecked. Unreadable text makes `JSON.parse` throw, which ends the handler before any state changes, and the model loads nothing.
- Dafny characters are Unicode scalar values, while JavaScript strings are UTF-16 code units. A lone surrogate, which `JSON.stringify` would escape as `\uXXXX`, cannot occur in the model.
- Storage quota errors on write and other writers to the same origin's storage (other tabs, other scripts) are not modelled. The store only grows through `SetItem`.
- The dark-mode theme, the rendering, the logo and icon images, the external workshop link (`window.open`) and the fixed suggestion texts are presentation only and are left out. A suggestion click is modelled by `SetInput`, which is all it does to the state.
- The `isUserLoggedIn` flag is the constant `true`, so the start-up effect always runs.
- src/App.tsx only renders the component and is not part of this model.
