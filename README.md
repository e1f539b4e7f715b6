# Conversation state of the Groq chat client

This project models the conversation-list state machine of the `App`
component (`src/App.js`) of a browser chat client for Groq-hosted language
models, and proves what its handlers do to that state.

The state is six fields of the component:
- `conversations`: records `{id, name, messages, model, timestamp}`, newest first;
- `currentConversationId`: may be null;
- `messages`: the chat view;
- `selectedModel`;
- `inputMessage`;
- `isLoading`.

Five handlers change it: create, select, delete, rename and send.

Layout:
- `conversations.dfy`, module `Conversations`: the values.
  - `Message` is a tagged union of `Human`, `Ai` (the only one carrying a model) and `Error`.
  - `Conversation` is a record.
  - It defines JavaScript's `trim` over ECMAScript whitespace, and the title derivation.
  - It holds the pure list transformations the handlers use: `find` (`Find`),
    `filter` (`RemoveId`), and the two conditional `map`s (`RenameIn`, `RecordReply`).
  - Lemmas state filter order preservation, id uniqueness, and trim's meaning.
- `app.dfy`, module `ChatApp`: class `App` with the six fields. Each handler is a method whose
  body calls the pure functions. Each method's `ensures` gives the whole new state in terms of
  the old one, and keeps the invariant `Valid()`: a non-null current id names an existing record,
  and that record's stored log (as `find` returns it) is a prefix of the view.
- `scenarios.dfy`, module `Scenarios`: client methods that call the handlers
  in sequence and prove the outcome from the contracts alone.

Each handler is one atomic step. React's functional updates are applied in program order.
Parameters stand for what the component reads from outside:
- the id from `Date.now()`;
- the timestamp from `toISOString()`;
- the request's outcome (`Success(content)` or `Failure`).

Behaviours of the code that the model keeps as written:
- A failed send adds the error message to the view only, not to the stored record.
- The user's message is not shown after a failure.
- A successful send adds the user's message and the reply together, after the reply arrives.
- The title is re-derived on every successful send. It overwrites any earlier rename.
- A successful send while no record has the current id (the id is null right after start-up)
  shows the two messages in the view but stores them in no record.

## Model

| member | source | states |
|---|---|---|
| Conversations.NewConversation | src/App.js:91-97 | a new record has the given id and timestamp, name "Nova Conversa", no messages, and the selected model |
| Conversations.LeadingWhitespace | src/App.js:125 | the length of the longest prefix of whitespace characters: all before it are whitespace, the one at it is not |
| Conversations.TrailingWhitespace | src/App.js:125 | the length of the longest suffix of whitespace characters: all after the cut are whitespace, the one before it is not |
| Conversations.TrimEmptyIffBlank | src/App.js:140 | the guard `!s.trim()` holds exactly when every character of `s` is whitespace (both directions) |
| Conversations.Trim | src/App.js:125-129 | `s.trim()` is the contiguous slice of `s` that starts after the leading whitespace; everything before and after it is whitespace, and it neither starts nor ends with whitespace |
| Conversations.Title | src/App.js:176-178 | the derived title is at most 23 characters; an input of at most 20 characters is kept whole; a longer one gives its first 20 characters followed by "..." |
| Conversations.TitleExamples | src/App.js:176-178 | "Hello" is titled "Hello"; the 24-character "This is a long test text" is titled "This is a long test ..." |
| Conversations.Find | src/App.js:106 | `find` returns nothing exactly when no record has the id; otherwise it returns the first record with that id |
| Conversations.FindUnique | src/App.js:106-111 | with unique ids, looking up a record's own id returns that record |
| Conversations.RemoveId | src/App.js:116 | the filtered list holds exactly the records whose id differs, is no longer, and has no record with the id |
| Conversations.RemoveIdAppend | src/App.js:116 | filtering distributes over concatenation, so surviving records keep their relative order |
| Conversations.RemoveIdAbsent | src/App.js:116 | filtering an id no record carries returns the list unchanged |
| Conversations.RemoveIdHasId | src/App.js:116 | after filtering, an id is present exactly when it was present before and is not the filtered id |
| Conversations.RemoveIdUnique | src/App.js:116 | filtering keeps ids unique; with unique ids, filtering a present id shortens the list by exactly one |
| Conversations.FindRemoveId | src/App.js:116 | filtering one id leaves what `find` returns for every other id unchanged |
| Conversations.RenameIn | src/App.js:126-133 | renaming keeps the length and every record's id, messages, model and timestamp; only the records with the id take the new name |
| Conversations.FindRenameIn | src/App.js:126-133 | after a rename, `find` returns the record it returned before, with the new name when its id is the renamed one, so its messages are unchanged |
| Conversations.RecordReply | src/App.js:167-183 | the records with the current id take the new log, the model, the timestamp and the derived title, which is at most 23 characters; all other records and all ids are unchanged; a null current id matches nothing |
| Conversations.FindRecordReply | src/App.js:167-183 | after a successful send, `find` on the current id returns the record it returned before, now holding the new log, model, timestamp and title |
| ChatApp.App.constructor | src/App.js:37-44 | start-up state: the stored records, no current id, empty view and input, the default model, not loading |
| ChatApp.App.CreateNewConversation | src/App.js:90-102 | exactly one new record is put in front of the unchanged list; it becomes current; the view is cleared; the invariant holds; ids stay unique when they were unique and the given id was not in use |
| ChatApp.App.SelectConversation | src/App.js:105-112 | an unknown id changes nothing; a known id becomes current, and the view and model become the messages and model of the first record with that id, as `find` returns it; the list never changes |
| ChatApp.App.DeleteConversation | src/App.js:115-121 | deleting a non-current id filters it out and leaves the current id and view alone; deleting the current id filters it out, then prepends a fresh record and makes it current; the current id always names a record afterwards; with a different fresh id the deleted id is gone; ids stay unique when they were unique and, in case the current record was deleted, the fresh id was not in use |
| ChatApp.App.RenameConversation | src/App.js:124-136 | a name that trims to nothing leaves the list unchanged; otherwise the list is renamed with the trimmed name; no other field changes |
| ChatApp.App.HandleSendMessage | src/App.js:139-199 | blank input changes nothing, `isLoading` included; success appends the user's message and then the reply (tagged with the selected model) to the view, stores that log in the current record, and clears the input; failure appends one error message to the view and leaves the list and input alone; after either outcome `isLoading` is false; the current record's stored log before the call is a prefix of its stored log after it; the invariant, including "the stored log is a prefix of the view", is kept |
| ChatApp.App.RecordReplyInView | src/App.js:146-186 | the success path: the view gains exactly the user's message and then the reply, the list is updated by the record-reply map, and the input is cleared; the current record, if any, then stores exactly the view |
| ChatApp.App.RecordError | src/App.js:187-195 | the failure path: exactly one error message with the fixed text is appended to the view, which keeps the current record's stored log a prefix of the view |
| ChatApp.App.SetSelectedModel | src/App.js:39 | the model picker's setter sets the selected model |
| ChatApp.App.SetInputMessage | src/App.js:37 | the input box's setter sets the draft text |

## Left out

- The Groq request (`new ChatGroq`, `groq.invoke`, src/App.js:146-156) is an external SDK call over the network. Its result is the `Outcome` parameter. An exception while building the client counts as `Failure`.
- `console.error` (src/App.js:188) is I/O.
- Persistence to `localStorage` and its JSON encoding (src/App.js:31, 34, 73-80) is browser I/O. The constructor takes the stored records as given. The code has no recovery for malformed stored data, and the model adds none.
- `Date.now()` and `new Date().toISOString()` (src/App.js:92, 96, 174) are clock reads. They are parameters. Ids are taken as unbounded integers. The code does not guarantee unique ids, so "ids stay unique" is proved only when the given id is fresh.
- React scheduling is not modelled. Each handler is one atomic step. This leaves out batching, effect timing and stale closures: the view, input and list being changed by the user while a request is outstanding.
- The `isLoading = true` state during the request is set but not observable in the atomic model. Only its final value is stated.
- The dialog flags and dialog fields are UI state only (`deleteDialogOpen`, `renameDialogOpen`, `conversationToDelete`, `conversationToRename`, `newConversationName` and its clearing at src/App.js:134-135). The ids and the new name reach the handlers as parameters.
- The theme toggle, sidebar visibility, the model list (src/App.js:62-70) and all rendering components are UI only.
- Strings are sequences of Unicode code points. JavaScript's `length` and `substring` count UTF-16 code units, so `Title` agrees with the source only for text without characters outside the Basic Multilingual Plane.
