# Todo bot for Watson Workspace — verified model

This project models the core of a chat bot that turns "todoable" messages into
todos. It has two parts.

The **in-memory store** keeps two indices over the same todo objects:
- `userStorage` maps a user id to a bucket, and the bucket maps a todo id to the todo.
- `spaceStorage` maps a space id to the list of todos pushed there.

The store supports `create`, `find` (scoped to a user, or across all users when
no user id is given), `list` and `listSpace`.

The **todo lifecycle** covers these steps:
- building a todo from a fetched message and recovering the payload of its `Todo` lens;
- accepting a todo into the store;
- toggling a todo's `completed` flag;
- rendering a list of todos as cards, whose button completes the todo only for its creator;
- the `/todos` slash command (`space`, the default, or `me`);
- the catch-all action handler, which reacts to JSON action ids whose `action` is `Complete`.

Modules:
- `Wrappers` holds the `Option` and `Result` types.
- `Dicts` models a JavaScript object used as a dictionary. It keeps the keys in
  `for...in` (insertion) order plus a map.
- `Todos` holds the entities: users, messages, annotations and todos. A todo is a
  class whose only mutable field is `completed`, so the two indices share each todo
  object exactly as the source does.
- `MemoryStore` holds the store. The source keeps it in module-level variables; here
  it is a `TodoStore` object. A ghost `History` records every todo passed to
  `Create`, and `Valid()` ties both indices to functions of that history
  (`UserIndex`, `SpaceIndex`).
- `TodoBot` holds the handlers. The store and the results of the platform calls are
  parameters, and the cards a handler would send are its return value.

## Model

| member | source | states |
|---|---|---|
| Dicts.Dict.Set | memory-store.js:21 | assigning `obj[k] = v` makes `k` read `v`, leaves every other key's value alone, keeps the existing key order, and adds a key only when `k` was new |
| Dicts.Dict.Values | memory-store.js:43-45 | the values in `for...in` order, one per key: every stored value and nothing else |
| Dicts.SetKeepsValid | memory-store.js:21 | assigning a key keeps every key listed once and exactly the stored keys listed |
| Dicts.SetTwice | memory-store.js:21 | assigning the same key twice leaves what the second assignment leaves (a re-created id overwrites) |
| Dicts.Dict.Get | memory-store.js:13 | `obj[k]`: the value stored under `k`, or `undefined` when `k` was never assigned (inherited keys are left out) |
| Dicts.EmptyDict | memory-store.js:14 | `{}` is well formed and has no own key: every key reads `undefined` (inherited keys are left out) |
| MemoryStore.UserIndex | memory-store.js:10-21 | the user index after `create` has run on each todo of the history in order: each call makes the creator's bucket on demand and assigns the todo under its id; characterised by UserIndexWellFormed, UserIndexDomain and BucketIsLatest |
| MemoryStore.SpaceIndex | memory-store.js:11-22 | the space index after `create` has run on each todo of the history in order: each call makes the space's list on demand and pushes the todo; characterised by SpaceIndexIsCreatedIn |
| MemoryStore.FirstWithId | memory-store.js:29-35 | the todo with the id from the first bucket, in `for...in` order, that holds it; characterised by FirstWithIdFinds |
| MemoryStore.CreatedInAppend | memory-store.js:22 | a todo created in space `s` is appended to the todos created in `s`; one created elsewhere leaves them alone |
| MemoryStore.CreatedInMembers | memory-store.js:17-22 | a todo is among those created in `s` exactly when it was created and its `spaceId` is `s` |
| MemoryStore.SpaceIndexIsCreatedIn | memory-store.js:17-22 | each space's list holds exactly the todos created there, in push order and with duplicates; a space gets a list only once something was created there |
| MemoryStore.UserIndexWellFormed | memory-store.js:10-15 | every bucket is filed under the user who created all its todos, and each todo in it is filed under its own id |
| MemoryStore.UserIndexDomain | memory-store.js:13-15 | a user has a bucket exactly when the user created some todo |
| MemoryStore.BucketIsLatest | memory-store.js:21 | a bucket entry is the todo that user most recently created with that id |
| MemoryStore.LatestMeaning | memory-store.js:21 | the most recent todo of a user with an id exists exactly when one was created, and no later todo has the same owner and id |
| MemoryStore.UserIndexLatest | memory-store.js:21 | a bucket holds id `id` exactly when the user created a todo with that id, and it holds the most recently created one |
| MemoryStore.OwnedValues | memory-store.js:39-49 | a bucket's values are all created by its user and have distinct ids |
| MemoryStore.UserIndexEmpty | memory-store.js:42-48 | a user's bucket is empty exactly when the user never created a todo |
| MemoryStore.BucketFirstMatch | memory-store.js:27 | the first todo with the id among a bucket's values is the entry filed under that id |
| MemoryStore.OwnerLookupMeaning | memory-store.js:26-27 | a user-scoped lookup yields a todo with that id created by that user, and nothing exactly when the user created none |
| MemoryStore.FiledIsFound | memory-store.js:25-36 | with unique ids, the scan over all buckets finds exactly the todo filed under its creator, so `find` without a user agrees with `find` by the owner |
| MemoryStore.BucketEntryInSpace | memory-store.js:21-22 | every todo in a user bucket is also in the list of its space |
| MemoryStore.SpaceEntryInBucket | memory-store.js:21-22 | when ids are unique, every todo in a space list belongs to that space and is the one its creator's bucket holds under its id |
| MemoryStore.RecreateOverwrites | memory-store.js:21-22 | creating a todo again with an id the user already has keeps the bucket's keys, replaces the entry, and still appends to the space list |
| MemoryStore.FirstWithIdFinds | memory-store.js:29-35 | the scan over buckets finds nothing exactly when no bucket holds the id, and otherwise returns what some bucket holds |
| MemoryStore.FindAnyMeaning | memory-store.js:28-36 | a lookup without a user fails exactly when no todo with the id was ever created, and otherwise yields a created todo with that id |
| MemoryStore.CreateUserEffect | memory-store.js:13-15 | making a missing bucket, then assigning the todo under its id, gives the user index of the history extended by the new todo |
| MemoryStore.CreateSpaceEffect | memory-store.js:17-19 | making a missing space list, then pushing the todo, gives the space index of the history extended by the new todo |
| MemoryStore.FiledIsListed | memory-store.js:21 | a todo filed in a user's bucket is among what `list` returns for that user |
| MemoryStore.FreshKeepsUnique | memory-store.js:21-22 | creating a todo with an unused id keeps all ids distinct |
| MemoryStore.CreateFrame | memory-store.js:21-22 | `create` files the todo in its creator's bucket, appends it to its space's list, and leaves other users' buckets and other spaces' lists unchanged |
| MemoryStore.ScanBuckets | memory-store.js:29-35 | the nested `for...in` loops return the first todo with the id, in bucket order |
| MemoryStore.ScanBucket | memory-store.js:30-34 | the inner loop returns the bucket's entry for the id, or nothing when there is none |
| MemoryStore.TodoStore.UserTodos | memory-store.js:39-49 | what `list(u)` returns: the values of u's bucket in `for...in` order, or `[]` without a bucket; proved equal to `List`'s result |
| MemoryStore.TodoStore.SpaceTodos | memory-store.js:51-57 | what `listSpace(s)` returns: the space's list, or `[]` without one; proved equal to `ListSpace`'s result |
| MemoryStore.TodoStore.Lookup | memory-store.js:25-37 | what `find(id, userId)` returns: for a truthy user id the user's bucket entry for the id, otherwise the first bucket entry for the id; proved equal to `Find`'s result |
| MemoryStore.TodoStore.constructor | memory-store.js:1-7 | the store starts empty and consistent |
| MemoryStore.TodoStore.Create | memory-store.js:9-23 | never fails (for ids that are not inherited object keys); keeps the store consistent; the todo is in `list(createdBy.id)` and is the last element of `listSpace(spaceId)`; other buckets and lists are unchanged; the bucket grows only for a new id |
| MemoryStore.TodoStore.List | memory-store.js:39-49 | the user's todos, all created by that user, one per id; empty exactly when the user never created one |
| MemoryStore.TodoStore.ListSpace | memory-store.js:51-57 | the todos created in the space, in creation order; empty when none were |
| MemoryStore.TodoStore.Find | memory-store.js:25-37 | with a user id: that user's todo with the id, or not-found when the user owns none, even if someone else does; with no or an empty user id: a todo with the id from any bucket, or not-found when none exists |
| Todos.Todo.constructor | index.js:128-137 | the todo object literal: every field as given, and `completed` false |
| TodoBot.FindLens | index.js:209 | the position of the first annotation whose lens is `Todo`, or none when there is none |
| TodoBot.TodoLensPayload | index.js:205-218 | the parsed payload of the first `Todo` lens annotation, an empty payload when there is none, and a parse failure when that payload is malformed |
| TodoBot.BuildTodo | index.js:125-138 | a fresh todo, not completed, in the given space, with the given id, copying the message's id, date, author and content, and carrying its lens payload; it fails exactly when the payload fails to parse |
| TodoBot.RenderCard | index.js:155-170 | one card per todo with title, subtitle, text and date from the todo, and one button captioned `Remove` and secondary exactly when the todo is completed, carrying `{action: 'Complete', todoId}` exactly when the viewer created the todo and `{}` otherwise |
| TodoBot.Rendered | index.js:153-171 | one card per todo, in the todos' order |
| TodoBot.RenderCards | index.js:153-171 | the `forEach`/`push` loop yields exactly the rendered cards |
| TodoBot.ShowTodoList | index.js:140-174 | reads the space list when a space id is given and the user's list otherwise, then renders one card per todo in store order. Each button reads `Remove` and is secondary exactly when the todo is completed, and carries `{action: 'Complete', todoId}` only for the todo's creator |
| TodoBot.CompleteTodo | index.js:176-188 | flips `completed` of exactly the todo that `find(todoId, userId)` yields, and then renders the user's list; when find yields nothing, every todo is unchanged and nothing is rendered |
| TodoBot.CompleteTwice | index.js:183 | toggling the same todo twice restores every todo's `completed` flag |
| TodoBot.Dispatch | index.js:41-49 | reacts only to an action id whose first character is `{` and whose decoded `action` is `Complete`, completing the decoded `todoId` |
| TodoBot.HandleAction | index.js:38-51 | the catch-all handler toggles only the todo its dispatch names, as that user's `find` yields it, and otherwise changes nothing |
| TodoBot.ShownIsFiled | index.js:144-150 | every shown todo is the one its creator's bucket holds under its id (for a space list this needs unique ids), and a personal list shows only the viewer's todos |
| TodoBot.CardButtonTargetsItsTodo | index.js:159-166 | selecting a shown card's button completes a todo exactly when the viewer created it, and then it completes that very todo; this needs unique ids for a space list, and for an empty viewer id, where `find` scans every bucket and could otherwise reach another user's todo with the same id |
| TodoBot.PersonalCardsAreLive | index.js:159-166 | every card in a user's own list carries a working complete command for its todo |
| TodoBot.AcceptTodo | index.js:106-117 | on a fetched message with a parsable payload, files one new uncompleted todo by the message's author in the conversation, appends it to that space's list, copies the message's id, date, content and lens payload into it, makes `find(id, owner)` return it, and renders the accepting user's list; otherwise nothing is filed; ids stay unique |
| TodoBot.SlashScope | index.js:53-69 | the space list when there is no parameter or the first lowercases to `space`, the personal list for `me`, and nothing for any other argument |
| TodoBot.LowerChar | index.js:58 | A–Z lowercasing of one character, which decides the comparisons at index.js:61-67: A–Z go to the matching a–z, every other character is kept, and no capital A–Z remains |
| TodoBot.Lower | index.js:58 | A–Z lowercasing of a string, which decides the comparisons at index.js:61-67: same length, no capital A–Z left, and every character outside A–Z kept |
| TodoBot.LowerMatches | index.js:58 | a string lowercases to a lower-case word exactly when each character is that word's letter in either case |
| TodoBot.SlashSpellings | index.js:53-69 | `space` and `me` are accepted in any mix of cases, and `space` is the default |
| TodoBot.DoSlash | index.js:53-69 | shows the conversation's list for `space`, the user's own list for `me`, and nothing otherwise |

## Left out

- Event wiring (`bot.on`, index.js:22-51 apart from the body of the catch-all handler) and the promise chains around `getMessage`, `sendTargetedMessage` and `addMessageFocus` are network I/O. A handler returns the cards it would send, and the fetched message is a parameter (`None` when the fetch fails).
- `addTodoLens` and `createViewDialog` (index.js:71-104) only decorate messages and send dialogs through the platform. Neither touches the store.
- The `List` action registration (index.js:31) passes the message object where `showTodoList` expects a user id. It is wiring and is not modelled.
- `cryptoRandomString(32)` is a random generator. `AcceptTodo` takes the fresh id as a parameter and requires that no stored todo has it.
- `JSON.parse` is not modelled. Its inputs are given already decoded, and a failed parse is `None`.
  - In `getTodoLensPayload` the thrown error aborts `acceptTodo`, which is modelled as a failure.
  - In the catch-all handler the exception is uncaught; the model reacts to it by doing nothing.
  - A payload that parses to something other than an object is not distinguished.
- TodoBot.LowerChar, TodoBot.Lower: lowercase A–Z only, whereas `toLowerCase` also lowercases other letters (`Ä` to `ä`) and can change the length (`İ` becomes two characters). The results of the comparisons with `space` and `me` at index.js:61-67 are the same, because no other character lowercases to a letter of those words.
- `for...in` visits integer-like keys in numeric order before the other keys. `Dicts` keeps pure insertion order. This is exact for the 32-character random ids, which are not integer-like, but not for arbitrary user or todo ids.
- User, space and todo ids are assumed not to be names inherited from `Object.prototype` (`toString`, `constructor`, `__proto__` and the like). For those the `=== undefined` checks at memory-store.js:13 and memory-store.js:17 misfire: `create` can fail after filing the todo in the user bucket, write onto a shared built-in object, or file a todo that the scan at memory-store.js:29-35 never visits. Platform ids and the random todo ids never take these names.
- TodoStore.ListSpace: returns the stored list's value. The source returns the stored array itself, so a later push is visible through an earlier result; no caller keeps one.
- Logging (`winston`, `console.error`) is a side effect only.
- Concurrency across awaits is not modelled. The source runs on a single-threaded event loop.
- `server.js` is not part of this model: it is process bootstrap and configuration.
- `UI.card`, `UI.cardButton` and `UI.generic` are replaced by the `Card` and `CardButton` records.
