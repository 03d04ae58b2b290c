# Chat widget panel controller, in Dafny

A model of the state bookkeeping of the floating chat widget
(`components/ChatWidget.jsx`). The widget holds the messages loaded so far,
newest first; a paging cursor (the `created_at` of the oldest row held, or
null); a flag that is set while an older page is being fetched; the
composer's name and content fields; and whether the panel is open. Five
handlers change that state:

- the initial load of the newest page (`loadLatest`);
- backward paging (`loadMore`), which is guarded by the flag and the cursor;
- the realtime INSERT callback, which puts a row in front of the list;
- sending (`handleSend`), which trims and checks the draft before inserting it;
- the open/close toggle.

The model has four modules:

- `Messages` (messages.dfy): the message row, newest-first order, and the two
  list merges, `[msg, ...prev]` and `[...prev, ...page]`.
- `Composer` (composer.dfy): JavaScript's `String.prototype.trim`, and the
  payload `handleSend` builds from the draft, with the `"익명"` default name.
- `ChatPanel` (chat_panel.dfy): the component state as a value, with one pure
  transition per handler and a `Run` over a sequence of events. This module
  holds the lemmas: the guard, append and cursor rules of `loadMore`,
  exhaustion being final, replacement by `loadLatest`, send validation, the
  toggle, and the list staying newest-first with the cursor on its last row
  under stated assumptions about the store.
- `Widget` (widget.dfy): the component as a class `ChatWidget` with the six
  state fields as mutable fields. Each handler is a method that updates the
  fields in place. Each method's postcondition equates the new state with the
  matching `ChatPanel` transition applied to the old state. `loadMore` is
  modelled in two halves, `StartLoadMore` (the guard, then the flag goes up)
  and `FinishLoadMore` (the fetch outcome is applied, then the flag goes down),
  and `LoadMore` runs one after the other. `PagingScenario` is an example
  run of the object: it loads a three-row newest page, then an empty older
  page, then tries one more `loadMore`, and asserts at each step what the
  method contracts alone imply.

The backend is not modelled. Each handler takes the outcome of its backend
call as a parameter: `FetchResult(data, error)` for a `select`, and
`InsertResult(data, error)` for an insert. A handler acts on an outcome only
when `!error && data` holds, exactly as the source does.

Where the behaviour described for the system and the code differ, the model
follows the code:

- No row is de-duplicated by `id`. A live insert always prepends, even a row
  the list already holds.
- The cursor becomes null only when an older page comes back empty. A page
  shorter than `PAGE_SIZE` still leaves the cursor on its last row.
  `OnlyEmptyOlderPageNullsCursor` states this for every step, and
  `ShortPageKeepsCursor` is an example run: three rows through the newest
  page, then an empty older page, then a further no-op `loadMore`.
- An empty newest page leaves the cursor as it was; it does not null it.
  `EmptyLatestPageKeepsStaleCursor` shows what that does after an earlier
  non-empty page: the list is emptied but the cursor stays set.
- A confirmed send does not add the returned row locally. The new message
  reaches the list only through the realtime callback.

## Model

| member | source | states |
|---|---|---|
| Messages.Prepend | components/ChatWidget.jsx:29 | the live row is at index 0, the length grows by one, every earlier entry moves up one place in order, and the last entry is unchanged |
| Messages.Append | components/ChatWidget.jsx:59 | every row held keeps its index, the page follows in its own order, and the last row of a non-empty page becomes the last row of the list |
| Messages.PrependKeepsNewestFirst | components/ChatWidget.jsx:28-30 | a live row no older than the head keeps the list newest-first |
| Messages.AppendKeepsNewestFirst | components/ChatWidget.jsx:55-59 | a newest-first page of rows strictly older than the last row held keeps the list newest-first when appended |
| Composer.Leading | components/ChatWidget.jsx:68 | counts the leading whitespace: all of it is whitespace and the next character is not |
| Composer.Trailing | components/ChatWidget.jsx:68 | counts the trailing whitespace: all of it is whitespace and the character before it is not |
| Composer.Trim | components/ChatWidget.jsx:68-69 | `trim()` keeps one window of the input, everything outside it is whitespace, the window has no whitespace at either end, and it is empty exactly when the input is all whitespace |
| Composer.Compose | components/ChatWidget.jsx:68-69 | nothing is sent exactly when the content is all whitespace; otherwise the payload's name is the given name, or `"익명"` when that is empty, and its content is the non-empty trimmed content |
| Composer.TrimIdempotent | components/ChatWidget.jsx:69 | trimming the trimmed content changes nothing |
| ChatPanel.LiveInsertPrepends | components/ChatWidget.jsx:28-30 | a live insert gives a list one longer whose head is the new row and whose tail is the old list; no other field changes |
| ChatPanel.LoadMoreGuard | components/ChatWidget.jsx:49 | `loadMore` issues no fetch exactly when a fetch is in flight or the cursor is null, and then changes nothing; otherwise it fetches below the current cursor |
| ChatPanel.LoadMoreInFlightIgnored | components/ChatWidget.jsx:49-50 | once the flag is raised, a second `loadMore` issues nothing and changes nothing |
| ChatPanel.LoadMoreAppends | components/ChatWidget.jsx:58-63 | a fetched older page is appended after the rows held, which keep their positions; the cursor moves to the page's last row, or becomes null for an empty page; the flag is down; `open`, `name` and `content` are unchanged |
| ChatPanel.LoadMoreFailureKeepsState | components/ChatWidget.jsx:58-63 | when the fetch errs or returns no data, the list, the cursor and the rest of the state are as before the call |
| ChatPanel.LoadMoreFinishClearsFlag | components/ChatWidget.jsx:63 | the in-flight flag is down after any completed fetch, whatever its outcome |
| ChatPanel.LoadMoreKeepsPrefix | components/ChatWidget.jsx:59 | paging never removes or reorders a row held: the old list is a prefix of the new one |
| ChatPanel.LoadMoreIsStartThenFinish | components/ChatWidget.jsx:48-64 | the guarded call is its two halves, before and after the `await`, run back to back |
| ChatPanel.ExhaustedStaysExhausted | components/ChatWidget.jsx:49-61 | a null cursor stays null through any run of events without a non-empty newest page |
| ChatPanel.ExhaustedLoadMoreIsNoOp | components/ChatWidget.jsx:49-61 | after the cursor is nulled, every later `loadMore` in such a run issues no fetch and changes nothing |
| ChatPanel.LatestPageReplaces | components/ChatWidget.jsx:42-45 | a fetched newest page replaces the list; the cursor moves to its last row when it has one and is kept otherwise; an error changes nothing; no other field changes |
| ChatPanel.LatestPageBounded | components/ChatWidget.jsx:37-43 | a page the store returns under `limit(PAGE_SIZE)` with descending order leaves at most 20 rows, newest first |
| ChatPanel.EmptyLatestPageKeepsStaleCursor | components/ChatWidget.jsx:44 | an empty newest page after a cursor was set leaves a cursor that no longer matches the list |
| ChatPanel.OnlyEmptyOlderPageNullsCursor | components/ChatWidget.jsx:44-61 | from a set cursor, a step nulls it exactly when it is a `loadMore` that passes the guard and gets an empty page; a short page, an error or any other handler leaves it set |
| ChatPanel.ShortPageKeepsCursor | components/ChatWidget.jsx:42-61 | one example run: a three-row newest page leaves the cursor on its oldest row, an empty older page then nulls it, and the next `loadMore` is a no-op |
| ChatPanel.StepKeepsCoherent | components/ChatWidget.jsx:28-61 | every handler keeps the list newest-first and a non-null cursor on its last row, given ordered pages, older pages strictly below the cursor and live rows no older than the head |
| ChatPanel.RunKeepsCoherent | components/ChatWidget.jsx:28-61 | under the same store assumptions, any run of events keeps the list newest-first and the cursor on its last row |
| ChatPanel.InitialIsCoherent | components/ChatWidget.jsx:12-14 | the mounted state has an empty list, a null cursor and the flag down, and is coherent |
| ChatPanel.SendOutcome | components/ChatWidget.jsx:68-78 | a blank draft changes nothing; a confirmed insert clears the content field and nothing else; a failed insert leaves the draft and the rest unchanged |
| ChatPanel.ToggleFlipsOnlyOpen | components/ChatWidget.jsx:85 | the toggle flips `open`, touches nothing else, and two toggles cancel out |
| Widget.ChatWidget.constructor | components/ChatWidget.jsx:9-14 | the fields start at the `useState` initial values |
| Widget.ChatWidget.LoadLatest | components/ChatWidget.jsx:36-46 | the fields after the call are the newest-page transition of the fields before it |
| Widget.ChatWidget.StartLoadMore | components/ChatWidget.jsx:48-50 | returns the cursor the fetch is bounded by, or nothing when the guard returns early; raises the flag only past the guard |
| Widget.ChatWidget.FinishLoadMore | components/ChatWidget.jsx:58-63 | applies the older-page outcome as the transition does and always leaves the flag down |
| Widget.ChatWidget.LoadMore | components/ChatWidget.jsx:48-64 | the whole call: the bound it fetched with (if any) and the fields after it, as the transition gives them |
| Widget.ChatWidget.OnInsert | components/ChatWidget.jsx:28-30 | the list gains the live row at its head; no other field changes |
| Widget.ChatWidget.HandleSend | components/ChatWidget.jsx:66-79 | returns the payload built from the draft, or nothing for a blank draft; the fields after the call are the send transition of the fields before it |
| Widget.ChatWidget.Toggle | components/ChatWidget.jsx:85 | flips `open` and nothing else |
| Widget.ChatWidget.SetName | components/ChatWidget.jsx:147 | the name field takes the typed value and nothing else changes |
| Widget.ChatWidget.SetContent | components/ChatWidget.jsx:153 | the content field takes the typed value and nothing else changes |

## Left out

- The Supabase client, its construction and the environment variables it reads (lines 2-6). These are a network-backed library, so each query's or insert's outcome is a parameter of the handler that awaits it.
- The realtime channel's setup and teardown (lines 23-33). The model covers only what its callback does to the list.
- Interleaving of the asynchronous flows. Each handler is one atomic step. `loadMore` is also split at its `await` into `StartLoadMore` and `FinishLoadMore`, but the ordering and coherence lemmas are stated over whole calls. React's batching and the closures' view of stale state are not modelled.
- No timeout for a fetch that never completes. A `StartLoadMore` with no `FinishLoadMore` after it leaves the flag up, as the source does.
- Rendering, styling, the `scrollTo` after a send (line 75), the `alert` on a failed send (line 77), `preventDefault` (line 67) and the `toLocaleString` date formatting (line 134). These are user-interface or locale-dependent output.
- pages/index.js only mounts the widget inside a page layout and has no logic.
- Timestamps are integers, and only their order is used. The source tests the cursor with `!oldestAt`, which in JavaScript is also true for an empty string. A `created_at` from the store is never empty, so the model takes the cursor to be falsy only when it is null.
- `trim` is modelled on Unicode characters, using the whitespace and line-terminator set of ECMAScript. Strings are not modelled as UTF-16 code units. Every character `trim` removes is a single code unit, so the result is the same.
- ChatPanel.StepKeepsCoherent: assumes that an empty newest page arrives only while the cursor is null, because the newest page is fetched once, on mount. Without that assumption the invariant fails, as `EmptyLatestPageKeepsStaleCursor` shows.
- ChatPanel.RunKeepsCoherent: rests on the same assumption about an empty newest page as StepKeepsCoherent.
