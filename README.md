# HouseFinder worker — a Dafny model

HouseFinder is a background worker. It polls a property-listing feed every five minutes. It remembers
every listing identifier it has seen in a `houses` table. It registers every chat that sends its
Telegram bot a text message in a `chats` table. And it can send a text to every registered chat.
This project models the bookkeeping of `HouseFinder/Worker.cs`. Both tables are sets of integers. A
fetch is the deserialised result object. An outbound message is a `(chatId, text)` value.

Modules:

- `Wrappers`: `Option`, which stands in for C#'s nullable references.
- `Feed`: the `RightMoveResult`/`Property` shape.
  - Null can occur at three levels: the whole result, its `properties` list, or an element of the list.
  - `IdsBeforeNull` gives the identifiers the lazy `Select` yields before a null element throws.
- `Dedup`: the poll cycle on values.
  - `NewIds` walks a snapshot with a fresh lookup per id, so it sees earlier inserts.
  - `FirstSightings` is an independent positional definition of the same report.
  - `Notified` strings cycles together.
- `Messages`: the outbound text.
  - A listing's text is the property URL prefix followed by its id in decimal.
  - `ParseDecimal` inverts the decimal rendering.
  - The startup announcement is a fixed string.
- `Recipients`: inbound updates and their effect on the chat store (`Register`).
  - `Scan` is the order in which `SELECT * FROM chats` returns rows.
  - The table is keyed by `id INTEGER PRIMARY KEY`, so the scan goes in ascending id order.
- `HouseFinder`: class `Worker`. Its fields `houses` and `chats` are updated in place by `PollCycle`
  and `HandleUpdate`. Its broadcast methods read `chats` in a loop.

Where the code and its design description differ, the model follows the code:

- The notification call at `HouseFinder/Worker.cs:167` is commented out. A poll cycle therefore sends
  nothing. `PollCycle` returns the ids that reach that line, meaning the ids that would be announced.
  No per-id notification loop is modelled.
- A null element in the deserialised list ends the cycle part-way. The `catch` at line 174 swallows
  the exception, and the ids before the null element stay inserted.
- A failure inside a broadcast is not isolated per recipient in the code. One failure would end the
  whole broadcast. Transport failures are not modelled (see below).

## Model

| member | source | states |
|---|---|---|
| `Feed.IdsBeforeNull` | HouseFinder/Worker.cs:136-141 | The enumeration yields the identifiers of the leading non-null elements, in list order. It stops exactly at the first null element. A list without nulls yields every element. |
| `Feed.SnapshotIds` | HouseFinder/Worker.cs:129-136 | A failed fetch, a null result or a null `properties` list gives the loop no identifiers. |
| `Dedup.NewIdsMembers` | HouseFinder/Worker.cs:140-168 | The ids a cycle marks new are exactly the snapshot ids that were absent from the store. |
| `Dedup.NewIdsDistinct` | HouseFinder/Worker.cs:140-160 | A cycle marks no id new twice, because each lookup sees earlier inserts. It never marks an id that was already stored. |
| `Dedup.NewIdsSnoc` | HouseFinder/Worker.cs:140-160 | One more id at the end of the snapshot is reported at the end iff neither the store nor the earlier snapshot holds it. |
| `Dedup.NewIdsAreFirstSightings` | HouseFinder/Worker.cs:140-168 | The report equals the positional reference: the first occurrence of each unstored id, in snapshot order. |
| `Dedup.NewIdsOfStored` | HouseFinder/Worker.cs:146-153 | A snapshot whose ids are all stored marks nothing new. |
| `Dedup.SecondRunReportsNothing` | HouseFinder/Worker.cs:146-160 | Running the same snapshot again right after marks nothing new and leaves the store unchanged. |
| `Dedup.NotifiedAtMostOnce` | HouseFinder/Worker.cs:120-181 | Over any sequence of cycles, no id is marked new twice, and no id stored before the first cycle is marked. |
| `Messages.ListingText` | HouseFinder/Worker.cs:200 | A listing's text starts with the property URL prefix and is longer than it. |
| `Messages.DecimalRoundTrip` | HouseFinder/Worker.cs:200 | Parsing the decimal rendering of any integer gives that integer back. |
| `Messages.ListingTextNamesListing` | HouseFinder/Worker.cs:200 | The text after the URL prefix parses back to the listing id. |
| `Messages.ListingTextInjective` | HouseFinder/Worker.cs:200 | Different listings get different texts. |
| `Recipients.RegisterIgnoresNonText` | HouseFinder/Worker.cs:68-72 | An update without a message, or a message without text, leaves the chat store unchanged. |
| `Recipients.RegisterTextMessage` | HouseFinder/Worker.cs:74-98 | A text message adds exactly its chat id. Handling the same message again changes nothing. |
| `Recipients.Min` | HouseFinder/Worker.cs:196-198 | The first row a scan of a non-empty table returns is a stored id no larger than any other. |
| `Recipients.Scan` | HouseFinder/Worker.cs:192-198 | A full scan returns as many rows as the table holds. |
| `Recipients.ScanOrdered` | HouseFinder/Worker.cs:192-198 | A full scan lists exactly the stored chat ids, in strictly ascending order. |
| `Recipients.ScanHoldsEachOnce` | HouseFinder/Worker.cs:41 | The primary key makes each stored chat occur exactly once in a scan. |
| `HouseFinder.Worker.constructor` | HouseFinder/Worker.cs:24-45 | The tables are created only when missing, so the worker starts from the stored sets. |
| `HouseFinder.Worker.HandleUpdate` | HouseFinder/Worker.cs:65-103 | The new chat store is `Register(old store, update)`. The store only grows. `houses` is untouched. |
| `HouseFinder.Worker.PollCycle` | HouseFinder/Worker.cs:123-178 | The new store is the old one plus every id the loop reached, so it only grows and covers the snapshot. The result is `NewIds(old store, snapshot)`. A failed fetch changes nothing and reports nothing. `chats` is untouched. |
| `HouseFinder.Worker.SendStringMessageToAllUsers` | HouseFinder/Worker.cs:208-229 | One message per stored chat, in scan order, every one carrying the given text. A chat gets a message iff it is stored. Chat ids strictly ascend. |
| `HouseFinder.Worker.SendTelegramMessage` | HouseFinder/Worker.cs:184-206 | Every stored chat, and only those, receives the property URL of the listing, once each. |
| `HouseFinder.Worker.Announce` | HouseFinder/Worker.cs:61-62 | At startup every stored chat, and only those, receives the announcement. |
| `HouseFinder.BroadcastReachesEachChat` | HouseFinder/Worker.cs:194-201 | Messages that follow the scan order reach exactly the stored chats, in ascending chat id order. |

## Left out

- HTTP fetch of the listing feed and JSON deserialisation (lines 129-133): these are network and
  library calls. The fetch is an input `Option<RightMoveResult>`. `None` covers every exception they
  raise and a null document. The fixed query string is not modelled.
- SQLite connections, commands and readers (lines 24-45, 80-102, 138-172, 187-205, 211-228): these
  are I/O. Each table is a set of integers, and a scan is its ascending enumeration.
- Telegram bot client, `StartReceiving`, `SendTextMessageAsync` and the polling-error formatter
  (lines 48-59, 105-116): these are transport wiring and log formatting. A sent message is a returned
  `Outgoing` value, and delivery failures are not modelled.
- The console logging at lines 76, 114 and 177: output only.
- `Task.Delay`, cancellation and the outer `while` (lines 118-120, 180): scheduling. The model has one
  method call per cycle. `Dedup.Notified` composes cycles.
- Concurrent interleaving of `HandleUpdate` with `PollCycle` on the shared stores: concurrency is out
  of scope. Each method runs atomically.
- Database failures part-way through a cycle: not modelled. The one part-way failure that is
  modelled is a null list element, which depends only on the fetched data.
- `Messages.ListingText`: C# interpolation uses the current culture's negative sign. The model always
  renders a negative number with `-`.
- The fire-and-forget nature of the startup announcement in the constructor (line 62): constructors
  return nothing, so `Announce` is a separate method.
