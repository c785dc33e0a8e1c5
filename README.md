# Sales alert poller — a Dafny model

The bot posts a Discord message for every new NFT sale of the collections it
watches. Every poll cycle (`salePoll`, src/handlers/salesPoll.ts) fetches the
latest batch of sales, newest first, and reconciles it with a cursor kept in
Redis under the key `saleorderid`: the sale id at the head of the last batch
that a cycle completed, whether by a cold start or by a loop that ran to its
end. That sale need not have been announced. The first cycle with no cursor
only sends a "restarting" message and stores the head of the batch. Later
cycles find the cursor in the batch, walk the newer sales from oldest to
newest, skip those with missing data, announce the others, and then store the
new head. For each sale the poller looks up the
collection through `getCollection` (src/handlers/getCollection.ts), which
normalises its arguments (selector, limit bounds) before querying the
collections endpoint.

The project has four modules:

- `Wrappers` — `Option`, and `Truthy`, the JavaScript truthiness test of an
  optional string (`undefined`, `null` and `""` are falsy).
- `CollectionQuery` — `getCollection`: the argument checks and normalisation,
  and the call to the endpoint, which is a parameter.
- `SaleFeed` — one poll cycle as a function (`PollCycle`, with the messages it
  sends given by `Messages`), built from the per-event verdict `Visit`, the
  `findIndex` search `FindIndex` and the downward loop `Emit`, together with
  the lemmas that state what a cycle does to the cursor and which sales it
  announces.
- `SalesPoll` — the poller as it runs: a class `SalePoller` whose fields are the
  stored cursor and the channel's messages, with `Poll` (one call of
  `salePoll`), the loop `AnnounceNewer` and the per-event checks `CheckEvent`,
  each proved against the `SaleFeed` functions.

The outside world enters as values. The guards' inputs (feature flag, contract
list, channel kind) are a `Guards` record. The sales request is a
`SalesResponse`: it threw, it came back without `sales`, or it came back with a
batch. The collections endpoint and media conversion are a `Services` record of
answers, indexed by the batch position of the event for which they are called.

Every `throw` inside the `try` of `salePoll` ends the cycle in its `catch`,
which only logs. The model turns each into an early return that leaves the
state as it was at that point. There are three such throws in the loop:
`getCollection` throwing, `collection[0]` on an empty array, and
`thumbnail.name` on a `null` handle. Each is a `Step.Abort`, and after one the
cursor is not written.

Facts about the code that the model keeps:

- When the cursor is first found at batch index `k`, the loop starts at
  `k - 1` and visits the `k` newer sales `k-1, …, 0`.
- When the cursor is not in the batch, the code deletes the key at line 90 and
  then rewrites it at line 165. After such a cycle the cursor is the batch head,
  so the next cycle over the same batch is silent (`RepeatedBatchIsSilent`).
  It does not restart.
- The cursor is written after the loop only when no event threw. The three
  throws listed above abort the cycle without the write. If the next cycle
  fetches the same batch and the services answer as before, it announces the
  same sales again (`AbortedCycleRepeats`).
- A missing contract list passes the guard, because `undefined?.length <= 0` is
  `false`. Only an empty list stops the cycle.

## Model

| member | source | states |
|---|---|---|
| CollectionQuery.DefaultLimit | src/handlers/getCollection.ts:27-28 | a limit that is not a number becomes 5; a number is kept |
| CollectionQuery.ClampLimit | src/handlers/getCollection.ts:30-31 | the result lies in 1..20; a limit already in range is unchanged; below 1 gives 1; above 20 gives 20 |
| CollectionQuery.ClampIdempotent | src/handlers/getCollection.ts:31 | clamping a clamped limit changes nothing |
| CollectionQuery.Normalise | src/handlers/getCollection.ts:22-34 | no query exactly when neither the name nor the contract address is truthy; otherwise the limit is in 1..20, is 5 for a non-number and is kept for an in-range number; `includeTopBid` is passed through; a truthy address selects by id, and otherwise the name selects by name |
| CollectionQuery.GetCollection | src/handlers/getCollection.ts:14-60 | throws when neither name nor address is given; a returned value is exactly the endpoint's answer to the normalised query; a throw means bad arguments or a rejected request, so a failed request is never returned as a value |
| SaleFeed.Visit | src/handlers/salesPoll.ts:95-143 | the verdict of one loop iteration; an announced event has a truthy order source, token name, token image and contract, and a thumbnail handle |
| SaleFeed.VisitChecks | src/handlers/salesPoll.ts:94-143 | an event without an order source is skipped, then one without token name or image; a complete event without a truthy contract aborts the cycle (getCollection throws); for a complete event with a contract, a rejected lookup or an empty `collections` array aborts, an undefined `collections` or a first collection without image or name is skipped, and a null thumbnail after those checks aborts; an event is announced exactly when it is complete, the lookup `{id: contract, limit 1, includeTopBid false}` returns a non-empty list whose first entry has a truthy image and name, and the thumbnail conversion returns a handle |
| SaleFeed.FindIndex | src/handlers/salesPoll.ts:84-87 | the first index whose sale id equals the cursor, and -1 exactly when no sale has it |
| SaleFeed.SentNoticesShowSales | src/handlers/salesPoll.ts:137-163 | when the cursor differs from the head, the cycle sends exactly one message per announced sale, in announcement order; each announced sale has a truthy token name and order source, and its message is the sale notice with its transaction hash (the button link), token name (the title) and order source (the footer) |
| SaleFeed.Emit | src/handlers/salesPoll.ts:94-164 | the loop from `hi` down to 0 over the per-event verdicts; every announced index is at most the start index `hi` |
| SaleFeed.EmitVisitsDownward | src/handlers/salesPoll.ts:94 | the loop visits `hi, hi-1, …` in that order, at most `hi + 1` events, and all of them when it runs to its end |
| SaleFeed.EmitCompletesUnlessAbort | src/handlers/salesPoll.ts:94-164 | the loop runs to its end exactly when no event in `0..hi` aborts; otherwise the last event visited is one that aborts |
| SaleFeed.EmitAnnouncesInOrder | src/handlers/salesPoll.ts:94-163 | every announced index is an event whose verdict is Announce, and the announced indices are strictly decreasing: older sales are sent first |
| SaleFeed.AnnouncedExactly | src/handlers/salesPoll.ts:94-164 | index `j <= hi` is announced exactly when its verdict is Announce and no event between `j` and `hi` aborts |
| SaleFeed.PollCycle | src/handlers/salesPoll.ts:23-170 | every announced index is a position in the fetched batch |
| SaleFeed.GuardsPass | src/handlers/salesPoll.ts:29-38 | the cycle goes on exactly when sales alerts are enabled, the contract list is not an empty list, and the channel is a guild text channel; so a missing contract list passes and the feature flag and the channel alone decide |
| SaleFeed.Messages | src/handlers/salesPoll.ts:71-163 | a cycle sends the restart notice exactly when it restarts, and one message per announced sale besides |
| SaleFeed.SilentCycles | src/handlers/salesPoll.ts:29-82 | a failing guard, a failed request, a missing or empty batch, a falsy head sale id, or a cursor equal to the head leaves the cursor as it was and sends nothing |
| SaleFeed.ColdStart | src/handlers/salesPoll.ts:71-77 | with no cursor the cycle stores the head sale id and sends only the restart notice |
| SaleFeed.LoopCycle | src/handlers/salesPoll.ts:84-165 | when the cursor differs from the head, the cycle sends the notices of the loop from `findIndex - 1`, and stores the head if the loop completed, or keeps the old cursor if it aborted |
| SaleFeed.CursorLoss | src/handlers/salesPoll.ts:84-165 | a cursor absent from the batch gives a loop start of -2; nothing is announced and the head is stored |
| SaleFeed.CursorFoundVisits | src/handlers/salesPoll.ts:84-94 | with the cursor first found at index `k`, the loop visits `k-1` down to 0, and all `k` of them if it completes |
| SaleFeed.CursorFoundAnnouncesNewer | src/handlers/salesPoll.ts:84-163 | with the cursor at `k`, there is no restart notice, and at most `k` sales are announced, all newer than the cursor, oldest first |
| SaleFeed.CursorFoundAnnounces | src/handlers/salesPoll.ts:94-164 | with the cursor at `k`, the sale at `j < k` is announced exactly when its verdict is Announce and no sale between it and the cursor aborts |
| SaleFeed.CursorFoundAdvances | src/handlers/salesPoll.ts:94-169 | with the cursor at `k`, the head is stored exactly when none of the `k` newer sales aborts; otherwise the cursor stays |
| SaleFeed.CursorOnlyMovesToHead | src/handlers/salesPoll.ts:23-170 | after any cycle the cursor is either unchanged or the truthy sale id of the batch head |
| SaleFeed.AnnouncesOnlyNewerThanCursor | src/handlers/salesPoll.ts:71-94 | a restart sends no sale notice and happens only without a truthy cursor; any announced sale lies strictly before the cursor's position in the batch; announcements go oldest first |
| SaleFeed.AbortedCycleRepeats | src/handlers/salesPoll.ts:94-165 | with the cursor at `k` and some newer sale aborting, the cursor stays, so the next cycle over the same batch with the same service answers announces the same sales again |
| SaleFeed.RepeatedBatchIsSilent | src/handlers/salesPoll.ts:80-82 | once a cycle has moved the cursor, polling the same batch again changes nothing and sends nothing, whatever the services answer |
| SaleFeed.OnlyNewerRecordsAnnounced | src/handlers/salesPoll.ts:80-164 | when the stored cursor is the head of an older batch and new sales arrive in front of it, only new sales can be announced; if none aborts, each new sale is announced exactly when its verdict is Announce |
| SalesPoll.CheckEvent | src/handlers/salesPoll.ts:95-143 | the imperative checks of one loop iteration reach the same verdict as `SaleFeed.Visit` |
| SalesPoll.SalePoller.constructor | src/handlers/salesPoll.ts:21-28 | the poller starts from the stored cursor with no messages sent |
| SalesPoll.SalePoller.AnnounceNewer | src/handlers/salesPoll.ts:94-164 | the loop appends exactly the notices of `Emit` to the channel and reports whether it ran to its end |
| SalesPoll.SalePoller.Poll | src/handlers/salesPoll.ts:23-170 | one call leaves the cursor of `PollCycle` in the store and appends the messages of `Messages` to the channel, and nothing else |

## Left out

- The Reservoir SDK calls (`sdk.auth`, `getSalesV6`, `getCollectionsV5`) and
  their arguments are not modelled. Their effect is the response or answer
  they produce, which is a parameter. `dotenv` and the API keys are left out
  as well.
- Redis is left out as a client. Only the value stored under `saleorderid` is
  modelled, as the `cursor` field. `Poll` performs the delete at line 90, but
  no call ends in that state, because the same path always ends with the write
  at line 165.
- The embed's colour, title text, description (price, buyer and seller),
  timestamp and button styling are left out. A notice keeps the transaction
  hash, the token name and the marketplace.
- `handleMediaConversion` is reduced to one bit per event: whether the
  thumbnail conversion returns a handle. The market icon and author icon
  conversions do not affect control flow, because a `null` market icon falls
  back to a URL and the author icon is only attached. The conversions of
  those two icons, and the attached files, are not modelled.
- `channel.send` is not awaited. A failed send is not modelled, and neither is
  any interleaving with a concurrent poll cycle.
- All logging (`logger`, `console.log`) is left out.
- Timers and scheduling of `salePoll` are left out, as are the other handlers
  of the bot.
- CollectionQuery.DefaultLimit: a number limit is an unbounded integer. `NaN`
  and fractional values, which `Math.min`/`Math.max` would pass through or
  keep, are not modelled.
- Each batch index has its own answer from the collections endpoint. The
  model does not require two sales of the same collection to get the same
  answer, which is more general than the source.
