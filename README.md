# quotr core, modelled in Dafny

quotr is a Discord bot that keeps a database of quotes posted in one
"quote channel" per guild. A message such as `"q" author` or
`author: q` becomes a record keyed by the message id. The bot marks
messages with reactions: 🔁 while it works, ✅ when a quote was stored,
❌ briefly when none was found. A 🗑️ from anyone excludes a message.

This project models the three sequential pieces under the Discord
plumbing:

- **Quote extraction** (`src/util/regexes.py`), module `Regexes`. The
  rule table and `addRegex` are the class `RuleTable`. The search loop of
  `extractQuote` is `RuleTable.Select`, proved equal to the pure
  first-rule / last-match function `Extract`. The regular-expression
  engine is a parameter `finditer(pattern, text)` returning the matches
  (start, group 1, group 2). Python's `str.strip()` is module `Text`.
- **Reconciliation, re-scan and clear** (`src/util/quotes.py`), module
  `Reconcile`, over the store class `Store.Bot`. `ProcessMessage` is
  proved to leave exactly the state of the pure function `Reconcile`, and
  the paged scan exactly the fold `ReconcileAll` over the messages it
  reached. `ClearQuotes` is proved to leave `Cleared`. The three handlers
  of `src/main.py` that only filter and then reconcile or delete are here
  too.
- **The older resumable scan** (`quotes.py`), module `LegacyScan`. The
  scan passes over ✅/🗑️ messages without counting them. It creates a
  record for each match and saves the guild's cursor after every counted
  message. Its effect is proved equal to `Scan`, a fold over the history
  from the stored cursor, even though skipped messages after the last
  counted one are fetched again on every page. On a normal exit the
  stored cursor resumes exactly where the scan stopped; that exit happens
  only at 500 counted messages. The older `clearQuotes` has the same code
  as the newer one and is modelled by `Reconcile.ClearQuotes`.

Module `History` is the platform's paging: `channel.history(limit,
before)` over a history listed newest first.

Every state-changing operation is a method on a `Store.Bot` or on the
shared `RuleTable`; each postcondition gives the whole new state. For the
bot that is `Snapshot()` as a function of the old one, and the lemmas
state what those functions mean.

## Model

| member | source | states |
|---|---|---|
| Text.IsSpace | src/util/regexes.py:54 | the characters `str.strip()` removes, those of CPython's `str.isspace()`; `TrimStart`, `TrimEnd` and `StripEmptyIff` state what is dropped in its terms |
| Text.TrimStart | src/util/regexes.py:54 | the result is a suffix of the input; everything dropped is whitespace; the result does not start with whitespace |
| Text.TrimEnd | src/util/regexes.py:54 | the result is a prefix of the input; everything dropped is whitespace; the result does not end with whitespace |
| Text.Strip | src/util/regexes.py:54 | `strip()` never lengthens the text and leaves no whitespace at its end |
| Text.StripShape | src/util/regexes.py:54 | `strip()` returns a contiguous piece of the input with no whitespace at either end |
| Text.StripEmptyIff | src/util/regexes.py:54-55 | the stripped preceding text is empty exactly when it was all whitespace, so only then is the quote left unprefixed |
| Text.StripIdempotent | src/util/regexes.py:54 | stripping twice equals stripping once |
| Regexes.Handle | src/util/regexes.py:9-11 | a handler returns the two groups of the match as (quote, author): (group 1, group 2) for an unswapped rule, (group 2, group 1) for a swapped one |
| Regexes.Truthy | src/util/regexes.py:38 | the `if customRegex:` test: a custom pattern is used only when given and non-empty (used by `Registered`) |
| Regexes.CustomRule | src/util/regexes.py:38-42 | the registered rule has the caller's pattern, and it is group-swapped exactly when `customReverse` is set |
| Regexes.Registered | src/util/regexes.py:38-42 | a call appends one rule exactly when `customRegex` is truthy (present and non-empty), and none otherwise |
| Regexes.FirstMatch | src/util/regexes.py:48-50 | the chosen rule is the first one with at least one match: it matched, and every earlier rule has none; the result is None exactly when no rule matches |
| Regexes.FirstMatchAt | src/util/regexes.py:48-50 | a rule that matches, with every earlier rule matching nothing, is the one the search picks |
| Regexes.Preceding | src/util/regexes.py:54 | `message[:start]` is a prefix of the text, of length `start` when that is in range (a Python slice clamps) |
| Regexes.Wrap | src/util/regexes.py:54-58 | the quote as returned is never empty, because it always contains the added double quotes |
| Regexes.FromRule | src/util/regexes.py:51-62 | whatever a matching rule returns has a non-empty quote and a non-empty author |
| Regexes.Extract | src/util/regexes.py:44-64 | a result is only returned when some rule matched, and both of its fields are non-empty |
| Regexes.ExtractNoneIff | src/util/regexes.py:61-64 | the result is None exactly when no rule matched or the author taken from the last match of the first matching rule is empty |
| Regexes.ExtractFields | src/util/regexes.py:49-58 | on success the author is the handler's author for the last match of the first matching rule; the quote is `preceding + "\n\"" + q + "\""` when the stripped preceding text is non-empty, and `"\"" + q + "\""` otherwise |
| Regexes.WrapEndsWithQuoted | src/util/regexes.py:55-58 | a wrapped quote always ends with the selected quote in double quotes |
| Regexes.ExtractEndsWithQuoted | src/util/regexes.py:51-58 | every returned quote ends with the winning match's quote in double quotes |
| Regexes.LastIsRightmost | src/util/regexes.py:49-51 | with matches in text order, `matches[-1]` is the right-most one: no match starts after it |
| Regexes.FirstMatchOfExtended | src/util/regexes.py:48-59 | appending rules does not change the winner when an earlier rule matches; otherwise the winner is the first matching appended rule, at its shifted index |
| Regexes.ExtractIgnoresAppended | src/util/regexes.py:48-59 | once a rule of the table matches, rules appended later cannot change the result |
| Regexes.ExtractFallsThrough | src/util/regexes.py:48-59 | when no rule of the table matches, the result is that of the appended rules alone |
| Regexes.CustomRuleHasLowestPriority | src/util/regexes.py:14-22 | a custom rule is appended, so it decides the result only when no built-in or earlier rule matches |
| Regexes.ReRegisteredRuleChangesNothing | src/util/regexes.py:38-42 | registering the same custom rule again, as every call with it does, grows the table but does not change the result |
| Regexes.BuiltinGroupMapping | src/util/regexes.py:8-12 | the built-in table is the three patterns `"q" a`, `a: q`, `"q" - a` in that order; rules 1 and 3 give (group 1, group 2) as (quote, author); rule 2 swaps them |
| Regexes.CustomGroupMapping | src/util/regexes.py:38-42 | a reversed custom rule gives (group 2, group 1) as (quote, author); otherwise (group 1, group 2) |
| Regexes.DashLineTakenByRuleOne | src/util/regexes.py:9-11 | a line `"q" - a` is taken by rule 1, so the author comes back as `- a` |
| Regexes.ColonLineSwapsGroups | src/util/regexes.py:10 | a line `author: quote` that rule 1 does not match is taken by rule 2, with the author before the colon and the quote wrapped in double quotes |
| Regexes.RuleTable.constructor | src/util/regexes.py:8-12 | the table starts as the three built-in rules in their order |
| Regexes.RuleTable.AddRegex | src/util/regexes.py:14-22 | exactly one rule is appended at the end; all earlier rules stay in place |
| Regexes.RuleTable.Select | src/util/regexes.py:44-64 | the search loop with its `break` returns exactly `Extract` over the current table |
| Regexes.RuleTable.ExtractQuote | src/util/regexes.py:24-64 | the table grows by the custom rule when one is given and is unchanged otherwise; the result is `Extract` over the grown table |
| Regexes.RegisteredRuleOutlivesItsCall | src/util/regexes.py:22 | the table is global: after a call with a custom pattern, a later call without one finds a quote through that rule where it found none before |
| Store.NewGuild | src/util/db.py:15-19 | a new guild row has the given id, cursor 0, and neither a quote channel nor a quote pattern |
| Store.GuildOrNew | src/util/db.py:15-19 | `Guild.get_or_create(guildid=g)` as a value: while every stored row sits under its own key, the row it yields belongs to guild `g`; a guild with no row gets the default row |
| Store.AddMark | src/util/quotes.py:13 | the bot's marker is on the message afterwards; no other message's markers change |
| Store.RemoveMark | src/util/quotes.py:14-17 | the bot's marker is off the message afterwards; a missing marker is no error; no other message's markers change |
| Store.Reactions | src/util/quotes.py:9 | `message.reactions` as a value, everyone else's reactions and the bot's own markers; `ReactionsAfterAdd` and `ReactionsAfterRemove` state how the bot's reaction calls show in it |
| Store.ReactionsAfterAdd | src/util/quotes.py:13 | the bot's `add_reaction` puts the emoji among that message's reactions and changes no other message's |
| Store.ReactionsAfterRemove | src/util/quotes.py:15 | the bot's `remove_reaction(e, guild.me)` takes `e` off the message's reactions only when nobody else reacted with it; other messages are unchanged |
| Store.Bot.constructor | src/util/db.py:15-33 | the store starts from a given state in which every row sits under its own key |
| Store.Bot.GetQuote | src/util/quotes.py:20 | `get_or_none` finds a record exactly when one is stored under the id, and returns it; the record found is the message's own (its `messageid` is the id) |
| Store.Bot.CreateQuote | src/util/quotes.py:33 | `Quote.create` inserts the record exactly when its id is free; on a duplicate key it fails and nothing changes |
| Store.Bot.UpdateQuote | src/util/quotes.py:36 | the update overwrites content and author of the record with that id and changes nothing else; with no such record nothing changes |
| Store.Bot.DeleteQuote | src/util/quotes.py:42 | the record is gone and every other record stays |
| Store.Bot.DeleteGuildQuotes | src/util/quotes.py:80 | exactly the records of other guilds remain |
| Store.Bot.GetOrCreateGuild | src/util/quotes.py:81 | the returned row is the stored one or a new default one, and it is stored afterwards |
| Store.Bot.SaveGuild | src/util/quotes.py:82 | the guild row is overwritten with the object's fields |
| Store.Bot.AddReaction | src/util/quotes.py:13 | the bot's marker is added to the message; the tables are unchanged |
| Store.Bot.RemoveReaction | src/util/quotes.py:14-17 | the bot's marker is removed from the message; the tables are unchanged |
| History.Older | src/util/quotes.py:56 | no more messages than the history has, each strictly older than the cursor (`OlderMembers` states that they are drawn from the history) |
| History.Before | src/util/quotes.py:56 | `before=None` yields exactly the whole history; a cursor yields only messages strictly older than it |
| History.OlderMembers | src/util/quotes.py:56 | the messages older than the cursor are exactly the history's messages created before it; none is made up or dropped |
| History.BeforeMembers | src/util/quotes.py:56 | `before=t` selects exactly the history's messages created before `t` |
| History.Page | src/util/quotes.py:56 | a page holds at most 100 messages: the first `min(100, available)` of those before the cursor |
| History.OlderKeepsAll | src/util/quotes.py:56 | when every message is older than the cursor, all of them are yielded |
| History.OlderThanMessage | src/util/quotes.py:59 | paging from a message's `created_at` resumes right after that message |
| History.NextPage | src/util/quotes.py:55-59 | the page fetched after `done` messages is the next stretch of the history: `history[done..done + min(100, rest)]` |
| History.OlderIsSuffix | quotes.py:10-16 | in a newest-first history the messages older than any cursor form a suffix |
| Reconcile.Reconcile | src/util/quotes.py:7-49 | `process_message` never touches a guild row; with a 🗑️ from anyone nothing changes; otherwise the message has a record afterwards exactly when a quote was extracted |
| Reconcile.ExcludedMessageUntouched | src/util/quotes.py:9-11 | a message with a 🗑️ from anyone changes neither the store nor the markers |
| Reconcile.MatchMarkers | src/util/quotes.py:13-39 | the match branch's reaction calls (🔁 on, ✅ off, 🔁 off, ✅ on) leave the bot's markers without 🔁 and with ✅, the rest kept |
| Reconcile.MissMarkers | src/util/quotes.py:13-49 | the miss branch's reaction calls (🔁 on, ✅ off, 🔁 off, ❌ on, ❌ off) leave none of ✅, 🔁, ❌, the rest kept |
| Reconcile.MatchRecordsQuote | src/util/quotes.py:27-37 | on a match the message's record holds the extracted content and author; a new record is keyed by the message id and belongs to the message's guild; no other key appears |
| Reconcile.MissDeletesRecord | src/util/quotes.py:40-44 | on no match the message has no record afterwards and no record is created |
| Reconcile.MarkerEndState | src/util/quotes.py:13-17 | after a match the bot's markers include ✅ and not 🔁; after a miss none of ✅, 🔁, ❌; other markers of the bot are kept |
| Reconcile.ReconcileIsLocal | src/util/quotes.py:20-49 | only the message's own record and markers can change; guild rows never do |
| Reconcile.ReconcileKeepsKeyed | src/util/quotes.py:33 | every record stays under its own message id, so there is one record per id |
| Reconcile.ReconcileIdempotent | src/util/quotes.py:20-43 | reconciling the same unchanged message twice leaves what reconciling it once leaves |
| Reconcile.RecordMatch | src/util/quotes.py:31-39 | the match branch: the record is created or overwritten, then 🔁 comes off and ✅ goes on |
| Reconcile.RecordMiss | src/util/quotes.py:41-49 | the miss branch: the record is deleted, then 🔁 comes off and ❌ goes on and comes off again |
| Reconcile.ProcessMessage | src/util/quotes.py:7-49 | `process_message` leaves exactly `Reconcile` of the old state and of `extractQuote` over the shared table |
| Reconcile.ReconcileAll | src/util/quotes.py:56-58 | a re-scan of any run of messages leaves every guild row as it was |
| Reconcile.ReconcileAllSnoc | src/util/quotes.py:56-58 | reconciling one more message extends the fold by that message |
| Reconcile.ReconcileAllPrefix | src/util/quotes.py:56-58 | reconciling the first `k + 1` messages of the history is reconciling the first `k`, then message `k` |
| Reconcile.ReconcileAllIsLocal | src/util/quotes.py:56-58 | a re-scan changes only the records and markers of the messages it visits |
| Reconcile.ProcessNext | src/util/quotes.py:56-58 | `process_message` on the next message of the history extends the fold by that message and leaves the guild rows alone |
| Reconcile.ScanPage | src/util/quotes.py:56-62 | one page: each message is reconciled in order and becomes the new `start`; the page is left early once 500 have been processed in all |
| Reconcile.ProcessChannelMessages | src/util/quotes.py:51-63 | the state is the fold of `Reconcile` over the first `processed` messages of the history, newest first; guild rows are untouched, since the cursor is not saved; an uncancelled exit has `processed >= limit`; the count stays below `limit + 100`, and at most `limit` when `limit >= 500` |
| Reconcile.WithoutChecks | src/util/quotes.py:67-78 | ✅ comes off exactly the listed messages; every other marker is kept |
| Reconcile.WithoutChecksStep | src/util/quotes.py:67-74 | taking ✅ off one more message extends the set of cleared messages by it |
| Reconcile.GuildQuoteIds | src/util/quotes.py:66 | the selection `Quote.guildid == guild` as a set of message ids; `GuildSelectionsPartition` states that it splits the records by guild |
| Reconcile.GuildSelectionsPartition | src/util/quotes.py:66 | every record is in the selection of its own guild, and the selections of two different guilds never overlap, so a clear touches no other guild's records |
| Reconcile.Cleared | src/util/quotes.py:65-82 | after a clear no record of the guild is left, and the guild has a row whose cursor is 0 |
| Reconcile.ClearedSpec | src/util/quotes.py:65-82 | a clear leaves no record of the guild and every other record as it was; ✅ comes off exactly the guild's messages that could be fetched; the guild's cursor is 0 whichever removals failed; other guilds are untouched |
| Reconcile.ClearResetsCursor | src/util/quotes.py:80-82 | after a clear a re-scan of the guild starts from the newest message |
| Reconcile.RemoveChecks | src/util/quotes.py:67-78 | the removal loop takes ✅ off every fetchable message of the selection and changes no table |
| Reconcile.ClearQuotes | src/util/quotes.py:65-82 | `clearQuotes` leaves exactly `Cleared` of the old state (the same code is at quotes.py:48-65) |
| Reconcile.WithGuild | src/main.py:64 | after `Guild.get_or_create` the guild has a row, the stored one or a default one; the keys grow by at most that guild, every other guild row, the records and the markers are unchanged |
| Reconcile.InQuoteChannel | src/main.py:64-66 | a message is in its guild's quote channel only when the guild has a row: a new row has no quote channel |
| Reconcile.OnMessage | src/main.py:60-67 | the bot's own messages change nothing; outside the quote channel only the guild row may be created; inside it the message is reconciled |
| Reconcile.OnMessageEdit | src/main.py:69-81 | an edit in the quote channel, of a message that could be fetched and that the bot did not write, is reconciled with the new text; otherwise only the guild row may be created |
| Reconcile.OnMessageDelete | src/main.py:85-98 | deleting a message in the quote channel removes its record; outside the channel no record changes; markers never change |
| LegacyScan.Scan | quotes.py:16-37 | the number of counted messages is at most the number stepped through, and nothing changes while none is counted |
| LegacyScan.Skipped | quotes.py:18-23 | a message is passed over when it carries ✅ or 🗑️, whoever reacted, the bot included |
| LegacyScan.Record | quotes.py:24-32 | the create never touches a guild row, keeps every stored record as it was, and adds the message's key exactly when a quote was extracted (a duplicate key is already there) |
| LegacyScan.MoveCursor | quotes.py:34-36 | `guild.quotesProcessedUntil = start; guild.save()`: the guild's cursor is the new time, other guilds, records and markers stay |
| LegacyScan.Count | quotes.py:24-36 | a counted message leaves the guild's cursor at its `created_at`, whatever the create did |
| LegacyScan.Step | quotes.py:18-36 | a skipped message leaves the run as it was; any other adds one to the count |
| LegacyScan.SkippedChangesNothing | quotes.py:18-23 | a message with ✅ or 🗑️ is passed over: nothing changes, it is not counted, and the cursor stays |
| LegacyScan.CountedMovesCursor | quotes.py:33-36 | any other message counts once and leaves the guild's saved cursor at its `created_at`, whatever its text |
| LegacyScan.MatchCreatesRecord | quotes.py:24-30 | a match with a free id stores one record keyed by the message id in the channel's guild and marks ✅, so later scans skip the message |
| LegacyScan.DuplicateStillCounts | quotes.py:26-36 | a match whose id is already stored makes the create fail: no record or marker changes, yet the message counts |
| LegacyScan.NoMatchCreatesNothing | quotes.py:24-25 | a message without a quote stores nothing and is not marked |
| LegacyScan.ScanOnlyAdds | quotes.py:24-32 | the older scan never updates or deletes a record: every stored record survives unchanged |
| LegacyScan.StartOf | quotes.py:10-13 | the `start` chosen from the stored cursor, 0 meaning `None`; `ResumeSuffix` states what paging from it yields |
| LegacyScan.Resume | quotes.py:10-13 | the position a scan starts from lies within the history, and is the newest message for cursor 0 |
| LegacyScan.ResumeSuffix | quotes.py:10-13 | a stored cursor of 0 starts from the newest message; any other cursor starts at the first message older than it |
| LegacyScan.ResumeAfterMessage | quotes.py:34-36 | a cursor saved at a message's `created_at` resumes right after that message |
| LegacyScan.StartAt | quotes.py:9-16 | paging from the scan's `start` (the stored cursor before anything is counted, the last counted message's time after) yields exactly the history after the last counted message |
| LegacyScan.PageAt | quotes.py:16 | the page fetched then is the next stretch of at most 100 messages of the history |
| LegacyScan.FetchPage | quotes.py:16 | `channel.history(limit=100, before=start)` during a scan returns, in order, the next `min(100, rest)` messages after the last counted one |
| LegacyScan.VisitMessage | quotes.py:18-32 | the loop body up to the count: the message is counted exactly when it carries neither ✅ nor 🗑️, and then the record is created as `Record` says |
| LegacyScan.PassOver | quotes.py:18-23 | passing over a skipped message keeps the scan resumable |
| LegacyScan.CountOne | quotes.py:33-36 | a message that is not skipped can only be the first one not yet stepped through; counting it moves the cursor past it |
| LegacyScan.ScanOne | quotes.py:17-37 | one message of a page, with its count, `start` and saved cursor, keeps the scan resumable; a skipped message changes nothing at all, a counted one adds one to the count and moves the cursor past it |
| LegacyScan.ScanAt | quotes.py:16-39 | message `i` of a page keeps the scan resumable and moves at most one past it; when every message of the page was skipped at its start, nothing moves |
| LegacyScan.ScanPage | quotes.py:16-39 | one page: message by message until the page ends or the 500th message is counted; a page whose messages all carry ✅ or 🗑️ leaves the count, `start`, the guild row and the whole state as they were |
| LegacyScan.FetchAndScan | quotes.py:15-40 | one turn of the `while`: a fetch from `start` and its scan keep the scan resumable; after a full page of skipped messages nothing has moved, so the next turn fetches the same page |
| LegacyScan.SaveCursor | quotes.py:42-45 | the closing save writes `start` into the guild's row |
| LegacyScan.SaveSameCursor | quotes.py:42-45 | the closing save writes the cursor the row already holds, so it changes nothing |
| LegacyScan.ScanPages | quotes.py:15-40 | the outer loop: pages until 500 messages are counted or the task is cancelled; an uncancelled exit has exactly 500; when the 100 messages after the cursor are all skipped, it counts nothing, changes nothing and ends only cancelled |
| LegacyScan.ProcessChannelMessages | quotes.py:7-45 | the state is `Scan` over the history from the stored cursor; at most 500 messages are counted, and the scan exits normally only at exactly 500; the stored cursor never moves to a newer time; the next scan resumes after the last counted message, and everything between there and where this scan got is skipped; on a normal exit the next scan resumes exactly where this one stopped |
| LegacyScan.Finish | quotes.py:36-45 | where a stopped scan stands: the stored cursor resumes after the last counted message, and it is no newer than the cursor the scan started from |

## Left out

- The regular-expression engine: `re.finditer` is a parameter. Its matches are assumed to come in text order only where a lemma says so (`LastIsRightmost`).
- Regexes.Match: groups are strings. A group that did not take part in the match (Python `None`), or a custom pattern with fewer than two groups (an `IndexError`), is not modelled.
- The `quoteRegex` a guild can set in src/main.py is stored but never passed to `extractQuote`. So the model's `process_message` calls it without a custom pattern, as the code does.
- `addRegex` appends a custom pattern (src/util/regexes.py:22), so it is tried after the built-ins.
- Rule 2 (`author: quote`) wraps its quote in double quotes like every other rule, and `"q" - a` is taken by rule 1 with the author `- a`. The model keeps both, as the code does.
- `extractQuote.py`, imported by quotes.py, is not part of this model. The older scan takes its extractor as a parameter `extract`.
- Quote.author: the schema declares an integer column, but the code stores the extracted author string. The model keeps the string.
- Reconcile.ProcessMessage: the five-second `asyncio.sleep` before ❌ is removed is left out. Between adding and removing ❌ no other handler runs in the model.
- The 0.5-second sleeps between pages are left out. Both scan loops can run forever when the history runs out before their target. They are modelled with a bound `pages` on page fetches, reached when the task is cancelled between pages.
- The older scan has a second way to run forever, which the model reproduces rather than leaves out: when the 100 messages right after the last counted one all carry ✅ or 🗑️ (anyone's), none is counted, `start` does not move, and the `while` fetches the same page again, although older history remains. A `/clearquotes` issued from another channel reaches this: it cannot fetch the quote channel's messages, so their ✅ stays while the cursor goes back to 0. `LegacyScan.ScanPages` states it: from such a position the loop counts nothing, changes nothing and ends only when cancelled.
- Discord errors other than those the code catches and ignores are not modelled, and neither are database connection errors. In `clearQuotes`, a message that cannot be fetched is the set `reachable`: every other removal succeeds.
- In src/main.py `on_message_delete` logs `quote.quote`, an attribute the record does not have. This raises only after the record was deleted, so the state is the same. The exception is not modelled.
- History: a channel's history is a sequence listed newest first, with strictly decreasing creation times. The older scan also needs every message created after time 0, since 0 means "never scanned". Times are integers, not datetimes.
- The older scan's closing save writes `start`, which is never `None` there: a normal exit has counted a message. So the NOT NULL failure that `None` would cause cannot happen, and it is not modelled.
- The slash commands, buttons, random quote selection, image rendering (`quoteImage.py`, `src/util/images.py`), logging and the database connect-retry loop are not part of this model. They are I/O and presentation.
