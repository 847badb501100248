/**
 The older, resumable scan: messages already marked ✅ or 🗑️ are passed over
 without being counted, every other message is counted, a quote is only ever
 created (never updated or deleted), and the guild's cursor
 `quotesProcessedUntil` follows the last counted message so that the next
 scan starts where this one stopped. The scan always aims at 500 counted
 messages.
 */
module LegacyScan {
  import opened Wrappers
  import opened Store
  import opened History
  import opened Reconcile

  /** What the older `extractQuote` makes of a message text: `(quote, author)` or nothing. */
  type Extractor = string -> Option<(string, string)>

  /** The number of counted messages a scan aims at. */
  const Target := 500

  /** The state and the number of messages counted so far. */
  datatype Run = Run(state: State, counted: nat)

  /** A message that is passed over: it already carries ✅ or 🗑️, from anyone. */
  predicate Skipped(s: State, m: Message)
  {
    Check in Reactions(s, m) || Trash in Reactions(s, m)
  }

  /** `extractQuote` and `Quote.create` with its ✅; a duplicate key makes the create fail and nothing changes. */
  function Record(s: State, guildId: int, m: Message, found: Option<(string, string)>): (r: State)
    ensures r.guilds == s.guilds
    ensures forall k | k in s.quotes :: k in r.quotes && r.quotes[k] == s.quotes[k]
    ensures r.quotes.Keys == s.quotes.Keys + (if found.Some? then {m.id} else {})
  {
    match found
    case Some((quote, author)) =>
      if m.id in s.quotes then s
      else s.(quotes := s.quotes[m.id := Quote(m.id, guildId, author, quote)], marks := AddMark(s.marks, m.id, Check))
    case None => s
  }

  /** The cursor of the guild row moved to `t` and saved. */
  function MoveCursor(s: State, guildId: int, t: int): (r: State)
    ensures guildId in r.guilds && r.guilds[guildId].quotesProcessedUntil == t
    ensures forall g | g in s.guilds && g != guildId :: g in r.guilds && r.guilds[g] == s.guilds[g]
    ensures r.quotes == s.quotes && r.marks == s.marks
  {
    s.(guilds := s.guilds[guildId := GuildOrNew(s.guilds, guildId).(quotesProcessedUntil := t)])
  }

  /** What a counted message does: the record, then the cursor at its time. */
  function Count(s: State, guildId: int, m: Message, found: Option<(string, string)>): (r: State)
    ensures guildId in r.guilds && r.guilds[guildId].quotesProcessedUntil == m.createdAt
  {
    MoveCursor(Record(s, guildId, m, found), guildId, m.createdAt)
  }

  /** One message of the loop body: passed over, or counted. */
  function Step(r: Run, guildId: int, m: Message, extract: Extractor): (r': Run)
    ensures Skipped(r.state, m) ==> r' == r
    ensures !Skipped(r.state, m) ==> r'.counted == r.counted + 1
  {
    if Skipped(r.state, m) then r
    else Run(Count(r.state, guildId, m, extract(m.content)), r.counted + 1)
  }

  /** The messages `h[lo..hi]` stepped through in order, each once. */
  function Scan(s: State, guildId: int, h: seq<Message>, lo: nat, hi: nat, extract: Extractor): (r: Run)
    requires lo <= hi <= |h|
    ensures r.counted <= hi - lo
    ensures r.counted == 0 ==> r.state == s
    decreases hi - lo
  {
    if hi == lo then Run(s, 0)
    else Step(Scan(s, guildId, h, lo, hi - 1, extract), guildId, h[hi - 1], extract)
  }

  /** A skipped message is left exactly as it is and is not counted. */
  lemma SkippedChangesNothing(r: Run, guildId: int, m: Message, extract: Extractor)
    requires Skipped(r.state, m)
    ensures Step(r, guildId, m, extract) == r
  {
  }

  /** A counted message is counted once and leaves the cursor at its creation time, whatever its text. */
  lemma CountedMovesCursor(r: Run, guildId: int, m: Message, extract: Extractor)
    requires !Skipped(r.state, m)
    ensures var r' := Step(r, guildId, m, extract);
      r'.counted == r.counted + 1 &&
      guildId in r'.state.guilds &&
      r'.state.guilds[guildId] == GuildOrNew(r.state.guilds, guildId).(quotesProcessedUntil := m.createdAt)
  {
  }

  /** A new quote is stored under the message id in the channel's guild, marked ✅, and from then on skipped. */
  lemma MatchCreatesRecord(s: State, guildId: int, m: Message, quote: string, author: string)
    requires !Skipped(s, m) && m.id !in s.quotes
    ensures var r := Count(s, guildId, m, Some((quote, author)));
      r.quotes == s.quotes[m.id := Quote(m.id, guildId, author, quote)] &&
      Check in Reactions(r, m) &&
      Skipped(r, m)
  {
  }

  /** A quote already stored under the id makes the create fail: nothing is stored or marked, yet the message counts. */
  lemma DuplicateStillCounts(r: Run, guildId: int, m: Message, extract: Extractor)
    requires !Skipped(r.state, m) && m.id in r.state.quotes
    ensures var r' := Step(r, guildId, m, extract);
      r'.counted == r.counted + 1 &&
      r'.state.quotes == r.state.quotes &&
      r'.state.marks == r.state.marks
  {
  }

  /** A message with no quote in it creates nothing and is not marked. */
  lemma NoMatchCreatesNothing(s: State, guildId: int, m: Message)
    ensures Count(s, guildId, m, None).quotes == s.quotes
    ensures Count(s, guildId, m, None).marks == s.marks
  {
  }

  /** The older scan never updates or deletes a quote: every stored quote survives it unchanged. */
  lemma {:induction false} ScanOnlyAdds(s: State, guildId: int, h: seq<Message>, lo: nat, hi: nat, extract: Extractor)
    requires lo <= hi <= |h|
    ensures var r := Scan(s, guildId, h, lo, hi, extract);
      forall k | k in s.quotes :: k in r.state.quotes && r.state.quotes[k] == s.quotes[k]
    decreases hi - lo
  {
    if hi > lo {
      ScanOnlyAdds(s, guildId, h, lo, hi - 1, extract);
    }
  }

  /** The `before` the scan starts from: none for the "never scanned" 0, the stored time otherwise. */
  function StartOf(cursor: int): (r: Option<int>)
    ensures r.None? <==> cursor == 0
    ensures r.Some? ==> r.value == cursor
  {
    if cursor == 0 then None else Some(cursor)
  }

  /** The position in the history a scan from `cursor` starts at. */
  function Resume(h: seq<Message>, cursor: int): (r: nat)
    ensures r <= |h|
    ensures cursor == 0 ==> r == 0
  {
    if cursor == 0 then 0 else |h| - |Older(h, cursor)|
  }

  /** Paging from `cursor` yields exactly the history from `Resume` on. */
  lemma ResumeSuffix(h: seq<Message>, cursor: int)
    requires NewestFirst(h)
    ensures Resume(h, cursor) <= |h|
    ensures Before(h, StartOf(cursor)) == h[Resume(h, cursor)..]
  {
    if cursor != 0 {
      OlderIsSuffix(h, cursor);
    }
  }

  /** A cursor at the time of message `k` resumes right after it. */
  lemma ResumeAfterMessage(h: seq<Message>, k: nat)
    requires NewestFirst(h) && AfterEpoch(h) && k < |h|
    ensures Resume(h, h[k].createdAt) == k + 1
  {
    OlderThanMessage(h, k);
  }

  /** The loop body of the older `processChannelMessages` up to the count: the two skip tests, the extraction, the create and its ✅. */
  method VisitMessage(bot: Bot, guildId: int, m: Message, extract: Extractor) returns (counted: bool)
    requires bot.Valid()
    modifies bot
    ensures bot.Valid()
    ensures counted <==> !Skipped(old(bot.Snapshot()), m)
    ensures bot.Snapshot() == if counted then Record(old(bot.Snapshot()), guildId, m, extract(m.content)) else old(bot.Snapshot())
  {
    var reactions := m.others + MarksOf(bot.marks, m.id);
    if Check in reactions {
      return false;
    }
    if Trash in reactions {
      return false;
    }
    var found := extract(m.content);
    if found.Some? {
      var (quote, author) := found.value;
      var ok := bot.CreateQuote(Quote(m.id, guildId, author, quote));
      if ok {
        bot.AddReaction(m.id, Check);
      }
    }
    return true;
  }

  /**
   Where a scan stands in the history: it started at `p0` from the stored
   cursor `c0`, the next page starts at `cur` (right after the last counted
   message), and `seen` messages of the history have been stepped through.
   */
  datatype Progress = Progress(p0: nat, c0: int, cur: nat, seen: nat)

  /**
   What holds between two messages of the older scan: the page cursor and
   the guild row agree with `cur`, the state is the scan of the history
   from `p0` to `seen`, and everything between `cur` and `seen` is skipped,
   so fetching again from `cur` changes nothing until `seen`.
   */
  ghost predicate Resumable(history: seq<Message>, guildId: int, extract: Extractor, s1: State, pr: Progress,
                            start: Option<int>, guild: Guild, st: State, processed: nat)
  {
    pr.p0 <= pr.cur <= pr.seen <= |history| &&
    pr.p0 == Resume(history, pr.c0) &&
    start == (if pr.cur == pr.p0 then StartOf(pr.c0) else Some(history[pr.cur - 1].createdAt)) &&
    guildId in st.guilds && st.guilds[guildId] == guild &&
    guild.quotesProcessedUntil == (if pr.cur == pr.p0 then pr.c0 else history[pr.cur - 1].createdAt) &&
    Scan(s1, guildId, history, pr.p0, pr.seen, extract) == Run(st, processed) &&
    (forall k | pr.cur <= k < pr.seen :: Skipped(st, history[k])) &&
    (processed > 0 <==> pr.cur > pr.p0)
  }

  /** Passing over a skipped message keeps the scan resumable, and a message at `seen` extends it. */
  lemma PassOver(history: seq<Message>, guildId: int, extract: Extractor, s1: State, pr: Progress, q: nat,
                 start: Option<int>, guild: Guild, st: State, processed: nat)
    requires Resumable(history, guildId, extract, s1, pr, start, guild, st, processed)
    requires pr.cur <= q <= pr.seen && q < |history| && Skipped(st, history[q])
    ensures Resumable(history, guildId, extract, s1, pr.(seen := if q == pr.seen then pr.seen + 1 else pr.seen),
                      start, guild, st, processed)
  {
  }

  /**
   A message that is not skipped can only be the one at `seen` (all before
   it since `cur` are skipped); counting it moves both `cur` and `seen`
   past it.
   */
  lemma CountOne(history: seq<Message>, guildId: int, extract: Extractor, s1: State, pr: Progress, q: nat,
                 start: Option<int>, guild: Guild, st: State, processed: nat)
    requires Resumable(history, guildId, extract, s1, pr, start, guild, st, processed)
    requires pr.cur <= q <= pr.seen && q < |history| && !Skipped(st, history[q])
    ensures q == pr.seen
    ensures var m := history[q];
      Resumable(history, guildId, extract, s1, pr.(cur := q + 1, seen := q + 1), Some(m.createdAt),
                guild.(quotesProcessedUntil := m.createdAt), Count(st, guildId, m, extract(m.content)), processed + 1)
  {
  }

  /**
   One message of a page of the older scan: visited, and when counted, the
   count, the new `start`, and the cursor saved on the guild row. A message
   before `seen` is one passed over already, and is passed over again.
   */
  method ScanOne(bot: Bot, guildId: int, ghost history: seq<Message>, ghost s1: State, ghost pr: Progress, ghost q: nat,
                 m: Message, start: Option<int>, guild: Guild, processed: nat, extract: Extractor)
    returns (ghost pr': Progress, start': Option<int>, guild': Guild, processed': nat)
    requires q < |history| && pr.cur <= q <= pr.seen && m == history[q]
    requires bot.Valid()
    requires Resumable(history, guildId, extract, s1, pr, start, guild, bot.Snapshot(), processed)
    modifies bot
    ensures bot.Valid()
    ensures Resumable(history, guildId, extract, s1, pr', start', guild', bot.Snapshot(), processed')
    ensures pr'.p0 == pr.p0 && pr'.c0 == pr.c0 && pr.cur <= pr'.cur
    ensures pr'.seen == if q == pr.seen then pr.seen + 1 else pr.seen
    ensures Skipped(old(bot.Snapshot()), m) ==>
      bot.Snapshot() == old(bot.Snapshot()) && pr'.cur == pr.cur && start' == start && guild' == guild && processed' == processed
    ensures !Skipped(old(bot.Snapshot()), m) ==> processed' == processed + 1 && pr'.cur == q + 1 == pr'.seen
  {
    ghost var before := bot.Snapshot();
    var counted := VisitMessage(bot, guildId, m, extract);
    if counted {
      CountOne(history, guildId, extract, s1, pr, q, start, guild, before, processed);
      processed' := processed + 1;
      start' := Some(m.createdAt);
      guild' := guild.(quotesProcessedUntil := m.createdAt);
      bot.SaveGuild(guild');
      pr' := pr.(cur := q + 1, seen := q + 1);
    } else {
      PassOver(history, guildId, extract, s1, pr, q, start, guild, before, processed);
      pr' := pr.(seen := if q == pr.seen then pr.seen + 1 else pr.seen);
      start', guild', processed' := start, guild, processed;
    }
  }

  /**
   The `async for` over one page of the older scan: message by message until
   the page ends or the 500th message has been counted.
   */
  method ScanPage(bot: Bot, guildId: int, ghost history: seq<Message>, ghost s1: State, ghost pr: Progress,
                  page: seq<Message>, start: Option<int>, guild: Guild, processed: nat, extract: Extractor)
    returns (ghost pr': Progress, start': Option<int>, guild': Guild, processed': nat)
    requires pr.cur + |page| <= |history| && forall k | 0 <= k < |page| :: page[k] == history[pr.cur + k]
    requires pr.seen <= pr.cur + |page|
    requires bot.Valid()
    requires Resumable(history, guildId, extract, s1, pr, start, guild, bot.Snapshot(), processed)
    requires processed < Target
    modifies bot
    ensures bot.Valid()
    ensures Resumable(history, guildId, extract, s1, pr', start', guild', bot.Snapshot(), processed')
    ensures pr'.p0 == pr.p0 && pr'.c0 == pr.c0 && pr.cur <= pr'.cur
    ensures processed' <= Target
    ensures processed' == Target ==> pr'.cur == pr'.seen
    ensures pr'.seen == pr'.cur || pr'.seen == pr.cur + |page|
    ensures (forall k | 0 <= k < |page| :: Skipped(old(bot.Snapshot()), page[k])) ==>
      pr'.cur == pr.cur && processed' == processed && start' == start && guild' == guild &&
      bot.Snapshot() == old(bot.Snapshot())
  {
    ghost var base := pr.cur;
    ghost var s0 := bot.Snapshot();
    ghost var stuck := forall k | 0 <= k < |page| :: Skipped(s0, page[k]);
    pr', start', guild', processed' := pr, start, guild, processed;
    var i := 0;
    // The `break` once the 500th message is counted is the second conjunct.
    while i < |page| && processed' < Target
      invariant 0 <= i <= |page|
      invariant pr'.p0 == pr.p0 && pr'.c0 == pr.c0 && pr.cur <= pr'.cur
      invariant pr'.cur <= base + i <= pr'.seen <= base + |page|
      invariant bot.Valid()
      invariant Resumable(history, guildId, extract, s1, pr', start', guild', bot.Snapshot(), processed')
      invariant processed' <= Target
      invariant processed' == Target ==> pr'.cur == pr'.seen
      invariant stuck ==> bot.Snapshot() == s0
      invariant stuck ==> pr'.cur == pr.cur && processed' == processed && start' == start && guild' == guild
    {
      pr', start', guild', processed' := ScanAt(bot, guildId, history, s1, base, s0, page, i, pr', start', guild', processed', extract);
      i := i + 1;
    }
  }

  /**
   One turn of the `async for` over a page that starts at position `base`
   of the history: message `i` of the page is scanned. When the page is all
   skipped in the state `s0` it started from, nothing moves.
   */
  method ScanAt(bot: Bot, guildId: int, ghost history: seq<Message>, ghost s1: State, ghost base: nat, ghost s0: State,
                page: seq<Message>, i: nat, ghost pr: Progress, start: Option<int>, guild: Guild, processed: nat,
                extract: Extractor)
    returns (ghost pr': Progress, start': Option<int>, guild': Guild, processed': nat)
    requires i < |page| && base + |page| <= |history| && forall k | 0 <= k < |page| :: page[k] == history[base + k]
    requires pr.cur <= base + i <= pr.seen <= base + |page|
    requires bot.Valid()
    requires Resumable(history, guildId, extract, s1, pr, start, guild, bot.Snapshot(), processed)
    requires processed < Target
    requires (forall k | 0 <= k < |page| :: Skipped(s0, page[k])) ==> bot.Snapshot() == s0
    modifies bot
    ensures bot.Valid()
    ensures Resumable(history, guildId, extract, s1, pr', start', guild', bot.Snapshot(), processed')
    ensures pr'.p0 == pr.p0 && pr'.c0 == pr.c0 && pr.cur <= pr'.cur
    ensures pr'.cur <= base + i + 1 <= pr'.seen <= base + |page|
    ensures processed' <= Target
    ensures processed' == Target ==> pr'.cur == pr'.seen
    ensures (forall k | 0 <= k < |page| :: Skipped(s0, page[k])) ==>
      bot.Snapshot() == s0 && pr'.cur == pr.cur && processed' == processed && start' == start && guild' == guild
  {
    assert page[i] == history[base + i];
    pr', start', guild', processed' := ScanOne(bot, guildId, history, s1, pr, base + i, page[i], start, guild, processed, extract);
  }

  /**
   The older `processChannelMessages(channel)`: from the guild's cursor back
   through the history, pages of 100, until 500 messages have been counted;
   each counted message saves the cursor, and the cursor is saved once more
   at the end. Skipped messages do not move the cursor, so the next page
   starts again right after the last counted message and passes over the
   skipped ones once more; `seen` is how far into the history the scan got.
   The source's `while` never ends when the history runs out first; the
   model stops after `pages` page fetches, which is the task being
   cancelled between pages, and then the final save does not happen.
   */
  method ProcessChannelMessages(bot: Bot, guildId: int, history: seq<Message>, pages: nat, extract: Extractor)
    returns (outcome: ScanOutcome, ghost seen: nat)
    requires NewestFirst(history) && AfterEpoch(history)
    requires bot.Valid()
    modifies bot
    ensures bot.Valid()
    ensures var p0 := Resume(history, GuildOrNew(old(bot.guilds), guildId).quotesProcessedUntil);
      p0 <= seen <= |history| &&
      Scan(WithGuild(old(bot.Snapshot()), guildId), guildId, history, p0, seen, extract) == Run(bot.Snapshot(), outcome.processed)
    ensures outcome.processed <= Target
    ensures outcome.cancelled <==> outcome.processed < Target
    ensures guildId in bot.guilds
    ensures var c0 := GuildOrNew(old(bot.guilds), guildId).quotesProcessedUntil;
      var c := bot.guilds[guildId].quotesProcessedUntil;
      c0 != 0 ==> c <= c0
    ensures var p0 := Resume(history, GuildOrNew(old(bot.guilds), guildId).quotesProcessedUntil);
      var next := Resume(history, bot.guilds[guildId].quotesProcessedUntil);
      p0 <= next <= seen &&
      (!outcome.cancelled ==> next == seen) &&
      forall k | next <= k < seen :: Skipped(bot.Snapshot(), history[k])
  {
    var guild := bot.GetOrCreateGuild(guildId);
    ghost var s1 := bot.Snapshot();
    assert s1 == WithGuild(old(bot.Snapshot()), guildId);
    var start := if guild.quotesProcessedUntil == 0 then None else Some(guild.quotesProcessedUntil);
    ghost var p0 := Resume(history, guild.quotesProcessedUntil);
    ResumeSuffix(history, guild.quotesProcessedUntil);
    ghost var pr := Progress(p0, guild.quotesProcessedUntil, p0, p0);
    var processed, cancelled;
    pr, start, guild, processed, cancelled := ScanPages(bot, guildId, history, s1, pr, start, guild, pages, extract);
    Finish(history, old(bot.Snapshot()), guildId, extract, pr, start, guild, bot.Snapshot(), processed);
    if !cancelled {
      ghost var st := bot.Snapshot();
      SaveCursor(bot, guildId, start.value);
      SaveSameCursor(st, guildId, start.value);
    }
    return ScanOutcome(processed, cancelled), pr.seen;
  }

  /** The closing `get_or_create`, cursor assignment and `save()`. */
  method SaveCursor(bot: Bot, guildId: int, t: int)
    requires bot.Valid()
    modifies bot
    ensures bot.Valid()
    ensures bot.Snapshot() == MoveCursor(old(bot.Snapshot()), guildId, t)
  {
    var guild := bot.GetOrCreateGuild(guildId);
    guild := guild.(quotesProcessedUntil := t);
    bot.SaveGuild(guild);
  }

  /** Saving the cursor the row already holds changes nothing. */
  lemma SaveSameCursor(s: State, guildId: int, t: int)
    requires guildId in s.guilds && s.guilds[guildId].quotesProcessedUntil == t
    ensures MoveCursor(s, guildId, t) == s
  {
    assert s.guilds[guildId := s.guilds[guildId]] == s.guilds;
  }

  /**
   The `while processed_count < 500` of the older scan: page after page
   from `start`, until 500 messages have been counted or the task is
   cancelled after `pages` page fetches.
   */
  method ScanPages(bot: Bot, guildId: int, history: seq<Message>, ghost s1: State, ghost pr: Progress,
                   start: Option<int>, guild: Guild, pages: nat, extract: Extractor)
    returns (ghost pr': Progress, start': Option<int>, guild': Guild, processed: nat, cancelled: bool)
    requires NewestFirst(history)
    requires pr.seen <= pr.cur + 100
    requires bot.Valid()
    requires Resumable(history, guildId, extract, s1, pr, start, guild, bot.Snapshot(), 0)
    modifies bot
    ensures bot.Valid()
    ensures Resumable(history, guildId, extract, s1, pr', start', guild', bot.Snapshot(), processed)
    ensures pr'.p0 == pr.p0 && pr'.c0 == pr.c0
    ensures processed <= Target
    ensures cancelled <==> processed < Target
    ensures !cancelled ==> pr'.cur == pr'.seen
    // A full page of messages that all carry ✅ or 🗑️ is fetched again and
    // again: `start` never moves, and the loop only ends when cancelled.
    ensures (pr.cur + 100 <= |history| && forall k | pr.cur <= k < pr.cur + 100 :: Skipped(old(bot.Snapshot()), history[k])) ==>
      (cancelled && processed == 0 && start' == start && guild' == guild && bot.Snapshot() == old(bot.Snapshot()))
  {
    ghost var s0 := bot.Snapshot();
    ghost var stuck := pr.cur + 100 <= |history| && forall k | pr.cur <= k < pr.cur + 100 :: Skipped(s0, history[k]);
    pr', start', guild', processed := pr, start, guild, 0;
    var budget := pages;
    while processed < Target
      invariant pr'.p0 == pr.p0 && pr'.c0 == pr.c0
      invariant pr'.seen <= pr'.cur + 100
      invariant bot.Valid()
      invariant Resumable(history, guildId, extract, s1, pr', start', guild', bot.Snapshot(), processed)
      invariant processed <= Target
      invariant processed == Target ==> pr'.cur == pr'.seen
      invariant stuck ==> pr'.cur == pr.cur && processed == 0 && start' == start && guild' == guild && bot.Snapshot() == s0
      decreases budget
    {
      if budget == 0 {
        return pr', start', guild', processed, true;
      }
      budget := budget - 1;
      pr', start', guild', processed := FetchAndScan(bot, guildId, history, s1, pr', start', guild', processed, extract);
    }
    cancelled := false;
  }

  /**
   One turn of the `while`: `channel.history(limit=100, before=start)`, then
   the page scanned. When the page is 100 messages that all carry ✅ or 🗑️,
   nothing moves: the next turn fetches the same page.
   */
  method FetchAndScan(bot: Bot, guildId: int, history: seq<Message>, ghost s1: State, ghost pr: Progress,
                  start: Option<int>, guild: Guild, processed: nat, extract: Extractor)
    returns (ghost pr': Progress, start': Option<int>, guild': Guild, processed': nat)
    requires NewestFirst(history)
    requires pr.seen <= pr.cur + 100
    requires bot.Valid()
    requires Resumable(history, guildId, extract, s1, pr, start, guild, bot.Snapshot(), processed)
    requires processed < Target
    modifies bot
    ensures bot.Valid()
    ensures Resumable(history, guildId, extract, s1, pr', start', guild', bot.Snapshot(), processed')
    ensures pr'.p0 == pr.p0 && pr'.c0 == pr.c0
    ensures pr'.seen <= pr'.cur + 100
    ensures processed' <= Target
    ensures processed' == Target ==> pr'.cur == pr'.seen
    ensures (pr.cur + 100 <= |history| && forall k | pr.cur <= k < pr.cur + 100 :: Skipped(old(bot.Snapshot()), history[k])) ==>
      (pr'.cur == pr.cur && processed' == processed && start' == start && guild' == guild && bot.Snapshot() == old(bot.Snapshot()))
  {
    var page := FetchPage(history, start, pr);
    if pr.cur + 100 <= |history| && forall k | pr.cur <= k < pr.cur + 100 :: Skipped(bot.Snapshot(), history[k]) {
      forall k | 0 <= k < |page| ensures Skipped(bot.Snapshot(), page[k]) {
        assert page[k] == history[pr.cur + k];
      }
    }
    pr', start', guild', processed' := ScanPage(bot, guildId, history, s1, pr, page, start, guild, processed, extract);
  }

  /** `channel.history(limit=100, before=start)` during a scan: the next 100 messages (or fewer) after `cur`. */
  method FetchPage(history: seq<Message>, start: Option<int>, ghost pr: Progress) returns (page: seq<Message>)
    requires NewestFirst(history)
    requires pr.p0 <= pr.cur <= |history| && pr.p0 == Resume(history, pr.c0)
    requires start == (if pr.cur == pr.p0 then StartOf(pr.c0) else Some(history[pr.cur - 1].createdAt))
    ensures page == Page(history, start, 100)
    ensures |page| == Min(100, |history| - pr.cur) && pr.cur + |page| <= |history|
    ensures forall k | 0 <= k < |page| :: page[k] == history[pr.cur + k]
  {
    page := Page(history, start, 100);
    StartAt(history, pr, start);
    PageAt(history, start, pr.cur);
  }

  /**
   Paging from `start` yields the history after `cur`: `start` is the stored
   cursor while nothing is counted, and the time of the last counted message
   afterwards.
   */
  lemma StartAt(history: seq<Message>, pr: Progress, start: Option<int>)
    requires NewestFirst(history)
    requires pr.p0 <= pr.cur <= |history| && pr.p0 == Resume(history, pr.c0)
    requires start == (if pr.cur == pr.p0 then StartOf(pr.c0) else Some(history[pr.cur - 1].createdAt))
    ensures Before(history, start) == history[pr.cur..]
  {
    if pr.cur == pr.p0 {
      ResumeSuffix(history, pr.c0);
    } else {
      OlderThanMessage(history, pr.cur - 1);
    }
  }

  /** The page fetched from `start` is then the next stretch of the history. */
  lemma PageAt(history: seq<Message>, start: Option<int>, cur: nat)
    requires cur <= |history| && Before(history, start) == history[cur..]
    ensures var page := Page(history, start, 100);
      && |page| == Min(100, |history| - cur) && cur + |page| <= |history|
      && forall k | 0 <= k < |page| :: page[k] == history[cur + k]
  {
  }

  /** Where a stopped scan stands: what it did from `s0`, and where the stored cursor resumes. */
  lemma Finish(history: seq<Message>, s0: State, guildId: int, extract: Extractor, pr: Progress,
               start: Option<int>, guild: Guild, st: State, processed: nat)
    requires NewestFirst(history) && AfterEpoch(history)
    requires pr.c0 == GuildOrNew(s0.guilds, guildId).quotesProcessedUntil && pr.p0 == Resume(history, pr.c0)
    requires Resumable(history, guildId, extract, WithGuild(s0, guildId), pr, start, guild, st, processed)
    ensures pr.p0 <= pr.seen <= |history|
    ensures Scan(WithGuild(s0, guildId), guildId, history, pr.p0, pr.seen, extract) == Run(st, processed)
    ensures guildId in st.guilds && st.guilds[guildId] == guild
    ensures pr.c0 != 0 ==> guild.quotesProcessedUntil <= pr.c0
    ensures var next := Resume(history, guild.quotesProcessedUntil);
      pr.p0 <= next <= pr.seen && next == pr.cur &&
      forall k | next <= k < pr.seen :: Skipped(st, history[k])
    ensures processed > 0 ==> start == Some(guild.quotesProcessedUntil)
  {
    if pr.cur > pr.p0 {
      ResumeAfterMessage(history, pr.cur - 1);
      if pr.c0 != 0 {
        ResumeSuffix(history, pr.c0);
        assert history[pr.cur - 1] in Before(history, StartOf(pr.c0));
      }
    }
  }
}
