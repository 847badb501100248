/**
 src/util/quotes.py: `process_message`, which reconciles one message with
 the store and the bot's markers; `processChannelMessages`, the paged
 re-scan of a channel; `clearQuotes`, the guild-wide delete. Also the two
 event handlers of src/main.py that only filter and then reconcile or delete.
 */
module Reconcile {
  import opened Wrappers
  import opened Store
  import opened History
  import opened Regexes

  // ---------------------------------------------------------------------------
  // One message

  /**
   The state `process_message` leaves, given the extraction result `found`:
   nothing when the message carries 🗑️; otherwise, on a match, the record
   created (or its content and author overwritten) and the markers ✅ without
   🔁; on no match, the record deleted and none of ✅, 🔁, ❌.
   */
  function Reconcile(s: State, m: Message, found: Option<(string, string)>): (r: State)
    ensures r.guilds == s.guilds
    ensures Trash in Reactions(s, m) ==> r == s
    ensures Trash !in Reactions(s, m) ==> (m.id in r.quotes <==> found.Some?)
  {
    if Trash in Reactions(s, m) then s
    else
      var mine := MarksOf(s.marks, m.id);
      match found
      case Some((quote, author)) =>
        var record :=
          if m.id in s.quotes then s.quotes[m.id].(content := quote, author := author)
          else Quote(m.id, m.guildId, author, quote);
        s.(quotes := s.quotes[m.id := record], marks := s.marks[m.id := mine - {Repeat} + {Check}])
      case None =>
        s.(quotes := s.quotes - {m.id}, marks := s.marks[m.id := mine - {Repeat, Check, Cross}])
  }

  /** A message with a 🗑️ reaction (anybody's) changes neither the store nor the markers. */
  lemma ExcludedMessageUntouched(s: State, m: Message, found: Option<(string, string)>)
    requires Trash in m.others + MarksOf(s.marks, m.id)
    ensures Reconcile(s, m, found) == s
  {
  }

  /**
   On a match, the message's record holds the extracted content and author;
   a new record belongs to the message's guild, an existing one keeps its guild.
   */
  lemma MatchRecordsQuote(s: State, m: Message, quote: string, author: string)
    requires Trash !in m.others + MarksOf(s.marks, m.id)
    ensures var r := Reconcile(s, m, Some((quote, author)));
      && m.id in r.quotes
      && r.quotes[m.id].content == quote && r.quotes[m.id].author == author
      && r.quotes[m.id].messageId == (if m.id in s.quotes then s.quotes[m.id].messageId else m.id)
      && r.quotes[m.id].guildId == (if m.id in s.quotes then s.quotes[m.id].guildId else m.guildId)
      && r.quotes.Keys == s.quotes.Keys + {m.id}
      && r.guilds == s.guilds
  {
  }

  /** On no match, the message has no record afterwards and no record is created. */
  lemma MissDeletesRecord(s: State, m: Message)
    requires Trash !in m.others + MarksOf(s.marks, m.id)
    ensures var r := Reconcile(s, m, None);
      && m.id !in r.quotes
      && r.quotes.Keys == s.quotes.Keys - {m.id}
      && r.guilds == s.guilds
  {
  }

  /** End state of the markers: ✅ and no 🔁 after a match; none of ✅, 🔁, ❌ after a miss. */
  lemma MarkerEndState(s: State, m: Message, found: Option<(string, string)>)
    requires Trash !in m.others + MarksOf(s.marks, m.id)
    ensures var mine := MarksOf(Reconcile(s, m, found).marks, m.id);
      && (found.Some? ==> Check in mine && Repeat !in mine)
      && (found.None? ==> Check !in mine && Repeat !in mine && Cross !in mine)
      && mine - {Repeat, Check, Cross} == MarksOf(s.marks, m.id) - {Repeat, Check, Cross}
  {
  }

  /** Only the message's own record and markers can change. */
  lemma ReconcileIsLocal(s: State, m: Message, found: Option<(string, string)>, k: int)
    requires k != m.id
    ensures var r := Reconcile(s, m, found);
      && (k in r.quotes <==> k in s.quotes)
      && (k in s.quotes ==> r.quotes[k] == s.quotes[k])
      && MarksOf(r.marks, k) == MarksOf(s.marks, k)
      && r.guilds == s.guilds
  {
  }

  /** Reconciling keeps every record under its own key. */
  lemma ReconcileKeepsKeyed(s: State, m: Message, found: Option<(string, string)>)
    requires Keyed(s)
    ensures Keyed(Reconcile(s, m, found))
  {
  }

  /** Reconciling the same unchanged message twice leaves what reconciling it once leaves. */
  lemma ReconcileIdempotent(s: State, m: Message, found: Option<(string, string)>)
    ensures Reconcile(Reconcile(s, m, found), m, found) == Reconcile(s, m, found)
  {
    var r := Reconcile(s, m, found);
    if Trash !in Reactions(s, m) {
      assert Trash !in Reactions(r, m);
      match found
      case Some((quote, author)) =>
        assert m.id in r.quotes;
        assert r.quotes[m.id].(content := quote, author := author) == r.quotes[m.id];
        assert r.quotes[m.id := r.quotes[m.id]] == r.quotes;
        var mine := MarksOf(r.marks, m.id);
        assert mine - {Repeat} + {Check} == mine;
        assert r.marks[m.id := mine] == r.marks;
      case None =>
        var mine := MarksOf(r.marks, m.id);
        assert mine - {Repeat, Check, Cross} == mine;
        assert r.marks[m.id := mine] == r.marks;
        assert r.quotes - {m.id} == r.quotes;
    }
  }

  /** The bot's reaction calls on a match: 🔁 on, ✅ off, then 🔁 off, ✅ on; together, ✅ on and 🔁 off. */
  lemma MatchMarkers(marks: map<int, set<Emoji>>, id: int)
    ensures AddMark(RemoveMark(RemoveMark(AddMark(marks, id, Repeat), id, Check), id, Repeat), id, Check) ==
      marks[id := MarksOf(marks, id) - {Repeat} + {Check}]
  {
    var m1 := AddMark(marks, id, Repeat);
    var m2 := RemoveMark(m1, id, Check);
    var m3 := RemoveMark(m2, id, Repeat);
    var m4 := AddMark(m3, id, Check);
    var want := marks[id := MarksOf(marks, id) - {Repeat} + {Check}];
    assert m4.Keys == want.Keys;
    assert m4[id] == MarksOf(marks, id) + {Repeat} - {Check} - {Repeat} + {Check};
    assert MarksOf(marks, id) + {Repeat} - {Check} - {Repeat} + {Check} == MarksOf(marks, id) - {Repeat} + {Check};
    forall k | k in want
      ensures m4[k] == want[k]
    {
    }
  }

  /** The bot's reaction calls on a miss: 🔁 on, ✅ off, then 🔁 off, ❌ on, ❌ off; together, none of the three. */
  lemma MissMarkers(marks: map<int, set<Emoji>>, id: int)
    ensures RemoveMark(AddMark(RemoveMark(RemoveMark(AddMark(marks, id, Repeat), id, Check), id, Repeat), id, Cross), id, Cross) ==
      marks[id := MarksOf(marks, id) - {Repeat, Check, Cross}]
  {
    var m1 := AddMark(marks, id, Repeat);
    var m2 := RemoveMark(m1, id, Check);
    var m3 := RemoveMark(m2, id, Repeat);
    var m4 := AddMark(m3, id, Cross);
    var m5 := RemoveMark(m4, id, Cross);
    var want := marks[id := MarksOf(marks, id) - {Repeat, Check, Cross}];
    assert m5.Keys == want.Keys;
    assert MarksOf(m5, id) == MarksOf(marks, id) + {Repeat} - {Check} - {Repeat} + {Cross} - {Cross};
    assert MarksOf(marks, id) + {Repeat} - {Check} - {Repeat} + {Cross} - {Cross} == MarksOf(marks, id) - {Repeat, Check, Cross};
    forall k | k in want
      ensures m5[k] == want[k]
    {
    }
  }

  /** The match branch of `process_message`: create or update, then 🔁 off and ✅ on. */
  method RecordMatch(bot: Bot, m: Message, exists_: bool, quote: string, author: string)
    requires bot.Valid()
    requires exists_ <==> m.id in bot.quotes
    modifies bot
    ensures bot.Valid()
    ensures bot.quotes == old(bot.quotes)[m.id :=
      if exists_ then old(bot.quotes)[m.id].(content := quote, author := author) else Quote(m.id, m.guildId, author, quote)]
    ensures bot.marks == AddMark(RemoveMark(old(bot.marks), m.id, Repeat), m.id, Check)
    ensures bot.guilds == old(bot.guilds)
  {
    if !exists_ {
      var _ := bot.CreateQuote(Quote(m.id, m.guildId, author, quote));
    } else {
      bot.UpdateQuote(m.id, quote, author);
    }
    bot.RemoveReaction(m.id, Repeat);
    bot.AddReaction(m.id, Check);
  }

  /** The no-match branch of `process_message`: delete, then 🔁 off and ❌ on and, after a pause, off again. */
  method RecordMiss(bot: Bot, m: Message, exists_: bool)
    requires bot.Valid()
    requires exists_ <==> m.id in bot.quotes
    modifies bot
    ensures bot.Valid()
    ensures bot.quotes == old(bot.quotes) - {m.id}
    ensures bot.marks == RemoveMark(AddMark(RemoveMark(old(bot.marks), m.id, Repeat), m.id, Cross), m.id, Cross)
    ensures bot.guilds == old(bot.guilds)
  {
    if exists_ {
      bot.DeleteQuote(m.id);
    } else {
      assert old(bot.quotes) - {m.id} == old(bot.quotes);
    }
    bot.RemoveReaction(m.id, Repeat);
    bot.AddReaction(m.id, Cross);
    bot.RemoveReaction(m.id, Cross);
  }

  /**
   `process_message`: the 🗑️ test, then 🔁 on and ✅ off, the lookup, the
   extraction with the shared table, and the create, update or delete with its
   markers. The five-second wait before ❌ is removed is left out.
   */
  method ProcessMessage(bot: Bot, table: RuleTable, m: Message, finditer: Matcher)
    requires bot.Valid()
    modifies bot
    ensures bot.Valid()
    ensures bot.Snapshot() == Reconcile(old(bot.Snapshot()), m, Extract(table.rules, m.content, finditer))
  {
    ghost var s := bot.Snapshot();
    if Trash in m.others + MarksOf(bot.marks, m.id) {
      return;
    }
    bot.AddReaction(m.id, Repeat);
    bot.RemoveReaction(m.id, Check);
    var existing := bot.GetQuote(m.id);
    var matches := table.Select(m.content, finditer);
    ghost var r := Reconcile(s, m, matches);
    if matches.Some? {
      var (quote, author) := matches.value;
      RecordMatch(bot, m, existing.Some?, quote, author);
      MatchMarkers(s.marks, m.id);
      assert bot.quotes == r.quotes && bot.marks == r.marks && bot.guilds == r.guilds;
    } else {
      RecordMiss(bot, m, existing.Some?);
      MissMarkers(s.marks, m.id);
      assert bot.quotes == r.quotes && bot.marks == r.marks && bot.guilds == r.guilds;
    }
  }

  // ---------------------------------------------------------------------------
  // The paged re-scan

  /** Reconciling a run of messages in order. */
  function ReconcileAll(s: State, ms: seq<Message>, rules: seq<Rule>, finditer: Matcher): (r: State)
    ensures r.guilds == s.guilds
    decreases |ms|
  {
    if ms == [] then s
    else ReconcileAll(Reconcile(s, ms[0], Extract(rules, ms[0].content, finditer)), ms[1..], rules, finditer)
  }

  lemma {:induction false} ReconcileAllSnoc(s: State, ms: seq<Message>, m: Message, rules: seq<Rule>, finditer: Matcher)
    ensures ReconcileAll(s, ms + [m], rules, finditer) ==
      Reconcile(ReconcileAll(s, ms, rules, finditer), m, Extract(rules, m.content, finditer))
    decreases |ms|
  {
    if ms == [] {
      assert [] + [m] == [m];
      assert [m][1..] == [];
    } else {
      var s1 := Reconcile(s, ms[0], Extract(rules, ms[0].content, finditer));
      assert (ms + [m])[0] == ms[0];
      assert (ms + [m])[1..] == ms[1..] + [m];
      ReconcileAllSnoc(s1, ms[1..], m, rules, finditer);
    }
  }

  /** Reconciling the first `k + 1` messages of a history is reconciling the first `k`, then message `k`. */
  lemma ReconcileAllPrefix(s: State, history: seq<Message>, k: nat, rules: seq<Rule>, finditer: Matcher)
    requires k < |history|
    ensures ReconcileAll(s, history[..k + 1], rules, finditer) ==
      Reconcile(ReconcileAll(s, history[..k], rules, finditer), history[k], Extract(rules, history[k].content, finditer))
  {
    assert history[..k + 1] == history[..k] + [history[k]];
    ReconcileAllSnoc(s, history[..k], history[k], rules, finditer);
  }

  /** A re-scan changes only the records and markers of the messages it visits. */
  lemma {:induction false} ReconcileAllIsLocal(s: State, ms: seq<Message>, rules: seq<Rule>, finditer: Matcher, k: int)
    requires forall i | 0 <= i < |ms| :: ms[i].id != k
    ensures var r := ReconcileAll(s, ms, rules, finditer);
      && (k in r.quotes <==> k in s.quotes)
      && (k in s.quotes ==> r.quotes[k] == s.quotes[k])
      && MarksOf(r.marks, k) == MarksOf(s.marks, k)
      && r.guilds == s.guilds
    decreases |ms|
  {
    if ms != [] {
      var s1 := Reconcile(s, ms[0], Extract(rules, ms[0].content, finditer));
      ReconcileIsLocal(s, ms[0], Extract(rules, ms[0].content, finditer), k);
      ReconcileAllIsLocal(s1, ms[1..], rules, finditer, k);
    }
  }

  /** The outcome of a scan: how many messages went through `process_message`, and whether the task was cancelled. */
  datatype ScanOutcome = ScanOutcome(processed: nat, cancelled: bool)

  /** One message of the scan: `process_message` on the next message of the history extends the fold by it. */
  method ProcessNext(bot: Bot, table: RuleTable, ghost s: State, ghost history: seq<Message>, ghost k: nat,
                     m: Message, finditer: Matcher)
    requires k < |history| && m == history[k]
    requires bot.Valid()
    requires bot.Snapshot() == ReconcileAll(s, history[..k], table.rules, finditer)
    modifies bot
    ensures bot.Valid()
    ensures bot.Snapshot() == ReconcileAll(s, history[..k + 1], table.rules, finditer)
    ensures bot.guilds == old(bot.guilds)
  {
    ReconcileAllPrefix(s, history, k, table.rules, finditer);
    ProcessMessage(bot, table, m, finditer);
  }

  /**
   The `async for` over one page of `processChannelMessages`: every message
   of the page is reconciled and becomes the new `start`, and the page is
   left early once 500 messages have been processed in all.
   */
  method ScanPage(bot: Bot, table: RuleTable, ghost s: State, ghost history: seq<Message>, page: seq<Message>,
                  first: nat, start0: Option<int>, finditer: Matcher)
    returns (processed: nat, start: Option<int>)
    requires first + |page| <= |history| && page == history[first..first + |page|]
    requires start0 == if first == 0 then None else Some(history[first - 1].createdAt)
    requires bot.Valid()
    requires bot.Snapshot() == ReconcileAll(s, history[..first], table.rules, finditer)
    modifies bot
    ensures bot.Valid()
    ensures first <= processed <= first + |page|
    ensures start == if processed == 0 then None else Some(history[processed - 1].createdAt)
    ensures bot.Snapshot() == ReconcileAll(s, history[..processed], table.rules, finditer)
    ensures bot.guilds == old(bot.guilds)
    ensures processed < first + |page| ==> processed >= 500 && (first < 500 || processed == first + 1)
    ensures processed >= 500 && first < 500 ==> processed == 500
    ensures first >= 500 ==> processed <= first + 1
  {
    processed, start := first, start0;
    var i := 0;
    while i < |page|
      invariant 0 <= i <= |page|
      invariant processed == first + i
      invariant start == if processed == 0 then None else Some(history[processed - 1].createdAt)
      invariant bot.Valid()
      invariant bot.Snapshot() == ReconcileAll(s, history[..processed], table.rules, finditer)
      invariant bot.guilds == old(bot.guilds)
      invariant first < 500 ==> processed < 500
      invariant first >= 500 ==> i == 0
    {
      assert page[i] == history[processed];
      ProcessNext(bot, table, s, history, processed, page[i], finditer);
      processed := processed + 1;
      start := Some(page[i].createdAt);
      i := i + 1;
      if processed >= 500 {
        return;
      }
    }
  }

  /**
   `processChannelMessages(channel, limit)`: pages of 100 from the newest
   message back, every message reconciled, the cursor moved to each message's
   time. A page is cut short at 500 processed messages whatever `limit` is,
   so past 500 each page contributes one message. The source's `while` never
   ends when the history runs out before `limit`; the model stops after
   `pages` page fetches, which is the task being cancelled between pages.
   */
  method ProcessChannelMessages(bot: Bot, table: RuleTable, history: seq<Message>, limit: int, pages: nat, finditer: Matcher)
    returns (outcome: ScanOutcome)
    requires NewestFirst(history)
    requires bot.Valid()
    modifies bot
    ensures bot.Valid()
    ensures outcome.processed <= |history|
    ensures bot.Snapshot() == ReconcileAll(old(bot.Snapshot()), history[..outcome.processed], table.rules, finditer)
    ensures bot.guilds == old(bot.guilds)
    ensures outcome.cancelled <==> outcome.processed < limit
    ensures outcome.processed == 0 || outcome.processed < limit + 100
    ensures limit >= 500 ==> outcome.processed <= limit
  {
    ghost var s := bot.Snapshot();
    var processed: nat := 0;
    var start: Option<int> := None;
    var budget := pages;
    while processed < limit
      invariant processed <= |history|
      invariant start == if processed == 0 then None else Some(history[processed - 1].createdAt)
      invariant bot.Valid()
      invariant bot.Snapshot() == ReconcileAll(s, history[..processed], table.rules, finditer)
      invariant bot.guilds == s.guilds
      invariant processed == 0 || processed < limit + 100
      invariant limit >= 500 ==> processed <= limit
      decreases budget
    {
      if budget == 0 {
        return ScanOutcome(processed, true);
      }
      budget := budget - 1;
      var page := Page(history, start, 100);
      NextPage(history, processed, 100);
      processed, start := ScanPage(bot, table, s, history, page, processed, start, finditer);
    }
    return ScanOutcome(processed, false);
  }

  // ---------------------------------------------------------------------------
  // Clearing a guild

  /** The bot's markers with ✅ taken off the messages in `ids`. */
  function WithoutChecks(marks: map<int, set<Emoji>>, ids: set<int>): (r: map<int, set<Emoji>>)
    ensures r.Keys == marks.Keys
    ensures forall k | k in marks && k in ids :: r[k] == marks[k] - {Check}
    ensures forall k | k in marks && k !in ids :: r[k] == marks[k]
  {
    map k | k in marks :: if k in ids then marks[k] - {Check} else marks[k]
  }

  /** Taking ✅ off one more message. */
  lemma WithoutChecksStep(marks: map<int, set<Emoji>>, ids: set<int>, id: int)
    ensures RemoveMark(WithoutChecks(marks, ids), id, Check) == WithoutChecks(marks, ids + {id})
  {
    var before := WithoutChecks(marks, ids);
    var after := WithoutChecks(marks, ids + {id});
    var removed := RemoveMark(before, id, Check);
    assert removed.Keys == after.Keys;
    forall k | k in marks
      ensures removed[k] == after[k]
    {
      if k == id {
        assert removed[k] == before[k] - {Check};
      }
    }
  }

  /** `Quote.select().where(Quote.guildid == guildId)`: the message ids of the guild's records. */
  function GuildQuoteIds(quotes: map<int, Quote>, guildId: int): (r: set<int>)
    ensures forall k :: k in r <==> k in quotes && quotes[k].guildId == guildId
  {
    set k | k in quotes && quotes[k].guildId == guildId
  }

  /** Every record is in the selection of its own guild, and the selections of two guilds never overlap. */
  lemma GuildSelectionsPartition(quotes: map<int, Quote>, a: int, b: int)
    ensures forall k | k in quotes :: k in GuildQuoteIds(quotes, quotes[k].guildId)
    ensures a != b ==> GuildQuoteIds(quotes, a) !! GuildQuoteIds(quotes, b)
  {
  }

  /** What `clearQuotes` leaves, given the messages whose ✅ could be removed (`reachable`). */
  function Cleared(s: State, guildId: int, reachable: set<int>): (r: State)
    ensures forall k | k in r.quotes :: r.quotes[k].guildId != guildId
    ensures guildId in r.guilds && r.guilds[guildId].quotesProcessedUntil == 0
  {
    var ids := GuildQuoteIds(s.quotes, guildId);
    State(
      map k | k in s.quotes && s.quotes[k].guildId != guildId :: s.quotes[k],
      s.guilds[guildId := GuildOrNew(s.guilds, guildId).(quotesProcessedUntil := 0)],
      WithoutChecks(s.marks, ids * reachable))
  }

  /**
   A clear leaves no record of the guild and every other record as it was;
   it takes the bot's ✅ off the guild's messages that could be fetched (the
   others raised and were logged) and touches no other marker; and it resets
   the guild's cursor to 0 whichever removals failed.
   */
  lemma ClearedSpec(s: State, guildId: int, reachable: set<int>)
    ensures var r := Cleared(s, guildId, reachable);
      && (forall k | k in r.quotes :: k in s.quotes && r.quotes[k] == s.quotes[k] && r.quotes[k].guildId != guildId)
      && (forall k | k in s.quotes && s.quotes[k].guildId != guildId :: k in r.quotes)
      && guildId in r.guilds && r.guilds[guildId].quotesProcessedUntil == 0
      && r.guilds[guildId] == GuildOrNew(s.guilds, guildId).(quotesProcessedUntil := 0)
      && (forall k | k in s.guilds && k != guildId :: k in r.guilds && r.guilds[k] == s.guilds[k])
      && r.guilds.Keys == s.guilds.Keys + {guildId}
      && r.marks.Keys == s.marks.Keys
      && (forall k | k in s.marks && k in s.quotes && s.quotes[k].guildId == guildId && k in reachable ::
            r.marks[k] == s.marks[k] - {Check})
      && (forall k | k in s.marks && !(k in s.quotes && s.quotes[k].guildId == guildId && k in reachable) ::
            r.marks[k] == s.marks[k])
  {
  }

  /** After a clear, re-scanning starts from the newest message again. */
  lemma ClearResetsCursor(s: State, guildId: int, reachable: set<int>)
    ensures GuildOrNew(Cleared(s, guildId, reachable).guilds, guildId).quotesProcessedUntil == 0
  {
  }

  /**
   The loop of `clearQuotes` over the guild's records: the bot's ✅ comes off
   every message that `channel.fetch_message` finds; for the others the
   exception is logged.
   */
  method RemoveChecks(bot: Bot, ids: set<int>, reachable: set<int>)
    requires bot.Valid()
    modifies bot
    ensures bot.Valid()
    ensures bot.marks == WithoutChecks(old(bot.marks), ids * reachable)
    ensures bot.quotes == old(bot.quotes) && bot.guilds == old(bot.guilds)
  {
    var todo := ids;
    while todo != {}
      invariant todo <= ids
      invariant bot.quotes == old(bot.quotes) && bot.guilds == old(bot.guilds)
      invariant bot.marks == WithoutChecks(old(bot.marks), (ids - todo) * reachable)
      decreases todo
    {
      var id := Pick(todo);
      if id in reachable {
        WithoutChecksStep(old(bot.marks), (ids - todo) * reachable, id);
        bot.RemoveReaction(id, Check);
      }
      assert (ids - (todo - {id})) * reachable == (ids - todo) * reachable + (if id in reachable then {id} else {});
      todo := todo - {id};
    }
    assert ids - todo == ids;
  }

  /**
   `clearQuotes(channel, guild, botuser)`: the ✅ removals, then the bulk
   delete and the cursor reset. The same function is in quotes.py.
   */
  method ClearQuotes(bot: Bot, guildId: int, reachable: set<int>)
    requires bot.Valid()
    modifies bot
    ensures bot.Valid()
    ensures bot.Snapshot() == Cleared(old(bot.Snapshot()), guildId, reachable)
  {
    ghost var s := bot.Snapshot();
    RemoveChecks(bot, GuildQuoteIds(bot.quotes, guildId), reachable);
    bot.DeleteGuildQuotes(guildId);
    var guild := bot.GetOrCreateGuild(guildId);
    bot.SaveGuild(guild.(quotesProcessedUntil := 0));
    assert bot.guilds == s.guilds[guildId := GuildOrNew(s.guilds, guildId).(quotesProcessedUntil := 0)];
  }

  // ---------------------------------------------------------------------------
  // The event handlers of src/main.py that reach the store

  /** The state after `Guild.get_or_create` for the message's guild. */
  function WithGuild(s: State, guildId: int): (r: State)
    ensures guildId in r.guilds && r.guilds[guildId] == GuildOrNew(s.guilds, guildId)
    ensures r.guilds.Keys == s.guilds.Keys + {guildId}
    ensures forall g | g in s.guilds && g != guildId :: r.guilds[g] == s.guilds[g]
    ensures r.quotes == s.quotes && r.marks == s.marks
  {
    s.(guilds := s.guilds[guildId := GuildOrNew(s.guilds, guildId)])
  }

  /** The message is in its guild's quote channel (a guild without one has none). */
  predicate InQuoteChannel(s: State, m: Message)
    ensures InQuoteChannel(s, m) ==> m.guildId in s.guilds
  {
    GuildOrNew(s.guilds, m.guildId).quoteChannel == Some(m.channelId)
  }

  /**
   `on_message`: the bot's own messages are ignored; the guild row is created
   if missing; only a message in the quote channel is reconciled.
   */
  method OnMessage(bot: Bot, table: RuleTable, m: Message, finditer: Matcher)
    requires bot.Valid()
    modifies bot
    ensures bot.Valid()
    ensures m.fromBot ==> bot.Snapshot() == old(bot.Snapshot())
    ensures !m.fromBot && !InQuoteChannel(old(bot.Snapshot()), m) ==>
      bot.Snapshot() == WithGuild(old(bot.Snapshot()), m.guildId)
    ensures !m.fromBot && InQuoteChannel(old(bot.Snapshot()), m) ==>
      bot.Snapshot() == Reconcile(WithGuild(old(bot.Snapshot()), m.guildId), m, Extract(table.rules, m.content, finditer))
  {
    if m.fromBot {
      return;
    }
    var guild := bot.GetOrCreateGuild(m.guildId);
    if guild.quoteChannel != Some(m.channelId) {
      return;
    }
    ProcessMessage(bot, table, m, finditer);
  }

  /**
   `on_raw_message_edit`: the guild row is created if missing; an edit in the
   quote channel is reconciled with the message as it now reads, unless it
   could not be fetched or the bot wrote it.
   */
  method OnMessageEdit(bot: Bot, table: RuleTable, guildId: int, channelId: int, after: Option<Message>, finditer: Matcher)
    requires bot.Valid()
    modifies bot
    ensures bot.Valid()
    ensures var s1 := WithGuild(old(bot.Snapshot()), guildId);
      var handled := GuildOrNew(old(bot.guilds), guildId).quoteChannel == Some(channelId) && after.Some? && !after.value.fromBot;
      bot.Snapshot() == if handled then Reconcile(s1, after.value, Extract(table.rules, after.value.content, finditer)) else s1
  {
    var guild := bot.GetOrCreateGuild(guildId);
    if guild.quoteChannel != Some(channelId) {
      return;
    }
    if after.None? {
      return;
    }
    if after.value.fromBot {
      return;
    }
    ProcessMessage(bot, table, after.value, finditer);
  }

  /**
   `on_message_delete`: for a message in the quote channel that the bot did
   not write, its record is deleted if there is one.
   */
  method OnMessageDelete(bot: Bot, m: Message)
    requires bot.Valid()
    modifies bot
    ensures bot.Valid()
    ensures m.fromBot ==> bot.Snapshot() == old(bot.Snapshot())
    ensures !m.fromBot ==> bot.guilds == WithGuild(old(bot.Snapshot()), m.guildId).guilds && bot.marks == old(bot.marks)
    ensures !m.fromBot && InQuoteChannel(old(bot.Snapshot()), m) ==> bot.quotes == old(bot.quotes) - {m.id}
    ensures !m.fromBot && !InQuoteChannel(old(bot.Snapshot()), m) ==> bot.quotes == old(bot.quotes)
  {
    if m.fromBot {
      return;
    }
    var guild := bot.GetOrCreateGuild(m.guildId);
    if guild.quoteChannel != Some(m.channelId) {
      return;
    }
    var quote := bot.GetQuote(m.id);
    if quote.Some? {
      bot.DeleteQuote(m.id);
    }
  }
}
