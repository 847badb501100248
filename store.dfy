/**
 The records of src/util/db.py (and db.py), the keyed store that holds them,
 and the bot's own reaction markers on messages. The relational engine is a
 pair of maps keyed by primary key; a reaction call is an update of the set of
 emoji the bot has put on one message.
 */
module Store {
  import opened Wrappers

  /** The emoji the core reads or writes: 🔁, ✅, ❌, 🗑️, and any other. */
  datatype Emoji = Repeat | Check | Cross | Trash | OtherEmoji(name: string)

  /**
   A message as the platform delivers it. `others` are the reactions put on
   it by users other than the bot; the bot's own are in the store's `marks`.
   */
  datatype Message = Message(
    id: int,
    guildId: int,
    channelId: int,
    fromBot: bool,
    content: string,
    createdAt: int,
    others: set<Emoji>)

  /** A row of the `quotes` table, keyed by `messageId`. */
  datatype Quote = Quote(messageId: int, guildId: int, author: string, content: string)

  /** A row of the `guilds` table, keyed by `guildId`; a cursor of 0 means "never scanned". */
  datatype Guild = Guild(guildId: int, quoteChannel: Option<int>, quoteRegex: Option<string>, quotesProcessedUntil: int)

  /** The row `Guild.get_or_create` inserts: every column at its default. */
  function NewGuild(guildId: int): (r: Guild)
    ensures r.guildId == guildId && r.quotesProcessedUntil == 0
    ensures r.quoteChannel == None && r.quoteRegex == None
  {
    Guild(guildId, None, None, 0)
  }

  /** The guild row for `guildId`, or the default one `get_or_create` would insert. */
  function GuildOrNew(guilds: map<int, Guild>, guildId: int): (r: Guild)
    ensures guildId in guilds ==> r == guilds[guildId]
    ensures guildId !in guilds ==> r == NewGuild(guildId)
    ensures (forall g | g in guilds :: guilds[g].guildId == g) ==> r.guildId == guildId
  {
    if guildId in guilds then guilds[guildId] else NewGuild(guildId)
  }

  /** Everything the core reads and writes: both tables and the bot's markers. */
  datatype State = State(quotes: map<int, Quote>, guilds: map<int, Guild>, marks: map<int, set<Emoji>>)

  /** Every row sits under its own primary key. */
  ghost predicate Keyed(s: State)
  {
    && (forall k | k in s.quotes :: s.quotes[k].messageId == k)
    && (forall k | k in s.guilds :: s.guilds[k].guildId == k)
  }

  /** The bot's markers on a message (none when it never reacted). */
  function MarksOf(marks: map<int, set<Emoji>>, id: int): set<Emoji>
  {
    if id in marks then marks[id] else {}
  }

  /** `message.reactions`: everybody's reactions, the bot's included. */
  function Reactions(s: State, m: Message): (r: set<Emoji>)
    ensures r == m.others + MarksOf(s.marks, m.id)
  {
    m.others + MarksOf(s.marks, m.id)
  }

  /** `add_reaction`: the bot's marker is on the message afterwards. */
  function AddMark(marks: map<int, set<Emoji>>, id: int, e: Emoji): (r: map<int, set<Emoji>>)
    ensures r.Keys == marks.Keys + {id}
    ensures r[id] == MarksOf(marks, id) + {e}
    ensures forall k | k in marks && k != id :: r[k] == marks[k]
  {
    marks[id := MarksOf(marks, id) + {e}]
  }

  /** `remove_reaction(e, bot)`: the bot's marker is gone; nothing happens if it was not there. */
  function RemoveMark(marks: map<int, set<Emoji>>, id: int, e: Emoji): (r: map<int, set<Emoji>>)
    ensures r.Keys == marks.Keys
    ensures MarksOf(r, id) == MarksOf(marks, id) - {e}
    ensures forall k | k in marks && k != id :: r[k] == marks[k]
  {
    if id in marks then marks[id := marks[id] - {e}] else marks
  }

  /** The bot's `add_reaction` shows in `message.reactions` of that message, and of no other. */
  lemma ReactionsAfterAdd(s: State, m: Message, id: int, e: Emoji)
    ensures Reactions(s.(marks := AddMark(s.marks, id, e)), m) ==
      if id == m.id then Reactions(s, m) + {e} else Reactions(s, m)
  {
  }

  /**
   The bot's `remove_reaction` takes away only its own reaction: the emoji
   leaves `message.reactions` unless someone else also reacted with it.
   */
  lemma ReactionsAfterRemove(s: State, m: Message, id: int, e: Emoji)
    ensures Reactions(s.(marks := RemoveMark(s.marks, id, e)), m) ==
      if id == m.id && e !in m.others then Reactions(s, m) - {e} else Reactions(s, m)
  {
    if id != m.id && id in s.marks && m.id in s.marks {
      assert MarksOf(RemoveMark(s.marks, id, e), m.id) == s.marks[m.id];
    }
  }

  /** The state of the database and of the bot's markers, which the handlers update in place. */
  class Bot {
    var quotes: map<int, Quote>
    var guilds: map<int, Guild>
    var marks: map<int, set<Emoji>>

    function Snapshot(): State
      reads this
    {
      State(quotes, guilds, marks)
    }

    /** Both tables are keyed by their primary key. */
    ghost predicate Valid()
      reads this
    {
      Keyed(Snapshot())
    }

    constructor (init: State)
      requires Keyed(init)
      ensures Valid() && Snapshot() == init
    {
      quotes, guilds, marks := init.quotes, init.guilds, init.marks;
    }

    /** `Quote.get_or_none(Quote.messageid == id)`. */
    method GetQuote(id: int) returns (r: Option<Quote>)
      requires Valid()
      ensures r.Some? <==> id in quotes
      ensures r.Some? ==> r.value == quotes[id] && r.value.messageId == id
    {
      r := if id in quotes then Some(quotes[id]) else None;
    }

    /** `Quote.create`: fails with an integrity error when the key is taken, and then changes nothing. */
    method CreateQuote(q: Quote) returns (ok: bool)
      requires Valid()
      modifies this
      ensures Valid()
      ensures ok <==> q.messageId !in old(quotes)
      ensures quotes == if ok then old(quotes)[q.messageId := q] else old(quotes)
      ensures guilds == old(guilds) && marks == old(marks)
    {
      ok := q.messageId !in quotes;
      if ok {
        quotes := quotes[q.messageId := q];
      }
    }

    /** `Quote.update(content, author).where(messageid == id)`: no row, no change. */
    method UpdateQuote(id: int, content: string, author: string)
      requires Valid()
      modifies this
      ensures Valid()
      ensures quotes == if id in old(quotes) then old(quotes)[id := old(quotes)[id].(content := content, author := author)] else old(quotes)
      ensures guilds == old(guilds) && marks == old(marks)
    {
      if id in quotes {
        quotes := quotes[id := quotes[id].(content := content, author := author)];
      }
    }

    /** `delete_instance` / delete by message id. */
    method DeleteQuote(id: int)
      requires Valid()
      modifies this
      ensures Valid()
      ensures quotes == old(quotes) - {id}
      ensures guilds == old(guilds) && marks == old(marks)
    {
      quotes := quotes - {id};
    }

    /** `Quote.delete().where(Quote.guildid == guildId)`. */
    method DeleteGuildQuotes(guildId: int)
      requires Valid()
      modifies this
      ensures Valid()
      ensures quotes == map k | k in old(quotes) && old(quotes)[k].guildId != guildId :: old(quotes)[k]
      ensures guilds == old(guilds) && marks == old(marks)
    {
      quotes := map k | k in quotes && quotes[k].guildId != guildId :: quotes[k];
    }

    /** `Guild.get_or_create(guildid=guildId)`: the row afterwards exists. */
    method GetOrCreateGuild(guildId: int) returns (g: Guild)
      requires Valid()
      modifies this
      ensures Valid()
      ensures g == GuildOrNew(old(guilds), guildId)
      ensures guilds == old(guilds)[guildId := g]
      ensures quotes == old(quotes) && marks == old(marks)
    {
      g := GuildOrNew(guilds, guildId);
      guilds := guilds[guildId := g];
    }

    /** `guild.save()`: the row is overwritten with the object's fields. */
    method SaveGuild(g: Guild)
      requires Valid()
      modifies this
      ensures Valid()
      ensures guilds == old(guilds)[g.guildId := g]
      ensures quotes == old(quotes) && marks == old(marks)
    {
      guilds := guilds[g.guildId := g];
    }

    /** `message.add_reaction(e)`. */
    method AddReaction(id: int, e: Emoji)
      requires Valid()
      modifies this
      ensures Valid()
      ensures marks == AddMark(old(marks), id, e)
      ensures quotes == old(quotes) && guilds == old(guilds)
    {
      marks := AddMark(marks, id, e);
    }

    /** `message.remove_reaction(e, bot)`; a missing marker is `NotFound`, caught by the callers. */
    method RemoveReaction(id: int, e: Emoji)
      requires Valid()
      modifies this
      ensures Valid()
      ensures marks == RemoveMark(old(marks), id, e)
      ensures quotes == old(quotes) && guilds == old(guilds)
    {
      marks := RemoveMark(marks, id, e);
    }
  }
}
