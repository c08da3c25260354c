# Emotes bot: a Dafny model of its command logic

The emotes bot sits in a chat room and answers the `emotes` command with
statistics links from a stats site. Admins manage it with `emotecd`,
`blacklist`, `admin` and `updatephrases`. This project models the logic of
`main.py`. That covers four things:

- the phrase filter: a remote phrase list is split into literal phrases and
  regular expressions, and a text counts as a bad word when it equals a
  literal phrase or when some pattern finds a match in it;
- `generate_link`: how the reply is chosen from the stats API's answers;
- the command handlers, as methods of one `BotState` object. The object holds
  the admin and blacklist lists, the last message sent, the `emotes` cooldown
  and its length, the cached phrase lists, and a ghost snapshot of the
  configuration file;
- the exceptions the handlers really raise on some inputs. They are modelled
  as outcomes, not excluded by preconditions:
  - `emotes` with no argument raises a `TypeError` while any phrase pattern
    exists, because `regex.search(None)` raises;
  - two `None` replies in a row in public raise a `TypeError` at `None + " ."`;
  - `emotecd` followed only by spaces raises an `IndexError`;
  - `blacklist`/`admin` with repeated spaces but fewer than three arguments
    raise a `ValueError` when the arguments are unpacked.

Modules:

- `Wrappers` holds `Option`, `Result` and the exceptions.
- `Text` models the Python string operations the handlers use: `count`,
  `split`, `join`, int formatting and `int()`.
- `Phrases` is the phrase filter.
- `Stats` is `generate_link`.
- `Access` holds the add/remove logic that `blacklist` and `admin` share.
- `Bot` holds the `BotState` class and its handlers.

Behaviours of `main.py` the model keeps as written:

- A `/…/` phrase whose interior does not compile is kept as a literal phrase,
  not discarded (`main.py:54-58`).
- Starting the cooldown never cancels an earlier timer (`main.py:110`). The
  model keeps every pending timer, and any of them ends the cooldown when it
  fires. "Last start wins" does not hold.
- A `None` reply is still stored as the last message (`main.py:128-132`), so
  the last message is an `Option<string>`.
- The `admin` listing shows the blacklist (`main.py:199`). The model keeps this.

## Model

| member | source | states |
|---|---|---|
| `Text.Split` | main.py:140-141 | `str.split(" ")` yields one piece more than there are spaces, and no piece contains a space |
| `Text.JoinSplit` | main.py:141 | joining the pieces of a split with single spaces gives back the original text |
| `Text.Tokens` | main.py:141 | the argument list `[i for i in data.split(" ") if i]` has at most one entry more than there are spaces, and every argument is a non-empty, space-free word |
| `Text.SplitConcat` | main.py:141 | splitting `x + " " + y` gives the pieces of `x` followed by the pieces of `y` |
| `Text.TokensConcat` | main.py:141 | the arguments of `x + " " + y` are those of `x` followed by those of `y` |
| `Text.TokensOfWord` | main.py:141 | a single word is its own only argument |
| `Text.TokensJoin` | main.py:75 | splitting a `" ".join` of words gives back the same words, in order |
| `Text.DigitsOfNat` | main.py:149 | the decimal digits rendered for a natural number evaluate back to that number |
| `Text.IntToStringIsWord` | main.py:149 | a rendered integer is one non-empty word without spaces |
| `Text.ParseInt` | main.py:143 | `int()` on a token: a text parses iff it is a digit or a sign followed by digits only; a digits-only text gives its decimal value, a signed one the value of its digits, negated after `-` (so `+5` is 5 and `-05` is -5); a text with a space is never an integer |
| `Text.ParseIntToString` | main.py:143 | `int()` applied to a rendered integer gives the same integer back |
| `Phrases.IsRegex` | main.py:40-45 | a compiled result comes only from a slash-shaped phrase whose interior compiles, and for a phrase without newlines it is that phrase with the two slashes taken off; a slash-shaped phrase gives nothing only when its interior does not compile |
| `Phrases.WrappedPatternRoundTrip` | main.py:40-45 | a source without newlines written between two slashes is recognised as exactly that source, compiled, iff the source compiles |
| `Phrases.SlashShapedWithoutNewline` | main.py:27 | for a phrase with no newline, the `^/.*/$` test holds iff the phrase has at least two characters and starts and ends with `/` |
| `Phrases.LiteralsAppend` | main.py:54-58 | the literal list of `a + b` is the literal list of `a` followed by that of `b` (input order is kept) |
| `Phrases.PatternsAppend` | main.py:54-56 | the pattern list of `a + b` is the pattern list of `a` followed by that of `b` (input order is kept) |
| `Phrases.ClassifyPhrases` | main.py:52-59 | the classification loop produces exactly the literal list and the pattern list of the input |
| `Phrases.ClassificationPartition` | main.py:54-58 | every phrase is kept exactly once: the literals and the entries that became patterns together make up the input multiset |
| `Phrases.PatternsCompileEntries` | main.py:55-56 | there are as many patterns as entries that became patterns, and the k-th pattern is the compiled k-th such entry |
| `Phrases.LiteralMembership` | main.py:40-45 | a phrase is in the literal list iff it occurs in the input and `is_regex` rejects it |
| `Phrases.PatternMembership` | main.py:40-45 | a pattern is in the pattern list iff some input phrase is slash-shaped and its interior compiles to that pattern |
| `Phrases.InvalidPatternStaysLiteral` | main.py:42-45 | a slash-wrapped phrase whose interior does not compile is kept as a literal, not dropped |
| `Phrases.AnySearch` | main.py:64 | `any(regex.search(text) ...)` is true iff some pattern in the list finds a match in the text |
| `Phrases.IsBadWord` | main.py:62-64 | for a text: true iff it equals a literal phrase or some pattern finds a match in it; for `None`: an error iff any pattern exists, else false; the only error is `TypeError` |
| `Phrases.BadWordOfPhrases` | main.py:54-64 | against the raw phrase list, a text is a bad word iff it is a phrase that stayed literal or some phrase that compiled finds a match in it; every literal phrase tests true |
| `Stats.Take3` | main.py:74 | `[:3]` keeps at most three names, and they are a prefix of the list |
| `Stats.UserResponse` | main.py:68-78 | a reply exists iff the user has a stats record; it ends with the profile link, and it starts with `Top 3 emotes: ` iff the record lists emotes |
| `Stats.EmoteResponse` | main.py:80-91 | a reply exists iff the emotes endpoint lists the name, and it ends with the emote's link |
| `Stats.GenerateLink` | main.py:93-102 | a known emote's reply wins over a user reply; the result is absent iff an explicit argument names neither an emote nor a user; with no argument, the reply is the author's user reply when there is a record and the fixed fallback text otherwise |
| `Stats.EmoteBeatsUser` | main.py:94-98 | for a known emote name the reply does not depend on the user endpoint at all |
| `Stats.SelfLookup` | main.py:99-101 | with no argument there is always a reply; it is the fallback text exactly when the author has no stats record, and otherwise it is the author's own user reply |
| `Stats.TopEmotesReplyWords` | main.py:68-75 | read word by word, a user reply with emotes is `Top 3 emotes:`, then the first at most three emote names in API order, then the profile link |
| `Stats.LevelReplyWords` | main.py:76-77 | read word by word, a user reply without emotes is `Level`, the level (which parses back to itself), `chatter:`, then the profile link |
| `Stats.EmoteReplyWords` | main.py:80-91 | read word by word, an emote reply is `Top 3 <emote> posters:`, then every top poster in API order, then the emote link |
| `Access.RemoveFirst` | main.py:166 | `list.remove` takes away the first copy of the handle and keeps the others in order: the result is the list without the position of its first occurrence, so the length drops by one and the multiset loses one occurrence |
| `Access.RemoveFromDistinct` | main.py:166 | removing a handle from a list without repeats leaves no copy of it and no repeats |
| `Access.ApplyMode` | main.py:162-169 | `add` appends a handle iff it is absent, `remove` drops its first copy (others keep their order) iff it is present, and anything else is invalid and changes nothing |
| `Access.ChangeReplyWords` | main.py:164-169 | read word by word, the reply is `Added <user> to <list>`, `Removed <user> from <list>` or `Invalid user` |
| `Access.ApplyModeMembership` | main.py:162-169 | applying a request keeps a list free of repeats; afterwards the handle is a member iff the request was `add`, or it was already a member and the request was not `remove` |
| `Access.AddTwiceIsInvalid` | main.py:162 | a second identical `add` is invalid |
| `Access.MembershipCommand` | main.py:159-171 | with two spaces or more and fewer than three arguments the command raises `ValueError`; with fewer than two spaces it gives the listing and leaves the list alone; otherwise the list changes only through a valid add/remove, and the reply names the change |
| `Access.AddRequestRoundTrip` | main.py:159-164 | the text `<command> add <user>` for an absent user appends the user and replies `Added <user> to <list>` |
| `Bot.Dedupe` | main.py:129-132 | the public reply always differs from the last message: it is the candidate, or the candidate + " ." when they are equal; two `None`s, and only they, raise, and the error is a `TypeError` |
| `Bot.LookupArgument` | main.py:126-127 | no bad word is ever looked up: a bad argument becomes no argument; a present argument never raises; a missing one raises iff any pattern exists, and the error is a `TypeError` |
| `Bot.CooldownCommand` | main.py:140-151 | `emotecd` raises `IndexError` iff there is a space but fewer than two arguments; an integer sets the length to its absolute value; a non-integer keeps the length; no space reports the current length |
| `Bot.CooldownSetRoundTrip` | main.py:140-149 | `emotecd <n>` sets the length to the absolute value of n and replies `Set cooldown to <that value>s` |
| `Bot.CooldownRejectsNonInteger` | main.py:143-147 | `emotecd <word>` for a non-integer word replies `Amount must be an integer` and keeps the length |
| `Bot.BlacklistListingWords` | main.py:171 | read word by word, the `blacklist` listing is `Blacklisted users:` and then the blacklisted handles in order |
| `Bot.AdminListingWords` | main.py:199 | read word by word, the `admin` listing is `Admin users:` and then the blacklisted handles in order: it shows the blacklist, not the admins |
| `Bot.BotState.constructor` | main.py:19-24 | start-up: the lists come from the configuration, the last message is empty, the cooldown length is 30 and inactive, and the phrase cache is empty |
| `Bot.BotState.SaveConfig` | main.py:30-37 | the configuration snapshot becomes the current token, admins and blacklist |
| `Bot.BotState.ChecksFollowConfig` | main.py:114-119 | `is_admin` holds iff the handle is in the admin list and `not_blacklisted` iff it is not in the blacklist, and both lists are the ones the configuration file holds |
| `Bot.BotState.ClosedGateHasTimer` | main.py:125 | `emotes` is shut exactly for a public message from a non-admin while the cooldown runs, and then a pending timer will end the cooldown |
| `Bot.BotState.GetPhrases` | main.py:48-59 | the phrase source is consulted only when the cache is empty; otherwise the cached lists are returned unchanged |
| `Bot.BotState.CheckForBadWord` | main.py:62-64 | fills the phrase cache if needed, then tests the text against the cached lists |
| `Bot.BotState.StartCooldown` | main.py:109-111 | the cooldown becomes active, and a timer with the length read at that moment is added to the pending ones |
| `Bot.BotState.Expire` | main.py:105-106 | a pending timer that fires ends the cooldown and is no longer pending |
| `Bot.BotState.Emotes` | main.py:122-134 | a blacklisted author is dropped; a non-admin public message during the cooldown changes nothing and gets no reply; otherwise a bad argument becomes no argument, and a public reply differs from the previous last message, becomes the last message and starts the cooldown, while a whisper changes neither; the lists and the length are never touched |
| `Bot.BotState.EmoteCd` | main.py:137-153 | non-admins are dropped; otherwise the length and the reply are those of `CooldownCommand`, the reply becomes the last message even when whispered, and a running cooldown is unaffected |
| `Bot.BotState.BlacklistCommand` | main.py:156-174 | non-admins are dropped; otherwise the blacklist and the reply are those of `MembershipCommand` on the blacklist, the reply becomes the last message, the admin list is untouched, and the configuration snapshot matches the lists; after an `add` request the handle no longer passes `not_blacklisted` |
| `Bot.BotState.AdminCommand` | main.py:184-202 | non-admins are dropped; otherwise the admin list and the reply are those of `MembershipCommand` on the admin list, with the blacklist as its listing; the blacklist is untouched and the configuration snapshot matches the lists; after an `add` request the handle passes `is_admin` |
| `Bot.BotState.UpdatePhrases` | main.py:177-181 | non-admins are dropped; otherwise the phrase cache is emptied, nothing else changes, and there is no reply |

## Left out

- HTTP: the phrase source and the stats API are not called. Their decoded answers are parameters: `fetched` for the phrase list and `StatsApi` for the stats endpoints. Network failures and JSON decoding are not modelled.
- Python's regular expressions: whether a pattern compiles and whether it finds a match are the uninterpreted fields of `Phrases.Engine`.
- Threads and wall-clock time: a timer firing is the explicit `Expire` event. The race between a timer thread and a handler is not modelled.
- The chat library: command routing, argument splitting for `emotes`, the check decorators, `msg.reply` and the reconnect loop are not modelled. Each handler applies its check as an explicit guard and returns what it would send. `emotes` takes its argument as a parameter.
- File I/O: reading the configuration becomes the constructor's argument, and writing it becomes an assignment to the ghost snapshot `savedConfig`.
- Logging is not modelled.
- Text.ParseInt: accepts an optional sign followed by ASCII digits only. `int()` also accepts underscores between digits, surrounding tabs or other non-space whitespace, and non-ASCII digits; the model treats those as non-integers, because Python's full numeric-literal grammar is outside the model.
