/**
 * The emotes bot's state and its command handlers.
 *
 * The bot's module-level state (the admin and blacklist lists, the last
 * message sent, the `emotes` cooldown and its length, the cached phrase
 * lists) is one `BotState` object whose methods are the handlers. The chat
 * library's command routing and checks are not modelled; each handler starts
 * with the check its decorator names. The background timers are modelled as
 * a list of pending expiries, and the firing of one as the `Expire` event.
 */
module Bot {
  import opened Wrappers
  import opened Text
  import opened Phrases
  import opened Stats
  import opened Access

  /** An incoming chat message: its author, its raw text, and whether it was a whisper. */
  datatype Message = Message(nick: string, data: string, isPrivate: bool)

  /** The contents of the configuration file. */
  datatype Config = Config(auth: string, admins: seq<string>, blacklist: seq<string>)

  /** What a handler did, as seen by the chat: dropped by its check, no reply, a reply, or an exception. */
  datatype Outcome = Dropped | NoReply | Replied(text: Option<string>) | Raised(error: Exception)

  const DEFAULT_COOLDOWN: nat := 30

  /**
   * The anti-repetition rule for public replies: a reply equal to the last
   * message gets " ." appended. A `None` reply equal to a `None` last message
   * cannot be appended to and raises.
   */
  function Dedupe(candidate: Option<string>, last: Option<string>): (r: Result<Option<string>, Exception>)
    ensures r.Err? <==> candidate.None? && last.None?
    ensures r.Err? ==> r.error == TypeError
    ensures r.Ok? ==> r.value != last
    ensures candidate != last ==> r == Ok(candidate)
    ensures candidate == last && candidate.Some? ==> r == Ok(Some(candidate.value + " ."))
  {
    if candidate == last then
      match candidate
      case None => Err(TypeError)
      case Some(text) => Ok(Some(text + " ."))
    else
      Ok(candidate)
  }

  /**
   * The argument `emotes` looks up: a bad word is replaced by no argument;
   * testing a missing argument may raise. No bad word is ever looked up.
   */
  function LookupArgument(requested: Option<string>, lists: PhraseLists, engine: Engine)
    : (r: Result<Option<string>, Exception>)
    ensures requested.Some? ==> r.Ok?
    ensures r.Ok? && r.value.Some? ==> r.value == requested && IsBadWord(r.value, lists, engine) == Ok(false)
    ensures r.Ok? && r.value.None? && requested.Some? ==> IsBadWord(requested, lists, engine) == Ok(true)
    ensures requested.None? ==> (r.Err? <==> lists.patterns != [])
    ensures r.Err? ==> r.error == TypeError
  {
    match IsBadWord(requested, lists, engine)
    case Err(e) => Err(e)
    case Ok(bad) => Ok(if bad then None else requested)
  }

  /**
   * `emotecd` on the raw message text: with a space, the second argument is
   * parsed (too few arguments is an `IndexError`); the new length is its
   * absolute value, and a non-integer leaves the length alone. Without a
   * space, the current length is reported. Gives the new length and the reply.
   */
  function CooldownCommand(data: string, current: nat): (r: Result<(nat, string), Exception>)
    ensures r.Err? <==> CountSpaces(data) >= 1 && |Tokens(data)| < 2
    ensures r.Err? ==> r.error == IndexError
    ensures CountSpaces(data) == 0 ==> r == Ok((current, "Cooldown is currently " + IntToString(current) + "s"))
    ensures r.Ok? && CountSpaces(data) >= 1 ==>
              match ParseInt(Tokens(data)[1])
              case None => r.value == (current, "Amount must be an integer")
              case Some(n) => r.value == (Abs(n), "Set cooldown to " + IntToString(Abs(n)) + "s")
  {
    if CountSpaces(data) >= 1 then
      var arguments := Tokens(data);
      if |arguments| < 2 then Err(IndexError)
      else
        match ParseInt(arguments[1])
        case None => Ok((current, "Amount must be an integer"))
        case Some(n) => Ok((Abs(n), "Set cooldown to " + IntToString(Abs(n)) + "s"))
    else
      Ok((current, "Cooldown is currently " + IntToString(current) + "s"))
  }

  /** `emotecd <n>` sets the length to |n| and echoes it back. */
  lemma CooldownSetRoundTrip(command: string, n: int, current: nat)
    requires IsWord(command)
    ensures CooldownCommand(command + " " + IntToString(n), current)
         == Ok((Abs(n), "Set cooldown to " + IntToString(Abs(n)) + "s"))
  {
    var data := command + " " + IntToString(n);
    IntToStringIsWord(n);
    TokensConcat(command, IntToString(n));
    TokensOfWord(command);
    TokensOfWord(IntToString(n));
    assert Tokens(data) == [command, IntToString(n)];
    assert CountSpaces(data) >= 1;
    ParseIntToString(n);
  }

  /** `emotecd <word>` where the word is not an integer keeps the length. */
  lemma CooldownRejectsNonInteger(command: string, argument: string, current: nat)
    requires IsWord(command) && IsWord(argument) && ParseInt(argument).None?
    ensures CooldownCommand(command + " " + argument, current) == Ok((current, "Amount must be an integer"))
  {
    var data := command + " " + argument;
    TokensConcat(command, argument);
    TokensOfWord(command);
    TokensOfWord(argument);
    assert Tokens(data) == [command, argument];
    assert CountSpaces(data) >= 1;
  }

  /** The reply to `blacklist` without arguments. */
  function BlacklistListing(blacklist: seq<string>): string {
    "Blacklisted users: " + Join(blacklist)
  }

  /** The reply to `admin` without arguments: it lists the blacklist, as the bot does. */
  function AdminListing(blacklist: seq<string>): string {
    "Admin users: " + Join(blacklist)
  }

  /** A two-word title, then a space-joined list of words, read back word by word. */
  lemma TitledListWords(a: string, b: string, names: seq<string>)
    requires IsWord(a) && IsWord(b) && AllWords(names)
    ensures Tokens(a + " " + b + " " + Join(names)) == [a, b] + names
  {
    TokensJoin(names);
    TokensConcat(a + " " + b, Join(names));
    TokensConcat(a, b);
    TokensOfWord(a);
    TokensOfWord(b);
  }

  /** Read word by word, the `blacklist` listing is its title, then the blacklisted handles in order. */
  lemma BlacklistListingWords(blacklist: seq<string>)
    requires AllWords(blacklist)
    ensures Tokens(BlacklistListing(blacklist)) == ["Blacklisted", "users:"] + blacklist
  {
    assert BlacklistListing(blacklist) == "Blacklisted" + " " + "users:" + " " + Join(blacklist);
    TitledListWords("Blacklisted", "users:", blacklist);
  }

  /** Read word by word, the `admin` listing is its title, then the blacklisted (not the admin) handles in order. */
  lemma AdminListingWords(blacklist: seq<string>)
    requires AllWords(blacklist)
    ensures Tokens(AdminListing(blacklist)) == ["Admin", "users:"] + blacklist
  {
    assert AdminListing(blacklist) == "Admin" + " " + "users:" + " " + Join(blacklist);
    TitledListWords("Admin", "users:", blacklist);
  }

  class BotState {
    const auth: string
    var admins: seq<string>
    var blacklist: seq<string>
    var lastMessage: Option<string>
    var cooldownLen: nat
    /** Whether the `emotes` cooldown is running. */
    var cooldownActive: bool
    /** The lengths of the started timers that have not fired yet, oldest first. */
    var timers: seq<nat>
    var phraseCache: Option<PhraseLists>
    /** What the configuration file holds. */
    ghost var savedConfig: Config

    /**
     * The configuration file always holds the current lists, and a running
     * cooldown always has a timer pending that will end it.
     */
    ghost predicate Valid()
      reads this
    {
      && savedConfig == Config(auth, admins, blacklist)
      && (cooldownActive ==> timers != [])
    }

    /** Start-up from the configuration file. */
    constructor (config: Config)
      ensures Valid()
      ensures auth == config.auth && admins == config.admins && blacklist == config.blacklist
      ensures lastMessage == Some("") && cooldownLen == DEFAULT_COOLDOWN
      ensures !cooldownActive && timers == [] && phraseCache == None
    {
      auth := config.auth;
      admins := config.admins;
      blacklist := config.blacklist;
      lastMessage := Some("");
      cooldownLen := DEFAULT_COOLDOWN;
      cooldownActive := false;
      timers := [];
      phraseCache := None;
      savedConfig := config;
    }

    /** The `is_admin` check. */
    predicate IsAdmin(nick: string)
      reads this
    {
      nick in admins
    }

    /** The `not_blacklisted` check. */
    predicate NotBlacklisted(nick: string)
      reads this
    {
      nick !in blacklist
    }

    /** Whether `emotes` does anything: for admins, for whispers, or when the cooldown is off. */
    predicate EmotesGateOpen(msg: Message)
      reads this
    {
      IsAdmin(msg.nick) || msg.isPrivate || !cooldownActive
    }

    /** Both checks consult the lists the configuration file holds. */
    lemma ChecksFollowConfig(nick: string)
      requires Valid()
      ensures IsAdmin(nick) <==> nick in savedConfig.admins
      ensures NotBlacklisted(nick) <==> nick !in savedConfig.blacklist
    {
    }

    /**
     * `emotes` is shut only for a public message from a non-admin while the
     * cooldown runs, and then some pending timer will reopen it.
     */
    lemma ClosedGateHasTimer(msg: Message)
      requires Valid()
      ensures !EmotesGateOpen(msg) <==> cooldownActive && !msg.isPrivate && msg.nick !in admins
      ensures !EmotesGateOpen(msg) ==> timers != []
    {
    }

    /** The phrase lists `get_phrases` gives when the source answers `fetched`. */
    function PhrasesFor(fetched: seq<string>, engine: Engine): PhraseLists
      reads this
    {
      if phraseCache.Some? then phraseCache.value else Classify(fetched, engine)
    }

    /** `save_config`: the file is rewritten with the current lists. */
    ghost method SaveConfig()
      modifies this`savedConfig
      ensures savedConfig == Config(auth, admins, blacklist)
    {
      savedConfig := Config(auth, admins, blacklist);
    }

    /**
     * `get_phrases` with its cache: the source is consulted only when the cache
     * is empty; otherwise the cached lists are returned unchanged.
     */
    method GetPhrases(fetched: seq<string>, engine: Engine) returns (lists: PhraseLists)
      requires Valid()
      modifies this`phraseCache
      ensures Valid()
      ensures old(phraseCache).Some? ==> lists == old(phraseCache).value && phraseCache == old(phraseCache)
      ensures old(phraseCache).None? ==> lists == Classify(fetched, engine) && phraseCache == Some(lists)
    {
      if phraseCache.Some? {
        return phraseCache.value;
      }
      lists := ClassifyPhrases(fetched, engine);
      phraseCache := Some(lists);
    }

    /** `check_for_bad_word`: fills the cache if needed, then tests the text. */
    method CheckForBadWord(text: Option<string>, fetched: seq<string>, engine: Engine)
      returns (r: Result<bool, Exception>)
      requires Valid()
      modifies this`phraseCache
      ensures Valid()
      ensures phraseCache == Some(old(PhrasesFor(fetched, engine)))
      ensures r == IsBadWord(text, phraseCache.value, engine)
    {
      var lists := GetPhrases(fetched, engine);
      r := IsBadWord(text, lists, engine);
    }

    /** `start_cooldown`: the cooldown runs, with a timer of the length set at this moment. */
    method StartCooldown()
      requires Valid()
      modifies this`cooldownActive, this`timers
      ensures Valid()
      ensures cooldownActive && timers == old(timers) + [cooldownLen]
    {
      cooldownActive := true;
      timers := timers + [cooldownLen];
    }

    /**
     * `end_cooldown`, run when the pending timer at index `i` fires. Earlier
     * timers are never cancelled, so any of them ends the cooldown.
     */
    method Expire(i: nat)
      requires Valid() && i < |timers|
      modifies this`cooldownActive, this`timers
      ensures Valid()
      ensures !cooldownActive && timers == old(timers[..i] + timers[i + 1..])
    {
      cooldownActive := false;
      timers := timers[..i] + timers[i + 1..];
    }

    /**
     * The `emotes` command, with the argument the chat library split off.
     * Public replies avoid repeating the last message, become the last
     * message and start the cooldown; whispers change neither.
     */
    method Emotes(msg: Message, requested: Option<string>, fetched: seq<string>, engine: Engine, api: StatsApi)
      returns (outcome: Outcome)
      requires Valid()
      modifies this
      ensures Valid()
      ensures admins == old(admins) && blacklist == old(blacklist) && cooldownLen == old(cooldownLen)
      ensures !old(NotBlacklisted(msg.nick)) ==> outcome == Dropped && unchanged(this)
      ensures old(NotBlacklisted(msg.nick)) && !old(EmotesGateOpen(msg)) ==> outcome == NoReply && unchanged(this)
      ensures old(NotBlacklisted(msg.nick) && EmotesGateOpen(msg)) ==>
        && phraseCache == Some(old(PhrasesFor(fetched, engine)))
        && var argument := LookupArgument(requested, phraseCache.value, engine);
           if argument.Err? then
             outcome == Raised(argument.error)
             && lastMessage == old(lastMessage) && cooldownActive == old(cooldownActive) && timers == old(timers)
           else
             var candidate := GenerateLink(msg.nick, argument.value, api);
             var sent := Dedupe(candidate, old(lastMessage));
             if msg.isPrivate then
               outcome == Replied(candidate)
               && lastMessage == old(lastMessage) && cooldownActive == old(cooldownActive) && timers == old(timers)
             else if sent.Err? then
               outcome == Raised(sent.error)
               && lastMessage == old(lastMessage) && cooldownActive == old(cooldownActive) && timers == old(timers)
             else
               outcome == Replied(sent.value) && lastMessage == sent.value
               && cooldownActive && timers == old(timers) + [cooldownLen]
      ensures outcome.Replied? && !msg.isPrivate ==> outcome.text != old(lastMessage) && lastMessage == outcome.text
    {
      if !NotBlacklisted(msg.nick) {
        return Dropped;
      }
      if !(IsAdmin(msg.nick) || msg.isPrivate || !cooldownActive) {
        return NoReply;
      }
      var bad := CheckForBadWord(requested, fetched, engine);
      if bad.Err? {
        return Raised(bad.error);
      }
      var argument := if bad.value then None else requested;
      var reply := GenerateLink(msg.nick, argument, api);
      if !msg.isPrivate {
        var sent := Dedupe(reply, lastMessage);
        if sent.Err? {
          return Raised(sent.error);
        }
        reply := sent.value;
        lastMessage := reply;
        StartCooldown();
      }
      outcome := Replied(reply);
    }

    /**
     * The `emotecd` command. Every reply, whispered or not, becomes the last
     * message; a running cooldown keeps the length it started with.
     */
    method EmoteCd(msg: Message) returns (outcome: Outcome)
      requires Valid()
      modifies this
      ensures Valid()
      ensures admins == old(admins) && blacklist == old(blacklist) && phraseCache == old(phraseCache)
      ensures cooldownActive == old(cooldownActive) && timers == old(timers)
      ensures !old(IsAdmin(msg.nick)) ==> outcome == Dropped && unchanged(this)
      ensures old(IsAdmin(msg.nick)) ==>
        var r := CooldownCommand(msg.data, old(cooldownLen));
        && (r.Err? ==> outcome == Raised(r.error) && unchanged(this))
        && (r.Ok? ==> cooldownLen == r.value.0 && lastMessage == Some(r.value.1)
                      && outcome == Replied(Some(r.value.1)))
    {
      if !IsAdmin(msg.nick) {
        return Dropped;
      }
      var reply: string;
      if CountSpaces(msg.data) >= 1 {
        var arguments := Tokens(msg.data);
        if |arguments| < 2 {
          return Raised(IndexError);
        }
        var length := ParseInt(arguments[1]);
        if length.None? {
          reply := "Amount must be an integer";
          lastMessage := Some(reply);
          return Replied(Some(reply));
        }
        cooldownLen := Abs(length.value);
        reply := "Set cooldown to " + IntToString(cooldownLen) + "s";
      } else {
        reply := "Cooldown is currently " + IntToString(cooldownLen) + "s";
      }
      lastMessage := Some(reply);
      outcome := Replied(Some(reply));
    }

    /**
     * The `blacklist` command: adds or removes a handle, or lists the
     * blacklist. The admin list is never touched, and the configuration file
     * is rewritten in every branch.
     */
    method BlacklistCommand(msg: Message) returns (outcome: Outcome)
      requires Valid()
      modifies this
      ensures Valid()
      ensures admins == old(admins) && phraseCache == old(phraseCache) && cooldownLen == old(cooldownLen)
      ensures cooldownActive == old(cooldownActive) && timers == old(timers)
      ensures !old(IsAdmin(msg.nick)) ==> outcome == Dropped && unchanged(this)
      ensures old(IsAdmin(msg.nick)) ==>
        var r := MembershipCommand(msg.data, old(blacklist), "blacklist", BlacklistListing(old(blacklist)));
        && (r.Err? ==> outcome == Raised(r.error) && unchanged(this))
        && (r.Ok? ==> blacklist == r.value.0 && lastMessage == Some(r.value.1)
                      && outcome == Replied(Some(r.value.1)))
      ensures (old(IsAdmin(msg.nick)) && CountSpaces(msg.data) >= 2 && |Tokens(msg.data)| >= 3
               && Tokens(msg.data)[1] == "add") ==> !NotBlacklisted(Tokens(msg.data)[2])
    {
      if !IsAdmin(msg.nick) {
        return Dropped;
      }
      var reply: string;
      if CountSpaces(msg.data) >= 2 {
        var arguments := Tokens(msg.data);
        if |arguments| < 3 {
          return Raised(ValueError);
        }
        var mode, user := arguments[1], arguments[2];
        if mode == "add" && user !in blacklist {
          blacklist := blacklist + [user];
          reply := "Added " + user + " to blacklist";
          assert reply == "Added " + user + " to " + "blacklist";
        } else if mode == "remove" && user in blacklist {
          blacklist := RemoveFirst(blacklist, user);
          reply := "Removed " + user + " from blacklist";
          assert reply == "Removed " + user + " from " + "blacklist";
        } else {
          reply := "Invalid user";
        }
      } else {
        reply := BlacklistListing(blacklist);
      }
      SaveConfig();
      lastMessage := Some(reply);
      outcome := Replied(Some(reply));
    }

    /**
     * The `admin` command: adds or removes an admin; its listing shows the
     * blacklist. Its body repeats that of `blacklist` with the admin list and
     * its own reply words, as the two handlers do. The blacklist is never
     * touched, and the configuration file is rewritten in every branch.
     */
    method AdminCommand(msg: Message) returns (outcome: Outcome)
      requires Valid()
      modifies this
      ensures Valid()
      ensures blacklist == old(blacklist) && phraseCache == old(phraseCache) && cooldownLen == old(cooldownLen)
      ensures cooldownActive == old(cooldownActive) && timers == old(timers)
      ensures !old(IsAdmin(msg.nick)) ==> outcome == Dropped && unchanged(this)
      ensures old(IsAdmin(msg.nick)) ==>
        var r := MembershipCommand(msg.data, old(admins), "admins", AdminListing(old(blacklist)));
        && (r.Err? ==> outcome == Raised(r.error) && unchanged(this))
        && (r.Ok? ==> admins == r.value.0 && lastMessage == Some(r.value.1)
                      && outcome == Replied(Some(r.value.1)))
      ensures (old(IsAdmin(msg.nick)) && CountSpaces(msg.data) >= 2 && |Tokens(msg.data)| >= 3
               && Tokens(msg.data)[1] == "add") ==> IsAdmin(Tokens(msg.data)[2])
    {
      if !IsAdmin(msg.nick) {
        return Dropped;
      }
      var reply: string;
      if CountSpaces(msg.data) >= 2 {
        var arguments := Tokens(msg.data);
        if |arguments| < 3 {
          return Raised(ValueError);
        }
        var mode, user := arguments[1], arguments[2];
        if mode == "add" && user !in admins {
          admins := admins + [user];
          reply := "Added " + user + " to admins";
          assert reply == "Added " + user + " to " + "admins";
        } else if mode == "remove" && user in admins {
          admins := RemoveFirst(admins, user);
          reply := "Removed " + user + " from admins";
          assert reply == "Removed " + user + " from " + "admins";
        } else {
          reply := "Invalid user";
        }
      } else {
        reply := AdminListing(blacklist);
      }
      SaveConfig();
      lastMessage := Some(reply);
      outcome := Replied(Some(reply));
    }

    /** The `updatephrases` command: empties the phrase cache and nothing else; no reply. */
    method UpdatePhrases(msg: Message) returns (outcome: Outcome)
      requires Valid()
      modifies this
      ensures Valid()
      ensures !old(IsAdmin(msg.nick)) ==> outcome == Dropped && unchanged(this)
      ensures old(IsAdmin(msg.nick)) ==> outcome == NoReply && phraseCache == None
      ensures admins == old(admins) && blacklist == old(blacklist) && lastMessage == old(lastMessage)
      ensures cooldownLen == old(cooldownLen) && cooldownActive == old(cooldownActive) && timers == old(timers)
    {
      if !IsAdmin(msg.nick) {
        return Dropped;
      }
      phraseCache := None;
      outcome := NoReply;
    }
  }
}
