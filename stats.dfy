/**
 * `generate_link`: the reply the `emotes` command gives, chosen from the
 * answers of the stats API. The HTTP calls are not modelled; a `StatsApi`
 * value holds what the three endpoints answer.
 */
module Stats {
  import opened Wrappers
  import opened Text

  /** A non-empty answer of the user endpoint: a level and the emote names, in the API's order. */
  datatype UserStats = UserStats(level: int, emotes: seq<string>)

  /**
   * The stats API: the names listed by the emotes endpoint, the user endpoint
   * (`None` for an empty answer) and the top posters of an emote, in the
   * order the API lists them.
   */
  datatype StatsApi = StatsApi(
    emoteNames: set<string>,
    user: string -> Option<UserStats>,
    topPosters: string -> seq<string>)

  const NO_STATS_REPLY := "No stats exist for your username"

  function UserLink(user: string): string {
    "tena.dev/users/" + user
  }

  function EmoteLink(emote: string): string {
    "tena.dev/emotes/" + emote
  }

  /** `list(...)[:3]`. */
  function Take3(s: seq<string>): (r: seq<string>)
    ensures |r| <= 3 && |r| <= |s| && r == s[..|r|]
    ensures |s| >= 3 ==> |r| == 3
    ensures |s| < 3 ==> r == s
  {
    if |s| <= 3 then s else s[..3]
  }

  /**
   * `user_response`: no reply without a stats record; otherwise the top
   * emotes when there are any, else the level, and the profile link last.
   */
  function UserResponse(user: string, api: StatsApi): (r: Option<string>)
    ensures r.None? <==> api.user(user).None?
    ensures r.Some? ==> |r.value| >= |UserLink(user)| && r.value[|r.value| - |UserLink(user)|..] == UserLink(user)
    ensures r.Some? ==> (r.value[..14] == "Top 3 emotes: " <==> api.user(user).value.emotes != [])
  {
    match api.user(user)
    case None => None
    case Some(stats) =>
      if stats.emotes != [] then
        Some("Top 3 emotes: " + Join(Take3(stats.emotes)) + " " + UserLink(user))
      else
        var reply := "Level " + IntToString(stats.level) + " chatter: " + UserLink(user);
        assert reply[..14][0] == 'L';
        Some(reply)
  }

  /** `emote_response`: a reply only for a name the emotes endpoint lists, with the emote's link last. */
  function EmoteResponse(emote: string, api: StatsApi): (r: Option<string>)
    ensures r.Some? <==> emote in api.emoteNames
    ensures r.Some? ==> |r.value| >= |EmoteLink(emote)| && r.value[|r.value| - |EmoteLink(emote)|..] == EmoteLink(emote)
  {
    if emote in api.emoteNames then
      Some("Top 3 " + emote + " posters: " + Join(api.topPosters(emote)) + " " + EmoteLink(emote))
    else
      None
  }

  /**
   * `generate_link`: with an argument, the emote reply, else the user reply
   * for the argument, else nothing; without one, the author's user reply or
   * the fixed fallback.
   */
  function GenerateLink(author: string, requested: Option<string>, api: StatsApi): (r: Option<string>)
    ensures r.None? <==> requested.Some? && requested.value !in api.emoteNames && api.user(requested.value).None?
    ensures requested.Some? && requested.value in api.emoteNames ==> r == EmoteResponse(requested.value, api)
    ensures requested.Some? && requested.value !in api.emoteNames ==> r == UserResponse(requested.value, api)
    ensures requested.None? && api.user(author).None? ==> r == Some(NO_STATS_REPLY)
    ensures requested.None? && api.user(author).Some? ==> r == UserResponse(author, api)
  {
    match requested
    case Some(q) =>
      if EmoteResponse(q, api).Some? then EmoteResponse(q, api) else UserResponse(q, api)
    case None =>
      var own := UserResponse(author, api);
      if own.Some? then own else Some(NO_STATS_REPLY)
  }

  /**
   * The emote reply wins over the user reply: for a known emote name the
   * reply does not depend on the user endpoint at all.
   */
  lemma EmoteBeatsUser(author: string, q: string, api: StatsApi, users: string -> Option<UserStats>)
    requires q in api.emoteNames
    ensures GenerateLink(author, Some(q), api) == GenerateLink(author, Some(q), api.(user := users))
    ensures GenerateLink(author, Some(q), api) == EmoteResponse(q, api)
  {
  }

  /**
   * Without an argument there is always a reply, and it is the fallback
   * text exactly when the author has no stats record.
   */
  lemma SelfLookup(author: string, api: StatsApi)
    ensures GenerateLink(author, None, api).Some?
    ensures GenerateLink(author, None, api) == Some(NO_STATS_REPLY) <==> api.user(author).None?
    ensures api.user(author).Some? ==> GenerateLink(author, None, api) == UserResponse(author, api)
  {
    var r := GenerateLink(author, None, api);
    if api.user(author).Some? {
      var reply := UserResponse(author, api).value;
      assert reply[0] == 'T' || reply[0] == 'L';
      assert NO_STATS_REPLY[0] == 'N';
    }
  }

  /** A link is a word when the name it ends with is one. */
  lemma LinkIsWord(prefix: string, name: string)
    requires ' ' !in prefix && IsWord(name)
    ensures IsWord(prefix + name)
  {
    var link := prefix + name;
    forall i | 0 <= i < |link| ensures link[i] != ' ' {
      if i < |prefix| {
        assert link[i] == prefix[i];
        assert prefix[i] in prefix;
      } else {
        assert link[i] == name[i - |prefix|];
        assert name[i - |prefix|] in name;
      }
    }
  }

  /** Three words, a space-joined list of words and a last word, read back word by word. */
  lemma HeaderListLinkWords(a: string, b: string, c: string, middle: seq<string>, link: string)
    requires IsWord(a) && IsWord(b) && IsWord(c) && AllWords(middle) && IsWord(link)
    ensures Tokens(a + " " + b + " " + c + " " + Join(middle) + " " + link) == [a, b, c] + middle + [link]
  {
    ThreeWords(a, b, c);
    TokensJoin(middle);
    TokensOfWord(link);
    TokensAround(a + " " + b + " " + c, Join(middle), link);
  }

  /**
   * Read word by word, a user reply with emote names is the header, then the
   * first (at most three) emote names in the API's order, then the profile link.
   */
  lemma TopEmotesReplyWords(user: string, api: StatsApi)
    requires IsWord(user) && api.user(user).Some? && AllWords(api.user(user).value.emotes)
    requires api.user(user).value.emotes != []
    ensures Tokens(UserResponse(user, api).value)
         == ["Top", "3", "emotes:"] + Take3(api.user(user).value.emotes) + [UserLink(user)]
  {
    var names := Take3(api.user(user).value.emotes);
    LinkIsWord("tena.dev/users/", user);
    assert UserResponse(user, api).value
        == "Top" + " " + "3" + " " + "emotes:" + " " + Join(names) + " " + UserLink(user);
    HeaderListLinkWords("Top", "3", "emotes:", names, UserLink(user));
  }

  /**
   * Read word by word, a user reply without emote names gives the level,
   * then the profile link.
   */
  lemma LevelReplyWords(user: string, api: StatsApi)
    requires IsWord(user) && api.user(user).Some? && api.user(user).value.emotes == []
    ensures Tokens(UserResponse(user, api).value)
         == ["Level", IntToString(api.user(user).value.level), "chatter:", UserLink(user)]
    ensures ParseInt(Tokens(UserResponse(user, api).value)[1]) == Some(api.user(user).value.level)
  {
    var level := IntToString(api.user(user).value.level);
    LinkIsWord("tena.dev/users/", user);
    IntToStringIsWord(api.user(user).value.level);
    assert UserResponse(user, api).value == "Level" + " " + level + " " + "chatter:" + " " + UserLink(user);
    FourWords("Level", level, "chatter:", UserLink(user));
    ParseIntToString(api.user(user).value.level);
  }

  lemma EmoteHeaderTokens(emote: string)
    requires IsWord(emote)
    ensures Tokens("Top 3 " + emote + " posters:") == ["Top", "3", emote, "posters:"]
  {
    TokensOfWord(emote);
    assert "Top 3 " + emote + " posters:" == ("Top" + " " + "3") + " " + emote + " " + "posters:";
    TokensAround("Top" + " " + "3", emote, "posters:");
    TokensConcat("Top", "3");
    TokensOfWord("Top");
    TokensOfWord("3");
    TokensOfWord("posters:");
  }

  /**
   * Read word by word, an emote reply names the emote, then every top poster
   * the API lists, in its order, then the emote's link.
   */
  lemma EmoteReplyWords(emote: string, api: StatsApi)
    requires IsWord(emote) && emote in api.emoteNames && AllWords(api.topPosters(emote))
    ensures Tokens(EmoteResponse(emote, api).value)
         == ["Top", "3", emote, "posters:"] + api.topPosters(emote) + [EmoteLink(emote)]
  {
    var posters := api.topPosters(emote);
    var link := EmoteLink(emote);
    var header := "Top 3 " + emote + " posters:";
    LinkIsWord("tena.dev/emotes/", emote);
    TokensOfWord(link);
    TokensJoin(posters);
    EmoteHeaderTokens(emote);
    assert EmoteResponse(emote, api).value == header + " " + Join(posters) + " " + link;
    TokensAround(header, Join(posters), link);
  }
}
