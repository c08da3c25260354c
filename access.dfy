/**
 * The `add`/`remove` logic that the `blacklist` and `admin` commands share,
 * and the replies they give.
 */
module Access {
  import opened Wrappers
  import opened Text

  /** The position of the first occurrence of `x` (Python's `list.index`). */
  function FirstIndex(s: seq<string>, x: string): (i: nat)
    requires x in s
    ensures i < |s| && s[i] == x && x !in s[..i]
  {
    if s[0] == x then 0
    else
      var i := FirstIndex(s[1..], x) + 1;
      assert s[..i] == [s[0]] + s[1..][..i - 1];
      i
  }

  /** Python's `list.remove(x)` on a list that holds `x`: drops its first occurrence. */
  function RemoveFirst(s: seq<string>, x: string): (r: seq<string>)
    requires x in s
    ensures |r| == |s| - 1
    ensures multiset(r) == multiset(s) - multiset{x}
    ensures var i := FirstIndex(s, x); r == s[..i] + s[i + 1..]
  {
    var i := FirstIndex(s, x);
    assert s == s[..i] + [x] + s[i + 1..];
    s[..i] + s[i + 1..]
  }

  /** No handle is listed twice. */
  predicate Distinct(s: seq<string>) {
    forall i, j :: 0 <= i < j < |s| ==> s[i] != s[j]
  }

  /** What an `add` or `remove` request does to a list. */
  datatype Change = Added(list: seq<string>) | Removed(list: seq<string>) | Invalid

  /**
   * `add` appends a handle that is absent; `remove` drops one that is present;
   * any other request is invalid and changes nothing.
   */
  function ApplyMode(list: seq<string>, mode: string, user: string): (c: Change)
    ensures c.Added? <==> mode == "add" && user !in list
    ensures c.Removed? <==> mode == "remove" && user in list
    ensures c.Added? ==> c.list == list + [user]
    ensures c.Removed? ==> c.list == RemoveFirst(list, user)
    ensures c.Removed? ==> multiset(c.list) == multiset(list) - multiset{user}
  {
    if mode == "add" && user !in list then Added(list + [user])
    else if mode == "remove" && user in list then Removed(RemoveFirst(list, user))
    else Invalid
  }

  /** The list after a request: unchanged when the request is invalid. */
  function After(c: Change, list: seq<string>): seq<string> {
    if c.Invalid? then list else c.list
  }

  /** Removing from a list without repeats leaves no copy behind and no repeats. */
  lemma RemoveFromDistinct(s: seq<string>, x: string)
    requires x in s && Distinct(s)
    ensures x !in RemoveFirst(s, x) && Distinct(RemoveFirst(s, x))
  {
    var i := FirstIndex(s, x);
    var r := RemoveFirst(s, x);
    assert r == s[..i] + s[i + 1..];
    assert forall j :: 0 <= j < |r| ==> r[j] == s[if j < i then j else j + 1];
  }

  /**
   * Applying a request keeps a list free of repeats, and afterwards the
   * handle is a member iff the request was `add`, or it was already a member
   * and the request was not `remove`.
   */
  lemma ApplyModeMembership(list: seq<string>, mode: string, user: string)
    requires Distinct(list)
    ensures var after := After(ApplyMode(list, mode, user), list);
      Distinct(after)
      && (user in after <==> (mode == "add" || user in list) && !(mode == "remove" && user in list))
  {
    var c := ApplyMode(list, mode, user);
    if c.Removed? {
      RemoveFromDistinct(list, user);
    } else if c.Added? {
      assert c.list[|list|] == user;
    }
  }

  /** A second identical `add` is invalid: adding is idempotent. */
  lemma AddTwiceIsInvalid(list: seq<string>, user: string)
    ensures ApplyMode(list, "add", user).Added? ==>
              ApplyMode(ApplyMode(list, "add", user).list, "add", user) == Invalid
  {
    var c := ApplyMode(list, "add", user);
    if c.Added? {
      assert user == c.list[|list|];
    }
  }

  /** The reply to a request on the list called `listName`. */
  function ChangeReply(c: Change, user: string, listName: string): string {
    match c
    case Added(_) => "Added " + user + " to " + listName
    case Removed(_) => "Removed " + user + " from " + listName
    case Invalid => "Invalid user"
  }

  /** Read word by word, each reply names the change, the handle and the list. */
  lemma ChangeReplyWords(c: Change, user: string, listName: string)
    requires IsWord(user) && IsWord(listName)
    ensures c.Added? ==> Tokens(ChangeReply(c, user, listName)) == ["Added", user, "to", listName]
    ensures c.Removed? ==> Tokens(ChangeReply(c, user, listName)) == ["Removed", user, "from", listName]
    ensures c.Invalid? ==> Tokens(ChangeReply(c, user, listName)) == ["Invalid", "user"]
  {
    match c
    case Added(_) => AddedReplyWords(c, user, listName);
    case Removed(_) => RemovedReplyWords(c, user, listName);
    case Invalid => InvalidReplyWords();
  }

  lemma AddedReplyWords(c: Change, user: string, listName: string)
    requires c.Added? && IsWord(user) && IsWord(listName)
    ensures Tokens(ChangeReply(c, user, listName)) == ["Added", user, "to", listName]
  {
    assert ChangeReply(c, user, listName) == "Added" + " " + user + " " + "to" + " " + listName;
    ActionWords("Added", user, "to", listName);
  }

  lemma RemovedReplyWords(c: Change, user: string, listName: string)
    requires c.Removed? && IsWord(user) && IsWord(listName)
    ensures Tokens(ChangeReply(c, user, listName)) == ["Removed", user, "from", listName]
  {
    assert ChangeReply(c, user, listName) == "Removed" + " " + user + " " + "from" + " " + listName;
    ActionWords("Removed", user, "from", listName);
  }

  lemma InvalidReplyWords()
    ensures Tokens("Invalid user") == ["Invalid", "user"]
  {
    assert "Invalid user" == "Invalid" + " " + "user";
    TwoWords("Invalid", "user");
  }

  lemma ActionWords(verb: string, user: string, preposition: string, listName: string)
    requires IsWord(verb) && IsWord(user) && IsWord(preposition) && IsWord(listName)
    ensures Tokens(verb + " " + user + " " + preposition + " " + listName) == [verb, user, preposition, listName]
  {
    FourWords(verb, user, preposition, listName);
  }

  /**
   * The `blacklist` and `admin` commands on the raw message text `data`: with
   * two spaces or more, the second and third arguments are a mode and a
   * handle (too few arguments to unpack is a `ValueError`); with fewer, the
   * reply is the listing. Gives the new list and the reply.
   */
  function MembershipCommand(data: string, list: seq<string>, listName: string, listing: string)
    : (r: Result<(seq<string>, string), Exception>)
    ensures r.Err? <==> CountSpaces(data) >= 2 && |Tokens(data)| < 3
    ensures r.Err? ==> r.error == ValueError
    ensures CountSpaces(data) < 2 ==> r == Ok((list, listing))
    ensures r.Ok? && r.value.0 != list ==>
              CountSpaces(data) >= 2 && ApplyMode(list, Tokens(data)[1], Tokens(data)[2]) != Invalid
    ensures r.Ok? && CountSpaces(data) >= 2 ==>
              var c := ApplyMode(list, Tokens(data)[1], Tokens(data)[2]);
              r.value == (After(c, list), ChangeReply(c, Tokens(data)[2], listName))
  {
    if CountSpaces(data) >= 2 then
      var arguments := Tokens(data);
      if |arguments| < 3 then Err(ValueError)
      else
        var c := ApplyMode(list, arguments[1], arguments[2]);
        Ok((After(c, list), ChangeReply(c, arguments[2], listName)))
    else
      Ok((list, listing))
  }

  /** A well-formed `add` request, written out, adds the handle and says so. */
  lemma AddRequestRoundTrip(command: string, user: string, list: seq<string>, listName: string, listing: string)
    requires IsWord(command) && IsWord(user) && user !in list
    ensures MembershipCommand(command + " add " + user, list, listName, listing)
         == Ok((list + [user], "Added " + user + " to " + listName))
  {
    var data := command + " add " + user;
    assert data == command + " " + "add" + " " + user;
    TokensConcat(command + " " + "add", user);
    TokensConcat(command, "add");
    TokensOfWord(command);
    TokensOfWord("add");
    TokensOfWord(user);
    assert Tokens(data) == [command, "add", user];
    assert CountSpaces(data) >= 2 by {
      assert |Tokens(data)| <= CountSpaces(data) + 1;
    }
  }
}
