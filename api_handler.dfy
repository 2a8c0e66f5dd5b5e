/**
 * `ApiHandler` of src/api/api.py: channel lookup, the scan of yesterday's
 * tagged messages, the name lookups and the message post.
 *
 * Every remote call goes through `Api.api_request`, which returns None when
 * the transport fails, the body is not JSON, or the body says `ok: false`,
 * and the `requests` response otherwise. That return value is the input of
 * each operation here; the handler then tests it with `if not response`,
 * which for a `requests` response is false when its status code is an HTTP
 * error (400 to 599).
 */
module ApiHandler {
  import opened Wrappers
  import opened Models
  import opened DatePattern

  /** The bot's own user id, skipped by the scan (src/api/api.py:94). */
  const BotUserId := "U01NKV5PPCP"

  /** A response `api_request` let through: its HTTP status and its decoded payload. */
  datatype Response<T> = Response(statusCode: int, body: T)

  /** `if not response` does not fire: there is a response and `requests` calls it ok. */
  predicate Succeeded<T>(reply: Option<Response<T>>) {
    reply.Some? && !(400 <= reply.value.statusCode < 600)
  }

  // ---------------------------------------------------------------------------
  // get_channel_id (src/api/api.py:45-64)

  /** One record of `conversations.list`'s `channels`, with the two columns used. */
  datatype ChannelRecord = ChannelRecord(name: string, id: string)

  /**
   * The outcome of `get_channel_id`: the id, the None it returns when the
   * list call fails, or the exception it raises when no name matches (an
   * IndexError from `[0]`, or a KeyError from `channel_list['name']` when the
   * channel list is empty and the data frame has no columns).
   */
  datatype ChannelLookup = Found(id: string) | ListFailed | NoSuchChannel

  /** Record `i` is the first one named `name`. */
  predicate FirstNamed(channels: seq<ChannelRecord>, name: string, i: int) {
    0 <= i < |channels| && channels[i].name == name
    && forall j :: 0 <= j < i ==> channels[j].name != name
  }

  /** `list(channel_list.loc[channel_list['name'] == channel_name, 'id'])`, in list order. */
  function MatchingIds(channels: seq<ChannelRecord>, name: string): (ids: seq<string>)
    ensures |ids| == 0 <==> forall i :: 0 <= i < |channels| ==> channels[i].name != name
    ensures |ids| > 0 ==> exists i :: FirstNamed(channels, name, i) && channels[i].id == ids[0]
  {
    if channels == [] then []
    else
      var tail := MatchingIds(channels[1..], name);
      assert |tail| > 0 && channels[0].name != name ==>
        exists i :: FirstNamed(channels, name, i) && channels[i].id == tail[0] by {
        if |tail| > 0 && channels[0].name != name {
          var i :| FirstNamed(channels[1..], name, i) && channels[1..][i].id == tail[0];
          assert FirstNamed(channels, name, i + 1);
        }
      }
      (if channels[0].name == name then [channels[0].id] else []) + tail
  }

  /** `get_channel_id(channel_name)` given what `api_request('conversations.list')` returned. */
  function GetChannelId(reply: Option<Response<seq<ChannelRecord>>>, channelName: string): (r: ChannelLookup)
    ensures r.ListFailed? <==> !Succeeded(reply)
    ensures r.NoSuchChannel? <==>
      (Succeeded(reply) && forall i :: 0 <= i < |reply.value.body| ==> reply.value.body[i].name != channelName)
    ensures r.Found? ==>
      exists i :: FirstNamed(reply.value.body, channelName, i) && reply.value.body[i].id == r.id
  {
    if !Succeeded(reply) then ListFailed
    else
      var ids := MatchingIds(reply.value.body, channelName);
      if |ids| == 0 then NoSuchChannel else Found(ids[0])
  }

  // ---------------------------------------------------------------------------
  // get_user_list (src/api/api.py:66-100)

  /** A history message whose author the scan collects. */
  predicate Qualifies(m: HistoryRecord, yesterday: Date) {
    m.user != BotUserId && Accepts(yesterday, m.text)
  }

  /** The set `user_list` after the scan has seen `msgs`. */
  function TaggedAuthors(msgs: seq<HistoryRecord>, yesterday: Date): set<string> {
    if msgs == [] then {}
    else
      var last := msgs[|msgs| - 1];
      TaggedAuthors(msgs[..|msgs| - 1], yesterday) + (if Qualifies(last, yesterday) then {last.user} else {})
  }

  predicate NoDuplicates(s: seq<string>) {
    forall i, j :: 0 <= i < j < |s| ==> s[i] != s[j]
  }

  /**
   * `get_user_list(channel_id)`: the distinct authors of yesterday-tagged
   * messages, other than the bot. `list(user_list)` lists a set in an order
   * Python does not fix, so any order is allowed here.
   */
  method GetUserList(reply: Option<Response<seq<HistoryRecord>>>, yesterday: Date) returns (r: Option<seq<string>>)
    ensures r.None? <==> !Succeeded(reply)
    ensures r.Some? ==>
      (NoDuplicates(r.value) && forall u :: u in r.value <==> u in TaggedAuthors(reply.value.body, yesterday))
    ensures r.Some? ==> BotUserId !in r.value
    ensures r.Some? ==> forall u :: u in r.value <==>
      exists i :: 0 <= i < |reply.value.body| && reply.value.body[i].user == u && u != BotUserId
        && Accepts(yesterday, reply.value.body[i].text)
  {
    if !Succeeded(reply) {
      return None;
    }
    var messages := reply.value.body;
    var userList: set<string> := {};
    var i := 0;
    while i < |messages|
      invariant 0 <= i <= |messages|
      invariant userList == TaggedAuthors(messages[..i], yesterday)
    {
      var message := messages[i];
      assert messages[..i + 1][..i] == messages[..i];
      if message.user == BotUserId {
        i := i + 1;
        continue;
      }
      if Accepts(yesterday, message.text) {
        userList := userList + {message.user};
      }
      i := i + 1;
    }
    assert messages[..|messages|] == messages;
    var listed := ListOf(userList);
    BotNeverCollected(messages, yesterday);
    forall u {
      TaggedAuthorsIff(messages, yesterday, u);
    }
    return Some(listed);
  }

  /** `list(user_list)`: the elements of a set, each once, in an order left open. */
  method ListOf(elements: set<string>) returns (listed: seq<string>)
    ensures NoDuplicates(listed)
    ensures forall u :: u in listed <==> u in elements
  {
    listed := [];
    var rest := elements;
    while rest != {}
      invariant forall u :: u in elements <==> u in listed || u in rest
      invariant forall u :: u in listed ==> u !in rest
      invariant NoDuplicates(listed)
      decreases |rest|
    {
      var u :| u in rest;
      listed := listed + [u];
      rest := rest - {u};
    }
  }

  /** An author is collected iff one of their messages qualifies. */
  lemma {:induction false} TaggedAuthorsIff(msgs: seq<HistoryRecord>, yesterday: Date, u: string)
    ensures u in TaggedAuthors(msgs, yesterday) <==>
      exists i :: 0 <= i < |msgs| && msgs[i].user == u && u != BotUserId && Accepts(yesterday, msgs[i].text)
  {
    if msgs != [] {
      var init := msgs[..|msgs| - 1];
      TaggedAuthorsIff(init, yesterday, u);
      if exists i :: 0 <= i < |init| && init[i].user == u && u != BotUserId && Accepts(yesterday, init[i].text) {
        var i :| 0 <= i < |init| && init[i].user == u && u != BotUserId && Accepts(yesterday, init[i].text);
        assert msgs[i] == init[i];
      }
    }
  }

  /** Whatever the texts say, the bot's id is never collected. */
  lemma BotNeverCollected(msgs: seq<HistoryRecord>, yesterday: Date)
    ensures BotUserId !in TaggedAuthors(msgs, yesterday)
  {
    TaggedAuthorsIff(msgs, yesterday, BotUserId);
  }

  /** A bot message, whatever its text, leaves the collected set unchanged. */
  lemma BotMessageIgnored(msgs: seq<HistoryRecord>, yesterday: Date, text: string, ts: string)
    ensures TaggedAuthors(msgs + [HistoryRecord(BotUserId, text, ts)], yesterday) == TaggedAuthors(msgs, yesterday)
  {
    var s := msgs + [HistoryRecord(BotUserId, text, ts)];
    assert s[..|s| - 1] == msgs;
  }

  /**
   * A message whose text does not open with `[` does not make its author
   * qualify: whoever wrote it, the collected set is unchanged.
   */
  lemma TagElsewhereIgnored(msgs: seq<HistoryRecord>, yesterday: Date, author: string,
                            lead: string, rest: string, ts: string)
    requires |lead| > 0 && lead[0] != '['
    ensures TaggedAuthors(msgs + [HistoryRecord(author, lead + rest, ts)], yesterday) == TaggedAuthors(msgs, yesterday)
  {
    var s := msgs + [HistoryRecord(author, lead + rest, ts)];
    assert s[..|s| - 1] == msgs;
    OnlyAtStart(yesterday, lead, rest);
  }

  // ---------------------------------------------------------------------------
  // get_user_name / get_user_names (src/api/api.py:102-124)

  /** `get_user_name`: the `real_name` of a `users.info` reply, or None when the call failed. */
  function GetUserName(reply: Option<Response<string>>): (r: Option<string>)
    ensures r.Some? <==> Succeeded(reply)
    ensures r.Some? ==> r.value == reply.value.body
  {
    if !Succeeded(reply) then None else Some(reply.value.body)
  }

  /**
   * `get_user_names`: one lookup per id, in order; a failed lookup leaves its
   * None in the list. `usersInfo(id)` is what `api_request('users.info')`
   * returns for that id.
   */
  method GetUserNames(userList: seq<string>, usersInfo: string -> Option<Response<string>>)
    returns (userNames: seq<Option<string>>)
    ensures |userNames| == |userList|
    ensures forall i :: 0 <= i < |userList| ==> userNames[i] == GetUserName(usersInfo(userList[i]))
  {
    userNames := [];
    for i := 0 to |userList|
      invariant |userNames| == i
      invariant forall k :: 0 <= k < i ==> userNames[k] == GetUserName(usersInfo(userList[k]))
    {
      userNames := userNames + [GetUserName(usersInfo(userList[i]))];
    }
  }

  // ---------------------------------------------------------------------------
  // post_message (src/api/api.py:126-141)

  /** `post_message`: the text it was asked to send when the post went through, None otherwise. */
  function PostMessage<T>(reply: Option<Response<T>>, message: string): (r: Option<string>)
    ensures r.Some? <==> Succeeded(reply)
    ensures r.Some? ==> r.value == message
  {
    if !Succeeded(reply) then None else Some(message)
  }
}
