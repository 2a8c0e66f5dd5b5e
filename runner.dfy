/**
 * `Runner` of src/core/runner.py: the roster of non-bot members, the
 * matching of history records against it, and the summary text of `run`.
 *
 * The replies of `get_conversations_members`, `get_user_info` and
 * `get_conversations_history` are inputs: a member-id sequence, a function
 * from member id to user info, and a sequence of history records.
 */
module Runner {
  import opened Wrappers
  import opened Models
  import opened Numerals

  // ---------------------------------------------------------------------------
  // get_user_list (src/core/runner.py:28-37)

  /** The `User` built from one `users.info` record (src/core/runner.py:35). */
  function ToUser(info: UserInfo): User {
    User(info.id, info.name, info.realName, info.deleted)
  }

  /** The non-bot users among `members`, in member order. */
  function Roster(members: seq<string>, userInfo: string -> UserInfo): seq<User> {
    if members == [] then []
    else
      var info := userInfo(members[|members| - 1]);
      Roster(members[..|members| - 1], userInfo) + (if info.isBot then [] else [ToUser(info)])
  }

  /** `get_user_list(member_list)`: one `get_user_info` per member, bots skipped. */
  method GetUserList(memberList: seq<string>, userInfo: string -> UserInfo) returns (userList: seq<User>)
    ensures userList == Roster(memberList, userInfo)
  {
    userList := [];
    for i := 0 to |memberList|
      invariant userList == Roster(memberList[..i], userInfo)
    {
      assert memberList[..i + 1][..i] == memberList[..i];
      var info := userInfo(memberList[i]);
      if info.isBot {
        continue;
      }
      var user := User(info.id, info.name, info.realName, info.deleted);
      userList := userList + [user];
    }
    assert memberList[..|memberList|] == memberList;
  }

  /** The roster of two member lists back to back is the two rosters back to back. */
  lemma {:induction false} RosterAppend(a: seq<string>, b: seq<string>, userInfo: string -> UserInfo)
    ensures Roster(a + b, userInfo) == Roster(a, userInfo) + Roster(b, userInfo)
  {
    if b == [] {
      assert a + b == a;
    } else {
      var b' := b[..|b| - 1];
      assert (a + b)[..|a + b| - 1] == a + b';
      RosterAppend(a, b', userInfo);
    }
  }

  /**
   * A user is on the roster iff some member's info has `is_bot` false and the
   * user copies that info's `id`, `name`, `real_name` and `deleted`.
   */
  lemma {:induction false} RosterMembers(members: seq<string>, userInfo: string -> UserInfo, u: User)
    ensures u in Roster(members, userInfo) <==>
      exists j :: 0 <= j < |members| && !userInfo(members[j]).isBot
        && u == User(userInfo(members[j]).id, userInfo(members[j]).name,
                     userInfo(members[j]).realName, userInfo(members[j]).deleted)
  {
    if members != [] {
      var init := members[..|members| - 1];
      RosterMembers(init, userInfo, u);
      if exists j :: 0 <= j < |init| && !userInfo(init[j]).isBot && u == ToUser(userInfo(init[j])) {
        var j :| 0 <= j < |init| && !userInfo(init[j]).isBot && u == ToUser(userInfo(init[j]));
        assert members[j] == init[j];
      }
    }
  }

  /** The roster has one entry per non-bot member. */
  lemma {:induction false} RosterLength(members: seq<string>, userInfo: string -> UserInfo)
    ensures |Roster(members, userInfo)| == |set j | 0 <= j < |members| && !userInfo(members[j]).isBot|
  {
    if members != [] {
      var n := |members| - 1;
      var init := members[..n];
      RosterLength(init, userInfo);
      var before := set j | 0 <= j < |init| && !userInfo(init[j]).isBot;
      var after := set j | 0 <= j < |members| && !userInfo(members[j]).isBot;
      assert forall j :: 0 <= j < n ==> members[j] == init[j];
      if userInfo(members[n]).isBot {
        assert after == before;
      } else {
        assert after == before + {n};
      }
    }
  }

  // ---------------------------------------------------------------------------
  // parse_conversation (src/core/runner.py:42-52)

  /** `users[k]` is the first roster user with this id. */
  predicate FirstWithId(users: seq<User>, id: string, k: int) {
    0 <= k < |users| && users[k].id == id && forall k' :: 0 <= k' < k ==> users[k'].id != id
  }

  /** The first roster user with this id (the inner loop and its `break`). */
  function FindUser(users: seq<User>, id: string): (r: Option<User>)
    ensures r.None? <==> forall k :: 0 <= k < |users| ==> users[k].id != id
    ensures r.Some? ==> exists k :: FirstWithId(users, id, k) && users[k] == r.value
  {
    if users == [] then None
    else if users[0].id == id then (assert FirstWithId(users, id, 0); Some(users[0]))
    else
      var r := FindUser(users[1..], id);
      assert r.Some? ==> exists k :: FirstWithId(users, id, k) && users[k] == r.value by {
        if r.Some? {
          var k :| FirstWithId(users[1..], id, k) && users[1..][k] == r.value;
          assert FirstWithId(users, id, k + 1);
        }
      }
      r
  }

  /** `message_list` after the records `history`. */
  function ParsedMessages(history: seq<HistoryRecord>, users: seq<User>): seq<Message> {
    if history == [] then []
    else
      var c := history[|history| - 1];
      ParsedMessages(history[..|history| - 1], users)
      + (if FindUser(users, c.user).Some? then [Message(c.user, c.text, c.ts)] else [])
  }

  /** `target_names` after the records `history`. */
  function ParsedNames(history: seq<HistoryRecord>, users: seq<User>): seq<string> {
    if history == [] then []
    else
      var c := history[|history| - 1];
      var found := FindUser(users, c.user);
      ParsedNames(history[..|history| - 1], users) + (if found.Some? then [found.value.realName] else [])
  }

  /** `parse_conversation(conversation_list, user_list)`. */
  method ParseConversation(conversationList: seq<HistoryRecord>, userList: seq<User>)
    returns (messageList: seq<Message>, targetNames: seq<string>)
    ensures messageList == ParsedMessages(conversationList, userList)
    ensures targetNames == ParsedNames(conversationList, userList)
  {
    messageList, targetNames := [], [];
    for i := 0 to |conversationList|
      invariant messageList == ParsedMessages(conversationList[..i], userList)
      invariant targetNames == ParsedNames(conversationList[..i], userList)
    {
      assert conversationList[..i + 1][..i] == conversationList[..i];
      var conversation := conversationList[i];
      var userId := conversation.user;
      var j := 0;
      while j < |userList|
        invariant 0 <= j <= |userList|
        invariant forall k :: 0 <= k < j ==> userList[k].id != userId
        invariant messageList == ParsedMessages(conversationList[..i], userList)
        invariant targetNames == ParsedNames(conversationList[..i], userList)
      {
        var user := userList[j];
        if user.id == userId {
          assert FirstWithId(userList, userId, j);
          messageList := messageList + [Message(conversation.user, conversation.text, conversation.ts)];
          targetNames := targetNames + [user.realName];
          break;
        }
        j := j + 1;
      }
    }
    assert conversationList[..|conversationList|] == conversationList;
  }

  /** Some roster user has this id. */
  predicate InRoster(users: seq<User>, id: string) {
    exists k :: 0 <= k < |users| && users[k].id == id
  }

  /** The records that contribute, in history order, repeats kept. */
  function Contributing(history: seq<HistoryRecord>, users: seq<User>): seq<HistoryRecord> {
    if history == [] then []
    else
      var c := history[|history| - 1];
      Contributing(history[..|history| - 1], users) + (if InRoster(users, c.user) then [c] else [])
  }

  /**
   * Both lists have one entry per contributing record, in history order: the
   * message carries the record's `user`, `text` and `ts`, and the name is the
   * `real_name` of the first roster user with that id.
   */
  lemma {:induction false} ParsedPerRecord(history: seq<HistoryRecord>, users: seq<User>)
    ensures |ParsedMessages(history, users)| == |Contributing(history, users)|
    ensures |ParsedNames(history, users)| == |Contributing(history, users)|
    ensures forall k :: 0 <= k < |Contributing(history, users)| ==>
      var c := Contributing(history, users)[k];
      ParsedMessages(history, users)[k] == Message(c.user, c.text, c.ts)
      && FindUser(users, c.user).Some?
      && ParsedNames(history, users)[k] == FindUser(users, c.user).value.realName
  {
    if history != [] {
      var c := history[|history| - 1];
      ParsedPerRecord(history[..|history| - 1], users);
      assert FindUser(users, c.user).Some? <==> InRoster(users, c.user);
    }
  }

  /** `message_list` and `target_names` always have the same length. */
  lemma ParsedLengthsAgree(history: seq<HistoryRecord>, users: seq<User>)
    ensures |ParsedMessages(history, users)| == |ParsedNames(history, users)|
  {
  }

  /** `Contributing` keeps exactly the records whose author is on the roster. */
  lemma {:induction false} ContributingIff(history: seq<HistoryRecord>, users: seq<User>, c: HistoryRecord)
    ensures c in Contributing(history, users) <==> c in history && InRoster(users, c.user)
  {
    if history != [] {
      var init := history[..|history| - 1];
      ContributingIff(init, users, c);
      assert history == init + [history[|history| - 1]];
    }
  }

  /** Parsing two histories back to back gives the two results back to back. */
  lemma {:induction false} ParsedAppend(a: seq<HistoryRecord>, b: seq<HistoryRecord>, users: seq<User>)
    ensures ParsedNames(a + b, users) == ParsedNames(a, users) + ParsedNames(b, users)
    ensures ParsedMessages(a + b, users) == ParsedMessages(a, users) + ParsedMessages(b, users)
  {
    if b == [] {
      assert a + b == a;
    } else {
      var b' := b[..|b| - 1];
      assert (a + b)[..|a + b| - 1] == a + b';
      ParsedAppend(a, b', users);
    }
  }

  /** Repeat posters are not merged: two records by one roster user give their name twice. */
  lemma RepeatPostsCountTwice(history: seq<HistoryRecord>, users: seq<User>, first: HistoryRecord, second: HistoryRecord)
    requires first.user == second.user && InRoster(users, first.user)
    ensures ParsedNames(history + [first, second], users)
         == ParsedNames(history, users) + [FindUser(users, first.user).value.realName, FindUser(users, first.user).value.realName]
  {
    ParsedAppend(history, [first, second], users);
    var n := FindUser(users, first.user).value.realName;
    assert [first][..0] == [];
    assert ParsedNames([first], users) == [n];
    assert [first, second][..1] == [first];
    assert ParsedNames([first, second], users) == [n, n];
  }

  // ---------------------------------------------------------------------------
  // The summary of run (src/core/runner.py:67-71)

  const SummaryHead := "금일 til을 작성한 인원은 "
  const CountLead := "총 "
  const SummaryTail := "명 입니다.\n오늘 하루도 수고하셨습니다."

  /** `user_names` after the loop: every name followed by `", "`, the last one too. */
  function Joined(names: seq<string>): string {
    if names == [] then "" else Joined(names[..|names| - 1]) + names[|names| - 1] + ", "
  }

  /** The f-string of src/core/runner.py:71, `user_cnt` being `len(target_names)`. */
  function SummaryText(names: seq<string>): string {
    SummaryHead + Joined(names) + CountLead + Decimal(|names|) + SummaryTail
  }

  /** The summary-building part of `run`. */
  method RenderSummary(targetNames: seq<string>) returns (message: string)
    ensures message == SummaryText(targetNames)
  {
    var userCnt := |targetNames|;
    var userNames := "";
    for i := 0 to |targetNames|
      invariant userNames == Joined(targetNames[..i])
    {
      assert targetNames[..i + 1][..i] == targetNames[..i];
      userNames := userNames + targetNames[i] + ", ";
    }
    assert targetNames[..|targetNames|] == targetNames;
    message := SummaryHead + userNames + CountLead + Decimal(userCnt) + SummaryTail;
  }

  /** The number of trailing decimal digits of `s`. */
  function TrailingDigits(s: string): (k: nat)
    ensures k <= |s| && AllDigits(s[|s| - k..])
  {
    if s == [] || !IsDigit(s[|s| - 1]) then 0
    else
      var k := TrailingDigits(s[..|s| - 1]);
      assert s[|s| - (k + 1)..] == s[..|s| - 1][|s| - 1 - k..] + [s[|s| - 1]];
      k + 1
  }

  /** The count a reader finds in a summary: the digits just before the fixed tail. */
  function ReportedCount(message: string): Option<nat> {
    if |message| < |SummaryTail| || message[|message| - |SummaryTail|..] != SummaryTail then None
    else
      var body := message[..|message| - |SummaryTail|];
      var k := TrailingDigits(body);
      if k == 0 then None else Some(ParseDecimal(body[|body| - k..]))
  }

  lemma {:induction false} TrailingDigitsOf(p: string, d: string)
    requires AllDigits(d)
    requires p == [] || !IsDigit(p[|p| - 1])
    ensures TrailingDigits(p + d) == |d|
  {
    if d == [] {
      assert p + d == p;
    } else {
      var s := p + d;
      assert s[..|s| - 1] == p + d[..|d| - 1];
      TrailingDigitsOf(p, d[..|d| - 1]);
    }
  }

  /** Cutting `t` off the end of `b + t` gives back `b` and `t`. */
  lemma SplitAtTail(b: string, t: string)
    ensures (b + t)[|b + t| - |t|..] == t && (b + t)[..|b + t| - |t|] == b
  {
  }

  /** The count written into the summary is the number of names, whatever the names are. */
  lemma SummaryCountIsNameCount(names: seq<string>)
    ensures ReportedCount(SummaryText(names)) == Some(|names|)
  {
    var p := (SummaryHead + Joined(names)) + CountLead;
    var d := Decimal(|names|);
    assert SummaryText(names) == (p + d) + SummaryTail;
    SplitAtTail(p + d, SummaryTail);
    SplitAtTail(p, d);
    assert p[|p| - 1] == CountLead[|CountLead| - 1] == ' ';
    TrailingDigitsOf(p, d);
    DecimalRoundTrip(|names|);
  }

  /** Joining distributes over concatenation, so the names appear in list order. */
  lemma {:induction false} JoinedAppend(a: seq<string>, b: seq<string>)
    ensures Joined(a + b) == Joined(a) + Joined(b)
  {
    if b == [] {
      assert a + b == a;
    } else {
      var b' := b[..|b| - 1];
      assert (a + b)[..|a + b| - 1] == a + b';
      JoinedAppend(a, b');
    }
  }

  /** No names: nothing is listed between the head and "총 ", and the count is "0". */
  lemma EmptySummary()
    ensures SummaryText([]) == SummaryHead + CountLead + "0" + SummaryTail
  {
  }

  // ---------------------------------------------------------------------------
  // run up to the post (src/core/runner.py:54-71)

  /** Roster, matching and summary, as `run` chains them. */
  method Run(memberList: seq<string>, userInfo: string -> UserInfo, conversationList: seq<HistoryRecord>)
    returns (message: string)
    ensures message == SummaryText(ParsedNames(conversationList, Roster(memberList, userInfo)))
  {
    var userList := GetUserList(memberList, userInfo);
    var messageList, targetNames := ParseConversation(conversationList, userList);
    message := RenderSummary(targetNames);
  }

  /** A history where no author is on the roster (an empty one included) reports "총 0명". */
  lemma {:induction false} NoMatchesNoNames(history: seq<HistoryRecord>, users: seq<User>)
    requires forall i :: 0 <= i < |history| ==> !InRoster(users, history[i].user)
    ensures ParsedNames(history, users) == []
    ensures SummaryText(ParsedNames(history, users)) == SummaryHead + "총 0명 입니다.\n오늘 하루도 수고하셨습니다."
  {
    if history != [] {
      var c := history[|history| - 1];
      assert FindUser(users, c.user).None?;
      NoMatchesNoNames(history[..|history| - 1], users);
    }
  }

  /** Every name in a summary, at whatever index `k`, is the real name of a member whose info says `is_bot` false. */
  lemma NoBotInSummary(members: seq<string>, userInfo: string -> UserInfo, history: seq<HistoryRecord>, k: int)
    requires 0 <= k < |ParsedNames(history, Roster(members, userInfo))|
    ensures exists j :: (0 <= j < |members| && !userInfo(members[j]).isBot
      && ParsedNames(history, Roster(members, userInfo))[k] == userInfo(members[j]).realName)
  {
    var users := Roster(members, userInfo);
    ParsedPerRecord(history, users);
    var c := Contributing(history, users)[k];
    var u := FindUser(users, c.user).value;
    assert ParsedNames(history, users)[k] == u.realName;
    var kk :| FirstWithId(users, c.user, kk) && users[kk] == u;
    assert u in users;
    RosterMembers(members, userInfo, u);
    var j :| 0 <= j < |members| && !userInfo(members[j]).isBot
      && u == User(userInfo(members[j]).id, userInfo(members[j]).name,
                   userInfo(members[j]).realName, userInfo(members[j]).deleted);
    assert ParsedNames(history, users)[k] == userInfo(members[j]).realName;
  }

  /** The one record of the example below gives the one name "Alice". */
  lemma SingleParticipantNames()
    ensures ParsedNames([HistoryRecord("U1", "[2024.05.01] did X", "1714521600.000100")],
                        [User("U1", "alice", "Alice", false)]) == ["Alice"]
  {
    var h := [HistoryRecord("U1", "[2024.05.01] did X", "1714521600.000100")];
    var users := [User("U1", "alice", "Alice", false)];
    assert h[..0] == [];
    assert FindUser(users, "U1") == Some(users[0]);
  }

  /**
   * One member, one tagged post: the summary lists "Alice, " once between the
   * head and "총 ", and the count is "1".
   */
  lemma SingleParticipant()
    ensures SummaryText(ParsedNames([HistoryRecord("U1", "[2024.05.01] did X", "1714521600.000100")],
                                    [User("U1", "alice", "Alice", false)]))
         == SummaryHead + "Alice, " + CountLead + "1" + SummaryTail
  {
    SingleParticipantNames();
    assert ["Alice"][..0] == [];
    assert Joined(["Alice"]) == "Alice, ";
    assert Decimal(1) == "1";
  }
}
