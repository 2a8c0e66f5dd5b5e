# TIL summary bot: a Dafny model of its message scan, roster matching and summary

The bot reads yesterday's activity in a team channel and posts a message that
names and counts the members who posted a dated learning-log entry. This
project models the parts of it that make decisions, and proves properties
about them:

- `ApiHandler` (src/api/api.py) has four parts. It looks up a channel id by
  name. It scans the history for authors whose message opens with yesterday's
  tag `[YYYY.MM.DD]`, matched by the regular expression the source builds; in
  that expression the dots match any character but a newline and the closing
  `]` is optional (`AcceptsFirstEleven`). It
  looks up names for a list of ids. It reports the result of a post.
- `Runner` (src/core/runner.py) has three parts. It builds the roster of
  non-bot members. It matches history records against that roster. It builds
  the Korean summary text.

Every call to the remote service is an input. Each `ApiHandler` operation
receives what `Api.api_request` returned: None, or a response with its HTTP
status and its decoded payload. `if not response` is modelled the way
`requests` defines it: a response whose status is 400 to 599 counts as false.
The `Runner` operations receive plain values instead: the member-id list, a
function from member id to user info, and the history records.

Modules, one per file:

- `Wrappers` (wrappers.dfy): `Option`.
- `Numerals` (numerals.dfy): `str(n)`, the zero-padded `strftime` fields, and reading a numeral back.
- `DatePattern` (date_pattern.dfy): the subset of Python's `re` that the tag pattern uses, the pattern itself, and what it accepts.
- `Models` (models.dfy): history records, user info, `User` and `Message`.
- `ApiHandler` (api_handler.dfy) and `Runner` (runner.dfy): the two source classes.

The fields of the two classes are set only in `__init__`: `ApiHandler` keeps
the API client and the token, and `Runner` keeps `_slack`, `_api`,
`_api_handler` and `_conversation_id`. None of them is updated afterwards, and
they only feed network calls, so the classes are not modelled as Dafny
classes. The loops of the source are `while`
and `for` loops in methods. Each method is proved against a specification
function, and the lemmas state properties of those functions.

Three behaviours of the code are worth stating up front:

- `Runner.parse_conversation` applies no date-tag filter and no bot-id skip.
  It counts every history record whose author is on the non-bot roster. Only
  `ApiHandler.get_user_list` filters by tag.
- An unknown channel name is not reported as such. `GetChannelId` models the
  outcome as `NoSuchChannel`: the exception the lookup raises, an IndexError
  from `[0]`, or a KeyError when the channel list is empty. It is not a
  precondition.
- `Runner` keeps repeat posters. Only `ApiHandler.get_user_list`
  de-duplicates, through a set.

## Model

| member | source | states |
|---|---|---|
| `DatePattern.ParsePatternSource` | src/api/api.py:88 | compiling `strftime('\\[%Y.%m.%d\\]') + '*'` gives literal `[`, the year digits, any-but-newline, the month digits, any-but-newline, the day digits, then `]*` |
| `DatePattern.AcceptsIffTag` | src/api/api.py:87-97 | `pattern.match(text)` succeeds exactly when the text starts with `[`, the year, one non-newline, the month, one non-newline and the day |
| `DatePattern.AcceptsFirstEleven` | src/api/api.py:87-97 | for a real date, acceptance depends on the first 11 characters only: `[`, 4-digit year, non-newline, 2-digit month, non-newline, 2-digit day; the `]` is optional |
| `DatePattern.OnlyAtStart` | src/api/api.py:97 | `re.match` is anchored at position 0: a text whose first character is not `[` is rejected, whatever follows |
| `DatePattern.CanonicalTagAcceptedIffSameDay` | src/api/api.py:87-88 | a text opening with `[YYYY.MM.DD]` of date e is accepted iff e is yesterday, so today's tag or any other day's is rejected |
| `DatePattern.LooseSeparatorsAccepted` | src/api/api.py:88 | the dots are unescaped: any two non-newline separators are accepted, and no `]` is needed |
| `DatePattern.ParseDigits` | src/api/api.py:88 | digit characters of the pattern compile to literal pieces, one per digit, when no `*` follows them |
| `DatePattern.MatchLiterals` | src/api/api.py:97 | literal pieces match exactly the same characters at the front of the text, and the rest of the pattern matches the remainder |
| `DatePattern.MatchFieldPieces` | src/api/api.py:97 | the compiled pieces match a prefix of the text iff the closed-form tag condition holds |
| `Numerals.DigitsInjective` | src/api/api.py:88 | two dates with different year, month or day fields give different `%Y`, `%m` or `%d` text |
| `Numerals.DecimalRoundTrip` | src/core/runner.py:71 | reading back `str(n)` gives `n` |
| `ApiHandler.MatchingIds` | src/api/api.py:60 | the filtered id list is empty iff no channel has that name; a non-empty list starts with the id of the first channel of that name |
| `ApiHandler.GetChannelId` | src/api/api.py:53-60 | None when the list call fails (ListFailed); the exception outcome (NoSuchChannel: an IndexError, or a KeyError when the list is empty) iff no record has exactly that name; otherwise the id of the first record with that name |
| `ApiHandler.GetUserList` | src/api/api.py:66-100 | None iff the history call fails; otherwise a duplicate-free list holding exactly the authors, other than the bot, of at least one message the pattern accepts; the bot id is never in it |
| `ApiHandler.ListOf` | src/api/api.py:100 | `list(user_list)` holds every element of the set and nothing else, each exactly once |
| `ApiHandler.TaggedAuthorsIff` | src/api/api.py:93-98 | an id is collected iff some message by that id, not the bot's, has text the pattern accepts |
| `ApiHandler.BotNeverCollected` | src/api/api.py:93-95 | the bot id `U01NKV5PPCP` is never collected, whatever its messages say |
| `ApiHandler.BotMessageIgnored` | src/api/api.py:93-95 | appending a bot message, whatever its text and `ts`, leaves the collected set unchanged |
| `ApiHandler.TagElsewhereIgnored` | src/api/api.py:94-97 | appending a message by any author whose text does not open with `[` leaves the collected set unchanged |
| `ApiHandler.GetUserName` | src/api/api.py:112-117 | the `real_name` of the reply when the call succeeds, None when it fails |
| `ApiHandler.GetUserNames` | src/api/api.py:119-124 | a list as long as the input whose element i is the lookup for id i; a failed lookup leaves None in its place |
| `ApiHandler.PostMessage` | src/api/api.py:136-141 | the message text, unchanged, iff the post succeeded; None otherwise |
| `Runner.GetUserList` | src/core/runner.py:28-37 | the result is the roster: the `User` of each member whose info has `is_bot` false, in member order |
| `Runner.RosterMembers` | src/core/runner.py:30-36 | a user is on the roster iff some member's info has `is_bot` false and the user copies that info's `id`, `name`, `real_name` and `deleted` |
| `Runner.RosterAppend` | src/core/runner.py:30-36 | the roster keeps member order: the roster of `a + b` is the roster of `a` followed by that of `b` |
| `Runner.RosterLength` | src/core/runner.py:30-36 | the roster has exactly one entry per non-bot member |
| `Runner.FindUser` | src/core/runner.py:47-51 | the inner loop finds a user iff some roster user has that id, and returns the first such user |
| `Runner.ParseConversation` | src/core/runner.py:42-52 | `message_list` and `target_names` are the results of the record-by-record matching specified by `ParsedMessages` and `ParsedNames` |
| `Runner.ParsedPerRecord` | src/core/runner.py:45-51 | both lists have one entry per record whose author is on the roster, in history order; entry k carries that record's `user`, `text` and `ts` and the `real_name` of the first roster user with that id |
| `Runner.ContributingIff` | src/core/runner.py:46-48 | a record contributes iff it is in the history and its `user` equals some roster user's `id` |
| `Runner.ParsedLengthsAgree` | src/core/runner.py:43-52 | `message_list` and `target_names` always have equal length |
| `Runner.ParsedAppend` | src/core/runner.py:45-51 | parsing preserves history order: the results for `a + b` are those for `a` followed by those for `b` |
| `Runner.RepeatPostsCountTwice` | src/core/runner.py:45-51 | two records by the same roster user add that user's name twice, with no de-duplication |
| `Runner.RenderSummary` | src/core/runner.py:67-71 | the summary is the fixed head, each name followed by `", "` (the last one too), `총 `, the decimal count of names, and the fixed tail |
| `Runner.SummaryCountIsNameCount` | src/core/runner.py:67-71 | the number a reader finds before the fixed tail of a summary is exactly the number of names |
| `Runner.JoinedAppend` | src/core/runner.py:68-70 | the joined names keep list order: joining `a + b` gives the join of `a` followed by the join of `b` |
| `Runner.EmptySummary` | src/core/runner.py:67-71 | with no names the summary is the head directly followed by `총 0명 입니다.` and the tail |
| `Runner.NoMatchesNoNames` | src/core/runner.py:45-52 | when no history author is on the roster, including for an empty history, there are no names and the summary says `총 0명` |
| `Runner.Run` | src/core/runner.py:56-71 | the message `run` builds is the summary of the names matched against the non-bot roster |
| `Runner.NoBotInSummary` | src/core/runner.py:28-51 | the name at any index of the summary's name list is the `real_name` of a member whose info has `is_bot` false |
| `Runner.SingleParticipant` | src/core/runner.py:42-71 | one roster member, Alice, with one record gives the summary `금일 til을 작성한 인원은 Alice, 총 1명 입니다.` followed by the tail |

## Left out

- HTTP transport and JSON decoding (`Api.request`, `Api.api_request`, src/api/api.py:21-37): each endpoint's reply, as `api_request` returns it, is an input.
- Clock reads (src/api/api.py:70, 87; src/core/runner.py:62): yesterday's date is a parameter. The `oldest` cutoff only goes to the server, so it is not modelled.
- `pandas.json_normalize` (src/api/api.py:59) is a foreign library. The channel list is a sequence of (name, id) records, and channel records without a `name` are not modelled.
- Standard-error and standard-output writes, and the log file of `ApiException` (src/exceptions/api_exception.py): these are output only.
- Missing JSON keys (`KeyError`) are not modelled, except for the empty channel list above; every record carries the fields the source reads.
- `Runner.__init__`, `Runner.get_conversation_id`, `Runner.post_message` and the post-and-exit tail of `Runner.run` (src/core/runner.py:13-22, 39-40, 74-77) are network calls and `sys.exit`. Alert mode and argument parsing live in src/main.py, which is not part of this model; that file is an older revision whose calls no longer match `ApiHandler`'s signatures.
- `Runner.get_user_info`'s reply is modelled as always present. The `ApiHandler.get_user_info` it calls is not defined in src/api/api.py, so how it fails is unknown.
- `src/models/user.py` and `src/models/message.py` are not part of this model. `User` and `Message` carry the fields passed at src/core/runner.py:35 and :49.
- `DatePattern.Parse` models only the pattern syntax the tag uses: literals, escaped punctuation, `.` and `*`. It returns None for any other pattern, including valid Python patterns outside that subset.
- `Numerals.Digits`: `%Y` is rendered zero-padded to four digits. For years below 1000 the padding depends on the C library behind Python's `strftime`.
- `ApiHandler.GetUserList` and `ApiHandler.ListOf`: Python's `list(set)` order is not fixed, so `ListOf` picks elements in an arbitrary order. The contract states membership and absence of duplicates, not an order.
- `ApiHandler.GetUserNames`: `usersInfo` is a function, so two lookups of the same id get the same reply. The source makes one network call per id, and repeated calls may answer differently.
