/**
 * The records the bot reads from the messaging service and the two model
 * classes `Runner` builds from them (`src/models/user.py` and
 * `src/models/message.py` are not part of this model; their fields are the
 * ones `Runner` passes at src/core/runner.py:35 and :49).
 */
module Models {

  /** One entry of a `conversations.history` reply: `message['user']`, `['text']`, `['ts']`. */
  datatype HistoryRecord = HistoryRecord(user: string, text: string, ts: string)

  /** The `users.info` reply fields `Runner.get_user_list` reads. */
  datatype UserInfo = UserInfo(id: string, name: string, realName: string, deleted: bool, isBot: bool)

  /** `User(id=..., name=..., real_name=..., deleted=...)`. */
  datatype User = User(id: string, name: string, realName: string, deleted: bool)

  /** `Message(user=..., text=..., ts=...)`. */
  datatype Message = Message(user: string, text: string, ts: string)
}
