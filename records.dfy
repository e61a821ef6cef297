/**
 * The raw message records ("actions") that the fetch loop saves in its page
 * files and that the grapher later reads back.
 */
module Records {
  import opened Wrappers

  /**
   * A sender id as JSON carries it: an integer, a string, or `null` (Python's
   * `None`). As Python dict keys the three never match one another.
   */
  datatype Id = IntId(n: int) | StrId(s: string) | NullId

  /**
   * One raw action record, reduced to the two fields that are read:
   * `other_user_fbid` and `timestamp_datetime`; `None` when the key is absent.
   */
  datatype Action = Action(otherUserFbid: Option<Id>, timestampDatetime: Option<string>)
}
