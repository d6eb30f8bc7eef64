/**
 * The withdrawal event (views.py, `get_withdrawal_event_data`): a JSON object
 * with exactly the keys accountId (the account id as a number), amount (the
 * amount's string form) and status (a status name). It is modelled as the
 * object itself, a map from key to JSON value; its text encoding is not modelled.
 */
module Events {
  import opened Wrappers
  import opened DecimalText

  datatype JsonValue = JInt(i: int) | JStr(s: string)

  type Event = map<string, JsonValue>

  const AccountIdKey: string := "accountId"
  const AmountKey: string := "amount"
  const StatusKey: string := "status"

  /** The event for a withdrawal of `cents` from `accountId` with the given status. */
  function EventData(accountId: int, cents: int, status: string): (e: Event)
    ensures e.Keys == {AccountIdKey, AmountKey, StatusKey}
    ensures e[AccountIdKey] == JInt(accountId) && e[StatusKey] == JStr(status)
    ensures e[AmountKey] == JStr(CentsText(cents)) && ParseCents(e[AmountKey].s) == Some(cents)
  {
    CentsTextRoundTrip(cents);
    map[AccountIdKey := JInt(accountId), AmountKey := JStr(CentsText(cents)), StatusKey := JStr(status)]
  }

  /** What a consumer reads back from an event. */
  datatype EventFields = EventFields(accountId: int, cents: int, status: string)

  /** Reads an event; None unless it has exactly the three keys with values of the right shape. */
  function ReadEvent(e: Event): (r: Option<EventFields>)
    ensures r.Some? ==> e.Keys == {AccountIdKey, AmountKey, StatusKey}
  {
    if e.Keys == {AccountIdKey, AmountKey, StatusKey}
       && e[AccountIdKey].JInt? && e[AmountKey].JStr? && e[StatusKey].JStr?
       && ParseCents(e[AmountKey].s).Some?
    then Some(EventFields(e[AccountIdKey].i, ParseCents(e[AmountKey].s).value, e[StatusKey].s))
    else None
  }

  /** A consumer recovers the account id, the exact amount and the status from the event. */
  lemma EventRoundTrip(accountId: int, cents: int, status: string)
    ensures ReadEvent(EventData(accountId, cents, status)) == Some(EventFields(accountId, cents, status))
  {
  }
}
