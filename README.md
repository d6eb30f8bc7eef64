# Bank withdrawal endpoint — a Dafny model

This project models the core of a single-endpoint bank service, `POST /bank/withdraw/`.
The endpoint validates a withdrawal request, looks up the account, checks the funds and
then, in one atomic unit of work, debits the balance and publishes a `SUCCESSFUL` event
to a message bus. The debit is committed only if the publish goes through. Otherwise it
is rolled back, and the answer is an HTTP status with a small JSON body.

Modules, one per part of the source:

- `Constants` (constants.py): the three withdrawal statuses. Each has a symbolic
  name (`Name()`, used in the event) and a message text (`Message()`, its value and its
  string form, used in HTTP bodies). Lookup by value and by name are inverse to these.
- `Serializers` (serializers.py): the request validator. A raw request holds an
  account id that is absent, null, not an integer, or an integer, and an amount that is
  absent, null, not a number, or a decimal `unscaled * 10^-places`. Validation yields either
  the validated request (account id, amount in integer cents) or one error per failing
  field, keyed by field.
- `DecimalText` and `Events` (views.py:24-31): the event payload. It is a JSON object
  with exactly the keys `accountId`, `amount` and `status`. The amount is the string
  form of a two-place decimal ("30.00"), and a parser recovers the exact cents from it.
- `Views` (views.py:36-96): `Handle` is the endpoint as a transition on the store of
  balances (a map from account id to cents), giving the response, the new balances and
  the event published, if any. `Bank.Withdraw` is the imperative handler. It mutates
  the balance map, keeps a snapshot that it restores on abort (the atomic unit of
  work), records published events in a ghost log, and is proved equal to `Handle`.

The behaviour of the collaborators inside the unit of work is an input, `Env`:
- `PublishOk`: the publish succeeds and the commit succeeds.
- `PublishErr`: the publish raises. The handler turns this into a 500 with the body
  "SNS notification failed".
- `OtherFault`: another exception is raised before the publish. The answer is a 500
  with "Withdrawal failed.".
- `CommitFault`: the publish succeeds but the commit fails. The debit is rolled back
  after the event has gone out, and the answer is a 500 with "Withdrawal failed.".

Three points about the code:
- A failed publish answers "SNS notification failed", not "Withdrawal failed.".
- An amount may have up to two fractional digits, not exactly two.
- The 404 for an unknown account is raised before the `try` block (views.py:45), so
  the 500 handlers never see it; the model answers 404.

## Model

| member | source | states |
|---|---|---|
| Constants.WithdrawalStatus.ToString | constants.py:8-9 | a status's string form is its message value (`Message()`, the member's value), which differs from its symbolic name (`Name()`, the member's name) |
| Constants.FromMessage | constants.py:3-6 | lookup by value returns the one status with that message, or nothing: a message identifies its status |
| Constants.FromName | constants.py:3-6 | lookup by name returns the one status with that symbolic name, or nothing |
| Constants.ExactlyThreeStatuses | constants.py:3-6 | there are exactly three statuses, every status is listed, none twice; `Name()` and `Message()` give each one's name and value as declared |
| Constants.MessageIdentifiesStatus | constants.py:4-6 | two statuses have the same message exactly when they are the same status |
| Constants.NamesAreNotMessages | constants.py:4-6 | no status name equals any status message |
| Constants.SuccessfulStrings | constants.py:4 | SUCCESSFUL has name "SUCCESSFUL" and string form "Withdrawal successful.", and the two differ |
| DecimalText.CentsText | views.py:28 | the string form of a two-place amount is an optional '-' (exactly when the amount is negative), an integer part of digits without leading zeros, a '.' and exactly two digits |
| DecimalText.CentsTextRoundTrip | views.py:28 | parsing the string form of an amount gives back exactly that amount in cents |
| DecimalText.CentsTextInjective | views.py:28 | two amounts have the same string form only if they are equal |
| Serializers.ValidateAccountId | serializers.py:4 | an account id is accepted exactly when it is an integer of at least 1, and is kept as given; a smaller integer is a min-value error and null is a null error |
| Serializers.ValidateAmount | serializers.py:5-7 | an amount is accepted exactly when it is a number with at most two decimal places and a positive value; the cents returned equal its exact value; more than two places is a decimal-places error, a zero, negative or sub-cent value with at most two places is a min-value error, and null is a null error |
| Serializers.Validate | serializers.py:3-8 | a request is valid exactly when both fields are; a valid one has account id >= 1 and amount >= 1 cent; otherwise exactly the failing fields carry their own errors |
| Serializers.ValidateErrors | serializers.py:3-8 | the field errors are empty exactly when the request is valid |
| Serializers.ValidatedData | serializers.py:3-8 | validated_data has exactly the keys account_id and amount, holding the validated id and cents |
| Serializers.AccountIdAcceptedIff | serializers.py:4 | the account-id field has no error if and only if it is an integer >= 1 |
| Serializers.NonPositiveAmountRejected | serializers.py:5-7 | zero and negative amounts are rejected with an amount error |
| Serializers.BelowOneCentRejected | serializers.py:5-7 | any amount whose exact value is below 0.01 is rejected with an amount error |
| Serializers.TooManyPlacesRejected | serializers.py:5-6 | an amount with more than two fractional digits is rejected with the decimal-places error |
| Serializers.ValidatedRequestIsExact | serializers.py:3-8 | a validated request has a positive id and amount, both exactly the ones supplied |
| Serializers.FloatMinIsNearestDouble | serializers.py:7 | the constant used for min_value 0.01 is the double nearest to 1/100, and it lies above 1/100 |
| Serializers.OneCentRejectedAsWritten | serializers.py:7 | as declared, the minimum check (`MeetsMinValueAsWritten`: cents/100 compared exactly with the double nearest 0.01) rejects 0.01, which the intended check accepts |
| Serializers.MinValueAgreesExceptOneCent | serializers.py:7 | for every other amount the declared and the intended minimum check agree |
| Events.EventData | views.py:24-31 | the event has exactly the keys accountId, amount and status; accountId is the id, status the given status, and amount is the amount's string form, which reads back as the exact cents |
| Events.ReadEvent | views.py:24-31 | an event reads back only if it has exactly the three keys |
| Events.EventRoundTrip | views.py:24-31 | a consumer reads back the account id, the exact amount and the status from the event |
| Views.Handle | views.py:36-96 | the endpoint keeps the set of accounts, never raises a balance, changes no account but the requested one, and keeps balances non-negative |
| Views.Bank.Withdraw | views.py:36-96 | the imperative handler, with a snapshot restored on abort, gives Handle's response and balances and logs exactly Handle's published event |
| Views.InvalidRequestHasNoEffect | views.py:37-39 | an invalid request answers 400 with the serializer's field errors, changes no balance and publishes nothing |
| Views.UnknownAccountNotFound | views.py:44-45 | an unknown account id answers 404, changes no balance and publishes nothing |
| Views.InsufficientFundsRejected | views.py:49-53 | a balance below the amount answers 400 "Insufficient funds for withdrawal.", changes no balance and publishes nothing |
| Views.SuccessfulWithdrawal | views.py:57-82 | a covered withdrawal with a successful publish answers 200 "Withdrawal successful.", debits exactly the amount from that account only, leaves it non-negative and publishes one event that reads back as (id, amount, "SUCCESSFUL") |
| Views.PublishFailureRollsBack | views.py:67-87 | a failed publish restores the balances and answers 500 "SNS notification failed", and no event is published |
| Views.OtherFaultRollsBack | views.py:89-96 | another fault in the unit of work restores the balances and answers 500 "Withdrawal failed." |
| Views.CommitFaultLeavesEventWithoutDebit | views.py:57-82 | a commit failure after the publish restores the balances although the event has been published |
| Views.AllOrNothing | views.py:56-96 | balances change if and only if the request is valid and covered and publish and commit succeed, which happens if and only if the answer is 200; a debit never persists without its SUCCESSFUL event; an event is published exactly when the publish succeeds |
| Views.RunDebitsExactlyCommitted | views.py:45-60 | over any sequence of requests, each balance stays non-negative and falls by exactly the sum of the amounts answered 200 for that account |
| Views.AccountIdKeyErrorAsWritten | views.py:42 | the key the view reads the account id under is absent from the validated data of every valid request |
| Views.AccountIdKeyCorrected | views.py:42 | under the serializer's field name the validated data holds the validated account id |
| Views.ScenarioSuccess | views.py:57-82 | account 42 with 100.00, withdraw 30.00, publish succeeds: balance 70.00, 200, event {accountId 42, amount "30.00", status "SUCCESSFUL"} |
| Views.ScenarioInsufficient | views.py:49-53 | account 42 with 10.00, withdraw 30.00: balance stays 10.00, 400 insufficient funds, no event |
| Views.ScenarioPublishFails | views.py:67-87 | account 42 with 100.00, withdraw 30.00, publish fails: balance stays 100.00, 500 "SNS notification failed" |

## Left out

- The message-bus client (views.py:1, views.py:21, views.py:66-70) is a foreign network call. Only its success or failure is modelled, as the input `Env`.
- The ORM, `get_object_or_404` and the internals of `transaction.atomic` are abstracted. They become a map lookup and a snapshot of the balance map that is restored on abort.
- models.py is not part of this model. Limits of the balance column (digits, precision) are not modelled. A store failure inside the unit of work (the `save()` at views.py:60) is the `OtherFault` input.
- A store failure during the account lookup at views.py:45 is not modelled. The lookup runs before the `try` at views.py:56, so its exception escapes the handler and ends in the framework's generic 500; `Handle` has no such outcome.
- Logging (views.py:18, views.py:55, views.py:71-75, views.py:90-92) is left out because it has no effect on the outcome.
- HTTP request and response objects and the routing in urls.py are left out. A response is a status code and a body tag with its text. The 404 body is only the tag `NotFoundDetail`.
- Concurrency is left out. The funds check (views.py:49) runs before the unit of work opens, so two concurrent requests can race; the model is sequential.
- The text encoding of the event (`json.dumps`) is left out. The event is modelled as the JSON object it encodes.
- Decimal arithmetic is modelled as integer cents. Amounts whose quantization exceeds the decimal context's 28 digits are not modelled.
- Parsing of raw input text is not modelled: what counts as an integer or a number, the serializer library's maximum input length, and NaN or infinity. Each raw field arrives already classified as absent, null, unparsable, or parsed.
- A request body that is not a JSON object (an array, a string, null) is not modelled. The serializer answers it 400 with a `non_field_errors` entry, which the field-keyed errors of the model cannot hold; the raw request here is always an object with the two fields.
- The `amount` field at serializers.py:5-8 is declared without `max_digits`, which the serializer library's DecimalField takes as a required argument, so as written the declaration fails when the module is loaded. The model assumes `max_digits=None`: no limit on total or whole digits, and no max_digits or max_whole_digits error.
- The import at views.py:13 names a module `.contants` that does not exist. The model uses constants.py, as evidently intended.
- The minimum amount is modelled as intended (0.01 accepted) in Serializers.ValidateAmount, Serializers.Validate and Views.Handle. The check as declared is modelled separately; see Findings.
- The account id is read under the serializer's field name `account_id` in Views.Bank.Withdraw. The key as written is modelled separately; see Findings.
- Views.Handle: any non-publish exception in the unit of work is treated as `OtherFault`. A `ValueError` from another source would in fact be answered with its own text by the handler at views.py:84-87.

## Findings

| source | as written | input that shows it | evidently intended | confidence | as-written member | corrected member |
|---|---|---|---|---|---|---|
| serializers.py:7 | `min_value=0.01` is a binary float. The validator compares the Decimal amount with it exactly, and the float lies above 1/100. | amount "0.01": Decimal 0.01 < float 0.01, so it fails min_value | 0.01 is the smallest accepted amount (the comment says only zero and negative amounts are prevented) | not executed; medium (rests on Python's exact Decimal-float comparison and on the validator keeping the float) | Serializers.OneCentRejectedAsWritten | Serializers.ValidateAmount |
| views.py:42 | reads `validated_data["accountID"]`, but the serializer's field is `account_id` | any valid request, e.g. account_id 42, amount "30.00": KeyError before the account lookup, answered by the framework's generic 500 | read the key `account_id` | not executed; high | Views.AccountIdKeyErrorAsWritten | Views.AccountIdKeyCorrected |
