/**
 * The withdrawal endpoint (views.py, `WithdrawView.post`). In order it:
 * validates the request (400 with the field errors); looks the account up
 * (404); checks the funds (400 "Insufficient funds for withdrawal.", no
 * change); then, inside one atomic unit of work, debits the balance and
 * publishes a SUCCESSFUL event. A publish that succeeds is followed by the
 * commit and 200 "Withdrawal successful."; a publish that fails rolls the
 * debit back and answers 500 "SNS notification failed"; any other fault in the
 * unit of work rolls it back and answers 500 "Withdrawal failed.".
 *
 * The account store is a map from account id to balance in cents. The unit of
 * work is a snapshot of that map, restored on abort. What happens inside it
 * that the code does not decide is an input, Env.
 */
module Views {
  import opened Wrappers
  import opened Constants
  import opened Serializers
  import opened Events
  import DecimalText

  /**
   * What the collaborators do inside the unit of work:
   *  - PublishOk: the publish succeeds and the unit of work commits;
   *  - PublishErr: the publish raises, which the view turns into a ValueError;
   *  - OtherFault: any other exception before the publish (the store write fails, say);
   *  - CommitFault: the publish succeeds but the commit at the end of the unit of work fails.
   */
  datatype Env = PublishOk | PublishErr | OtherFault | CommitFault

  const HttpOk: int := 200
  const HttpBadRequest: int := 400
  const HttpNotFound: int := 404
  const HttpServerError: int := 500

  /** `str(ValueError("SNS notification failed"))`. */
  const PublishFailedText: string := "SNS notification failed"

  /** A response body: field errors, the standard not-found body, `{"error": text}` or `{"message": text}`. */
  datatype Body = FieldErrors(errors: Errors) | NotFoundDetail | ErrorText(error: string) | MessageText(message: string)

  datatype Response = Response(code: int, body: Body)

  /** A request's response, the balances afterwards, and the event published, if any. */
  datatype Outcome = Outcome(response: Response, balances: map<int, int>, event: Option<Event>)

  predicate NonNegative(store: map<int, int>) {
    forall id | id in store :: store[id] >= 0
  }

  /** Whether a validated request reaches the unit of work: the account exists and covers the amount. */
  predicate Covered(store: map<int, int>, w: Withdrawal) {
    w.accountId in store && store[w.accountId] >= w.cents
  }

  /**
   * The endpoint as a transition on the store. The balances change only by the
   * debit of the requested account, never upwards, and stay non-negative.
   */
  function Handle(store: map<int, int>, raw: RawRequest, env: Env): (o: Outcome)
    ensures o.balances.Keys == store.Keys
    ensures forall id | id in store :: o.balances[id] <= store[id]
    ensures forall id | id in store && o.balances[id] != store[id] ::
              Validate(raw).Ok? && id == Validate(raw).value.accountId
    ensures NonNegative(store) ==> NonNegative(o.balances)
  {
    match Validate(raw)
    case Err(errors) => Outcome(Response(HttpBadRequest, FieldErrors(errors)), store, None)
    case Ok(w) =>
      if w.accountId !in store then
        Outcome(Response(HttpNotFound, NotFoundDetail), store, None)
      else if store[w.accountId] < w.cents then
        Outcome(Response(HttpBadRequest, ErrorText(InsufficientFunds.Message())), store, None)
      else
        var event := EventData(w.accountId, w.cents, Successful.Name());
        match env
        case PublishOk =>
          Outcome(Response(HttpOk, MessageText(Successful.Message())),
                  store[w.accountId := store[w.accountId] - w.cents], Some(event))
        case PublishErr =>
          Outcome(Response(HttpServerError, ErrorText(PublishFailedText)), store, None)
        case OtherFault =>
          Outcome(Response(HttpServerError, ErrorText(Failed.Message())), store, None)
        case CommitFault =>
          Outcome(Response(HttpServerError, ErrorText(Failed.Message())), store, Some(event))
  }

  /** The events a request adds to the log of published events. */
  function Published(o: Outcome): seq<Event> {
    if o.event.Some? then [o.event.value] else []
  }

  /** The account balances, changed by withdrawals, with the log of events published so far. */
  class Bank {
    var balances: map<int, int>
    ghost var published: seq<Event>

    constructor (initial: map<int, int>)
      ensures balances == initial && published == []
    {
      balances := initial;
      published := [];
    }

    /** `WithdrawView.post` on this store, with the collaborators behaving as `env` says. */
    method Withdraw(raw: RawRequest, env: Env) returns (response: Response)
      modifies this
      ensures response == Handle(old(balances), raw, env).response
      ensures balances == Handle(old(balances), raw, env).balances
      ensures published == old(published) + Published(Handle(old(balances), raw, env))
    {
      var validation := Validate(raw);
      if validation.Err? {
        return Response(HttpBadRequest, FieldErrors(validation.error));
      }
      var data := ValidatedData(validation.value);
      var amount := data[AmountField.Key()].cents;
      var accountId := data[AccountIdField.Key()].i;

      if accountId !in balances {
        return Response(HttpNotFound, NotFoundDetail);
      }
      if balances[accountId] < amount {
        return Response(HttpBadRequest, ErrorText(InsufficientFunds.Message()));
      }

      // transaction.atomic(): keep a snapshot to restore on abort
      var snapshot := balances;
      balances := balances[accountId := balances[accountId] - amount];
      if env == OtherFault {
        balances := snapshot;
        return Response(HttpServerError, ErrorText(Failed.Message()));
      }
      var event := EventData(accountId, amount, Successful.Name());
      if env == PublishErr {
        balances := snapshot;
        return Response(HttpServerError, ErrorText(PublishFailedText));
      }
      published := published + [event];
      if env == CommitFault {
        balances := snapshot;
        return Response(HttpServerError, ErrorText(Failed.Message()));
      }
      response := Response(HttpOk, MessageText(Successful.Message()));
    }
  }

  // ---- Properties of the transition ----

  /** An invalid request answers 400 with the serializer's errors, unchanged, and touches nothing. */
  lemma InvalidRequestHasNoEffect(store: map<int, int>, raw: RawRequest, env: Env)
    requires Validate(raw).Err?
    ensures Handle(store, raw, env) == Outcome(Response(HttpBadRequest, FieldErrors(ValidateErrors(raw))), store, None)
  {
  }

  /** An unknown account answers 404 and touches nothing. */
  lemma UnknownAccountNotFound(store: map<int, int>, raw: RawRequest, env: Env)
    requires Validate(raw).Ok? && Validate(raw).value.accountId !in store
    ensures Handle(store, raw, env) == Outcome(Response(HttpNotFound, NotFoundDetail), store, None)
  {
  }

  /** A balance below the amount answers 400 with the insufficient-funds message and touches nothing. */
  lemma InsufficientFundsRejected(store: map<int, int>, raw: RawRequest, env: Env)
    requires Validate(raw).Ok?
    requires var w := Validate(raw).value; w.accountId in store && store[w.accountId] < w.cents
    ensures Handle(store, raw, env).response == Response(HttpBadRequest, ErrorText("Insufficient funds for withdrawal."))
    ensures Handle(store, raw, env).balances == store && Handle(store, raw, env).event == None
  {
  }

  /** A covered withdrawal whose publish succeeds debits exactly the amount and publishes one SUCCESSFUL event. */
  lemma SuccessfulWithdrawal(store: map<int, int>, raw: RawRequest)
    requires Validate(raw).Ok? && Covered(store, Validate(raw).value)
    ensures var w := Validate(raw).value;
            var o := Handle(store, raw, PublishOk);
            && o.response == Response(HttpOk, MessageText("Withdrawal successful."))
            && o.balances[w.accountId] == store[w.accountId] - w.cents
            && o.balances[w.accountId] >= 0
            && (forall id | id in store && id != w.accountId :: o.balances[id] == store[id])
            && o.event.Some?
            && ReadEvent(o.event.value) == Some(EventFields(w.accountId, w.cents, "SUCCESSFUL"))
  {
    var w := Validate(raw).value;
    EventRoundTrip(w.accountId, w.cents, Successful.Name());
  }

  /** A failed publish rolls the debit back and answers 500 with the publish-failure text. */
  lemma PublishFailureRollsBack(store: map<int, int>, raw: RawRequest)
    requires Validate(raw).Ok? && Covered(store, Validate(raw).value)
    ensures Handle(store, raw, PublishErr) == Outcome(Response(HttpServerError, ErrorText("SNS notification failed")), store, None)
  {
  }

  /** Any other fault in the unit of work rolls the debit back and answers 500 "Withdrawal failed.". */
  lemma OtherFaultRollsBack(store: map<int, int>, raw: RawRequest)
    requires Validate(raw).Ok? && Covered(store, Validate(raw).value)
    ensures Handle(store, raw, OtherFault) == Outcome(Response(HttpServerError, ErrorText("Withdrawal failed.")), store, None)
  {
  }

  /**
   * A commit that fails after the publish rolls the debit back although the
   * event has gone out: the atomicity covers the debit, not the announcement.
   */
  lemma CommitFaultLeavesEventWithoutDebit(store: map<int, int>, raw: RawRequest)
    requires Validate(raw).Ok? && Covered(store, Validate(raw).value)
    ensures var o := Handle(store, raw, CommitFault);
            o.balances == store && o.event.Some? && o.response == Response(HttpServerError, ErrorText("Withdrawal failed."))
  {
  }

  /**
   * All or nothing: the balances change exactly when the request is valid and
   * covered and both the publish and the commit succeed, which is exactly when
   * the answer is 200; and a debit never persists without its event.
   */
  lemma AllOrNothing(store: map<int, int>, raw: RawRequest, env: Env)
    ensures var o := Handle(store, raw, env);
            (o.balances != store) <==> (Validate(raw).Ok? && Covered(store, Validate(raw).value) && env == PublishOk)
    ensures var o := Handle(store, raw, env);
            (o.balances != store) <==> o.response.code == HttpOk
    ensures var o := Handle(store, raw, env);
            o.balances != store ==> o.event.Some? && o.event.value[StatusKey] == JStr(Successful.Name())
    ensures var o := Handle(store, raw, env);
            o.event.Some? <==> (Validate(raw).Ok? && Covered(store, Validate(raw).value) && env in {PublishOk, CommitFault})
  {
    var o := Handle(store, raw, env);
    if Validate(raw).Ok? && Covered(store, Validate(raw).value) && env == PublishOk {
      var w := Validate(raw).value;
      assert o.balances[w.accountId] != store[w.accountId];
    }
  }

  // ---- Sequences of requests ----

  /** The balances after serving the requests in order. */
  function Run(store: map<int, int>, requests: seq<(RawRequest, Env)>): map<int, int>
    decreases |requests|
  {
    if requests == [] then store
    else Run(Handle(store, requests[0].0, requests[0].1).balances, requests[1..])
  }

  /** The cents committed against one account over the requests: the amounts of the 200 answers. */
  function Committed(store: map<int, int>, requests: seq<(RawRequest, Env)>, id: int): int
    decreases |requests|
  {
    if requests == [] then 0
    else
      var o := Handle(store, requests[0].0, requests[0].1);
      var here := if o.response.code == HttpOk && Validate(requests[0].0).value.accountId == id
                  then Validate(requests[0].0).value.cents else 0;
      here + Committed(o.balances, requests[1..], id)
  }

  /**
   * Over any run of requests, every account keeps a non-negative balance that
   * never grows, and falls by exactly the amounts of the withdrawals answered 200.
   */
  lemma {:induction false} RunDebitsExactlyCommitted(store: map<int, int>, requests: seq<(RawRequest, Env)>)
    requires NonNegative(store)
    ensures Run(store, requests).Keys == store.Keys
    ensures NonNegative(Run(store, requests))
    ensures forall id | id in store :: Run(store, requests)[id] == store[id] - Committed(store, requests, id)
    ensures forall id | id in store :: Committed(store, requests, id) >= 0
    decreases |requests|
  {
    if requests != [] {
      var raw, env := requests[0].0, requests[0].1;
      var o := Handle(store, raw, env);
      RunDebitsExactlyCommitted(o.balances, requests[1..]);
      AllOrNothing(store, raw, env);
      forall id | id in store
        ensures Run(store, requests)[id] == store[id] - Committed(store, requests, id)
        ensures Committed(store, requests, id) >= 0
      {
        if o.response.code == HttpOk {
          SuccessfulWithdrawal(store, raw);
        }
      }
    }
  }

  // ---- Reading the validated data ----

  /** The key the view reads the account id under. */
  const AccountIdKeyAsWritten: string := "accountID"

  /** As written, reading the account id fails for every valid request, before the account is looked up. */
  lemma AccountIdKeyErrorAsWritten(w: Withdrawal)
    ensures AccountIdKeyAsWritten !in ValidatedData(w)
  {
  }

  /** Under the serializer's own field name the read gives the validated account id. */
  lemma AccountIdKeyCorrected(w: Withdrawal)
    ensures AccountIdField.Key() in ValidatedData(w)
    ensures ValidatedData(w)[AccountIdField.Key()] == CleanedInt(w.accountId)
  {
  }

  // ---- Concrete scenarios ----

  /** Account 42 holds 100.00; withdrawing 30.00 with a successful publish leaves 70.00. */
  lemma ScenarioSuccess()
    ensures Handle(map[42 := 10000], RawRequest(AccountIdInteger(42), AmountDecimal(3000, 2)), PublishOk)
         == Outcome(Response(200, MessageText("Withdrawal successful.")), map[42 := 7000],
                    Some(map["accountId" := JInt(42), "amount" := JStr("30.00"), "status" := JStr("SUCCESSFUL")]))
  {
    assert DecimalText.NatText(30) == "30";
    assert DecimalText.CentsText(3000) == "30.00";
    assert map[42 := 10000][42 := 7000] == map[42 := 7000];
  }

  /** Account 42 holds 10.00; withdrawing 30.00 is refused and changes nothing. */
  lemma ScenarioInsufficient()
    ensures Handle(map[42 := 1000], RawRequest(AccountIdInteger(42), AmountDecimal(3000, 2)), PublishOk)
         == Outcome(Response(400, ErrorText("Insufficient funds for withdrawal.")), map[42 := 1000], None)
  {
  }

  /** Account 42 holds 100.00; withdrawing 30.00 with a failed publish leaves 100.00. */
  lemma ScenarioPublishFails()
    ensures Handle(map[42 := 10000], RawRequest(AccountIdInteger(42), AmountDecimal(3000, 2)), PublishErr)
         == Outcome(Response(500, ErrorText("SNS notification failed")), map[42 := 10000], None)
  {
  }
}
