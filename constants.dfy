/**
 * The withdrawal status enumeration (constants.py). Each status has a symbolic
 * name (what the published event carries) and a message text (its value, what
 * an HTTP body carries and what its string form is).
 */
module Constants {
  import opened Wrappers

  datatype WithdrawalStatus = Successful | Failed | InsufficientFunds {

    /** The member's symbolic name, `WithdrawalStatus.X.name`. */
    function Name(): string {
      match this
      case Successful => "SUCCESSFUL"
      case Failed => "FAILED"
      case InsufficientFunds => "INSUFFICIENT_FUNDS"
    }

    /** The member's value, the human-readable message. */
    function Message(): string {
      match this
      case Successful => "Withdrawal successful."
      case Failed => "Withdrawal failed."
      case InsufficientFunds => "Insufficient funds for withdrawal."
    }

    /** `__str__` returns the value, not the name. */
    function ToString(): (s: string)
      ensures s == Message()
      ensures s != Name()
    {
      Message()
    }
  }

  /** The members in declaration order (`WithdrawalStatus` iterated). */
  const AllStatuses: seq<WithdrawalStatus> := [Successful, Failed, InsufficientFunds]

  /** Lookup by value, `WithdrawalStatus(m)`; None where the enum raises ValueError. */
  function FromMessage(m: string): (r: Option<WithdrawalStatus>)
    ensures r.Some? ==> r.value.Message() == m
    ensures forall s: WithdrawalStatus :: s.Message() == m ==> r == Some(s)
  {
    if m == Successful.Message() then Some(Successful)
    else if m == Failed.Message() then Some(Failed)
    else if m == InsufficientFunds.Message() then Some(InsufficientFunds)
    else None
  }

  /** Lookup by name, `WithdrawalStatus[n]`; None where the enum raises KeyError. */
  function FromName(n: string): (r: Option<WithdrawalStatus>)
    ensures r.Some? ==> r.value.Name() == n
    ensures forall s: WithdrawalStatus :: s.Name() == n ==> r == Some(s)
  {
    if n == Successful.Name() then Some(Successful)
    else if n == Failed.Name() then Some(Failed)
    else if n == InsufficientFunds.Name() then Some(InsufficientFunds)
    else None
  }

  /** There are exactly three statuses, each listed once. */
  lemma ExactlyThreeStatuses()
    ensures |AllStatuses| == 3
    ensures forall s: WithdrawalStatus :: s in AllStatuses
    ensures forall i, j :: 0 <= i < j < |AllStatuses| ==> AllStatuses[i] != AllStatuses[j]
    ensures AllStatuses[0].Name() == "SUCCESSFUL" && AllStatuses[0].Message() == "Withdrawal successful."
    ensures AllStatuses[1].Name() == "FAILED" && AllStatuses[1].Message() == "Withdrawal failed."
    ensures AllStatuses[2].Name() == "INSUFFICIENT_FUNDS" && AllStatuses[2].Message() == "Insufficient funds for withdrawal."
  {
    forall s: WithdrawalStatus ensures s in AllStatuses {
      var k := match s case Successful => 0 case Failed => 1 case InsufficientFunds => 2;
      assert AllStatuses[k] == s;
    }
  }

  /** The message identifies the status: messages are pairwise distinct. */
  lemma MessageIdentifiesStatus(s: WithdrawalStatus, t: WithdrawalStatus)
    ensures s.Message() == t.Message() <==> s == t
  {
    assert FromMessage(s.Message()) == Some(s);
  }

  /** No status's name equals any status's message, so event and response strings never coincide. */
  lemma NamesAreNotMessages(s: WithdrawalStatus, t: WithdrawalStatus)
    ensures s.Name() != t.Message()
  {
    assert s.Name()[1] != t.Message()[1];  // upper case versus lower case
  }

  /** The SUCCESSFUL member, as the event and the 200 response use it. */
  lemma SuccessfulStrings()
    ensures Successful.Name() == "SUCCESSFUL"
    ensures Successful.ToString() == "Withdrawal successful."
    ensures Successful.Name() != Successful.ToString()
  {
  }
}
