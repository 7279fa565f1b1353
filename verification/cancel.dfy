/** Cooperative cancellation of one agent turn: a one-way flag and the error it raises. */
module Cancel {
  import opened Options

  /** The `AgentCancelled` error, carrying its message. */
  datatype AgentCancelled = AgentCancelled(message: string)

  /** The message `check` raises with: the reason, or "cancelled" when the reason is None or empty. */
  function CancelMessage(reason: Option<string>): (m: string)
    ensures m != ""
    ensures reason.Some? && reason.value != "" ==> m == reason.value
  {
    if reason.Some? && reason.value != "" then reason.value else "cancelled"
  }

  /**
    A token shared between the turn loop and whoever may cancel it. `isSet`
    is the state of its event; nothing ever clears it.
   */
  class CancelToken {
    var reason: Option<string>
    var isSet: bool

    /** A fresh token is not cancelled and has no reason. */
    constructor ()
      ensures !isSet && reason == None
    {
      reason := None;
      isSet := false;
    }

    /** Records the reason (overwriting any earlier one, also with None) and sets the flag. */
    method Cancel(reason: Option<string>)
      modifies this
      ensures isSet && this.reason == reason
    {
      this.reason := reason;
      isSet := true;
    }

    /** The `cancelled` property. */
    predicate Cancelled()
      reads this
    {
      isSet
    }

    /**
      Returns normally (None) while not cancelled; once cancelled, fails with
      `AgentCancelled` carrying the reason, or "cancelled" without one.
     */
    method Check() returns (raised: Option<AgentCancelled>)
      ensures !Cancelled() ==> raised == None
      ensures Cancelled() ==> raised.Some? && raised.value.message != ""
      ensures Cancelled() && reason.Some? && reason.value != "" ==> raised == Some(AgentCancelled(reason.value))
      ensures Cancelled() && (reason.None? || reason.value == "") ==> raised == Some(AgentCancelled("cancelled"))
    {
      if Cancelled() {
        raised := Some(AgentCancelled(CancelMessage(reason)));
      } else {
        raised := None;
      }
    }
  }
}
