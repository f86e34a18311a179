/** The card of the earlier client: the one-click status cycle, the overdue flag and the button label. */
module TaskCard {
  import opened Wrappers
  import opened Payload
  import opened Constants
  import opened TaskModel
  import opened Validators

  /** `Array.prototype.indexOf`: the first position of `x`, or -1. */
  function IndexOf(xs: seq<string>, x: string): (i: int)
    ensures -1 <= i < |xs|
    ensures i == -1 <==> x !in xs
    ensures i >= 0 ==> xs[i] == x && forall k :: 0 <= k < i ==> xs[k] != x
  {
    if xs == [] then -1
    else if xs[0] == x then 0
    else
      var j := IndexOf(xs[1..], x);
      if j == -1 then -1 else j + 1
  }

  /** `getNextStatus`: the status after `current` in the cycle, wrapping around. */
  function NextStatus(current: string): (r: string)
    ensures r in ValidStatuses
  {
    var statuses := ValidStatuses;
    statuses[(IndexOf(statuses, current) + 1) % |statuses|]
  }

  /** The cycle is pending, in-progress, completed, pending. */
  lemma NextStatusCycle()
    ensures NextStatus(StatusName(Pending)) == StatusName(InProgress)
    ensures NextStatus(StatusName(InProgress)) == StatusName(Completed)
    ensures NextStatus(StatusName(Completed)) == StatusName(Pending)
  {
    assert IndexOf(ValidStatuses, "pending") == 0;
    assert IndexOf(ValidStatuses, "in-progress") == 1;
    assert IndexOf(ValidStatuses, "completed") == 2;
  }

  /** Three clicks bring a card with a valid status back to where it started. */
  lemma ThreeStepsIsIdentity(s: string)
    requires s in ValidStatuses
    ensures NextStatus(NextStatus(NextStatus(s))) == s
  {
    NextStatusCycle();
  }

  /** An unknown status (index -1) moves to the first status, "pending". */
  lemma UnknownStatusGoesToPending(s: string)
    requires s !in ValidStatuses
    ensures NextStatus(s) == StatusName(Pending)
  {
  }

  /** The PATCH a click sends always passes the update validator. */
  lemma NextStatusPassesUpdate(s: string)
    ensures ValidateUpdate(TaskInput(Undefined, Undefined, Str(NextStatus(s)), Undefined, NoDate)).Pass?
  {
  }

  /** `isOverdue`: a due date strictly before `now` on a task that is not completed. */
  predicate IsOverdue(dueDate: Option<Instant>, status: string, now: Instant): (b: bool)
    ensures dueDate.None? || status == StatusName(Completed) ==> !b
    ensures dueDate.Some? && dueDate.value == now ==> !b
    ensures dueDate.Some? && status != StatusName(Completed) ==> (b <==> dueDate.value < now)
  {
    dueDate.Some? && dueDate.value < now && status != StatusName(Completed)
  }

  /** A task that is overdue stays overdue as time passes, until it is completed. */
  lemma OverdueStaysOverdue(dueDate: Option<Instant>, status: string, now: Instant, later: Instant)
    requires IsOverdue(dueDate, status, now) && now <= later
    ensures IsOverdue(dueDate, status, later)
  {
  }

  /** Clicking an in-progress card clears its overdue flag; no other click does. */
  lemma CompletingClearsOverdue(dueDate: Option<Instant>, status: string, now: Instant)
    requires IsOverdue(dueDate, status, now)
    ensures !IsOverdue(dueDate, NextStatus(status), now) <==> status == StatusName(InProgress)
  {
    NextStatusCycle();
    if status !in ValidStatuses {
      UnknownStatusGoesToPending(status);
    }
  }

  /** The cycle button's label: Start, Complete or Reopen; nothing for any other status. */
  function ActionLabel(status: string): (caption: string)
    ensures caption == "Start" <==> NextStatus(status) == StatusName(InProgress)
    ensures caption == "Complete" <==> NextStatus(status) == StatusName(Completed)
    ensures caption == "Reopen" <==> status == StatusName(Completed)
    ensures caption == "" <==> status !in ValidStatuses
  {
    NextStatusCycle();
    if status == "pending" then "Start"
    else if status == "in-progress" then "Complete"
    else if status == "completed" then "Reopen"
    else ""
  }
}
