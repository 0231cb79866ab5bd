/**
 The validation chain of `addDestination`.

 Five checks run in a fixed order and the first one that fails decides the
 outcome; nothing after it is looked at. Dates are ISO strings compared
 lexicographically. `today` and `maxDate` (today plus one year) are computed
 from the clock by the caller and passed in; `endDate` is the trip end date
 field, which may be empty.
 */
module Validation {
  import opened Lex

  /** The reasons an entry is refused, one per check, in check order. */
  datatype AddError = EmptyName | EmptyDate | DateInPast | DateTooFarFuture | DateAfterTripEnd

  datatype Verdict = Accepted | Rejected(reason: AddError)

  /** The time stored when the time field is left empty. */
  const DefaultTime: string := "12:00"

  /** `time || '12:00'`: the entered time, or the default when it is empty. */
  function TimeOrDefault(time: string): (r: string)
    ensures r != ""
    ensures time != "" ==> r == time
    ensures time == "" ==> r == DefaultTime
  {
    if time == "" then DefaultTime else time
  }

  /** The validation chain, with an early return per failed check. Only the
      empty string counts as a missing name or date: nothing is trimmed. */
  function Validate(name: string, date: string, today: string, maxDate: string, endDate: string): (v: Verdict)
    ensures v == Accepted <==> Violations(name, date, today, maxDate, endDate) == []
    ensures v.Rejected? ==> v.reason in Violations(name, date, today, maxDate, endDate)
  {
    if name == "" then Rejected(EmptyName)
    else if date == "" then Rejected(EmptyDate)
    else if Less(date, today) then Rejected(DateInPast)
    else if Less(maxDate, date) then Rejected(DateTooFarFuture)
    else if endDate != "" && Less(endDate, date) then Rejected(DateAfterTripEnd)
    else Accepted
  }

  /** Reference definition: every check the entry fails, in check order,
      each judged on its own. */
  function Violations(name: string, date: string, today: string, maxDate: string, endDate: string): seq<AddError>
  {
    (if name == "" then [EmptyName] else []) +
    (if date == "" then [EmptyDate] else []) +
    (if Less(date, today) then [DateInPast] else []) +
    (if Less(maxDate, date) then [DateTooFarFuture] else []) +
    (if endDate != "" && Less(endDate, date) then [DateAfterTripEnd] else [])
  }

  /** The chain short-circuits: the verdict is the first violated check in
      the fixed order, and acceptance exactly when no check is violated. */
  lemma FirstViolationWins(name: string, date: string, today: string, maxDate: string, endDate: string)
    ensures var v := Violations(name, date, today, maxDate, endDate);
            Validate(name, date, today, maxDate, endDate) == if v == [] then Accepted else Rejected(v[0])
  {
  }

  /** A reason is reported exactly when its check fails and every earlier check passes. */
  lemma RejectionReasons(name: string, date: string, today: string, maxDate: string, endDate: string)
    ensures var r := Validate(name, date, today, maxDate, endDate);
      && (r == Rejected(EmptyName) <==> name == "")
      && (r == Rejected(EmptyDate) <==> name != "" && date == "")
      && (r == Rejected(DateInPast) <==> name != "" && date != "" && Less(date, today))
      && (r == Rejected(DateTooFarFuture) <==>
          name != "" && date != "" && !Less(date, today) && Less(maxDate, date))
      && (r == Rejected(DateAfterTripEnd) <==>
          name != "" && date != "" && !Less(date, today) && !Less(maxDate, date) &&
          endDate != "" && Less(endDate, date))
  {
  }

  /** Acceptance, stated with non-strict bounds: today <= date <= maxDate and,
      when an end date is set, date <= endDate. */
  lemma AcceptedIff(name: string, date: string, today: string, maxDate: string, endDate: string)
    ensures Validate(name, date, today, maxDate, endDate) == Accepted <==>
      && name != "" && date != ""
      && Compare(today, date) <= 0
      && Compare(date, maxDate) <= 0
      && (endDate != "" ==> Compare(date, endDate) <= 0)
  {
    CompareFlip(date, today);
    CompareFlip(maxDate, date);
    CompareFlip(endDate, date);
  }

  /** Every bound is inclusive: a date equal to today, to maxDate or to a set
      end date passes that check; an empty end date imposes no bound. */
  lemma BoundariesInclusive(name: string, today: string, maxDate: string, endDate: string)
    requires name != "" && today != ""
    ensures Compare(today, maxDate) <= 0 && (endDate == "" || Compare(today, endDate) <= 0)
            ==> Validate(name, today, today, maxDate, endDate) == Accepted
    ensures Compare(today, maxDate) <= 0 && (endDate == "" || Compare(maxDate, endDate) <= 0)
            ==> Validate(name, maxDate, today, maxDate, endDate) == Accepted
    ensures endDate != "" && Compare(today, endDate) <= 0 && Compare(endDate, maxDate) <= 0
            ==> Validate(name, endDate, today, maxDate, endDate) == Accepted
    ensures Compare(today, maxDate) <= 0 && endDate == ""
            ==> forall d :: d != "" && Compare(today, d) <= 0 && Compare(d, maxDate) <= 0
                  ==> Validate(name, d, today, maxDate, endDate) == Accepted
  {
    CompareZero(today, today);
    CompareZero(maxDate, maxDate);
    CompareZero(endDate, endDate);
    AcceptedIff(name, today, today, maxDate, endDate);
    AcceptedIff(name, maxDate, today, maxDate, endDate);
    AcceptedIff(name, endDate, today, maxDate, endDate);
    forall d | d != "" && Compare(today, d) <= 0 && Compare(d, maxDate) <= 0
      ensures endDate == "" ==> Validate(name, d, today, maxDate, endDate) == Accepted
    {
      AcceptedIff(name, d, today, maxDate, endDate);
    }
  }
}
