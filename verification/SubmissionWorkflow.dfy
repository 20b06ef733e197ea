/** The bug-bounty submission workflow (`SubmissionTracker` in app/submissions.py). */
module SubmissionWorkflow {
  import opened Wrappers

  datatype Status =
    | Draft | Submitted | Triaged | NeedsInfo | Accepted | Duplicate | Informative | NotApplicable | Resolved | Paid

  type Id = nat
  type Time = nat

  datatype Submission = Submission(
    status: Status, submittedAt: Option<Time>, resolvedAt: Option<Time>, bounty: Option<real>, currency: Option<string>)

  /** A call's arguments; an unsupported status name is None. */
  datatype Request = Request(status: Option<Status>, bounty: Option<real>, currency: Option<string>)

  /** The columns an UPDATE sets besides the status; None leaves a column as it is. */
  datatype Update = Update(
    status: Status, submittedAt: Option<Time>, resolvedAt: Option<Time>, bounty: Option<real>, currency: Option<string>)

  datatype Error = UnsupportedStatus | NotFound | InvalidTransition | NegativeBounty | MissingCurrency

  function AllowedFrom(s: Status): set<Status> {
    match s
    case Draft => {Submitted}
    case Submitted => {Triaged, NeedsInfo, Duplicate, Informative, NotApplicable}
    case Triaged => {NeedsInfo, Accepted, Duplicate, Informative, NotApplicable}
    case NeedsInfo => {Submitted, Triaged, Accepted, Duplicate, Informative, NotApplicable}
    case Accepted => {Resolved, NotApplicable}
    case Resolved => {Paid}
    case _ => {}
  }

  const NEW := Submission(Draft, None, None, None, None)

  function Present(currency: Option<string>): bool {
    currency.Some? && currency.value != ""
  }

  /** The reading half: the checks, and the columns to set. `normalize` is `upper().strip()`. */
  function Prepare(row: Submission, request: Request, normalize: string -> string, now: Time): Result<Update, Error> {
    if request.status.None? then Failure(UnsupportedStatus)
    else
      var next := request.status.value;
      if next != row.status && next !in AllowedFrom(row.status) then Failure(InvalidTransition)
      else if request.bounty.Some? && request.bounty.value < 0.0 then Failure(NegativeBounty)
      else if request.bounty.Some? && !Present(request.currency) && !Present(row.currency) then Failure(MissingCurrency)
      else Success(Update(
        next,
        if next == Submitted && row.submittedAt.None? then Some(now) else None,
        if next in {Resolved, Paid} && row.resolvedAt.None? then Some(now) else None,
        request.bounty,
        if request.currency.Some? then Some(normalize(request.currency.value)) else None))
  }

  function Set<T>(column: Option<T>, value: Option<T>): Option<T> {
    if value.Some? then value else column
  }

  /** The writing half. */
  function Write(row: Submission, u: Update): Submission {
    Submission(u.status, Set(row.submittedAt, u.submittedAt), Set(row.resolvedAt, u.resolvedAt), Set(row.bounty, u.bounty),
               Set(row.currency, u.currency))
  }

  /** The workflow read backwards: where a status is reached from. */
  function ReachedFrom(to: Status): set<Status> {
    match to
    case Draft => {}
    case Submitted => {Draft, NeedsInfo}
    case Triaged => {Submitted, NeedsInfo}
    case NeedsInfo => {Submitted, Triaged}
    case Accepted => {Triaged, NeedsInfo}
    case Resolved => {Accepted}
    case Paid => {Resolved}
    case NotApplicable => {Submitted, Triaged, NeedsInfo, Accepted}
    case Duplicate => {Submitted, Triaged, NeedsInfo}
    case Informative => {Submitted, Triaged, NeedsInfo}
  }

  /** What a call on the row is answered, column by column. */
  ghost predicate Answers(row: Submission, request: Request, normalize: string -> string, now: Time,
                          r: Result<Submission, Error>)
    requires request.status.Some?
  {
    var to := request.status.value;
    if row.status != to && row.status !in ReachedFrom(to) then r == Failure(InvalidTransition)
    else if request.bounty.Some? && request.bounty.value < 0.0 then r == Failure(NegativeBounty)
    else if request.bounty.Some? && request.currency in {None, Some("")} && row.currency in {None, Some("")}
    then r == Failure(MissingCurrency)
    else
      && r.Success?
      && r.value.status == to
      && r.value.bounty == (if request.bounty.Some? then request.bounty else row.bounty)
      && r.value.currency == (if request.currency.Some? then Some(normalize(request.currency.value)) else row.currency)
      && r.value.submittedAt == (if to == Submitted && row.submittedAt.None? then Some(now) else row.submittedAt)
      && r.value.resolvedAt == (if (to == Resolved || to == Paid)
         && row.resolvedAt.None? then Some(now) else row.resolvedAt)
  }

  lemma HalvesAnswer(row: Submission, request: Request, normalize: string -> string, now: Time)
    requires request.status.Some?
    ensures var update := Prepare(row, request, normalize, now);
            Answers(row, request, normalize, now,
                    if update.Success? then Success(Write(row, update.value)) else Failure(update.error))
  {
    assert request.status.value in AllowedFrom(row.status) <==> row.status in ReachedFrom(request.status.value);
  }

  class SubmissionTracker {
    const normalize: string -> string
    var rows: map<Id, Submission>
    var nextId: Id

    constructor (normalize: string -> string)
      ensures this.normalize == normalize && rows == map[] && nextId == 1
    {
      this.normalize, rows, nextId := normalize, map[], 1;
    }

    method Create() returns (id: Id)
      modifies this
      ensures id == old(nextId) && nextId == old(nextId) + 1 && rows == old(rows)[id := NEW]
    {
      id := nextId;
      rows, nextId := rows[id := NEW], nextId + 1;
    }

    /** `transition` with no other call of the same submission in between. */
    method Transition(id: Id, request: Request, now: Time) returns (r: Result<Submission, Error>)
      modifies this`rows
      ensures request.status.None? ==> r == Failure(UnsupportedStatus)
      ensures request.status.Some? && id !in old(rows) ==> r == Failure(NotFound)
      ensures request.status.Some? && id in old(rows) ==>
                Answers(old(rows)[id], request, normalize, now, r)
      ensures rows == if r.Success? then old(rows)[id := r.value] else old(rows)
    {
      if request.status.None? { return Failure(UnsupportedStatus); }
      if id !in rows { return Failure(NotFound); }
      var update := Prepare(rows[id], request, normalize, now);
      HalvesAnswer(rows[id], request, normalize, now);
      if update.Failure? { return Failure(update.error); }
      var row := Write(rows[id], update.value);
      rows := rows[id := row];
      return Success(row);
    }
  }

  predicate Terminal(s: Status) { AllowedFrom(s) == {} }

  /** What is left of the currency rule once the text is normalized: a bounty is stored next to a currency that is not
      blank exactly when the call names none or one that does not normalize to nothing. */
  lemma BountyCurrency(row: Submission, request: Request, normalize: string -> string, now: Time)
    requires request.bounty.Some? && Prepare(row, request, normalize, now).Success?
    ensures var after := Write(row, Prepare(row, request, normalize, now).value);
            && after.currency.Some?
            && (Present(after.currency) <==> request.currency.None? || normalize(request.currency.value) != "")
  {}

  /** The check sees the text before it is normalized, so a blank one passes it and is stored as nothing. */
  lemma BlankCurrencyStored(normalize: string -> string, amount: real, now: Time)
    requires normalize(" ") == "" && amount >= 0.0
    ensures var update := Prepare(NEW, Request(Some(Submitted), Some(amount), Some(" ")), normalize, now);
            update.Success? && Write(NEW, update.value).bounty == Some(amount) && Write(NEW, update.value).currency == Some("")
  {}
}
