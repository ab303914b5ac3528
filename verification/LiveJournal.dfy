/** The durable journal of live submissions, fills and cancellations. */
module LiveJournal {
  import opened Wrappers
  import opened Decisions

  datatype Submission = Submission(
    clientOrderId: string, cycleId: string, decisionRunId: string, orderId: string,
    idempotencyKey: string, symbol: string, side: Side, qty: real)

  datatype FillRow = FillRow(clientOrderId: string, fillId: Option<string>, qty: real, price: real, isPartial: bool)

  datatype CancelRow = CancelRow(clientOrderId: string, reason: Option<string>)

  /** The three tables, rows in insertion order. */
  datatype Journal = Journal(submissions: seq<Submission>, fills: seq<FillRow>, cancellations: seq<CancelRow>)

  const EmptyJournal := Journal([], [], [])

  datatype Attribution = Attribution(cycleId: string, decisionRunId: string)

  /** The primary key of the submissions: no two rows with one client order id. */
  ghost predicate KeyedById(j: Journal) {
    forall i, k :: 0 <= i < k < |j.submissions| ==> j.submissions[i].clientOrderId != j.submissions[k].clientOrderId
  }

  predicate Registered(j: Journal, id: string) {
    exists s <- j.submissions :: s.clientOrderId == id
  }

  function FindSubmission(submissions: seq<Submission>, id: string): (r: Option<Submission>)
    ensures r.Some? <==> exists s <- submissions :: s.clientOrderId == id
    ensures r.Some? ==> r.value in submissions && r.value.clientOrderId == id
  {
    if submissions == [] then None
    else
      assert submissions == [submissions[0]] + submissions[1..];
      if submissions[0].clientOrderId == id then Some(submissions[0]) else FindSubmission(submissions[1..], id)
  }

  function AttributionOf(j: Journal, id: string): (r: Option<Attribution>)
    ensures r.Some? <==> Registered(j, id)
  {
    match FindSubmission(j.submissions, id)
    case Some(s) => Some(Attribution(s.cycleId, s.decisionRunId))
    case None => None
  }

  /** A fill row repeats only when it carries an execution id: SQL never equates NULL with NULL. */
  predicate RepeatsFill(j: Journal, row: FillRow) {
    row.fillId.Some? && exists f <- j.fills :: f.clientOrderId == row.clientOrderId && f.fillId == row.fillId
  }

  predicate Cancelled(j: Journal, id: string) {
    exists c <- j.cancellations :: c.clientOrderId == id
  }

  function WithFill(j: Journal, row: FillRow): Journal {
    if RepeatsFill(j, row) then j else j.(fills := j.fills + [row])
  }

  function WithCancel(j: Journal, row: CancelRow): Journal {
    if Cancelled(j, row.clientOrderId) then j else j.(cancellations := j.cancellations + [row])
  }

  class LiveBrokerJournal {
    var submissions: seq<Submission>
    var fills: seq<FillRow>
    var cancellations: seq<CancelRow>

    function State(): Journal
      reads this
    {
      Journal(submissions, fills, cancellations)
    }

    ghost predicate Valid()
      reads this
    {
      KeyedById(State())
    }

    constructor ()
      ensures Valid() && State() == EmptyJournal
    {
      submissions, fills, cancellations := [], [], [];
    }

    /** False is the IntegrityError of a repeated client order id; nothing is written then. */
    method RegisterSubmission(s: Submission) returns (ok: bool)
      requires Valid()
      modifies this`submissions
      ensures Valid()
      ensures ok <==> !Registered(old(State()), s.clientOrderId)
      ensures submissions == if ok then old(submissions) + [s] else old(submissions)
    {
      ok := !Registered(State(), s.clientOrderId);
      if ok {
        submissions := submissions + [s];
      }
    }

    method RecordFill(row: FillRow) returns (inserted: bool)
      modifies this`fills
      ensures inserted <==> !RepeatsFill(old(State()), row)
      ensures State() == WithFill(old(State()), row)
    {
      if row.fillId.Some? {
        for i := 0 to |fills|
          invariant fills == old(fills)
          invariant forall j :: 0 <= j < i ==>
            !(fills[j].clientOrderId == row.clientOrderId && fills[j].fillId == row.fillId)
        {
          if fills[i].clientOrderId == row.clientOrderId && fills[i].fillId == row.fillId {
            return false;
          }
        }
      }
      fills := fills + [row];
      inserted := true;
    }

    method RecordCancel(row: CancelRow) returns (inserted: bool)
      modifies this`cancellations
      ensures inserted <==> !Cancelled(old(State()), row.clientOrderId)
      ensures State() == WithCancel(old(State()), row)
    {
      for i := 0 to |cancellations|
        invariant cancellations == old(cancellations)
        invariant forall j :: 0 <= j < i ==> cancellations[j].clientOrderId != row.clientOrderId
      {
        if cancellations[i].clientOrderId == row.clientOrderId {
          return false;
        }
      }
      cancellations := cancellations + [row];
      inserted := true;
    }

    /** The one row of the order, if it has one. */
    method Resolve(id: string) returns (r: Option<Attribution>)
      requires Valid()
      ensures r.Some? <==> exists s <- submissions :: s.clientOrderId == id
      ensures forall s <- submissions :: s.clientOrderId == id ==> r == Some(Attribution(s.cycleId, s.decisionRunId))
      ensures r == AttributionOf(State(), id)
    {
      for i := 0 to |submissions|
        invariant forall j :: 0 <= j < i ==> submissions[j].clientOrderId != id
      {
        var s := submissions[i];
        if s.clientOrderId == id {
          r := Some(Attribution(s.cycleId, s.decisionRunId));
          FoundAt(submissions, id, i);
          return;
        }
      }
      r := None;
    }
  }

  lemma {:induction false} FoundAt(submissions: seq<Submission>, id: string, i: nat)
    requires i < |submissions| && submissions[i].clientOrderId == id
    requires forall j :: 0 <= j < i ==> submissions[j].clientOrderId != id
    ensures FindSubmission(submissions, id) == Some(submissions[i])
  {
    if i > 0 {
      FoundAt(submissions[1..], id, i - 1);
    }
  }
}
