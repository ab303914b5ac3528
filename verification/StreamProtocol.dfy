/** The submission, delivery and crash protocol around the journal: what at-least-once delivery amounts to. */
module StreamProtocol {
  import opened Wrappers
  import opened LiveEvents
  import opened LiveJournal
  import opened TradeStream
  import Seqs

  /** A crash step is a delivery interrupted after the journal write and before the event is appended. */
  datatype Step =
    | Register(submission: Submission)
    | Deliver(raw: Message)
    | DeliverAndCrash(raw: Message)

  datatype World = World(journal: Journal, log: seq<LiveEvent>)

  function WithSubmission(j: Journal, s: Submission): Journal {
    if Registered(j, s.clientOrderId) then j else j.(submissions := j.submissions + [s])
  }

  function Next(w: World, step: Step): World {
    match step
    case Register(s) => w.(journal := WithSubmission(w.journal, s))
    case Deliver(raw) => World(AfterDelivery(w.journal, raw), w.log + EmittedBy(w.journal, raw))
    case DeliverAndCrash(raw) => w.(journal := AfterDelivery(w.journal, raw))
  }

  function Run(w: World, steps: seq<Step>): World {
    if steps == [] then w else Next(Run(w, steps[..|steps| - 1]), steps[|steps| - 1])
  }

  const Start := World(EmptyJournal, [])

  /** The journal as the i-th step of a run finds it. */
  function JournalAt(steps: seq<Step>, i: nat): Journal
    requires i <= |steps|
  {
    Run(Start, steps[..i]).journal
  }

  // ---- runs compose ----

  lemma RunOneMore(w: World, steps: seq<Step>, before: seq<Step>, last: Step)
    requires steps != [] && steps[..|steps| - 1] == before && steps[|steps| - 1] == last
    ensures Run(w, steps) == Next(Run(w, before), last)
  {
  }

  lemma {:induction false} RunConcat(w: World, a: seq<Step>, b: seq<Step>)
    ensures Run(w, a + b) == Run(Run(w, a), b)
  {
    if b == [] {
      assert a + b == a;
    } else {
      var n := |b| - 1;
      Seqs.PrefixOfConcat(a, b, |a| + n);
      RunConcat(w, a, b[..n]);
      RunOneMore(w, a + b, a + b[..n], b[n]);
      RunOneMore(Run(w, a), b, b[..n], b[n]);
    }
  }

  function Deliveries(raws: seq<Message>): (r: seq<Step>)
    ensures |r| == |raws| && forall i :: 0 <= i < |raws| ==> r[i] == Deliver(raws[i])
  {
    seq(|raws|, i requires 0 <= i < |raws| => Deliver(raws[i]))
  }

  /** The consuming loop is the run that only delivers. */
  lemma {:induction false} ConsumeIsARun(w: World, raws: seq<Message>)
    ensures Run(w, Deliveries(raws)) == World(JournalAfter(w.journal, raws), w.log + EventsFrom(w.journal, raws))
  {
    if raws != [] {
      var n := |raws| - 1;
      var before, raw := raws[..n], raws[n];
      ConsumeIsARun(w, before);
      LastDelivery(raws, before, raw);
      RunOneMore(w, Deliveries(raws), Deliveries(before), Deliver(raw));
      OneMore(w.journal, raws, before, raw);
      DeliveredNext(JournalAfter(w.journal, before), w.log, EventsFrom(w.journal, before), raw);
    }
  }

  lemma LastDelivery(raws: seq<Message>, before: seq<Message>, raw: Message)
    requires raws != [] && raws[..|raws| - 1] == before && raws[|raws| - 1] == raw
    ensures var steps := Deliveries(raws);
            steps != [] && steps[..|steps| - 1] == Deliveries(before) && steps[|steps| - 1] == Deliver(raw)
  {
  }

  lemma DeliveredNext(j: Journal, log: seq<LiveEvent>, events: seq<LiveEvent>, raw: Message)
    ensures Next(World(j, log + events), Deliver(raw))
         == World(AfterDelivery(j, raw), log + (events + EmittedBy(j, raw)))
  {
    Seqs.Assoc(log, events, EmittedBy(j, raw));
  }

  // ---- attribution ----

  lemma {:induction false} FindInLonger(submissions: seq<Submission>, more: seq<Submission>, id: string)
    requires FindSubmission(submissions, id).Some?
    ensures FindSubmission(submissions + more, id) == FindSubmission(submissions, id)
  {
    if submissions[0].clientOrderId != id {
      assert (submissions + more)[1..] == submissions[1..] + more;
      FindInLonger(submissions[1..], more, id);
    }
  }

  lemma StepKeepsAttribution(w: World, step: Step, id: string)
    requires Registered(w.journal, id)
    ensures Registered(Next(w, step).journal, id)
    ensures AttributionOf(Next(w, step).journal, id) == AttributionOf(w.journal, id)
  {
    if step.Register? && !Registered(w.journal, step.submission.clientOrderId) {
      FindInLonger(w.journal.submissions, [step.submission], id);
    }
  }

  /** Whatever happens later, a registered order stays attributed to the cycle that registered it. */
  lemma {:induction false} AttributionIsStable(w: World, steps: seq<Step>, id: string)
    requires Registered(w.journal, id)
    ensures Registered(Run(w, steps).journal, id)
    ensures AttributionOf(Run(w, steps).journal, id) == AttributionOf(w.journal, id)
  {
    if steps != [] {
      var n := |steps| - 1;
      AttributionIsStable(w, steps[..n], id);
      StepKeepsAttribution(Run(w, steps[..n]), steps[n], id);
    }
  }

  // ---- what a run recorded ----

  /** An update the journal took in, and whether its event reached the log. */
  datatype Recording = Recording(update: TradeUpdate, announced: bool)

  predicate IsDelivery(step: Step) {
    !step.Register?
  }

  function RecordedBy(j: Journal, step: Step): (r: seq<Recording>)
    ensures forall x :: x in r ==> WellFormed(x.update) && Registered(j, x.update.clientOrderId)
  {
    if IsDelivery(step) && Accepted(j, step.raw).Some? then [Recording(Accepted(j, step.raw).value, step.Deliver?)]
    else []
  }

  function Recordings(w: World, steps: seq<Step>): (r: seq<Recording>)
    ensures forall x :: x in r ==> WellFormed(x.update)
  {
    if steps == [] then []
    else
      var n := |steps| - 1;
      Recordings(w, steps[..n]) + RecordedBy(Run(w, steps[..n]).journal, steps[n])
  }

  // Readings of a recording, total so that they can be mapped over any sequence.

  function FillRowRead(x: Recording): FillRow {
    if WellFormed(x.update) && IsFill(x.update.kind) then FillRowOf(x.update) else FillRow("", None, 0.0, 0.0, false)
  }

  function CancelRowRead(x: Recording): CancelRow {
    CancelRowOf(x.update)
  }

  function EventRead(j: Journal): Recording -> LiveEvent {
    (x: Recording) =>
      if WellFormed(x.update) && Registered(j, x.update.clientOrderId)
      then EventOf(x.update, AttributionOf(j, x.update.clientOrderId).value)
      else LiveKillSwitch("", "")
  }

  predicate OfFill(x: Recording) {
    IsFill(x.update.kind)
  }

  predicate OfCancel(x: Recording) {
    !IsFill(x.update.kind)
  }

  predicate Announced(x: Recording) {
    x.announced
  }

  predicate Unannounced(x: Recording) {
    !x.announced
  }

  function Crashes(steps: seq<Step>): nat {
    if steps == [] then 0
    else Crashes(steps[..|steps| - 1]) + (if steps[|steps| - 1].DeliverAndCrash? then 1 else 0)
  }

  lemma RowsOfOneStep(w: World, step: Step)
    ensures var xs := RecordedBy(w.journal, step);
            && Next(w, step).journal.fills == w.journal.fills + Seqs.Map(Seqs.Filter(xs, OfFill), FillRowRead)
            && Next(w, step).journal.cancellations
               == w.journal.cancellations + Seqs.Map(Seqs.Filter(xs, OfCancel), CancelRowRead)
  {
    var xs := RecordedBy(w.journal, step);
    if xs != [] {
      var x := xs[0];
      assert xs == [x] && Next(w, step).journal == Recorded(w.journal, x.update);
      Seqs.MapFilterOne(x, OfFill, FillRowRead);
      Seqs.MapFilterOne(x, OfCancel, CancelRowRead);
      RowsOfOne(w.journal, x);
    }
  }

  lemma RowsOfOne(j: Journal, x: Recording)
    requires WellFormed(x.update) && !Repeats(j, x.update)
    ensures Recorded(j, x.update).fills == j.fills + (if OfFill(x) then [FillRowRead(x)] else [])
    ensures Recorded(j, x.update).cancellations == j.cancellations + (if OfCancel(x) then [CancelRowRead(x)] else [])
  {
  }

  /** The fill rows are the recorded fills and the cancellation rows the recorded cancellations, in order. */
  lemma {:induction false} RowsAreTheRecordings(w: World, steps: seq<Step>)
    ensures var xs := Recordings(w, steps);
            && Run(w, steps).journal.fills == w.journal.fills + Seqs.Map(Seqs.Filter(xs, OfFill), FillRowRead)
            && Run(w, steps).journal.cancellations
               == w.journal.cancellations + Seqs.Map(Seqs.Filter(xs, OfCancel), CancelRowRead)
  {
    if steps != [] {
      var n := |steps| - 1;
      var mid := Run(w, steps[..n]);
      RowsAreTheRecordings(w, steps[..n]);
      RowsOfOneStep(mid, steps[n]);
      var was, more := Recordings(w, steps[..n]), RecordedBy(mid.journal, steps[n]);
      assert Recordings(w, steps) == was + more && Run(w, steps) == Next(mid, steps[n]);
      Seqs.MapFilterAppend(was, more, OfFill, FillRowRead);
      Seqs.MapFilterAppend(was, more, OfCancel, CancelRowRead);
      Seqs.Assoc(w.journal.fills, Seqs.Map(Seqs.Filter(was, OfFill), FillRowRead),
                 Seqs.Map(Seqs.Filter(more, OfFill), FillRowRead));
      Seqs.Assoc(w.journal.cancellations, Seqs.Map(Seqs.Filter(was, OfCancel), CancelRowRead),
                 Seqs.Map(Seqs.Filter(more, OfCancel), CancelRowRead));
    }
  }

  lemma SameReading(xs: seq<Recording>, j: Journal, k: Journal)
    requires forall x :: x in xs ==> EventRead(j)(x) == EventRead(k)(x)
    ensures Seqs.Map(xs, EventRead(j)) == Seqs.Map(xs, EventRead(k))
  {
  }

  lemma {:induction false} RecordedOrdersAreRegistered(w: World, steps: seq<Step>)
    ensures forall x :: x in Recordings(w, steps) ==> Registered(Run(w, steps).journal, x.update.clientOrderId)
  {
    if steps != [] {
      var n := |steps| - 1;
      RecordedOrdersAreRegistered(w, steps[..n]);
      forall x | x in Recordings(w, steps) ensures Registered(Run(w, steps).journal, x.update.clientOrderId) {
        StepKeepsAttribution(Run(w, steps[..n]), steps[n], x.update.clientOrderId);
      }
    }
  }

  lemma EventsOfOneStep(w: World, step: Step)
    ensures Next(w, step).log
         == w.log + Seqs.Map(Seqs.Filter(RecordedBy(w.journal, step), Announced), EventRead(Next(w, step).journal))
  {
    var xs := RecordedBy(w.journal, step);
    if xs != [] {
      var x := xs[0];
      assert x in xs && xs == [x];
      Seqs.MapFilterOne(x, Announced, EventRead(Next(w, step).journal));
      if Announced(x) {
        StepKeepsAttribution(w, step, x.update.clientOrderId);
      }
    }
  }

  lemma ReadingsLast(w: World, step: Step, xs: seq<Recording>)
    requires forall x :: x in xs ==> Registered(w.journal, x.update.clientOrderId)
    ensures Seqs.Map(xs, EventRead(w.journal)) == Seqs.Map(xs, EventRead(Next(w, step).journal))
  {
    forall x | x in xs ensures EventRead(w.journal)(x) == EventRead(Next(w, step).journal)(x) {
      StepKeepsAttribution(w, step, x.update.clientOrderId);
    }
    SameReading(xs, w.journal, Next(w, step).journal);
  }

  /** The log is the announced recordings in order, each attributed as the journal attributes it to this day. */
  lemma {:induction false} LogIsTheAnnouncedRecordings(w: World, steps: seq<Step>)
    ensures Run(w, steps).log
         == w.log + Seqs.Map(Seqs.Filter(Recordings(w, steps), Announced), EventRead(Run(w, steps).journal))
  {
    if steps != [] {
      var n := |steps| - 1;
      var mid := Run(w, steps[..n]);
      LogIsTheAnnouncedRecordings(w, steps[..n]);
      var was, more := Recordings(w, steps[..n]), RecordedBy(mid.journal, steps[n]);
      RecordedOrdersAreRegistered(w, steps[..n]);
      ReadingsLast(mid, steps[n], Seqs.Filter(was, Announced));
      EventsOfOneStep(mid, steps[n]);
      Seqs.MapFilterAppend(was, more, Announced, EventRead(Next(mid, steps[n]).journal));
      Seqs.Assoc(w.log, Seqs.Map(Seqs.Filter(was, Announced), EventRead(Next(mid, steps[n]).journal)),
                 Seqs.Map(Seqs.Filter(more, Announced), EventRead(Next(mid, steps[n]).journal)));
    }
  }

  /** Only a crash keeps a recording out of the log, and each crash keeps out one at most. */
  lemma {:induction false} CrashesLoseOneEach(w: World, steps: seq<Step>)
    ensures |Seqs.Filter(Recordings(w, steps), Unannounced)| <= Crashes(steps)
  {
    if steps != [] {
      var n := |steps| - 1;
      CrashesLoseOneEach(w, steps[..n]);
      var more := RecordedBy(Run(w, steps[..n]).journal, steps[n]);
      Seqs.FilterAppend(Recordings(w, steps[..n]), more, Unannounced);
      if more != [] {
        assert more[..0] == [];
      }
    }
  }

  // ---- delivery keys ----

  /** What identifies a delivery: the execution of an order, or the one cancellation it can have. */
  datatype Key = FillKey(id: string, execution: string) | CancelKey(id: string)

  /** A fill without an execution id has no key and is never recognised again. */
  function KeyOf(u: TradeUpdate): Option<Key> {
    if !IsFill(u.kind) then Some(CancelKey(u.clientOrderId))
    else if u.fillId.Some? then Some(FillKey(u.clientOrderId, u.fillId.value))
    else None
  }

  predicate RowHasKey(row: FillRow, key: Key) {
    key.FillKey? && row.clientOrderId == key.id && row.fillId == Some(key.execution)
  }

  predicate Holds(j: Journal, key: Key) {
    match key
    case FillKey(_, _) => exists row <- j.fills :: RowHasKey(row, key)
    case CancelKey(id) => Cancelled(j, id)
  }

  lemma RepeatsWhenHeld(j: Journal, u: TradeUpdate)
    requires WellFormed(u)
    ensures Repeats(j, u) <==> KeyOf(u).Some? && Holds(j, KeyOf(u).value)
  {
    if IsFill(u.kind) && u.fillId.Some? {
      var key := KeyOf(u).value;
      forall row | row in j.fills
        ensures RowHasKey(row, key) <==> row.clientOrderId == u.clientOrderId && row.fillId == u.fillId {
      }
    }
  }

  /** The step delivers an update with this key. */
  predicate DeliversKey(step: Step, key: Key) {
    IsDelivery(step) && Decode(step.raw).Some? && KeyOf(Decode(step.raw).value) == Some(key)
  }

  /** The i-th step of a run from the start delivers the key while its order is registered. */
  predicate Carries(steps: seq<Step>, i: nat, key: Key)
    requires i < |steps|
  {
    DeliversKey(steps[i], key) && Registered(JournalAt(steps, i), key.id)
  }

  function FirstCarrier(steps: seq<Step>, key: Key): (r: Option<nat>)
    ensures r.Some? ==> r.value < |steps| && Carries(steps, r.value, key)
    ensures r.Some? ==> forall i :: 0 <= i < r.value ==> !Carries(steps, i, key)
    ensures r.None? ==> forall i :: 0 <= i < |steps| ==> !Carries(steps, i, key)
  {
    if steps == [] then None
    else
      var n := |steps| - 1;
      assert forall i :: 0 <= i < n ==> steps[..n][..i] == steps[..i];
      var earlier := FirstCarrier(steps[..n], key);
      assert forall i :: 0 <= i < n ==> (Carries(steps, i, key) <==> Carries(steps[..n], i, key));
      if earlier.Some? then earlier else if Carries(steps, n, key) then Some(n) else None
  }

  // ---- at-least-once delivery, exactly-once emission ----

  lemma StepKeepsKey(w: World, step: Step, key: Key)
    ensures Holds(Next(w, step).journal, key)
       <==> Holds(w.journal, key) || (DeliversKey(step, key) && Registered(w.journal, key.id))
  {
    if IsDelivery(step) && Decode(step.raw).Some? {
      var u := Decode(step.raw).value;
      RepeatsWhenHeld(w.journal, u);
      if Accepted(w.journal, step.raw).Some? && IsFill(u.kind) {
        FillRowKey(w.journal.fills, u, key);
      }
    }
  }

  lemma FillRowKey(fills: seq<FillRow>, u: TradeUpdate, key: Key)
    requires WellFormed(u) && IsFill(u.kind)
    ensures (exists row <- fills + [FillRowOf(u)] :: RowHasKey(row, key))
       <==> (exists row <- fills :: RowHasKey(row, key)) || KeyOf(u) == Some(key)
    ensures RowHasKey(FillRowOf(u), key) <==> KeyOf(u) == Some(key)
  {
    if KeyOf(u) == Some(key) {
      assert FillRowOf(u) in fills + [FillRowOf(u)];
    }
    if row :| row in fills && RowHasKey(row, key) {
      assert row in fills + [FillRowOf(u)];
    }
  }

  /** The journal holds a key exactly when the run delivered it while its order was registered. */
  lemma {:induction false} HeldIffCarried(steps: seq<Step>, key: Key)
    ensures Holds(Run(Start, steps).journal, key) <==> FirstCarrier(steps, key).Some?
  {
    if steps != [] {
      var n := |steps| - 1;
      HeldIffCarried(steps[..n], key);
      StepKeepsKey(Run(Start, steps[..n]), steps[n], key);
      CarriesLast(steps, key);
    }
  }

  lemma CarriesLast(steps: seq<Step>, key: Key)
    requires steps != []
    ensures var n := |steps| - 1;
            FirstCarrier(steps, key) == (
              if FirstCarrier(steps[..n], key).Some? then FirstCarrier(steps[..n], key)
              else if DeliversKey(steps[n], key) && Registered(Run(Start, steps[..n]).journal, key.id) then Some(n)
              else None)
  {
  }

  function HasKey(key: Key): Recording -> bool {
    (x: Recording) => KeyOf(x.update) == Some(key)
  }

  function AnnouncedWithKey(key: Key): Recording -> bool {
    (x: Recording) => x.announced && KeyOf(x.update) == Some(key)
  }

  lemma KeysOfOneStep(w: World, step: Step, key: Key)
    ensures var xs := RecordedBy(w.journal, step);
            var fits := DeliversKey(step, key) && Registered(w.journal, key.id) && !Holds(w.journal, key);
            && |Seqs.Filter(xs, HasKey(key))| == (if fits then 1 else 0)
            && |Seqs.Filter(xs, AnnouncedWithKey(key))| == (if fits && step.Deliver? then 1 else 0)
  {
    var xs := RecordedBy(w.journal, step);
    if xs != [] {
      assert xs[..0] == [];
    }
    if IsDelivery(step) && Decode(step.raw).Some? {
      RepeatsWhenHeld(w.journal, Decode(step.raw).value);
    }
  }

  /**
   * Exactly once: however often a key is delivered, one recording carries it, made by the first delivery
   * that finds its order registered, and its event is emitted once unless that very delivery crashed.
   */
  lemma {:induction false} ExactlyOnce(steps: seq<Step>, key: Key)
    ensures var xs, first := Recordings(Start, steps), FirstCarrier(steps, key);
            && |Seqs.Filter(xs, HasKey(key))| == (if first.Some? then 1 else 0)
            && |Seqs.Filter(xs, AnnouncedWithKey(key))|
               == (if first.Some? && steps[first.value].Deliver? then 1 else 0)
  {
    if steps != [] {
      var n := |steps| - 1;
      ExactlyOnce(steps[..n], key);
      HeldIffCarried(steps[..n], key);
      var mid := Run(Start, steps[..n]);
      KeysOfOneStep(mid, steps[n], key);
      CarriesLast(steps, key);
      Seqs.FilterAppend(Recordings(Start, steps[..n]), RecordedBy(mid.journal, steps[n]), HasKey(key));
      Seqs.FilterAppend(Recordings(Start, steps[..n]), RecordedBy(mid.journal, steps[n]), AnnouncedWithKey(key));
    }
  }

  /** A delivery changes nothing exactly when it is unmapped, unattributed, or repeats a carried key. */
  lemma AbsorbedIff(steps: seq<Step>, raw: Message)
    ensures var w, update := Run(Start, steps), Decode(raw);
            (Next(w, Deliver(raw)) == w
             <==> update.None? || !Registered(w.journal, update.value.clientOrderId)
                  || (KeyOf(update.value).Some? && FirstCarrier(steps, KeyOf(update.value).value).Some?))
  {
    var w, update := Run(Start, steps), Decode(raw);
    if update.Some? {
      RepeatsWhenHeld(w.journal, update.value);
      if KeyOf(update.value).Some? {
        HeldIffCarried(steps, KeyOf(update.value).value);
      }
      if Accepted(w.journal, raw).Some? {
        assert |Next(w, Deliver(raw)).log| == |w.log| + 1;
      }
    }
  }

  lemma {:induction false} KeyStaysHeld(w: World, steps: seq<Step>, key: Key)
    requires Holds(w.journal, key)
    ensures Holds(Run(w, steps).journal, key)
  {
    if steps != [] {
      var n := |steps| - 1;
      KeyStaysHeld(w, steps[..n], key);
      StepKeepsKey(Run(w, steps[..n]), steps[n], key);
    }
  }

  /**
   * Redelivery, interrupted or not, at any later point of any run leaves every later journal and log
   * as they would have been without it, once the key was delivered to a registered order.
   */
  lemma RedeliveryIsInvisible(w: World, first: Step, between: seq<Step>, again: Step, rest: seq<Step>, key: Key)
    requires DeliversKey(first, key) && DeliversKey(again, key)
    requires Registered(w.journal, key.id)
    ensures Run(w, [first] + between + [again] + rest) == Run(w, [first] + between + rest)
  {
    var started := [first] + between;
    RunConcat(w, [first], between);
    assert [first][..0] == [];
    RunOneMore(w, [first], [], first);
    StepKeepsKey(w, first, key);
    KeyStaysHeld(Next(w, first), between, key);
    var mid := Run(w, started);
    assert Next(mid, again) == mid by {
      RepeatsWhenHeld(mid.journal, Decode(again.raw).value);
    }
    RunOneMore(w, started + [again], started, again);
    RunConcat(w, started + [again], rest);
    RunConcat(w, started, rest);
  }

  /** The first delivery found the order unregistered: nothing was recorded, and a later one still can be. */
  lemma EarlyDeliveryIsDropped(w: World, raw: Message)
    requires Decode(raw).Some? && !Registered(w.journal, Decode(raw).value.clientOrderId)
    ensures Next(w, Deliver(raw)) == w && Next(w, DeliverAndCrash(raw)) == w
  {
  }

  /** A fill without an execution id is recorded and announced again by every delivery to a registered order. */
  lemma UnkeyedFillsRepeat(w: World, raw: Message)
    requires Decode(raw).Some? && KeyOf(Decode(raw).value).None?
    requires Registered(w.journal, Decode(raw).value.clientOrderId)
    ensures |Next(w, Deliver(raw)).journal.fills| == |w.journal.fills| + 1
    ensures |Next(w, Deliver(raw)).log| == |w.log| + 1
  {
    RepeatsWhenHeld(w.journal, Decode(raw).value);
  }
}
