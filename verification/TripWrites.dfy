/** The trip row under several callers at once: finalizing and promoting read the status first and write later, by id
    alone (src/services/tripLifecycle.service.ts, preTripPromotion.service.ts, preTripWindow.service.ts). */
module TripWrites {
  import opened Wrappers
  import opened TripLifecycle

  datatype Row = Row(status: Status, endTime: Option<int>)

  /** What a caller that has read a live status is about to write. */
  datatype Write = EndAt(endedAt: int) | Promotion

  type CallerId = nat

  datatype State = State(row: Row, pending: map<CallerId, Write>)

  /** The two halves of finalizeTripService and promotePreTripToRunning, and the no-show clean-up, one conditional
      update. */
  datatype Event =
    | ReadToFinalize(c: CallerId, endedAt: int)
    | ReadToPromote(c: CallerId)
    | WriteRow(c: CallerId)
    | CancelNoShow(now: int)

  predicate Enabled(s: State, e: Event) {
    match e
    case ReadToFinalize(c, _) => c !in s.pending
    case ReadToPromote(c) => c !in s.pending
    case WriteRow(c) => c in s.pending
    case CancelNoShow(_) => true
  }

  function Written(row: Row, w: Write): Row {
    match w
    case EndAt(endedAt) => Row(Ended, Some(endedAt))
    case Promotion => row.(status := Running)
  }

  function Apply(s: State, e: Event): State
    requires Enabled(s, e)
  {
    match e
    case ReadToFinalize(c, endedAt) =>
      if s.row.status == Ended then s else s.(pending := s.pending[c := EndAt(endedAt)])
    case ReadToPromote(c) =>
      if s.row.status in {Running, Ended} then s else s.(pending := s.pending[c := Promotion])
    case WriteRow(c) => State(Written(s.row, s.pending[c]), s.pending - {c})
    case CancelNoShow(now) => if s.row.status == PreTrip then s.(row := Row(Ended, Some(now))) else s
  }

  predicate Runs(s: State, es: seq<Event>)
    decreases |es|
  {
    es == [] || (Enabled(s, es[0]) && Runs(Apply(s, es[0]), es[1..]))
  }

  function After(s: State, es: seq<Event>): State
    requires Runs(s, es)
    decreases |es|
  {
    if es == [] then s else After(Apply(s, es[0]), es[1..])
  }

  /** Whatever any callers do from here on, the row stays as it is. */
  ghost predicate RowIsFinal(s: State) {
    forall es: seq<Event> :: Runs(s, es) ==> After(s, es).row == s.row
  }

  /** Nobody still has to write anything but the end time that is there. */
  ghost predicate Settled(s: State) {
    forall c :: c in s.pending ==> Written(s.row, s.pending[c]) == s.row
  }

  lemma {:induction false} SettledStays(s: State, es: seq<Event>)
    requires s.row.status == Ended && Settled(s) && Runs(s, es)
    ensures After(s, es).row == s.row
    decreases |es|
  {
    if es != [] {
      SettledStays(Apply(s, es[0]), es[1..]);
    }
  }

  lemma OneEvent(s: State, e: Event)
    requires Enabled(s, e)
    ensures Runs(s, [e]) && After(s, [e]) == Apply(s, e)
  {
    assert [e][1..] == [];
  }

  /** An ended trip keeps its status and end time, whatever follows, exactly when no caller that read a live status has
      still to write something else. */
  lemma EndIsFinalExactlyWhenSettled(s: State)
    requires s.row.status == Ended
    ensures RowIsFinal(s) <==> Settled(s)
  {
    if Settled(s) {
      forall es: seq<Event> | Runs(s, es) ensures After(s, es).row == s.row { SettledStays(s, es); }
    } else {
      var c :| c in s.pending && Written(s.row, s.pending[c]) != s.row;
      OneEvent(s, WriteRow(c));
    }
  }

  /** In particular an ended trip that nobody else is writing is final. */
  lemma {:induction false} AloneMeansFinal(s: State, es: seq<Event>)
    requires s.row.status == Ended && s.pending == map[] && Runs(s, es)
    ensures After(s, es) == s
    decreases |es|
  {
    if es != [] { AloneMeansFinal(Apply(s, es[0]), es[1..]); }
  }

  lemma Then(s: State, es: seq<Event>, e: Event)
    requires Runs(s, es) && Enabled(After(s, es), e)
    ensures Runs(s, es + [e]) && After(s, es + [e]) == Apply(After(s, es), e)
    decreases |es|
  {
    if es == [] {
      OneEvent(s, e);
      assert es + [e] == [e];
    } else {
      Then(Apply(s, es[0]), es[1..], e);
      assert (es + [e])[1..] == es[1..] + [e];
    }
  }

  /** Two finalizers that both read the running trip: the second one moves the end time. */
  lemma SecondFinalizerMovesEndTime(first: int, second: int) returns (es: seq<Event>)
    ensures Runs(State(Row(Running, None), map[]), es) && |es| == 4
    ensures Runs(State(Row(Running, None), map[]), es[..3])
    ensures After(State(Row(Running, None), map[]), es[..3]).row == Row(Ended, Some(first))
    ensures After(State(Row(Running, None), map[]), es).row == Row(Ended, Some(second))
  {
    var s := State(Row(Running, None), map[]);
    hide Runs, After;
    es := Three(s, ReadToFinalize(0, first), ReadToFinalize(1, second), WriteRow(0));
    var ended := es;
    Then(s, es, WriteRow(1));
    es := es + [WriteRow(1)];
    assert es[..3] == ended;
  }

  /** A promoter that read the waiting trip before the clean-up ended it: the ended trip runs again. */
  lemma LatePromotionRevives(now: int) returns (es: seq<Event>)
    ensures Runs(State(Row(PreTrip, None), map[]), es) && |es| == 3
    ensures Runs(State(Row(PreTrip, None), map[]), es[..2])
    ensures After(State(Row(PreTrip, None), map[]), es[..2]).row == Row(Ended, Some(now))
    ensures After(State(Row(PreTrip, None), map[]), es).row == Row(Running, Some(now))
  {
    var s := State(Row(PreTrip, None), map[]);
    var a, b, c := ReadToPromote(0), CancelNoShow(now), WriteRow(0);
    OneEvent(s, a);
    hide Runs, After;
    Then(s, [a], b);
    es := [a] + [b];
    var ended := es;
    Then(s, es, c);
    es := es + [c];
    assert es[..2] == ended;
  }

  lemma Three(s: State, a: Event, b: Event, c: Event) returns (es: seq<Event>)
    requires Enabled(s, a) && Enabled(Apply(s, a), b) && Enabled(Apply(Apply(s, a), b), c)
    ensures |es| == 3 && Runs(s, es) && After(s, es) == Apply(Apply(Apply(s, a), b), c)
  {
    OneEvent(s, a);
    hide Runs, After, Apply, Enabled;
    Then(s, [a], b);
    Then(s, [a] + [b], c);
    es := [a] + [b] + [c];
  }
}
