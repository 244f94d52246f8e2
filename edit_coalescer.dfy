/** The debounced `save` of src/components/DocumentEditor.tsx as a trace
    semantics. One debouncer serves every block: each call replaces the
    pending `(id, text)` and restarts the 1000 ms timer; when the timer runs
    out, the pending arguments are sent as one `EditBlock`. Wall-clock time is
    replaced by the explicit event that the quiet period elapsed. */
module EditCoalescer {
  import opened Wrappers
  import opened Models

  datatype DebounceEvent =
    | Call(request: EditBlockRequest)   // save(id, text)
    | QuietPeriodElapsed                // the timer ran out without a newer call

  /** The pending arguments after one event. */
  function PendingAfter(pending: Option<EditBlockRequest>, e: DebounceEvent): (r: Option<EditBlockRequest>)
    ensures e.Call? ==> r == Some(e.request)
    ensures e.QuietPeriodElapsed? ==> r.None?
  {
    match e
    case Call(request) => Some(request)
    case QuietPeriodElapsed => None
  }

  /** The `EditBlock` sends one event issues. */
  function FiredBy(pending: Option<EditBlockRequest>, e: DebounceEvent): (r: seq<EditBlockRequest>)
    ensures |r| <= 1
    ensures r != [] <==> e.QuietPeriodElapsed? && pending.Some?
    ensures r != [] ==> r[0] == pending.value
  {
    match e
    case Call(_) => []
    case QuietPeriodElapsed => if pending.Some? then [pending.value] else []
  }

  /** The pending arguments after a run of events. */
  function Replay(pending: Option<EditBlockRequest>, events: seq<DebounceEvent>): (r: Option<EditBlockRequest>)
    ensures events == [] ==> r == pending
    ensures events != [] && events[|events| - 1].Call? ==> r == Some(events[|events| - 1].request)
    ensures events != [] && events[|events| - 1].QuietPeriodElapsed? ==> r.None?
    decreases |events|
  {
    if events == [] then pending
    else Replay(PendingAfter(pending, events[0]), events[1..])
  }

  /** The `EditBlock` sends a run of events issues, in order. */
  function Emitted(pending: Option<EditBlockRequest>, events: seq<DebounceEvent>): (r: seq<EditBlockRequest>)
    ensures |r| <= |events|
    decreases |events|
  {
    if events == [] then []
    else FiredBy(pending, events[0]) + Emitted(PendingAfter(pending, events[0]), events[1..])
  }

  /** Extending a run by one event extends its sends by what that event fires. */
  lemma {:induction false} EmittedSnoc(pending: Option<EditBlockRequest>, events: seq<DebounceEvent>, e: DebounceEvent)
    ensures Replay(pending, events + [e]) == PendingAfter(Replay(pending, events), e)
    ensures Emitted(pending, events + [e]) == Emitted(pending, events) + FiredBy(Replay(pending, events), e)
    decreases |events|
  {
    if events != [] {
      assert (events + [e])[0] == events[0];
      assert (events + [e])[1..] == events[1..] + [e];
      EmittedSnoc(PendingAfter(pending, events[0]), events[1..], e);
    } else {
      assert [e][1..] == [];
    }
  }

  /** `save` called once per element of `requests`. */
  function Calls(requests: seq<EditBlockRequest>): (r: seq<DebounceEvent>)
    ensures |r| == |requests| && forall k | 0 <= k < |r| :: r[k] == Call(requests[k])
  {
    seq(|requests|, k requires 0 <= k < |requests| => Call(requests[k]))
  }

  /** A burst of calls sends nothing while it lasts and leaves the last call's
      arguments pending. */
  lemma {:induction false} BurstKeepsLast(pending: Option<EditBlockRequest>, requests: seq<EditBlockRequest>)
    requires requests != []
    ensures Emitted(pending, Calls(requests)) == []
    ensures Replay(pending, Calls(requests)) == Some(requests[|requests| - 1])
    decreases |requests|
  {
    var evs := Calls(requests);
    if |requests| > 1 {
      assert evs[1..] == Calls(requests[1..]);
      BurstKeepsLast(Some(requests[0]), requests[1..]);
    } else {
      assert evs[1..] == [];
    }
  }

  /** Any burst of calls followed by the quiet period produces exactly one
      `EditBlock`, carrying the arguments of the last call, whatever block ids
      the calls named. */
  lemma BurstSendsLast(pending: Option<EditBlockRequest>, requests: seq<EditBlockRequest>)
    requires requests != []
    ensures Emitted(pending, Calls(requests) + [QuietPeriodElapsed]) == [requests[|requests| - 1]]
  {
    BurstKeepsLast(pending, requests);
    EmittedSnoc(pending, Calls(requests), QuietPeriodElapsed);
  }

  /** Since the debouncer is shared, an edit to one block followed within the
      quiet period by an edit to another block is never sent. */
  lemma OtherBlockSupersedes(pending: Option<EditBlockRequest>, first: EditBlockRequest, second: EditBlockRequest)
    requires first.id != second.id
    ensures var sends := Emitted(pending, [Call(first), Call(second), QuietPeriodElapsed]);
      sends == [second] && forall r | r in sends :: r.id != first.id
  {
    BurstSendsLast(pending, [first, second]);
    assert Calls([first, second]) + [QuietPeriodElapsed] == [Call(first), Call(second), QuietPeriodElapsed];
  }

  /** Every send carries the arguments of some call, or those already pending
      at the start: the debouncer never invents an edit. */
  lemma {:induction false} EmittedComeFromCalls(pending: Option<EditBlockRequest>, events: seq<DebounceEvent>, r: EditBlockRequest)
    requires r in Emitted(pending, events)
    ensures pending == Some(r) || Call(r) in events
    decreases |events|
  {
    if events != [] {
      var rest := Emitted(PendingAfter(pending, events[0]), events[1..]);
      if r in FiredBy(pending, events[0]) {
      } else {
        assert r in rest;
        EmittedComeFromCalls(PendingAfter(pending, events[0]), events[1..], r);
        if PendingAfter(pending, events[0]) == Some(r) {
          assert events[0] == Call(r);
        } else {
          assert Call(r) in events[1..];
        }
      }
    }
  }

  /** How many quiet periods elapse in a run. */
  function QuietPeriods(events: seq<DebounceEvent>): nat
    decreases |events|
  {
    if events == [] then 0
    else (if events[0].QuietPeriodElapsed? then 1 else 0) + QuietPeriods(events[1..])
  }

  /** There are never more sends than quiet periods, nor more than calls plus
      what was pending at the start. */
  lemma {:induction false} EmittedBounded(pending: Option<EditBlockRequest>, events: seq<DebounceEvent>)
    ensures |Emitted(pending, events)| <= QuietPeriods(events)
    ensures |Emitted(pending, events)| <= |events| - QuietPeriods(events) + (if pending.Some? then 1 else 0)
    decreases |events|
  {
    if events != [] {
      EmittedBounded(PendingAfter(pending, events[0]), events[1..]);
    }
  }
}
