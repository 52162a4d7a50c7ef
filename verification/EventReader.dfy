/**
  Subscribing to an operation's events while it is still being written. A wait
  answers with the events at or after a sequence number as the record stands at
  that moment, whether something arrived, the operation ended or time ran out, so
  any cut of the record's writes may be what a wait sees.
*/
module EventReader {
  import opened Wrappers
  import opened RecordState

  /** What a subscription makes of a log: the events numbered above every one before them. */
  function Fresh(events: seq<Event>, next: int): seq<Event> {
    if events == [] then []
    else if events[0].sequence < next then Fresh(events[1..], next)
    else [events[0]] + Fresh(events[1..], events[0].sequence + 1)
  }

  function NextAfter(events: seq<Event>, next: int): int {
    if events == [] then next
    else NextAfter(events[1..], if events[0].sequence < next then next else events[0].sequence + 1)
  }

  // ----- Reading a log in pieces -----

  lemma {:induction false} FreshOfAppended(events: seq<Event>, more: seq<Event>, next: int)
    ensures Fresh(events + more, next) == Fresh(events, next) + Fresh(more, NextAfter(events, next))
    ensures NextAfter(events + more, next) == NextAfter(more, NextAfter(events, next))
  {
    if events == [] {
      assert events + more == more;
    } else {
      assert (events + more)[1..] == events[1..] + more;
      FreshOfAppended(events[1..], more, if events[0].sequence < next then next else events[0].sequence + 1);
    }
  }

  lemma {:induction false} NextAfterPassesAll(events: seq<Event>, next: int)
    ensures next <= NextAfter(events, next)
    ensures forall i :: 0 <= i < |events| ==> events[i].sequence < NextAfter(events, next)
  {
    if events != [] {
      NextAfterPassesAll(events[1..], if events[0].sequence < next then next else events[0].sequence + 1);
    }
  }

  /** The filter a wait applies drops nothing that a subscription would yield. */
  lemma {:induction false} FreshOfUnseen(events: seq<Event>, after: int, next: int)
    requires after <= next
    ensures Fresh(Unseen(events, after), next) == Fresh(events, next)
    ensures NextAfter(Unseen(events, after), next) == NextAfter(events, next)
  {
    if events != [] {
      var rest := Unseen(events[1..], after);
      var next' := if events[0].sequence < next then next else events[0].sequence + 1;
      FreshOfUnseen(events[1..], after, next');
      if events[0].sequence >= after {
        assert ([events[0]] + rest)[1..] == rest;
      } else {
        assert Unseen(events, after) == rest;
      }
    }
  }

  lemma {:induction false} NothingOldIsFresh(events: seq<Event>, next: int)
    requires forall i :: 0 <= i < |events| ==> events[i].sequence < next
    ensures Fresh(events, next) == [] && NextAfter(events, next) == next
  {
    if events != [] {
      NothingOldIsFresh(events[1..], next);
    }
  }

  /** One more wait: what it adds is what the longer log adds. */
  lemma WaitContinues(seen: seq<Event>, now: seq<Event>)
    requires seen <= now
    ensures
      var next := NextAfter(seen, 0);
      && Fresh(seen, 0) + Fresh(Unseen(now, next), next) == Fresh(now, 0)
      && NextAfter(Unseen(now, next), next) == NextAfter(now, 0)
  {
    var next := NextAfter(seen, 0);
    var more := now[|seen|..];
    assert now == seen + more;
    FreshOfUnseen(now, next, next);
    NextAfterPassesAll(seen, 0);
    NothingOldIsFresh(seen, next);
    FreshOfAppended(seen, more, next);
    FreshOfAppended(seen, more, 0);
  }

  // ----- The subscription -----

  ghost predicate Cuts(writes: seq<Write>, cuts: seq<nat>) {
    && (forall i :: 0 <= i < |cuts| ==> cuts[i] <= |writes|)
    && (forall i, j :: 0 <= i <= j < |cuts| ==> cuts[i] <= cuts[j])
  }

  function Before(operationId: string, writes: seq<Write>, cut: nat): Record
    requires cut <= |writes|
  {
    Replay(operationId, writes[..cut])
  }

  lemma LaterCutExtends(operationId: string, writes: seq<Write>, early: nat, late: nat)
    requires early <= late <= |writes|
    ensures Before(operationId, writes, early).events <= Before(operationId, writes, late).events
    ensures IsComplete(Before(operationId, writes, early)) ==> IsComplete(Before(operationId, writes, late))
  {
    var was, more := writes[..early], writes[early..late];
    assert writes[..late] == was + more;
    OutcomeIsFirstTerminal(operationId, was);
    OutcomeIsFirstTerminal(operationId, was + more);
    DeliveredOfAppended(operationId, was, more);
    FirstTerminalOfAppended(operationId, was, more);
  }

  lemma StartsEmpty()
    ensures Fresh([], 0) == [] && NextAfter([], 0) == 0
  {
  }

  /**
    The subscription loop against a record that other threads keep writing: `cuts`
    says how far the writes had got when each wait answered, be it for want of time. What it has yielded depends only
    on the last cut it saw, however the waits and the writes were interleaved; it
    stops at the first wait that sees the operation complete.
  */
  method SubscribeEvents(operationId: string, writes: seq<Write>, cuts: seq<nat>)
    returns (yielded: seq<Event>, waits: nat, complete: bool)
    requires Cuts(writes, cuts)
    ensures waits <= |cuts| && (!complete ==> waits == |cuts|)
    ensures waits > 0 ==> yielded == Fresh(Before(operationId, writes, cuts[waits - 1]).events, 0)
    ensures waits == 0 ==> yielded == [] && cuts == []
    ensures complete <==> exists i :: 0 <= i < |cuts| && IsComplete(Before(operationId, writes, cuts[i]))
    ensures complete ==> waits > 0 && IsComplete(Before(operationId, writes, cuts[waits - 1]))
    ensures forall i :: 0 <= i < waits - 1 ==> !IsComplete(Before(operationId, writes, cuts[i]))
  {
    hide Fresh, NextAfter, Unseen, Replay;
    StartsEmpty();
    yielded, waits, complete := [], 0, false;
    var next := 0;
    ghost var seen: seq<Event> := [];
    while waits < |cuts| && !complete
      invariant waits <= |cuts|
      invariant seen == if waits == 0 then [] else Before(operationId, writes, cuts[waits - 1]).events
      invariant yielded == Fresh(seen, 0) && next == NextAfter(seen, 0)
      invariant complete ==> waits > 0 && IsComplete(Before(operationId, writes, cuts[waits - 1]))
      invariant forall i :: 0 <= i < waits - (if complete then 1 else 0) ==>
                  !IsComplete(Before(operationId, writes, cuts[i]))
      decreases |cuts| - waits
    {
      var record := Before(operationId, writes, cuts[waits]);
      if waits > 0 {
        LaterCutExtends(operationId, writes, cuts[waits - 1], cuts[waits]);
      }
      WaitContinues(seen, record.events);
      var answer := WaitTurn(record, next, true).value;
      yielded, next := YieldBatch(yielded, answer.0, next);
      complete := answer.1;
      waits := waits + 1;
      seen := record.events;
    }
  }

  /** The inner loop: an event below the next sequence number is skipped, and any other is yielded. */
  method YieldBatch(before: seq<Event>, batch: seq<Event>, next: int) returns (yielded: seq<Event>, next': int)
    ensures yielded == before + Fresh(batch, next) && next' == NextAfter(batch, next)
  {
    yielded, next' := before, next;
    var i := 0;
    assert batch[i..] == batch;
    while i < |batch|
      invariant 0 <= i <= |batch|
      invariant yielded + Fresh(batch[i..], next') == before + Fresh(batch, next)
      invariant NextAfter(batch[i..], next') == NextAfter(batch, next)
    {
      assert batch[i..][1..] == batch[i + 1..];
      var event := batch[i];
      i := i + 1;
      if event.sequence >= next' {
        assert yielded + ([event] + Fresh(batch[i..], event.sequence + 1)) ==
               (yielded + [event]) + Fresh(batch[i..], event.sequence + 1);
        next' := event.sequence + 1;
        yielded := yielded + [event];
      }
    }
    assert yielded + [] == yielded;
  }

  // ----- What is delivered -----

  predicate StrictlyIncreasing(events: seq<Event>) {
    forall i, j :: 0 <= i < j < |events| ==> events[i].sequence < events[j].sequence
  }

  predicate AllAtLeast(events: seq<Event>, bound: int) {
    forall i :: 0 <= i < |events| ==> events[i].sequence >= bound
  }

  /** Whatever the numbers in the log, those a subscription yields strictly increase. */
  lemma {:induction false} YieldedNumbersIncrease(events: seq<Event>, next: int)
    ensures StrictlyIncreasing(Fresh(events, next)) && AllAtLeast(Fresh(events, next), next)
  {
    if events != [] {
      if events[0].sequence < next {
        YieldedNumbersIncrease(events[1..], next);
      } else {
        YieldedNumbersIncrease(events[1..], events[0].sequence + 1);
      }
    }
  }

  /** Nothing is lost just when the log's numbers are non-negative and strictly increase. */
  lemma {:induction false} NothingIsLostJustWhenIncreasing(events: seq<Event>, next: int)
    ensures Fresh(events, next) == events <==> StrictlyIncreasing(events) && AllAtLeast(events, next)
  {
    if events == [] {
    } else if events[0].sequence < next {
      FreshIsNoLonger(events[1..], next);
    } else {
      NothingIsLostJustWhenIncreasing(events[1..], events[0].sequence + 1);
      var rest := Fresh(events[1..], events[0].sequence + 1);
      assert ([events[0]] + rest)[1..] == rest;
      assert forall i :: 0 <= i < |events| - 1 ==> events[1..][i] == events[i + 1];
    }
  }

  lemma {:induction false} FreshIsNoLonger(events: seq<Event>, next: int)
    ensures |Fresh(events, next)| <= |events|
  {
    if events != [] {
      FreshIsNoLonger(events[1..], if events[0].sequence < next then next else events[0].sequence + 1);
    }
  }

  /** An event is yielded just when its number is non-negative and exceeds every earlier one's. */
  lemma {:induction false} YieldedJustWhenLargest(events: seq<Event>, next: int, event: Event)
    ensures event in Fresh(events, next) <==>
            exists i :: 0 <= i < |events| && events[i] == event && event.sequence >= next
              && forall j :: 0 <= j < i ==> events[j].sequence < event.sequence
  {
    if events != [] {
      var next' := if events[0].sequence < next then next else events[0].sequence + 1;
      var rest := events[1..];
      YieldedJustWhenLargest(rest, next', event);
      if event in Fresh(rest, next') {
        var i :| 0 <= i < |rest| && rest[i] == event && event.sequence >= next'
                 && forall j :: 0 <= j < i ==> rest[j].sequence < event.sequence;
        assert events[i + 1] == event;
        assert forall j :: 0 <= j < i + 1 ==> events[j].sequence < event.sequence by {
          forall j | 0 <= j < i + 1 ensures events[j].sequence < event.sequence {
            assert j > 0 ==> events[j] == rest[j - 1];
          }
        }
      }
      if i :| 0 < i < |events| && events[i] == event && event.sequence >= next
              && forall j :: 0 <= j < i ==> events[j].sequence < event.sequence {
        assert rest[i - 1] == event && events[0].sequence < event.sequence;
        assert forall j :: 0 <= j < i - 1 ==> rest[j].sequence < event.sequence by {
          forall j | 0 <= j < i - 1 ensures rest[j].sequence < event.sequence {
            assert rest[j] == events[j + 1];
          }
        }
      }
    }
  }

  /**
    Exactly-once delivery: with non-negative, strictly increasing numbers, a
    subscription that saw the operation complete at `cut` has yielded the events
    delivered by then, once each and in order, among them every event delivered
    before the outcome.
  */
  lemma DeliveredExactlyOnce(operationId: string, writes: seq<Write>, cut: nat, terminal: nat)
    requires cut <= |writes| && terminal < |writes|
    requires IsComplete(Before(operationId, writes, cut))
    requires FirstTerminal(operationId, writes[..terminal]).None? && Proposes(operationId, writes[terminal]).Some?
    requires StrictlyIncreasing(Delivered(operationId, writes[..cut]))
    requires AllAtLeast(Delivered(operationId, writes[..cut]), 0)
    ensures Fresh(Before(operationId, writes, cut).events, 0) == Delivered(operationId, writes[..cut])
    ensures terminal < cut
    ensures Delivered(operationId, writes[..terminal]) <= Fresh(Before(operationId, writes, cut).events, 0)
  {
    hide Delivered, FirstTerminal, Replay, Fresh, StrictlyIncreasing, AllAtLeast, Proposes;
    OutcomeIsFirstTerminal(operationId, writes[..cut]);
    NothingIsLostJustWhenIncreasing(Delivered(operationId, writes[..cut]), 0);
    if cut <= terminal {
      assert writes[..terminal] == writes[..cut] + writes[cut..terminal];
      FirstTerminalOfAppended(operationId, writes[..cut], writes[cut..terminal]);
    } else {
      assert writes[..cut] == writes[..terminal] + writes[terminal..cut];
      DeliveredOfAppended(operationId, writes[..terminal], writes[terminal..cut]);
    }
  }
}
