/**
  The store of operation records. Recorders of one record share a counted writer;
  dropping the last of them ends a record that was left without an outcome. The
  writes made through a record's recorders are kept as history.
*/
module RecordStore {
  import opened Wrappers
  import opened RecordState

  /** `dropping`: the last recorder has gone and its drop has yet to take the record's lock. */
  datatype Held = Held(id: string, record: Record, handles: nat, dropping: bool, writes: seq<Write>)

  datatype Store = Store(records: seq<Held>, current: map<string, nat>)

  const EMPTY: Store := Store([], map[])

  datatype Move =
    | Begin(id: string)
    | Clone(r: nat)
    | Record(r: nat, write: Write)
    | Release(r: nat)
    | FinishDrop(r: nat)

  /** A request ID is refused while it names a live operation. */
  predicate MayBegin(store: Store, id: string) {
    id in store.current && store.current[id] < |store.records| ==> !IsLive(store.records[store.current[id]].record)
  }

  predicate HasHandle(store: Store, r: nat) {
    r < |store.records| && store.records[r].handles > 0
  }

  predicate Enabled(store: Store, move: Move) {
    match move
    case Begin(id) => MayBegin(store, id)
    case Clone(r) => HasHandle(store, r)
    case Record(r, write) => HasHandle(store, r) && !write.Abandon?
    case Release(r) => HasHandle(store, r)
    case FinishDrop(r) => r < |store.records| && store.records[r].dropping
  }

  function Written(held: Held, write: Write): Held {
    held.(record := RecordState.Apply(held.id, held.record, write).0, writes := held.writes + [write])
  }

  function WithRecord(store: Store, r: nat, held: Held): Store
    requires r < |store.records|
  {
    store.(records := store.records[r := held])
  }

  function Apply(store: Store, move: Move): Store
    requires Enabled(store, move)
  {
    match move
    case Begin(id) =>
      Store(store.records + [Held(id, NEW_RECORD, 1, false, [])], store.current[id := |store.records|])
    case Clone(r) => WithRecord(store, r, store.records[r].(handles := store.records[r].handles + 1))
    case Record(r, write) => WithRecord(store, r, Written(store.records[r], write))
    case Release(r) =>
      var left := store.records[r].handles - 1;
      WithRecord(store, r, store.records[r].(handles := left, dropping := left == 0))
    case FinishDrop(r) => WithRecord(store, r, Written(store.records[r], Abandon).(dropping := false))
  }

  // ----- What every step keeps -----

  ghost predicate HeldFits(held: Held) {
    && held.record == Replay(held.id, held.writes)
    && (held.dropping ==> held.handles == 0)
    && (IsLive(held.record) ==> held.handles > 0 || held.dropping)
  }

  ghost predicate CurrentFits(store: Store) {
    && (forall id :: id in store.current ==>
          store.current[id] < |store.records| && store.records[store.current[id]].id == id)
    && (forall r :: 0 <= r < |store.records| ==>
          && store.records[r].id in store.current
          && r <= store.current[store.records[r].id]
          && (IsLive(store.records[r].record) ==> r == store.current[store.records[r].id]))
  }

  ghost predicate StoreFits(store: Store) {
    CurrentFits(store) && forall r :: 0 <= r < |store.records| ==> HeldFits(store.records[r])
  }

  lemma WrittenFits(held: Held, write: Write)
    requires held.record == Replay(held.id, held.writes)
    ensures Written(held, write).record == Replay(held.id, Written(held, write).writes)
    ensures IsLive(Written(held, write).record) ==> IsLive(held.record)
  {
    assert (held.writes + [write])[..|held.writes|] == held.writes;
  }

  lemma AbandonedIsEnded(held: Held)
    ensures !IsLive(Written(held, Abandon).record)
  {
  }

  lemma ReplacedFits(store: Store, r: nat, held: Held)
    requires StoreFits(store) && r < |store.records| && HeldFits(held) && held.id == store.records[r].id
    requires IsLive(held.record) ==> IsLive(store.records[r].record)
    ensures StoreFits(WithRecord(store, r, held))
  {
  }

  lemma BeginFits(store: Store, id: string)
    requires StoreFits(store) && MayBegin(store, id)
    ensures StoreFits(Apply(store, Begin(id)))
  {
    var after := Apply(store, Begin(id));
    forall r | 0 <= r < |after.records|
      ensures after.records[r].id in after.current && r <= after.current[after.records[r].id]
      ensures IsLive(after.records[r].record) ==> r == after.current[after.records[r].id]
      ensures HeldFits(after.records[r])
    {
      if r < |store.records| {
        assert after.records[r] == store.records[r] && HeldFits(store.records[r]);
      }
    }
  }

  lemma MoveKeepsStore(store: Store, move: Move)
    requires StoreFits(store) && Enabled(store, move)
    ensures StoreFits(Apply(store, move))
  {
    match move
    case Begin(id) => BeginFits(store, id);
    case Clone(r) => ReplacedFits(store, r, Apply(store, move).records[r]);
    case Record(r, write) =>
      WrittenFits(store.records[r], write);
      ReplacedFits(store, r, Apply(store, move).records[r]);
    case Release(r) => ReplacedFits(store, r, Apply(store, move).records[r]);
    case FinishDrop(r) =>
      WrittenFits(store.records[r], Abandon);
      AbandonedIsEnded(store.records[r]);
      ReplacedFits(store, r, Apply(store, move).records[r]);
  }

  // ----- Runs -----

  ghost predicate Next(store: Store, after: Store) {
    exists move :: Enabled(store, move) && after == Apply(store, move)
  }

  ghost predicate Follows(run: seq<Store>, i: nat)
    requires 0 < i < |run|
  {
    Next(run[i - 1], run[i])
  }

  ghost predicate Run(run: seq<Store>) {
    |run| > 0 && run[0] == EMPTY && forall i :: 0 < i < |run| ==> Follows(run, i)
  }

  /** What a later store keeps of a record: its place, its ID, and its writes as a prefix. */
  ghost predicate Grows(store: Store, after: Store) {
    && |store.records| <= |after.records|
    && forall r :: 0 <= r < |store.records| ==>
         after.records[r].id == store.records[r].id && store.records[r].writes <= after.records[r].writes
  }

  lemma {:induction false} RunFits(run: seq<Store>, i: nat)
    requires Run(run) && i < |run|
    ensures StoreFits(run[i])
  {
    if i > 0 {
      RunFits(run, i - 1);
      assert Follows(run, i);
      var move :| Enabled(run[i - 1], move) && run[i] == Apply(run[i - 1], move);
      MoveKeepsStore(run[i - 1], move);
    }
  }

  lemma {:induction false} RunGrows(run: seq<Store>, i: nat, j: nat)
    requires Run(run) && i <= j < |run|
    ensures Grows(run[i], run[j])
    decreases j - i
  {
    if i < j {
      RunGrows(run, i, j - 1);
      assert Follows(run, j);
      var move :| Enabled(run[j - 1], move) && run[j] == Apply(run[j - 1], move);
    }
  }

  /** Of the records ever begun under one ID at most one is live, and it is the current one. */
  lemma OneLiveRecordAnId(run: seq<Store>, i: nat)
    requires Run(run) && i < |run|
    ensures forall r :: 0 <= r < |run[i].records| && IsLive(run[i].records[r].record) ==>
              run[i].records[r].id in run[i].current && run[i].current[run[i].records[r].id] == r
    ensures forall q, r ::
              (&& 0 <= q < |run[i].records| && 0 <= r < |run[i].records|
               && run[i].records[q].id == run[i].records[r].id
               && IsLive(run[i].records[q].record) && IsLive(run[i].records[r].record)) ==> q == r
  {
    RunFits(run, i);
  }

  /** A live record has a recorder exactly when its last drop is not under way, and that drop ends it. */
  lemma LiveRecordHasARecorder(run: seq<Store>, i: nat, r: nat)
    requires Run(run) && i < |run| && r < |run[i].records| && IsLive(run[i].records[r].record)
    ensures run[i].records[r].handles > 0 <==> !Enabled(run[i], FinishDrop(r))
    ensures Enabled(run[i], FinishDrop(r)) ==> !IsLive(Apply(run[i], FinishDrop(r)).records[r].record)
  {
    RunFits(run, i);
    assert HeldFits(run[i].records[r]);
  }

  /** Such a drop does come: between a last recorder's going and its drop's write, a live record has none. */
  lemma LastDropLeavesALiveRecord() returns (run: seq<Store>)
    ensures Run(run) && |run[|run| - 1].records| == 1
    ensures
      var held := run[|run| - 1].records[0];
      IsLive(held.record) && held.handles == 0
  {
    var begun := Store([Held("op", NEW_RECORD, 1, false, [])], map["op" := 0]);
    var dropped := Store([Held("op", NEW_RECORD, 0, true, [])], map["op" := 0]);
    assert Enabled(EMPTY, Begin("op")) && begun == Apply(EMPTY, Begin("op"));
    assert Enabled(begun, Release(0)) && dropped == Apply(begun, Release(0));
    run := [EMPTY, begun, dropped];
    assert Follows(run, 1) && Follows(run, 2);
  }

  /** A record is what its own recorders wrote, in order, and nothing any other recorder did. */
  lemma RecordIsItsOwnWrites(run: seq<Store>, i: nat, r: nat)
    requires Run(run) && i < |run| && r < |run[i].records|
    ensures
      var held := run[i].records[r];
      && held.record.events == Delivered(held.id, held.writes)
      && OutcomeOf(held.record) == FirstTerminal(held.id, held.writes)
  {
    RunFits(run, i);
    assert HeldFits(run[i].records[r]);
    OutcomeIsFirstTerminal(run[i].records[r].id, run[i].records[r].writes);
  }

  /** A record that has been displaced had ended, and its outcome never changes. */
  lemma DisplacedRecordIsEndedForGood(run: seq<Store>, i: nat, j: nat, r: nat)
    requires Run(run) && i <= j < |run| && r < |run[i].records|
    requires run[i].records[r].id in run[i].current ==> run[i].current[run[i].records[r].id] != r
    ensures r < |run[j].records|
    ensures OutcomeOf(run[i].records[r].record).Some?
    ensures OutcomeOf(run[j].records[r].record) == OutcomeOf(run[i].records[r].record)
  {
    RunFits(run, i);
    RunFits(run, j);
    RunGrows(run, i, j);
    var was, now := run[i].records[r], run[j].records[r];
    assert HeldFits(was) && HeldFits(now);
    OutcomeIsFirstTerminal(was.id, was.writes);
    OutcomeIsFirstTerminal(now.id, now.writes);
    assert now.writes == was.writes + now.writes[|was.writes|..];
    FirstTerminalOfAppended(was.id, was.writes, now.writes[|was.writes|..]);
  }
}
