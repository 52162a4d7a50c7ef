/**
  A Client's network operations: the state behind the host's one lock, and each
  critical section as a function of that state. A critical section that refuses
  leaves the state alone, so its result then carries no state.
*/
module HostState {
  import opened Wrappers

  type OperationId = string

  /** At most this many network operations of one Client run at once. */
  const LIMIT: nat := 8

  /** How many completed cancellations the record keeps. */
  const RECORDED_CANCELLATIONS: nat := 64

  datatype Cleanup = Cleanup(pendingLocalWork: nat, peerCleanupConfirmed: bool)

  /** What an operation that built nothing leaves behind. */
  const NOTHING: Cleanup := Cleanup(0, false)

  /** What is known of an operation that has not ended. */
  const UNFINISHED: Cleanup := Cleanup(1, false)

  /** A canceller runs outside the lock, so only its identity is state. */
  type Canceller = nat

  datatype Live = Live(serial: nat, running: bool, cancelled: bool, canceller: Option<Canceller>)

  datatype Aggregate = Aggregate(confirmed: nat, unconfirmed: nat, pendingLocalWork: nat) {

    function Add(cleanup: Cleanup): Aggregate {
      Aggregate(
        if cleanup.peerCleanupConfirmed then confirmed + 1 else confirmed,
        if cleanup.peerCleanupConfirmed then unconfirmed else unconfirmed + 1,
        pendingLocalWork + cleanup.pendingLocalWork)
    }

    function Report(unfinished: nat): Cleanup {
      Cleanup(
        pendingLocalWork + unfinished * UNFINISHED.pendingLocalWork,
        confirmed > 0 && unconfirmed == 0 && unfinished == 0)
    }
  }

  /** `running` is an integer here, so that it never falls below zero is a theorem. */
  datatype Host = Host(
    live: map<OperationId, Live>,
    running: int,
    registered: nat,
    closing: bool,
    exiting: bool,
    report: Option<Cleanup>,
    aggregate: Aggregate,
    cancellations: seq<(nat, Cleanup)>)

  const NEW_HOST: Host := Host(map[], 0, 0, false, false, None, Aggregate(0, 0, 0), [])

  predicate IsLive(host: Host, id: OperationId, serial: nat) {
    id in host.live && host.live[id].serial == serial
  }

  /** The newest recorded cancellation under `serial`: the search runs from the back. */
  function FindLast(recorded: seq<(nat, Cleanup)>, serial: nat): Option<Cleanup> {
    if recorded == [] then None
    else if recorded[|recorded| - 1].0 == serial then Some(recorded[|recorded| - 1].1)
    else FindLast(recorded[..|recorded| - 1], serial)
  }

  datatype Registration = Registered(host: Host) | ClientClosed | AlreadyRunning

  /** A registration's serial number is the new host's `registered`. */
  function Register(host: Host, id: OperationId, canceller: Option<Canceller>): Registration {
    if host.closing then ClientClosed
    else if id in host.live then AlreadyRunning
    else
      var serial := host.registered + 1;
      Registered(host.(registered := serial, live := host.live[id := Live(serial, false, false, canceller)]))
  }

  datatype Admission = Admitted(host: Host) | RefusedCancelled | MustWait

  /** One turn of the admission loop. */
  function TryAdmit(host: Host, id: OperationId, serial: nat): Admission {
    if !IsLive(host, id, serial) then RefusedCancelled
    else if host.live[id].cancelled || host.closing then RefusedCancelled
    else if host.running < LIMIT then
      Admitted(host.(running := host.running + 1, live := host.live[id := host.live[id].(running := true)]))
    else MustWait
  }

  function MarkCancelled(host: Host, id: OperationId): Host
    requires id in host.live
  {
    host.(live := host.live[id := host.live[id].(cancelled := true)])
  }

  datatype CancelEntry =
    | NotLive
    | WasWaiting(host: Host, serial: nat)
    | NoCanceller
    | WasRunning(host: Host, serial: nat, canceller: Canceller)

  /** A cancel's first critical section. */
  function EnterCancel(host: Host, id: OperationId): CancelEntry {
    if id !in host.live then NotLive
    else
      var live := host.live[id];
      if !live.running then WasWaiting(MarkCancelled(host, id), live.serial)
      else if live.canceller.None? then NoCanceller
      else WasRunning(MarkCancelled(host, id), live.serial, live.canceller.value)
  }

  /** One turn of a cancel's waiting loop: the answer once the registration has ended. */
  function ObserveEnd(host: Host, id: OperationId, serial: nat): Option<Cleanup> {
    if IsLive(host, id, serial) then None
    else Some(FindLast(host.cancellations, serial).GetOr(UNFINISHED))
  }

  function MarkAllCancelled(live: map<OperationId, Live>): map<OperationId, Live> {
    map id | id in live :: live[id].(cancelled := true)
  }

  /** The cancellers a first close calls, each with the serial number it belongs to. */
  function RunningCancellers(live: map<OperationId, Live>): set<(nat, Canceller)> {
    set id | id in live && live[id].running && live[id].canceller.Some? :: (live[id].serial, live[id].canceller.value)
  }

  /** A close's first critical section; only the first close marks the operations. */
  function BeginClose(host: Host, exit: bool): Host {
    var marked := host.(exiting := host.exiting || exit);
    if host.closing then marked
    else marked.(closing := true, live := MarkAllCancelled(host.live))
  }

  function Publish(host: Host): Host {
    host.(report := Some(host.aggregate.Report(|host.live|)))
  }

  /** Whether a close that is not the first may return. */
  predicate LaterCloseDone(host: Host, exit: bool) {
    host.report.Some? && (!exit || host.live == map[])
  }

  function LaterReport(host: Host): Cleanup {
    host.report.GetOr(host.aggregate.Report(|host.live|))
  }

  predicate WasCancelled(host: Host, id: OperationId, serial: nat) {
    IsLive(host, id, serial) && host.live[id].cancelled
  }

  function Recorded(recorded: seq<(nat, Cleanup)>, entry: (nat, Cleanup)): seq<(nat, Cleanup)> {
    (if |recorded| == RECORDED_CANCELLATIONS then recorded[1..] else recorded) + [entry]
  }

  /** A ticket's end: the registration goes, the slot is freed, the report is added in. */
  function End(host: Host, id: OperationId, serial: nat, admitted: bool, cleanup: Option<Cleanup>): Host {
    host.(
      live := if IsLive(host, id, serial) then host.live - {id} else host.live,
      running := if admitted then host.running - 1 else host.running,
      aggregate := if cleanup.Some? then host.aggregate.Add(cleanup.value) else host.aggregate,
      cancellations :=
        if cleanup.Some? && WasCancelled(host, id, serial)
        then Recorded(host.cancellations, (serial, cleanup.value))
        else host.cancellations)
  }
}
