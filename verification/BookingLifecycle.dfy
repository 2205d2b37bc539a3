/** The booking state machine and its history table (bookings/enums, bookings/booking-status.service.ts). */
module BookingLifecycle {
  import opened Wrappers

  datatype BookingStatus = Pending | Confirmed | EnRoute | Arrived | InProgress | Completed | Cancelled | NoShow

  function BookingTransitions(from: BookingStatus): set<BookingStatus> {
    match from
    case Pending => {Confirmed, Cancelled}
    case Confirmed => {EnRoute, Cancelled, NoShow}
    case EnRoute => {Arrived, Cancelled}
    case Arrived => {InProgress, NoShow, Cancelled}
    case InProgress => {Completed, Cancelled}
    case _ => {}
  }

  predicate IsTransitionAllowed(from: BookingStatus, to: BookingStatus) {
    to in BookingTransitions(from)
  }

  const ACTIVE_STATUSES := {Pending, Confirmed, EnRoute, Arrived, InProgress}
  const CANCELLABLE_BY_CUSTOMER := {Pending, Confirmed}
  const TECHNICIAN_SETTABLE := {Confirmed, EnRoute, Arrived, InProgress, Completed, NoShow}

  /** Which service call wrote a history row. */
  datatype RowKind = Created | Transitioned | Rescheduled

  datatype HistoryRow = HistoryRow(bookingId: nat, previous: Option<BookingStatus>, next: BookingStatus, kind: RowKind)

  /** The rows of one booking, oldest first. */
  function HistoryOf(history: seq<HistoryRow>, bookingId: nat): seq<HistoryRow> {
    if history == [] then []
    else
      var last := history[|history| - 1];
      HistoryOf(history[..|history| - 1], bookingId) + if last.bookingId == bookingId then [last] else []
  }

  lemma HistoryAfterAppend(history: seq<HistoryRow>, row: HistoryRow, bookingId: nat)
    ensures HistoryOf(history + [row], bookingId) ==
      if row.bookingId == bookingId then HistoryOf(history, bookingId) + [row] else HistoryOf(history, bookingId)
  {
  }

  /** A row that changes the status takes an allowed edge; a row that repeats it is a reschedule. */
  predicate FollowsOn(row: HistoryRow, status: BookingStatus) {
    && row.previous == Some(status)
    && match row.kind
       case Created => false
       case Transitioned => row.next != status && IsTransitionAllowed(status, row.next)
       case Rescheduled => row.next == status
  }

  predicate Linked(rows: seq<HistoryRow>, i: nat)
    requires 1 <= i < |rows|
  {
    FollowsOn(rows[i], rows[i - 1].next)
  }

  /** `rows` starts with the creation row and leads, link by link, to `status`. */
  predicate Replays(rows: seq<HistoryRow>, status: BookingStatus) {
    && rows != []
    && rows[0].previous == None && rows[0].next == Pending && rows[0].kind == Created
    && (forall i: nat | 1 <= i < |rows| :: Linked(rows, i))
    && rows[|rows| - 1].next == status
  }

  lemma ReplayExtends(rows: seq<HistoryRow>, status: BookingStatus, row: HistoryRow)
    requires Replays(rows, status) && FollowsOn(row, status)
    ensures Replays(rows + [row], row.next)
  {
    forall i: nat | 1 <= i <= |rows| ensures Linked(rows + [row], i) {
      assert i < |rows| ==> Linked(rows, i);
    }
  }

  /** How far along the life of a booking a status is. */
  function Stage(status: BookingStatus): nat {
    match status
    case Pending => 0
    case Confirmed => 1
    case EnRoute => 2
    case Arrived => 3
    case InProgress => 4
    case _ => 5
  }

  function Changes(rows: seq<HistoryRow>): nat {
    if rows == [] then 0
    else Changes(rows[..|rows| - 1]) + if rows[|rows| - 1].kind == Transitioned then 1 else 0
  }

  lemma ReplayPrefix(rows: seq<HistoryRow>, status: BookingStatus)
    requires Replays(rows, status) && |rows| > 1
    ensures Replays(rows[..|rows| - 1], rows[|rows| - 2].next)
    ensures FollowsOn(rows[|rows| - 1], rows[|rows| - 2].next)
  {
    var init := rows[..|rows| - 1];
    assert init[0] == rows[0];
    assert Linked(rows, |rows| - 1);
    forall i: nat | 1 <= i < |init| ensures Linked(init, i) {
      assert Linked(rows, i);
    }
  }

  lemma ChangeMovesOn(row: HistoryRow, status: BookingStatus)
    requires FollowsOn(row, status)
    ensures row.kind == Transitioned ==> Stage(status) < Stage(row.next)
    ensures row.kind != Transitioned ==> row.next == status
  {
  }

  /** However long a history is, it holds at most five status changes. */
  lemma {:induction false} StatusChangesAreBounded(rows: seq<HistoryRow>, status: BookingStatus)
    requires Replays(rows, status)
    ensures Changes(rows) <= Stage(status) <= 5
  {
    var n := |rows| - 1;
    if n == 0 {
      assert Changes(rows[..n]) == 0;
    } else {
      ReplayPrefix(rows, status);
      StatusChangesAreBounded(rows[..n], rows[n - 1].next);
      ChangeMovesOn(rows[n], rows[n - 1].next);
    }
  }

  /** A booking that has ended keeps its status in every later row. */
  lemma {:induction false} EndedIsNeverLeft(rows: seq<HistoryRow>, status: BookingStatus, i: nat)
    requires Replays(rows, status) && i < |rows| && Stage(rows[i].next) == 5
    ensures rows[i].next == status
  {
    var n := |rows| - 1;
    if i < n {
      ReplayPrefix(rows, status);
      assert rows[..n][i] == rows[i];
      EndedIsNeverLeft(rows[..n], rows[n - 1].next, i);
      ChangeMovesOn(rows[n], rows[n - 1].next);
    }
  }
}
