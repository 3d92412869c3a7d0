/** The public display board of an office: whether it is open, the most
    recently called tickets (newest event first, cut to a limit) with the
    window they go to, and the waiting tickets with their service. */
module DisplayBoard {
  import opened Common
  import opened OfficeHours
  import opened QueueData

  // ---------------------------------------------------------------------
  // Short ticket numbers, Python flavour

  /** Python `s.split(c)`: the pieces between occurrences of `c`, always at
      least one (`"".split("-") == [""]`, `"a-".split("-") == ["a", ""]`). */
  function Split(s: string, c: char): (pieces: seq<string>)
    ensures |pieces| >= 1
  {
    if s == [] then [""]
    else if s[|s| - 1] == c then Split(s[..|s| - 1], c) + [""]
    else
      var p := Split(s[..|s| - 1], c);
      p[..|p| - 1] + [p[|p| - 1] + [s[|s| - 1]]]
  }

  /** Adding a character other than the separator extends the last piece. */
  lemma SplitExtendsLast(s: string, c: char)
    requires s != [] && s[|s| - 1] != c
    ensures var p := Split(s[..|s| - 1], c);
            Split(s, c)[|Split(s, c)| - 1] == p[|p| - 1] + [s[|s| - 1]]
  {
  }

  /** Slicing after an index of the prefix commutes with the last character. */
  lemma SliceAfterPrefix(s: string, i: int)
    requires s != [] && -1 <= i < |s| - 1
    ensures s[i + 1..] == s[..|s| - 1][i + 1..] + [s[|s| - 1]]
  {
  }

  /** The last piece of a split is everything after the last separator. */
  lemma {:induction false} SplitLastPiece(s: string, c: char)
    ensures var p := Split(s, c);
            p[|p| - 1] == s[LastIndexOf(s, c) + 1..]
    decreases |s|
  {
    if s != [] && s[|s| - 1] != c {
      var q := s[..|s| - 1];
      SplitLastPiece(q, c);
      SplitExtendsLast(s, c);
      SliceAfterPrefix(s, LastIndexOf(q, c));
    }
  }

  /** The number shown on the board: the piece after the last `-` when the
      ticket number has one, the ticket number itself otherwise, and the
      ticket's name when that comes out empty. */
  function ShortNumber(ticketNumber: string, name: string): (r: string)
    ensures ticketNumber == "" ==> r == name
    ensures ticketNumber != "" && '-' !in ticketNumber ==> r == ticketNumber
    ensures '-' in ticketNumber ==>
              var i := LastIndexOf(ticketNumber, '-');
              (i + 1 < |ticketNumber| ==> r == ticketNumber[i + 1..] && '-' !in r)
              && (i + 1 == |ticketNumber| ==> r == name)
  {
    var segment := if ticketNumber != "" && '-' in ticketNumber
                   then Split(ticketNumber, '-')[|Split(ticketNumber, '-')| - 1]
                   else ticketNumber;
    SplitLastPiece(ticketNumber, '-');
    if segment != "" then segment else name
  }

  // ---------------------------------------------------------------------
  // Ranking the called tickets

  /** A row of a ticket query: the ticket's name and its fields. */
  datatype Row = Row(name: string, ticket: Ticket)

  /** The later of two optional times; an absent time never wins. */
  function Later(a: Option<int>, b: Option<int>): (r: Option<int>)
    ensures r.None? <==> a.None? && b.None?
    ensures r.Some? ==> (r == a || r == b)
    ensures r.Some? && a.Some? ==> r.value >= a.value
    ensures r.Some? && b.Some? ==> r.value >= b.value
  {
    match a
    case None => b
    case Some(x) =>
      match b
      case None => a
      case Some(y) => if x >= y then a else b
  }

  /** The latest of the call, service-start and completion times that are
      present, or the last-modified time when none is. */
  function DisplayTime(t: Ticket): (r: int)
    ensures t.callTime.Some? ==> r >= t.callTime.value
    ensures t.startServiceTime.Some? ==> r >= t.startServiceTime.value
    ensures t.completionTime.Some? ==> r >= t.completionTime.value
    ensures Some(r) == t.callTime || Some(r) == t.startServiceTime || Some(r) == t.completionTime
            || (t.callTime.None? && t.startServiceTime.None? && t.completionTime.None? && r == t.modified)
  {
    var latest := Later(Later(t.callTime, t.startServiceTime), t.completionTime);
    if latest.Some? then latest.value else t.modified
  }

  function RowTime(r: Row): int
  {
    DisplayTime(r.ticket)
  }

  /** The query fetches `max(20, 3 * limit)` called tickets, most recently
      modified first; these are sorted by display time, newest first, ties
      in fetch order, and the first `limit` (Python slice semantics) kept. */
  function RankedTop(candidates: seq<Row>, limitCalled: int): seq<Row>
  {
    var pool := PyTake(candidates, PoolSize(limitCalled));
    PyTake(SortDesc(pool, RowTime), limitCalled)
  }

  /** `max(20, limit_called * 3)`: how many called tickets the query fetches. */
  function PoolSize(limitCalled: int): int
  {
    if 3 * limitCalled > 20 then 3 * limitCalled else 20
  }

  // ---------------------------------------------------------------------
  // The display time as the code computes it

  /** Frappe's `get_datetime` on a time field of a fetched row: a stored
      time is read as it is, and an absent one (`None`) reads the clock. */
  function ReadTime(t: Option<int>, now: int): int
  {
    if t.Some? then t.value else now
  }

  /** The display time as api.py:486-500 computes it: the latest of the
      three reads, so an absent start or completion time counts as the
      present instant and the `modified` fallback is never reached. */
  function DisplayTimeAsWritten(t: Ticket, now: int): (r: int)
    ensures r >= ReadTime(t.callTime, now) && r >= ReadTime(t.startServiceTime, now)
            && r >= ReadTime(t.completionTime, now)
    ensures r == ReadTime(t.callTime, now) || r == ReadTime(t.startServiceTime, now)
            || r == ReadTime(t.completionTime, now)
  {
    Later(Later(Some(ReadTime(t.callTime, now)), Some(ReadTime(t.startServiceTime, now))),
          Some(ReadTime(t.completionTime, now))).value
  }

  /** A fetched called ticket with the clock reading taken while its time
      fields were read: every `get_datetime(None)` reads the clock afresh,
      and the latest read of the row is the one the maximum can pick, so
      one reading per row decides its display time. */
  datatype FetchedRow = FetchedRow(row: Row, clock: int)

  /** The display time of a fetched row as written. */
  function ClockedTime(f: FetchedRow): int
  {
    DisplayTimeAsWritten(f.row.ticket, f.clock)
  }

  /** The called tickets the board keeps, as written: the same pool, sort
      and cut as `RankedTop`, keyed by the clocked times. */
  function RankedTopAsWritten(fetched: seq<FetchedRow>, limitCalled: int): (top: seq<FetchedRow>)
    ensures forall f :: f in top ==> f in fetched
  {
    var pool := PyTake(fetched, PoolSize(limitCalled));
    var sorted := SortDesc(pool, ClockedTime);
    var top := PyTake(sorted, limitCalled);
    forall f | f in top ensures f in fetched {
      assert f in multiset(sorted);
    }
    top
  }

  /** The board line of a called ticket, as written. */
  function CalledLineAsWritten(dir: Directory, f: FetchedRow): CalledEntry
  {
    CalledEntry(ShortNumber(f.row.ticket.ticketNumber, f.row.name), WindowLabel(dir, f.row.ticket.servicePoint),
                HhMm(ClockedTime(f)))
  }

  /** A ticket as calling leaves it: called in the past, with no service
      start and no completion (`call_next_visitor` never sets them and
      `recall_ticket` clears them). */
  predicate JustCalled(t: Ticket, now: int)
  {
    t.callTime.Some? && t.callTime.value <= now && t.startServiceTime.None? && t.completionTime.None?
  }

  /** For a ticket that is only called, the code reads the present instant
      where the intended display time is the call time. */
  lemma CalledTicketReadsNowAsWritten(t: Ticket, now: int)
    requires JustCalled(t, now)
    ensures DisplayTimeAsWritten(t, now) == now
    ensures Some(DisplayTime(t)) == t.callTime
  {
  }

  /** Fetched rows that are only called, each read at its own clock reading. */
  predicate AllJustCalled(fetched: seq<FetchedRow>)
  {
    forall i :: 0 <= i < |fetched| ==> JustCalled(fetched[i].row.ticket, fetched[i].clock)
  }

  /** As written, with called tickets and clock readings that rise from row
      to row (as they do when the clock is read afresh for each row), the
      sort reverses the fetched pool: the board keeps the last fetched, the
      least recently modified, oldest first, and each line shows the
      clock reading taken for its row. */
  lemma BoardKeepsTheLastFetchedAsWritten(dir: Directory, fetched: seq<FetchedRow>, limitCalled: int)
    requires AllJustCalled(fetched)
    requires forall i, j :: 0 <= i < j < |fetched| ==> fetched[i].clock < fetched[j].clock
    ensures var top := RankedTopAsWritten(fetched, limitCalled);
            top == PyTake(Reversed(PyTake(fetched, PoolSize(limitCalled))), limitCalled)
            && forall f :: f in top ==> CalledLineAsWritten(dir, f).time == HhMm(f.clock)
  {
    var pool := PyTake(fetched, PoolSize(limitCalled));
    forall i | 0 <= i < |pool| ensures ClockedTime(pool[i]) == pool[i].clock {
      assert pool[i] == fetched[i];
      CalledTicketReadsNowAsWritten(pool[i].row.ticket, pool[i].clock);
    }
    SortDescOfRisingKeys(pool, ClockedTime);
    forall f | f in RankedTopAsWritten(fetched, limitCalled) ensures CalledLineAsWritten(dir, f).time == HhMm(f.clock) {
      var i :| 0 <= i < |fetched| && fetched[i] == f;
      CalledTicketReadsNowAsWritten(f.row.ticket, f.clock);
    }
  }

  /** As written, when every called ticket is read at the same clock
      reading, all keys tie: the board keeps the first fetched, in query
      order, and every line shows that reading. */
  lemma BoardKeepsFetchOrderOnEqualReadsAsWritten(dir: Directory, fetched: seq<FetchedRow>, limitCalled: int, now: int)
    requires AllJustCalled(fetched)
    requires forall i :: 0 <= i < |fetched| ==> fetched[i].clock == now
    ensures var top := RankedTopAsWritten(fetched, limitCalled);
            top == PyTake(PyTake(fetched, PoolSize(limitCalled)), limitCalled)
            && forall f :: f in top ==> CalledLineAsWritten(dir, f).time == HhMm(now)
  {
    var pool := PyTake(fetched, PoolSize(limitCalled));
    forall i | 0 <= i < |pool| ensures ClockedTime(pool[i]) == now {
      assert pool[i] == fetched[i];
      CalledTicketReadsNowAsWritten(pool[i].row.ticket, now);
    }
    SortDescOfEqualKeys(pool, ClockedTime, now);
    forall f | f in RankedTopAsWritten(fetched, limitCalled) ensures CalledLineAsWritten(dir, f).time == HhMm(now) {
      var i :| 0 <= i < |fetched| && fetched[i] == f;
      CalledTicketReadsNowAsWritten(f.row.ticket, now);
    }
  }

  /** A called at 10:00 and B at 10:05, so the query fetches B first; with
      one line to show, the code shows A, while the newest call is B. */
  lemma OlderCallShownAsWritten(a: FetchedRow, b: FetchedRow)
    requires JustCalled(a.row.ticket, a.clock) && JustCalled(b.row.ticket, b.clock)
    requires a.row.ticket.callTime.value < b.row.ticket.callTime.value
    requires b.clock < a.clock
    ensures RankedTopAsWritten([b, a], 1) == [a]
    ensures RankedTop([b.row, a.row], 1) == [b.row]
  {
    CalledTicketReadsNowAsWritten(a.row.ticket, a.clock);
    CalledTicketReadsNowAsWritten(b.row.ticket, b.clock);
    assert PyTake([b, a], PoolSize(1)) == [b, a];
    assert [b, a][..1] == [b];
    assert SortDesc([b], ClockedTime) == [b];
    assert SortDesc([b, a], ClockedTime) == [a, b];
    assert PyTake([b.row, a.row], PoolSize(1)) == [b.row, a.row];
    assert [b.row, a.row][..1] == [b.row];
    assert SortDesc([b.row], RowTime) == [b.row];
    assert SortDesc([b.row, a.row], RowTime) == [b.row, a.row];
  }

  /** In a sequence sorted newest first, nothing after position `n` is newer than anything before it. */
  lemma {:induction false} PrefixOfSortedIsNewest<T>(s: seq<T>, n: nat, key: T -> int)
    requires n <= |s| && SortedDesc(s, key)
    ensures multiset(s[..n]) <= multiset(s)
    ensures forall x, y :: x in multiset(s) - multiset(s[..n]) && y in s[..n] ==> key(x) <= key(y)
  {
    assert s == s[..n] + s[n..];
    assert multiset(s) == multiset(s[..n]) + multiset(s[n..]);
    forall x, y | x in multiset(s) - multiset(s[..n]) && y in s[..n]
      ensures key(x) <= key(y)
    {
      assert x in multiset(s[n..]);
      var i :| 0 <= i < |s[n..]| && s[n..][i] == x;
      var j :| 0 <= j < n && s[..n][j] == y;
      assert s[n + i] == x && s[j] == y;
    }
  }

  /** The kept tickets are newest first, are drawn from the fetched pool,
      and no fetched ticket left out is newer than one kept. */
  lemma RankedTopIsNewest(candidates: seq<Row>, limitCalled: int)
    ensures var pool := PyTake(candidates, PoolSize(limitCalled));
            var top := RankedTop(candidates, limitCalled);
            SortedDesc(top, RowTime)
            && multiset(top) <= multiset(pool)
            && forall x, y :: x in multiset(pool) - multiset(top) && y in top ==> RowTime(x) <= RowTime(y)
  {
    var pool := PyTake(candidates, PoolSize(limitCalled));
    var sorted := SortDesc(pool, RowTime);
    SortDescSorted(pool, RowTime);
    var top := RankedTop(candidates, limitCalled);
    assert top == sorted[..|top|];
    PrefixOfSortedIsNewest(sorted, |top|, RowTime);
  }

  // ---------------------------------------------------------------------
  // Formatting

  /** Two decimal digits of a number below 100 (`%H` and `%M`). */
  function TwoDigits(n: nat): (s: string)
    requires n < 100
    ensures |s| == 2 && AllDigits(s) && ParseDecimal(s) == n
  {
    var s := [DigitChar(n / 10), DigitChar(n % 10)];
    assert s[..1] == [DigitChar(n / 10)] && s[..1][..0] == [];
    assert ParseDecimal(s[..1]) == n / 10;
    s
  }

  /** `strftime("%H:%M")` of a time in seconds on the server's clock. */
  function HhMm(t: int): (s: string)
    ensures |s| == 5 && s[2] == ':' && AllDigits(s[..2]) && AllDigits(s[3..])
    ensures ParseDecimal(s[..2]) == (t % 86400) / 3600 < 24
    ensures ParseDecimal(s[3..]) == (t % 3600) / 60 < 60
  {
    var s := TwoDigits((t % 86400) / 3600) + ":" + TwoDigits((t % 3600) / 60);
    assert s[..2] == TwoDigits((t % 86400) / 3600);
    assert s[3..] == TwoDigits((t % 3600) / 60);
    s
  }

  /** The window a called ticket goes to: its point's display name, or "N/A". */
  function WindowLabel(dir: Directory, point: Option<string>): (w: string)
    ensures point.Some? && point.value != "" && point.value in dir.servicePoints ==> w == dir.servicePoints[point.value].pointName
    ensures !(point.Some? && point.value != "" && point.value in dir.servicePoints) ==> w == "N/A"
  {
    if point.Some? && point.value != "" && point.value in dir.servicePoints
    then dir.servicePoints[point.value].pointName else "N/A"
  }

  const NoServiceText := "service not specified"

  /** The service a waiting ticket is for: the service's display name, or a fixed text. */
  function ServiceText(dir: Directory, service: string): string
  {
    if service != "" && service in dir.services then dir.services[service].serviceName else NoServiceText
  }

  datatype CalledEntry = CalledEntry(ticket: string, window: string, time: string)
  datatype WaitingEntry = WaitingEntry(ticket: string, service: string)

  /** The board line of a called ticket. */
  function CalledLine(dir: Directory, row: Row): CalledEntry
  {
    CalledEntry(ShortNumber(row.ticket.ticketNumber, row.name), WindowLabel(dir, row.ticket.servicePoint), HhMm(RowTime(row)))
  }

  /** The board line of a waiting ticket. */
  function WaitingLine(dir: Directory, row: Row): WaitingEntry
  {
    WaitingEntry(ShortNumber(row.ticket.ticketNumber, row.name), ServiceText(dir, row.ticket.service))
  }

  /** The formatting loop over the kept called tickets. */
  method FormatCalled(dir: Directory, top: seq<Row>) returns (lines: seq<CalledEntry>)
    ensures |lines| == |top| && forall j :: 0 <= j < |top| ==> lines[j] == CalledLine(dir, top[j])
  {
    lines := [];
    var i := 0;
    while i < |top|
      invariant 0 <= i <= |top| && |lines| == i
      invariant forall j :: 0 <= j < i ==> lines[j] == CalledLine(dir, top[j])
    {
      lines := lines + [CalledLine(dir, top[i])];
      i := i + 1;
    }
  }

  /** The formatting loop over the waiting tickets. */
  method FormatWaiting(dir: Directory, rows: seq<Row>) returns (lines: seq<WaitingEntry>)
    ensures |lines| == |rows| && forall j :: 0 <= j < |rows| ==> lines[j] == WaitingLine(dir, rows[j])
  {
    lines := [];
    var i := 0;
    while i < |rows|
      invariant 0 <= i <= |rows| && |lines| == i
      invariant forall j :: 0 <= j < i ==> lines[j] == WaitingLine(dir, rows[j])
    {
      lines := lines + [WaitingLine(dir, rows[i])];
      i := i + 1;
    }
  }

  datatype ClosedReason = NoScheduleConfigured | OutsideHours

  /** What `get_display_data` returns. */
  datatype Board =
    | BoardError(officeMissing: bool)
    | Closed(reason: ClosedReason)
    | Open(lastCalled: seq<CalledEntry>, waiting: seq<WaitingEntry>)

  /** Whether a known office's board shows it open. */
  predicate BoardOpen(dir: Directory, env: Environment, o: OfficeRec)
    requires env.systemZone in env.clock
  {
    ScheduleOf(dir, o) != "" && OfficeOpen(ScheduleOf(dir, o), o.timezone, dir.schedules, env.clock, env.systemZone)
  }

  /** `get_display_data`. `called` is the office's called tickets issued
      today, most recently modified first; `waiting` is its waiting tickets
      issued today, already in queue order and cut to the waiting limit. */
  method GetDisplayData(dir: Directory, env: Environment, office: string, limitCalled: int,
                        called: seq<Row>, waiting: seq<Row>)
    returns (board: Board)
    requires env.systemZone in env.clock
    ensures office == "" ==> board == BoardError(true)
    ensures office != "" && office !in dir.offices ==> board == BoardError(false)
    ensures office in dir.offices && office != "" && ScheduleOf(dir, dir.offices[office]) == "" ==>
              board == Closed(NoScheduleConfigured)
    ensures (office in dir.offices && office != "" && ScheduleOf(dir, dir.offices[office]) != ""
             && !BoardOpen(dir, env, dir.offices[office])) ==> board == Closed(OutsideHours)
    ensures board.Open? <==> office != "" && office in dir.offices && BoardOpen(dir, env, dir.offices[office])
    ensures board.Open? ==>
              var top := RankedTop(called, limitCalled);
              |board.lastCalled| == |top|
              && (forall i :: 0 <= i < |top| ==> board.lastCalled[i] == CalledLine(dir, top[i]))
              && |board.waiting| == |waiting|
              && (forall i :: 0 <= i < |waiting| ==> board.waiting[i] == WaitingLine(dir, waiting[i]))
  {
    if office == "" {
      return BoardError(true);
    }
    if office !in dir.offices {
      return BoardError(false);
    }
    var officeDoc := dir.offices[office];
    var scheduleName := ScheduleOf(dir, officeDoc);
    if scheduleName == "" {
      return Closed(NoScheduleConfigured);
    }
    var open := IsOfficeOpen(scheduleName, officeDoc.timezone, dir.schedules, env.clock, env.systemZone);
    if !open {
      return Closed(OutsideHours);
    }
    var lastCalled := FormatCalled(dir, RankedTop(called, limitCalled));
    var waitingLines := FormatWaiting(dir, waiting);
    return Open(lastCalled, waitingLines);
  }
}
