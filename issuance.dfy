/** Walk-in ticket issuance from a kiosk: a chain of checks that either
    stops with an error or inserts a new `Waiting` ticket numbered from the
    office's daily counter. */
module Issuance {
  import opened Common
  import opened OfficeHours
  import opened QueueData
  import opened TicketSequence

  /** The errors the checks raise, in the order they are checked. */
  datatype IssueError =
    | MissingParameters
    | ServiceNotFound
    | OfficeNotFound
    | ServiceDisabled
    | NotLiveQueue
    | NotOfferedInOffice
    | NoSchedule
    | OfficeClosed

  /** The service has an active row in the office's available-services table. */
  predicate OfferedIn(dir: Directory, service: string, office: string)
  {
    exists i :: 0 <= i < |dir.assignments|
      && dir.assignments[i].office == office && dir.assignments[i].service == service
      && dir.assignments[i].activeInOffice
  }

  /** Whether the office that is known to exist is open now. */
  predicate OfficeOpenNow(dir: Directory, o: OfficeRec, env: Environment)
    requires env.systemZone in env.clock
  {
    OfficeOpen(ScheduleOf(dir, o), o.timezone, dir.schedules, env.clock, env.systemZone)
  }

  /** Every condition for issuing a ticket, stated independently of the check order. */
  predicate MayIssue(dir: Directory, service: string, office: string, env: Environment)
    requires env.systemZone in env.clock
  {
    service != "" && office != ""
    && service in dir.services && office in dir.offices
    && dir.services[service].enabled && dir.services[service].liveQueueEnabled
    && OfferedIn(dir, service, office)
    && ScheduleOf(dir, dir.offices[office]) != ""
    && OfficeOpenNow(dir, dir.offices[office], env)
  }

  /** Both parameters are given and name an existing service and office:
      the checks before the service's own flags pass. */
  predicate BothExist(dir: Directory, service: string, office: string)
  {
    service != "" && office != "" && service in dir.services && office in dir.offices
  }

  /** The first failing check of `create_live_queue_ticket`, or `None` when
      all pass: each error is returned exactly when every earlier check
      passes and its own fails. */
  function IssueGate(dir: Directory, service: string, office: string, env: Environment): (r: Option<IssueError>)
    requires env.systemZone in env.clock
    ensures r.None? <==> MayIssue(dir, service, office, env)
    ensures r == Some(MissingParameters) <==> service == "" || office == ""
    ensures r == Some(ServiceNotFound) <==> service != "" && office != "" && service !in dir.services
    ensures r == Some(OfficeNotFound) <==>
              service != "" && office != "" && service in dir.services && office !in dir.offices
    ensures r == Some(ServiceDisabled) <==>
              BothExist(dir, service, office) && !dir.services[service].enabled
    ensures r == Some(NotLiveQueue) <==>
              BothExist(dir, service, office) && dir.services[service].enabled
              && !dir.services[service].liveQueueEnabled
    ensures r == Some(NotOfferedInOffice) <==>
              BothExist(dir, service, office) && dir.services[service].enabled
              && dir.services[service].liveQueueEnabled && !OfferedIn(dir, service, office)
    ensures r == Some(NoSchedule) <==>
              BothExist(dir, service, office) && dir.services[service].enabled
              && dir.services[service].liveQueueEnabled && OfferedIn(dir, service, office)
              && ScheduleOf(dir, dir.offices[office]) == ""
    ensures r == Some(OfficeClosed) <==>
              BothExist(dir, service, office) && dir.services[service].enabled
              && dir.services[service].liveQueueEnabled && OfferedIn(dir, service, office)
              && ScheduleOf(dir, dir.offices[office]) != ""
              && !OfficeOpenNow(dir, dir.offices[office], env)
  {
    if service == "" || office == "" then Some(MissingParameters)
    else if service !in dir.services then Some(ServiceNotFound)
    else if office !in dir.offices then Some(OfficeNotFound)
    else if !dir.services[service].enabled then Some(ServiceDisabled)
    else if !dir.services[service].liveQueueEnabled then Some(NotLiveQueue)
    else if !OfferedIn(dir, service, office) then Some(NotOfferedInOffice)
    else if ScheduleOf(dir, dir.offices[office]) == "" then Some(NoSchedule)
    else if !OfficeOpenNow(dir, dir.offices[office], env) then Some(OfficeClosed)
    else None
  }

  /** The phone check: after deleting every `+` and `-` something is left
      and it is all decimal digits. */
  function PhoneLooksValid(phone: string): (valid: bool)
    ensures valid <==>
              (exists i :: 0 <= i < |phone| && phone[i] != '+' && phone[i] != '-')
              && forall i :: 0 <= i < |phone| && phone[i] != '+' && phone[i] != '-' ==> IsDigit(phone[i])
  {
    var kept := Strip(phone);
    StrippedDigits(phone);
    kept != "" && AllDigits(kept)
  }

  /** What is left after stripping, read off the original characters. */
  lemma StrippedDigits(phone: string)
    ensures Strip(phone) != "" <==> exists i :: 0 <= i < |phone| && phone[i] != '+' && phone[i] != '-'
    ensures AllDigits(Strip(phone)) <==>
              forall i :: 0 <= i < |phone| && phone[i] != '+' && phone[i] != '-' ==> IsDigit(phone[i])
  {
    var kept := Strip(phone);
    if kept != "" {
      assert kept[0] in phone;
    }
    if AllDigits(kept) {
      forall i | 0 <= i < |phone| && phone[i] != '+' && phone[i] != '-'
        ensures IsDigit(phone[i])
      {
        assert phone[i] in kept;
      }
    } else {
      var j :| 0 <= j < |kept| && !IsDigit(kept[j]);
      assert kept[j] in phone;
    }
  }

  /** `phone` without its `+` and `-` characters. */
  function Strip(phone: string): (kept: string)
    ensures forall c :: c in kept <==> c in phone && c != '+' && c != '-'
  {
    if phone == "" then ""
    else if phone[0] == '+' || phone[0] == '-' then Strip(phone[1..])
    else [phone[0]] + Strip(phone[1..])
  }

  /** A number with spaces is flagged by the check (and, as the issuance
      method states, still stored). */
  lemma SpacedPhoneIsFlagged(phone: string)
    requires ' ' in phone
    ensures !PhoneLooksValid(phone)
  {
    var kept := Strip(phone);
    assert ' ' in kept;
    var i :| 0 <= i < |kept| && kept[i] == ' ';
  }

  /** How issuance ends: a check raised, the ticket was inserted, or the
      insertion failed and was rolled back. */
  datatype IssueOutcome =
    | Rejected(error: IssueError)
    | Created(name: string, ticket: Ticket)
    | CreationFailed

  /** The ticket the kiosk creates, before numbering. */
  function FreshTicket(office: string, service: string, visitorPhone: string, now: int): (t: Ticket)
    ensures t.status == Waiting && t.office == office && t.service == service
    ensures t.ticketNumber == "" && t.issueTime == Some(now) && t.operator.None? && t.callTime.None?
    ensures t.visitorPhone.Some? <==> visitorPhone != ""
  {
    Ticket("", office, service, Waiting, 0, now, now, None, None, Some(now), None, None, None, None,
           if visitorPhone != "" then Some(visitorPhone) else None)
  }

  /** `create_live_queue_ticket`. The checks raise in order; a passing
      request flags a malformed phone but keeps it; the new ticket is numbered
      by the counter and stored under the name the framework assigns it,
      and a counter error or a taken name rolls back every write. */
  method CreateLiveQueueTicket(db: QueueDb, dir: Directory, env: Environment,
                               service: string, office: string, visitorPhone: string,
                               assignedName: string, outcomes: seq<SaveOutcome>)
    returns (out: IssueOutcome, phoneWarning: bool)
    requires env.systemZone in env.clock
    modifies db
    ensures out.Rejected? <==> !MayIssue(dir, service, office, env)
    ensures out.Rejected? ==> Some(out.error) == IssueGate(dir, service, office, env)
    ensures phoneWarning <==> MayIssue(dir, service, office, env) && visitorPhone != "" && !PhoneLooksValid(visitorPhone)
    ensures !out.Created? ==> db.tickets == old(db.tickets)
    ensures out.Rejected? ==> db.counters == old(db.counters)
    ensures out.CreationFailed? ==>
              db.counters == Observed(old(db.counters), CounterKey(office, env.today), outcomes, 0)
    ensures out.Created? ==>
              var a := Attempts(old(db.counters), CounterKey(office, env.today), outcomes, 0);
              a.0.Ok? && assignedName !in old(db.tickets)
              && out.name == assignedName
              && out.ticket == FreshTicket(office, service, visitorPhone, env.now).(ticketNumber := TicketNumber(a.0.value))
              && db.tickets == old(db.tickets)[assignedName := out.ticket]
              && db.counters == a.1
    ensures out.CreationFailed? <==>
              MayIssue(dir, service, office, env)
              && (Attempts(old(db.counters), CounterKey(office, env.today), outcomes, 0).0.Err?
                  || assignedName in old(db.tickets))
  {
    phoneWarning := false;
    if service == "" || office == "" {
      return Rejected(MissingParameters), false;
    }
    if service !in dir.services {
      return Rejected(ServiceNotFound), false;
    }
    if office !in dir.offices {
      return Rejected(OfficeNotFound), false;
    }
    var serviceDoc := dir.services[service];
    if !serviceDoc.enabled {
      return Rejected(ServiceDisabled), false;
    }
    if !serviceDoc.liveQueueEnabled {
      return Rejected(NotLiveQueue), false;
    }
    if !OfferedIn(dir, service, office) {
      return Rejected(NotOfferedInOffice), false;
    }
    var officeDoc := dir.offices[office];
    var scheduleName := ScheduleOf(dir, officeDoc);
    if scheduleName == "" {
      return Rejected(NoSchedule), false;
    }
    var open := IsOfficeOpen(scheduleName, officeDoc.timezone, dir.schedules, env.clock, env.systemZone);
    if !open {
      return Rejected(OfficeClosed), false;
    }

    if visitorPhone != "" && !PhoneLooksValid(visitorPhone) {
      // only a warning: the number is stored below all the same
      phoneWarning := true;
    }

    var key := CounterKey(office, env.today);
    // rows other workers commit meanwhile survive a rollback of this request
    var othersCommitted := Observed(db.counters, key, outcomes, 0);
    OnlyTheClaimIsWritten(db.counters, key, outcomes, 0);
    var draft := FreshTicket(office, service, visitorPhone, env.now);
    var numbered := BeforeInsert(db, draft, env.today, outcomes);
    match numbered {
      case Err(_) =>
        // the failed loop wrote nothing of its own
        return CreationFailed, phoneWarning;
      case Ok(t) =>
        if assignedName in db.tickets {
          // the row insert raises a duplicate-entry error; the transaction,
          // with this worker's counter write, is rolled back
          db.counters := othersCommitted;
          return CreationFailed, phoneWarning;
        }
        db.tickets := db.tickets[assignedName := t];
        return Created(assignedName, t), phoneWarning;
    }
  }

  /** The reply the kiosk receives after an insertion attempt (a raised check
      produces no reply dictionary). */
  function IssueReply(out: IssueOutcome): (reply: Json)
    requires !out.Rejected?
    ensures reply.JObject? && "status" in reply.fields
    ensures reply.fields["status"] == JStr("success") <==> out.Created?
    ensures out.Created? ==> Field(reply, "ticket_name") == JStr(out.name)
                             && Field(reply, "ticket_number") == JStr(out.ticket.ticketNumber)
  {
    match out
    case Created(name, t) =>
      JObject(map["status" := JStr("success"), "message" := JStr("Ticket created successfully"),
                  "ticket_name" := JStr(name), "ticket_number" := JStr(t.ticketNumber),
                  "office" := JStr(t.office), "service" := JStr(t.service)])
    case CreationFailed =>
      JObject(map["status" := JStr("error"), "message" := JStr("ticket could not be created")])
  }
}
