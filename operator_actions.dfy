/** The operator's actions on a ticket they called: start serving, finish,
    mark as no-show, put on hold, and recall a held ticket; and the list of
    the operator's held tickets. Each action checks the caller, then that
    the ticket is theirs, then its status, and on any failure changes
    nothing. */
module OperatorActions {
  import opened Common
  import opened QueueData

  datatype Action = StartServing | FinishService | MarkNoShow | Hold | Recall

  datatype ActionError = LoginRequired | TicketNotFound | NotYourTicket | WrongStatus(found: TicketStatus)

  /** The statuses an action accepts. */
  predicate Allowed(a: Action, s: TicketStatus)
  {
    match a
    case StartServing => s == Called
    case FinishService => s == Serving
    case MarkNoShow => s == Called || s == Serving
    case Hold => s == Serving
    case Recall => s == Postponed
  }

  /** The status an action leaves. */
  function Target(a: Action): TicketStatus
  {
    match a
    case StartServing => Serving
    case FinishService => Completed
    case MarkNoShow => NoShow
    case Hold => Postponed
    case Recall => Called
  }

  /** Minutes between two instants in hundredths, rounded to the nearest
      hundredth: `round(seconds / 60, 2)`. Five thirds of the seconds is
      never halfway between two integers, so there is no tie to break. */
  function DurationHundredths(seconds: int): (h: int)
    ensures -1 <= 3 * h - 5 * seconds <= 1
  {
    (5 * seconds + 1) / 3
  }

  /** The rounding is to the nearest hundredth of a minute: no other value is closer. */
  lemma DurationIsNearest(seconds: int, other: int)
    ensures var h := DurationHundredths(seconds);
            Abs(3 * h - 5 * seconds) <= Abs(3 * other - 5 * seconds)
  {
    var h := DurationHundredths(seconds);
    if other != h {
      assert Abs(3 * other - 5 * seconds) >= 2;
    }
  }

  function Abs(x: int): nat
  {
    if x < 0 then -x else x
  }

  /** The ticket after a permitted action at instant `now`. */
  function Apply(a: Action, t: Ticket, now: int): (u: Ticket)
    ensures u.status == Target(a) && u.modified == now
    ensures u.operator == t.operator && u.servicePoint == t.servicePoint
    ensures u.ticketNumber == t.ticketNumber && u.office == t.office && u.service == t.service
            && u.priority == t.priority && u.creation == t.creation
            && u.issueTime == t.issueTime && u.visitorPhone == t.visitorPhone
    ensures (a == MarkNoShow || a == Hold) ==>
              u.callTime == t.callTime && u.startServiceTime == t.startServiceTime
              && u.completionTime == t.completionTime
              && u.actualServiceTimeHundredths == t.actualServiceTimeHundredths
    ensures a == StartServing ==>
              u.startServiceTime == Some(now) && u.callTime == t.callTime
              && u.completionTime == t.completionTime
              && u.actualServiceTimeHundredths == t.actualServiceTimeHundredths
    ensures a == FinishService ==>
              u.completionTime == Some(now) && u.callTime == t.callTime
              && u.startServiceTime == t.startServiceTime
              && u.actualServiceTimeHundredths.Some?
              && (t.startServiceTime.None? ==> u.actualServiceTimeHundredths == Some(0))
              && (t.startServiceTime.Some? ==>
                    -1 <= 3 * u.actualServiceTimeHundredths.value - 5 * (now - t.startServiceTime.value) <= 1)
    ensures a == Recall ==>
              u.callTime == Some(now) && u.startServiceTime.None? && u.completionTime.None?
              && u.actualServiceTimeHundredths.None?
  {
    match a
    case StartServing => t.(status := Serving, startServiceTime := Some(now), modified := now)
    case FinishService =>
      var minutes := if t.startServiceTime.Some? then DurationHundredths(now - t.startServiceTime.value) else 0;
      t.(status := Completed, completionTime := Some(now), actualServiceTimeHundredths := Some(minutes), modified := now)
    case MarkNoShow => t.(status := NoShow, modified := now)
    case Hold => t.(status := Postponed, modified := now)
    case Recall =>
      t.(status := Called, callTime := Some(now), startServiceTime := None, completionTime := None,
         actualServiceTimeHundredths := None, modified := now)
  }

  /** The outcome of an action on ticket `name` by `user`: the checks in
      their order, then the new ticket. */
  function Transition(a: Action, tickets: map<string, Ticket>, name: string, user: string, now: int)
    : (r: Result<Ticket, ActionError>)
    ensures user == "Guest" ==> r == Err(LoginRequired)
    ensures r == Err(TicketNotFound) <==> user != "Guest" && name !in tickets
    ensures r == Err(NotYourTicket) <==> user != "Guest" && name in tickets && tickets[name].operator != Some(user)
    ensures r.Err? && r.error.WrongStatus? <==>
              user != "Guest" && name in tickets && tickets[name].operator == Some(user) && !Allowed(a, tickets[name].status)
    ensures r.Err? && r.error.WrongStatus? ==> r.error.found == tickets[name].status
    ensures r.Ok? <==> user != "Guest" && name in tickets && tickets[name].operator == Some(user) && Allowed(a, tickets[name].status)
    ensures r.Ok? ==> r.value == Apply(a, tickets[name], now)
  {
    if user == "Guest" then Err(LoginRequired)
    else if name !in tickets then Err(TicketNotFound)
    else if tickets[name].operator != Some(user) then Err(NotYourTicket)
    else if !Allowed(a, tickets[name].status) then Err(WrongStatus(tickets[name].status))
    else Ok(Apply(a, tickets[name], now))
  }

  /** The ticket table after an action: the one ticket replaced on success, unchanged otherwise. */
  function After(r: Result<Ticket, ActionError>, tickets: map<string, Ticket>, name: string): map<string, Ticket>
  {
    if r.Ok? then tickets[name := r.value] else tickets
  }

  // ---------------------------------------------------------------------
  // The five endpoints

  /** `start_serving_ticket`. */
  method StartServingTicket(db: QueueDb, name: string, user: string, now: int) returns (r: Result<Ticket, ActionError>)
    modifies db`tickets
    ensures r == Transition(StartServing, old(db.tickets), name, user, now)
    ensures db.tickets == After(r, old(db.tickets), name)
  {
    if user == "Guest" {
      return Err(LoginRequired);
    }
    if name !in db.tickets {
      return Err(TicketNotFound);
    }
    var doc := db.tickets[name];
    if doc.operator != Some(user) {
      return Err(NotYourTicket);
    }
    if doc.status != Called {
      return Err(WrongStatus(doc.status));
    }
    doc := doc.(status := Serving);
    doc := doc.(startServiceTime := Some(now));
    doc := doc.(modified := now);
    db.tickets := db.tickets[name := doc];
    return Ok(doc);
  }

  /** `finish_service_ticket`: the service time is measured from the start
      of service, and is 0 when no start was recorded. */
  method FinishServiceTicket(db: QueueDb, name: string, user: string, now: int) returns (r: Result<Ticket, ActionError>)
    modifies db`tickets
    ensures r == Transition(FinishService, old(db.tickets), name, user, now)
    ensures db.tickets == After(r, old(db.tickets), name)
  {
    if user == "Guest" {
      return Err(LoginRequired);
    }
    if name !in db.tickets {
      return Err(TicketNotFound);
    }
    var doc := db.tickets[name];
    if doc.operator != Some(user) {
      return Err(NotYourTicket);
    }
    if doc.status != Serving {
      return Err(WrongStatus(doc.status));
    }
    var completion := now;
    doc := doc.(status := Completed);
    doc := doc.(completionTime := Some(completion));
    if doc.startServiceTime.Some? {
      var seconds := completion - doc.startServiceTime.value;
      doc := doc.(actualServiceTimeHundredths := Some(DurationHundredths(seconds)));
    } else {
      doc := doc.(actualServiceTimeHundredths := Some(0));
    }
    doc := doc.(modified := now);
    db.tickets := db.tickets[name := doc];
    return Ok(doc);
  }

  /** `mark_no_show`: only the status changes; the recorded times stay. */
  method MarkNoShowTicket(db: QueueDb, name: string, user: string, now: int) returns (r: Result<Ticket, ActionError>)
    modifies db`tickets
    ensures r == Transition(MarkNoShow, old(db.tickets), name, user, now)
    ensures db.tickets == After(r, old(db.tickets), name)
  {
    if user == "Guest" {
      return Err(LoginRequired);
    }
    if name !in db.tickets {
      return Err(TicketNotFound);
    }
    var doc := db.tickets[name];
    if doc.operator != Some(user) {
      return Err(NotYourTicket);
    }
    if doc.status != Called && doc.status != Serving {
      return Err(WrongStatus(doc.status));
    }
    doc := doc.(status := NoShow);
    doc := doc.(modified := now);
    db.tickets := db.tickets[name := doc];
    return Ok(doc);
  }

  /** `hold_ticket`. */
  method HoldTicket(db: QueueDb, name: string, user: string, now: int) returns (r: Result<Ticket, ActionError>)
    modifies db`tickets
    ensures r == Transition(Hold, old(db.tickets), name, user, now)
    ensures db.tickets == After(r, old(db.tickets), name)
  {
    if user == "Guest" {
      return Err(LoginRequired);
    }
    if name !in db.tickets {
      return Err(TicketNotFound);
    }
    var doc := db.tickets[name];
    if doc.operator != Some(user) {
      return Err(NotYourTicket);
    }
    if doc.status != Serving {
      return Err(WrongStatus(doc.status));
    }
    doc := doc.(status := Postponed);
    doc := doc.(modified := now);
    db.tickets := db.tickets[name := doc];
    return Ok(doc);
  }

  /** `recall_ticket`: a new call time, the service times cleared, the
      operator and the service point kept. */
  method RecallTicket(db: QueueDb, name: string, user: string, now: int) returns (r: Result<Ticket, ActionError>)
    modifies db`tickets
    ensures r == Transition(Recall, old(db.tickets), name, user, now)
    ensures db.tickets == After(r, old(db.tickets), name)
  {
    if user == "Guest" {
      return Err(LoginRequired);
    }
    if name !in db.tickets {
      return Err(TicketNotFound);
    }
    var doc := db.tickets[name];
    if doc.operator != Some(user) {
      return Err(NotYourTicket);
    }
    if doc.status != Postponed {
      return Err(WrongStatus(doc.status));
    }
    doc := doc.(status := Called);
    doc := doc.(callTime := Some(now));
    doc := doc.(startServiceTime := None, completionTime := None, actualServiceTimeHundredths := None);
    doc := doc.(modified := now);
    db.tickets := db.tickets[name := doc];
    return Ok(doc);
  }

  // ---------------------------------------------------------------------
  // Properties of the lifecycle

  /** Completed and no-show tickets are final: no action accepts them. */
  lemma FinalStatesAreFinal(a: Action, tickets: map<string, Ticket>, name: string, user: string, now: int)
    requires name in tickets && (tickets[name].status == Completed || tickets[name].status == NoShow)
    ensures Transition(a, tickets, name, user, now).Err?
  {
  }

  /** No action ever hands a ticket to another operator or moves it to another point. */
  lemma OwnerAndPointKept(a: Action, tickets: map<string, Ticket>, name: string, user: string, now: int)
    ensures var after := After(Transition(a, tickets, name, user, now), tickets, name);
            after.Keys == tickets.Keys
            && (forall k :: k in tickets ==>
                  after[k].operator == tickets[k].operator && after[k].servicePoint == tickets[k].servicePoint)
  {
  }

  /** A caller who does not own the ticket is refused whatever its status:
      ownership is checked before status. */
  lemma OwnershipBeforeStatus(a: Action, tickets: map<string, Ticket>, name: string, user: string, now: int)
    requires user != "Guest" && name in tickets && tickets[name].operator != Some(user)
    ensures Transition(a, tickets, name, user, now) == Err(NotYourTicket)
  {
  }

  /** Hold followed by recall brings a ticket being served back to `Called`,
      with the new call time and no service times. */
  lemma HoldThenRecall(tickets: map<string, Ticket>, name: string, user: string, t1: int, t2: int)
    requires user != "Guest" && name in tickets && tickets[name].operator == Some(user) && tickets[name].status == Serving
    ensures var h := Transition(Hold, tickets, name, user, t1);
            h.Ok?
            && var r := Transition(Recall, After(h, tickets, name), name, user, t2);
               r.Ok? && r.value.status == Called && r.value.callTime == Some(t2)
               && r.value.startServiceTime.None? && r.value.completionTime.None?
               && r.value.actualServiceTimeHundredths.None? && r.value.operator == Some(user)
  {
  }

  /** Serving `s` seconds records `s / 60` minutes to within half a hundredth. */
  lemma RecordedDuration(tickets: map<string, Ticket>, name: string, user: string, start: int, now: int)
    requires user != "Guest" && name in tickets && tickets[name].operator == Some(user)
    requires tickets[name].status == Serving && tickets[name].startServiceTime == Some(start)
    ensures var r := Transition(FinishService, tickets, name, user, now);
            r.Ok? && r.value.completionTime == Some(now)
            && r.value.actualServiceTimeHundredths.Some?
            && -1 <= 3 * r.value.actualServiceTimeHundredths.value - 5 * (now - start) <= 1
  {
  }

  /** A ticket finished without a recorded start gets a duration of 0. */
  lemma UnstartedDurationIsZero(tickets: map<string, Ticket>, name: string, user: string, now: int)
    requires user != "Guest" && name in tickets && tickets[name].operator == Some(user)
    requires tickets[name].status == Serving && tickets[name].startServiceTime.None?
    ensures var r := Transition(FinishService, tickets, name, user, now);
            r.Ok? && r.value.completionTime == Some(now) && r.value.actualServiceTimeHundredths == Some(0)
  {
  }

  /** Marking a no-show changes only the status and the modification
      instant: every time the ticket recorded stays as it was. */
  lemma NoShowKeepsTimes(tickets: map<string, Ticket>, name: string, user: string, now: int)
    requires user != "Guest" && name in tickets && tickets[name].operator == Some(user)
    requires tickets[name].status == Called || tickets[name].status == Serving
    ensures var r := Transition(MarkNoShow, tickets, name, user, now);
            r.Ok? && r.value.status == NoShow
            && r.value.(status := tickets[name].status, modified := tickets[name].modified) == tickets[name]
  {
  }

  // ---------------------------------------------------------------------
  // Replies

  /** The fields of a ticket as the reply dictionary carries them. */
  function TicketDict(name: string, t: Ticket): (d: map<string, Json>)
    ensures "name" in d && d["name"] == JStr(name) && "status" in d && d["status"] == JStr(StatusName(t.status))
  {
    map["name" := JStr(name), "ticket_number" := JStr(t.ticketNumber), "office" := JStr(t.office),
        "service" := JStr(t.service), "status" := JStr(StatusName(t.status)),
        "operator" := if t.operator.Some? then JStr(t.operator.value) else JNull,
        "service_point" := if t.servicePoint.Some? then JStr(t.servicePoint.value) else JNull,
        "call_time" := if t.callTime.Some? then JInt(t.callTime.value) else JNull,
        "start_service_time" := if t.startServiceTime.Some? then JInt(t.startServiceTime.value) else JNull,
        "visitor_phone" := if t.visitorPhone.Some? then JStr(t.visitorPhone.value) else JNull]
  }

  /** The display name of a ticket's service in a reply: "N/A" without a
      service, null for an id the directory does not know. */
  function ReplyServiceName(dir: Directory, service: string): Json
  {
    if service == "" then JStr("N/A")
    else if service in dir.services then JStr(dir.services[service].serviceName)
    else JNull
  }

  /** The display name of a ticket's service point in a reply, with the
      text a ticket without a point gets. */
  function ReplyPointName(dir: Directory, point: Option<string>, missing: string): Json
  {
    if point.None? || point.value == "" then JStr(missing)
    else if point.value in dir.servicePoints then JStr(dir.servicePoints[point.value].pointName)
    else JNull
  }

  /** The reply dictionary of an action. Start and recall return the ticket
      with its service and point names as `ticket_info` at the top level;
      the other actions return only a message. */
  function ActionReply(a: Action, dir: Directory, name: string, r: Result<Ticket, ActionError>): (reply: Json)
    ensures reply.JObject? && "status" in reply.fields
    ensures reply.fields["status"] == JStr("success") <==> r.Ok?
    ensures r.Ok? && (a == StartServing || a == Recall) ==>
              var info := Field(reply, "ticket_info");
              Field(info, "name") == JStr(name) && Field(info, "status") == JStr(StatusName(r.value.status))
              && Field(info, "service_name") == ReplyServiceName(dir, r.value.service)
              && Field(info, "service_point_name")
                 == ReplyPointName(dir, r.value.servicePoint, if a == StartServing then "N/A" else "not assigned")
    ensures !(r.Ok? && (a == StartServing || a == Recall)) ==> Field(reply, "ticket_info") == JNull
    ensures Field(reply, "data") == JNull
  {
    if r.Err? then JObject(map["status" := JStr("error"), "message" := JStr("action failed")])
    else if a == StartServing || a == Recall then
      var missing := if a == StartServing then "N/A" else "not assigned";
      var info := TicketDict(name, r.value)["service_name" := ReplyServiceName(dir, r.value.service)]
                    ["service_point_name" := ReplyPointName(dir, r.value.servicePoint, missing)];
      JObject(map["status" := JStr("success"), "message" := JStr("ticket " + r.value.ticketNumber),
                  "ticket_info" := JObject(info)])
    else JObject(map["status" := JStr("success"), "message" := JStr("ticket " + r.value.ticketNumber)])
  }

  // ---------------------------------------------------------------------
  // Held tickets

  /** A ticket this operator put on hold. */
  predicate HeldBy(t: Ticket, user: string)
  {
    t.operator == Some(user) && t.status == Postponed
  }

  datatype HeldEntry = HeldEntry(name: string, ticketNumber: string, service: string, serviceName: string)

  /** The service label of a held ticket: the service's display name, else its id, else "N/A". */
  function HeldServiceName(dir: Directory, service: string): string
  {
    if service != "" && service in dir.services then dir.services[service].serviceName
    else if service != "" then service
    else "N/A"
  }

  function HeldEntryOf(dir: Directory, name: string, t: Ticket): HeldEntry
  {
    HeldEntry(name, t.ticketNumber, t.service, HeldServiceName(dir, t.service))
  }

  /** The names of the tickets among `keys` that `user` holds. */
  function HeldAmong(tickets: map<string, Ticket>, user: string, keys: set<string>): (r: set<string>)
    ensures forall k :: k in r <==> k in keys && k in tickets && HeldBy(tickets[k], user)
  {
    set k | k in keys && k in tickets && HeldBy(tickets[k], user)
  }

  /** The sort key of the held list: the ticket's last modification. */
  function ModifiedOf(tickets: map<string, Ticket>): HeldEntry -> int
  {
    (e: HeldEntry) => if e.name in tickets then tickets[e.name].modified else 0
  }

  /** `get_my_held_tickets`: one entry for each of the caller's held
      tickets and nothing else, most recently modified first; nothing for a
      guest. */
  method GetMyHeldTickets(tickets: map<string, Ticket>, dir: Directory, user: string) returns (list: seq<HeldEntry>)
    ensures user == "Guest" ==> list == []
    ensures forall e :: e in list ==> e.name in tickets && HeldBy(tickets[e.name], user)
                                      && e == HeldEntryOf(dir, e.name, tickets[e.name])
    ensures user != "Guest" ==> forall k :: k in tickets && HeldBy(tickets[k], user) ==> HeldEntryOf(dir, k, tickets[k]) in list
    ensures user != "Guest" ==> |list| == |HeldAmong(tickets, user, tickets.Keys)|
    ensures SortedDesc(list, ModifiedOf(tickets))
  {
    if user == "Guest" {
      return [];
    }
    list := [];
    var remaining := tickets.Keys;
    while remaining != {}
      invariant remaining <= tickets.Keys
      invariant forall e :: e in list ==> e.name in tickets && e.name !in remaining && HeldBy(tickets[e.name], user)
                                          && e == HeldEntryOf(dir, e.name, tickets[e.name])
      invariant forall k :: k in HeldAmong(tickets, user, tickets.Keys - remaining) ==> HeldEntryOf(dir, k, tickets[k]) in list
      invariant |list| == |HeldAmong(tickets, user, tickets.Keys - remaining)|
      invariant SortedDesc(list, ModifiedOf(tickets))
      decreases remaining
    {
      var k :| k in remaining;
      var before := HeldAmong(tickets, user, tickets.Keys - remaining);
      var after := HeldAmong(tickets, user, tickets.Keys - (remaining - {k}));
      if HeldBy(tickets[k], user) {
        assert after == before + {k};
        var entry := HeldEntryOf(dir, k, tickets[k]);
        InsertDescSorted(entry, list, ModifiedOf(tickets));
        InsertMembers(entry, list, ModifiedOf(tickets));
        list := InsertDesc(entry, list, ModifiedOf(tickets));
      } else {
        assert after == before;
      }
      remaining := remaining - {k};
    }
    assert tickets.Keys - remaining == tickets.Keys;
  }

  /** The elements after an insertion are the old ones and the new one. */
  lemma InsertMembers<T>(x: T, s: seq<T>, key: T -> int)
    ensures forall e :: e in InsertDesc(x, s, key) <==> e in s || e == x
  {
    var r := InsertDesc(x, s, key);
    forall e ensures e in r <==> e in s || e == x {
      assert e in r <==> e in multiset(r);
      assert e in s <==> e in multiset(s);
    }
  }
}
