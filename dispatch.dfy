/** Calling the next visitor to a service point: the operator's skills and
    the point's office select at most one waiting ticket, highest priority
    first and oldest first among equals, and that ticket becomes `Called`. */
module Dispatch {
  import opened Common
  import opened QueueData

  /** A ticket the operator may call: in the point's office, waiting, and
      for a service among the operator's skills. */
  predicate Eligible(t: Ticket, office: string, skills: seq<string>)
  {
    t.office == office && t.status == Waiting && t.service in skills
  }

  /** The queue order `priority desc, creation asc`: `a` comes strictly before `b`. */
  predicate Precedes(a: Ticket, b: Ticket)
  {
    a.priority > b.priority || (a.priority == b.priority && a.creation < b.creation)
  }

  /** `name` is a ticket the query may return first: eligible, and no
      eligible ticket comes strictly before it. (Tickets equal in both
      priority and creation are returned in an order the database chooses.) */
  predicate IsNextPick(tickets: map<string, Ticket>, office: string, skills: seq<string>, name: string)
  {
    name in tickets && Eligible(tickets[name], office, skills)
    && forall k :: k in tickets && Eligible(tickets[k], office, skills) ==> !Precedes(tickets[k], tickets[name])
  }

  /** The waiting-ticket query with `limit_page_length=1`. */
  method SelectNextTicket(tickets: map<string, Ticket>, office: string, skills: seq<string>)
    returns (pick: Option<string>)
    ensures pick.None? <==> forall k :: k in tickets ==> !Eligible(tickets[k], office, skills)
    ensures pick.Some? ==> IsNextPick(tickets, office, skills, pick.value)
  {
    pick := None;
    var remaining := tickets.Keys;
    while remaining != {}
      invariant remaining <= tickets.Keys
      invariant pick.Some? ==> pick.value in tickets && pick.value !in remaining
                               && Eligible(tickets[pick.value], office, skills)
      invariant forall k :: k in tickets && k !in remaining && Eligible(tickets[k], office, skills) ==>
                  pick.Some? && !Precedes(tickets[k], tickets[pick.value])
      decreases remaining
    {
      var k :| k in remaining;
      if Eligible(tickets[k], office, skills) && (pick.None? || Precedes(tickets[k], tickets[pick.value])) {
        pick := Some(k);
      }
      remaining := remaining - {k};
    }
  }

  /** The first active operator record of a user. */
  function ActiveOperator(operators: seq<OperatorRec>, user: string): (r: Option<OperatorRec>)
    ensures r.Some? ==> r.value in operators && r.value.user == user && r.value.isActive
    ensures r.None? <==> forall o :: o in operators ==> !(o.user == user && o.isActive)
  {
    if operators == [] then None
    else if operators[0].user == user && operators[0].isActive then Some(operators[0])
    else ActiveOperator(operators[1..], user)
  }

  datatype CallError = NotLoggedIn | NoActiveOperator | NoSkills | UnknownServicePoint | PointWithoutOffice

  /** What the call needs once every check has passed. */
  datatype CallContext = CallContext(office: string, skills: seq<string>, pointName: string)

  /** The checks of `call_next_visitor`, in their order. */
  function CallGate(dir: Directory, user: string, point: string): (r: Result<CallContext, CallError>)
    ensures r == Err(NotLoggedIn) <==> user == "Guest"
    ensures r == Err(NoActiveOperator) <==> user != "Guest" && ActiveOperator(dir.operators, user).None?
    ensures r == Err(NoSkills) <==>
              user != "Guest" && ActiveOperator(dir.operators, user).Some?
              && ActiveOperator(dir.operators, user).value.skills == []
    ensures r == Err(UnknownServicePoint) <==>
              user != "Guest" && ActiveOperator(dir.operators, user).Some?
              && ActiveOperator(dir.operators, user).value.skills != []
              && point !in dir.servicePoints
    ensures r == Err(PointWithoutOffice) <==>
              user != "Guest" && ActiveOperator(dir.operators, user).Some?
              && ActiveOperator(dir.operators, user).value.skills != []
              && point in dir.servicePoints && dir.servicePoints[point].office == ""
    ensures r.Ok? <==> user != "Guest" && ActiveOperator(dir.operators, user).Some?
                       && ActiveOperator(dir.operators, user).value.skills != []
                       && point in dir.servicePoints && dir.servicePoints[point].office != ""
    ensures r.Ok? ==> r.value.office == dir.servicePoints[point].office
                      && r.value.skills == ActiveOperator(dir.operators, user).value.skills
                      && r.value.pointName == dir.servicePoints[point].pointName
  {
    if user == "Guest" then Err(NotLoggedIn)
    else match ActiveOperator(dir.operators, user)
      case None => Err(NoActiveOperator)
      case Some(op) =>
        if op.skills == [] then Err(NoSkills)
        else if point !in dir.servicePoints then Err(UnknownServicePoint)
        else if dir.servicePoints[point].office == "" then Err(PointWithoutOffice)
        else Ok(CallContext(dir.servicePoints[point].office, op.skills, dir.servicePoints[point].pointName))
  }

  /** The ticket after the call: `Called` by this user at this point now. */
  function CalledBy(t: Ticket, user: string, point: string, now: int): (c: Ticket)
    ensures c.status == Called && c.callTime == Some(now) && c.operator == Some(user) && c.servicePoint == Some(point)
    ensures c.(status := t.status, callTime := t.callTime, operator := t.operator,
               servicePoint := t.servicePoint, modified := t.modified) == t
  {
    t.(status := Called, callTime := Some(now), operator := Some(user), servicePoint := Some(point), modified := now)
  }

  datatype CallOutcome =
    | Failed(error: CallError)
    | NothingWaiting
    | Summoned(name: string, ticket: Ticket, serviceName: Json, pointName: string)

  /** The service label the reply carries: the service's display name, a
      fixed text for a ticket without a service, null for an unknown id. */
  function ServiceLabel(dir: Directory, service: string): Json
  {
    if service == "" then JStr("unknown service")
    else if service in dir.services then JStr(dir.services[service].serviceName)
    else JNull
  }

  /** `call_next_visitor`. A failed check or an empty queue leaves every
      ticket as it was; otherwise exactly the selected ticket changes. */
  method CallNextVisitor(db: QueueDb, dir: Directory, user: string, point: string, now: int)
    returns (out: CallOutcome)
    modifies db`tickets
    ensures CallGate(dir, user, point).Err? <==> out.Failed?
    ensures out.Failed? ==> Err(out.error) == CallGate(dir, user, point)
    ensures !out.Summoned? ==> db.tickets == old(db.tickets)
    ensures out == NothingWaiting ==>
              var ctx := CallGate(dir, user, point).value;
              forall k :: k in old(db.tickets) ==> !Eligible(old(db.tickets)[k], ctx.office, ctx.skills)
    ensures out.Summoned? ==>
              CallGate(dir, user, point).Ok?
              && IsNextPick(old(db.tickets), CallGate(dir, user, point).value.office, CallGate(dir, user, point).value.skills, out.name)
              && out.ticket == CalledBy(old(db.tickets)[out.name], user, point, now)
              && db.tickets == old(db.tickets)[out.name := out.ticket]
              && out.pointName == CallGate(dir, user, point).value.pointName
              && out.serviceName == ServiceLabel(dir, out.ticket.service)
  {
    var gate := CallGate(dir, user, point);
    if gate.Err? {
      return Failed(gate.error);
    }
    var ctx := gate.value;
    var pick := SelectNextTicket(db.tickets, ctx.office, ctx.skills);
    if pick.None? {
      return NothingWaiting;
    }
    var name := pick.value;
    var t := CalledBy(db.tickets[name], user, point, now);
    db.tickets := db.tickets[name := t];
    return Summoned(name, t, ServiceLabel(dir, t.service), ctx.pointName);
  }

  // ---------------------------------------------------------------------
  // The queue after a call

  /** The names of the tickets an operator could call. */
  function EligibleNames(tickets: map<string, Ticket>, office: string, skills: seq<string>): (r: set<string>)
    ensures forall k :: k in r <==> k in tickets && Eligible(tickets[k], office, skills)
  {
    set k | k in tickets && Eligible(tickets[k], office, skills)
  }

  /** A call takes exactly the picked ticket out of every operator's queue
      and leaves every other ticket as it was. */
  lemma CallRemovesOnlyThePick(tickets: map<string, Ticket>, name: string, user: string, point: string, now: int,
                               office: string, skills: seq<string>)
    requires name in tickets
    ensures var after := tickets[name := CalledBy(tickets[name], user, point, now)];
            EligibleNames(after, office, skills) == EligibleNames(tickets, office, skills) - {name}
            && forall k :: k in tickets && k != name ==> after[k] == tickets[k]
  {
  }

  /** Two tickets the query may return first are tied on both priority and
      creation: the order leaves no other choice to the database. */
  lemma PicksAreTies(tickets: map<string, Ticket>, office: string, skills: seq<string>, a: string, b: string)
    requires IsNextPick(tickets, office, skills, a) && IsNextPick(tickets, office, skills, b)
    ensures tickets[a].priority == tickets[b].priority && tickets[a].creation == tickets[b].creation
  {
  }

  /** The reply dictionary: `ticket_info` sits at the top level, next to `status`. */
  function CallReply(out: CallOutcome): (reply: Json)
    ensures reply.JObject? && "status" in reply.fields
    ensures reply.fields["status"] == JStr("success") <==> out.Summoned?
    ensures reply.fields["status"] == JStr("info") <==> out == NothingWaiting
    ensures out.Summoned? ==> Field(Field(reply, "ticket_info"), "name") == JStr(out.name)
                              && Field(Field(reply, "ticket_info"), "status") == JStr(StatusName(out.ticket.status))
                              && Field(reply, "data") == JNull
  {
    match out
    case Failed(_) => JObject(map["status" := JStr("error"), "message" := JStr("could not call the next ticket")])
    case NothingWaiting => JObject(map["status" := JStr("info"), "message" := JStr("no tickets in the queue")])
    case Summoned(name, t, serviceName, pointName) =>
      JObject(map["status" := JStr("success"),
                  "message" := JStr("ticket " + t.ticketNumber + " called to " + pointName),
                  "ticket_info" := TicketInfoJson(name, t, serviceName, pointName)])
  }

  function OptStr(o: Option<string>): Json
  {
    if o.Some? then JStr(o.value) else JNull
  }

  function OptInt(o: Option<int>): Json
  {
    if o.Some? then JInt(o.value) else JNull
  }

  /** The `ticket_info` object of the call reply. */
  function TicketInfoJson(name: string, t: Ticket, serviceName: Json, pointName: string): (info: Json)
    ensures Field(info, "name") == JStr(name) && Field(info, "status") == JStr(StatusName(t.status))
  {
    JObject(map["name" := JStr(name), "ticket_number" := JStr(t.ticketNumber),
                "service" := JStr(t.service), "service_name" := serviceName,
                "service_point" := OptStr(t.servicePoint), "service_point_name" := JStr(pointName),
                "status" := JStr(StatusName(t.status)), "visitor_phone" := OptStr(t.visitorPhone),
                "call_time" := OptInt(t.callTime), "start_service_time" := OptInt(t.startServiceTime),
                "office" := JStr(t.office), "operator" := OptStr(t.operator)])
  }
}
