/** The operator dashboard in the browser: the short ticket number, the
    status badge, which controls are enabled, and how the dashboard's
    current ticket changes when a request returns or a realtime event
    arrives. */
module DashboardUi {
  import opened Common
  import opened QueueData
  import DisplayBoard
  import Dispatch
  import OperatorActions

  // ---------------------------------------------------------------------
  // Pure helpers

  /** `get_short_ticket_number`: "N/A" for an empty number, the text after
      the last `-` when there is a `-` and that text is not empty, the whole
      number otherwise. */
  function ShortTicketNumber(full: string): (r: string)
    ensures full == "" ==> r == "N/A"
    ensures full != "" ==> |r| <= |full| && r == full[|full| - |r|..]
    ensures full != "" && r != full ==> r != "" && '-' !in r && full[|full| - |r| - 1] == '-'
    ensures full != "" && '-' !in full ==> r == full
  {
    if full == "" then "N/A"
    else
      var i := LastIndexOf(full, '-');
      var short := full[i + 1..];
      if short != "" && i != -1 then short else full
  }

  /** The dashboard and the display board show the same short number for a
      number with a `-` that is not its last character, and for a number
      without any `-`. */
  lemma ShortNumbersAgree(full: string, name: string)
    requires full != ""
    requires '-' !in full || full[|full| - 1] != '-'
    ensures ShortTicketNumber(full) == DisplayBoard.ShortNumber(full, name)
  {
    if '-' in full {
      var i := LastIndexOf(full, '-');
      assert i + 1 < |full|;
    }
  }

  /** They differ for a number ending in `-`: the dashboard keeps the whole
      number and the board falls back to the ticket's name. */
  lemma ShortNumbersDifferOnTrailingDash(full: string, name: string)
    requires full != "" && full[|full| - 1] == '-'
    ensures ShortTicketNumber(full) == full
    ensures DisplayBoard.ShortNumber(full, name) == name
  {
    assert '-' in full;
    assert LastIndexOf(full, '-') == |full| - 1;
  }

  /** `get_status_badge`: the badge class of a status; anything that is not
      one of the seven statuses gets "secondary". */
  function StatusBadge(status: Json): (cls: string)
    ensures (forall s :: status != JStr(StatusName(s))) ==> cls == "secondary"
  {
    if status == JStr("Waiting") then "secondary"
    else if status == JStr("Called") then assert status == JStr(StatusName(Called)); "info"
    else if status == JStr("Serving") then assert status == JStr(StatusName(Serving)); "warning"
    else if status == JStr("Completed") then assert status == JStr(StatusName(Completed)); "success"
    else if status == JStr("NoShow") then assert status == JStr(StatusName(NoShow)); "danger"
    else if status == JStr("Cancelled") then assert status == JStr(StatusName(Cancelled)); "dark"
    else if status == JStr("Postponed") then assert status == JStr(StatusName(Postponed)); "light text-dark"
    else "secondary"
  }

  /** Every status but `Waiting` has a badge of its own; `Waiting` shares
      the default. */
  lemma BadgesTellStatusesApart(s1: TicketStatus, s2: TicketStatus)
    requires s1 != s2 && s1 != Waiting && s2 != Waiting
    ensures StatusBadge(JStr(StatusName(s1))) != StatusBadge(JStr(StatusName(s2)))
    ensures StatusBadge(JStr(StatusName(s1))) != "secondary"
  {
  }

  // ---------------------------------------------------------------------
  // Which controls are enabled

  datatype Controls = Controls(selectPoint: bool, callNext: bool, start: bool, finish: bool,
                               noShow: bool, hold: bool, transfer: bool)

  /** The enabled controls of `update_ui_state` for the current ticket and
      the selected service point. */
  function ControlsFor(current: Json, pointId: Json): (c: Controls)
    ensures c.selectPoint <==> !JsTruthy(current)
    ensures c.callNext ==> c.selectPoint
    ensures !(c.start && c.finish)
    ensures c.hold == c.finish && c.transfer == c.noShow
    ensures c.start || c.finish <==> c.noShow
    ensures c.selectPoint ==> !c.noShow
  {
    var has := JsTruthy(current);
    var status := Field(current, "status");
    Controls(!has,
             !has && JsTruthy(pointId),
             has && status == JStr("Called"),
             has && status == JStr("Serving"),
             has && (status == JStr("Called") || status == JStr("Serving")),
             has && status == JStr("Serving"),
             has && (status == JStr("Called") || status == JStr("Serving")))
  }

  /** For a ticket the dashboard holds, a control is enabled exactly when
      the server accepts its action in the ticket's status. */
  lemma ControlsFollowServer(current: Json, pointId: Json, s: TicketStatus)
    requires Field(current, "status") == JStr(StatusName(s))
    ensures var c := ControlsFor(current, pointId);
            c.start == OperatorActions.Allowed(OperatorActions.StartServing, s)
            && c.finish == OperatorActions.Allowed(OperatorActions.FinishService, s)
            && c.noShow == OperatorActions.Allowed(OperatorActions.MarkNoShow, s)
            && c.hold == OperatorActions.Allowed(OperatorActions.Hold, s)
            && !c.callNext && !c.selectPoint
  {
    assert current.JObject?;
  }

  /** The operator's status label: the ticket's status when it is being
      called or served, else a prompt to choose a point, else available. */
  function OperatorLabel(current: Json, pointId: Json): (text: string)
    ensures text == "Serving" <==> ControlsFor(current, pointId).finish
    ensures text == "Called" <==> ControlsFor(current, pointId).start
    ensures text == "Select Point" ==> !ControlsFor(current, pointId).callNext
    ensures text == "Available" ==> !ControlsFor(current, pointId).start && !ControlsFor(current, pointId).finish
  {
    var status := Field(current, "status");
    if status == JStr("Serving") then "Serving"
    else if status == JStr("Called") then "Called"
    else if !JsTruthy(pointId) then "Select Point"
    else "Available"
  }

  // ---------------------------------------------------------------------
  // Reading replies

  /** What `frappe.call` hands its callbacks: the endpoint's reply as
      `r.message`, or a failed request (the `.catch` path). */
  datatype Delivery = Delivered(message: Json) | RequestFailed

  /** `r.message && r.message.status === s`. */
  predicate HasStatus(d: Delivery, s: string)
  {
    d.Delivered? && Field(d.message, "status") == JStr(s)
  }

  /** Where the handlers look for the ticket: `r.message.data?.ticket_info`. */
  function TicketInfoAsWritten(message: Json): (info: Json)
    ensures Field(message, "data") == JNull ==> info == JNull
  {
    Field(Field(message, "data"), "ticket_info")
  }

  /** Where the endpoints put it: `r.message.ticket_info`. */
  function TicketInfo(message: Json): (info: Json)
    ensures message.JObject? && "ticket_info" in message.fields ==> info == message.fields["ticket_info"]
  {
    Field(message, "ticket_info")
  }

  /** The current ticket after call-next as written: the ticket on success,
      read from `data.ticket_info`; null otherwise. */
  function TicketAfterCallAsWritten(d: Delivery): (t: Json)
    ensures !HasStatus(d, "success") ==> t == JNull
  {
    if HasStatus(d, "success") then JsOr(TicketInfoAsWritten(d.message), JNull) else JNull
  }

  /** As intended: the ticket the endpoint returned. */
  function TicketAfterCall(d: Delivery): (t: Json)
    ensures !HasStatus(d, "success") ==> t == JNull
    ensures HasStatus(d, "success") && JsTruthy(TicketInfo(d.message)) ==> t == TicketInfo(d.message)
  {
    if HasStatus(d, "success") then JsOr(TicketInfo(d.message), JNull) else JNull
  }

  /** As written, a successful call leaves the dashboard without a ticket. */
  lemma CallNextLosesTicketAsWritten(out: Dispatch.CallOutcome)
    requires out.Summoned?
    ensures HasStatus(Delivered(Dispatch.CallReply(out)), "success")
    ensures TicketAfterCallAsWritten(Delivered(Dispatch.CallReply(out))) == JNull
  {
  }

  /** Corrected, the dashboard holds the ticket just called. */
  lemma CallNextKeepsTicket(out: Dispatch.CallOutcome)
    requires out.Summoned?
    ensures var t := TicketAfterCall(Delivered(Dispatch.CallReply(out)));
            Field(t, "name") == JStr(out.name) && Field(t, "status") == JStr(StatusName(out.ticket.status))
  {
    var reply := Dispatch.CallReply(out);
    assert JsTruthy(TicketInfo(reply));
  }

  /** The current ticket after recall as written. */
  function TicketAfterRecallAsWritten(current: Json, d: Delivery): (t: Json)
    ensures !HasStatus(d, "success") ==> t == current
  {
    if HasStatus(d, "success") then JsOr(TicketInfoAsWritten(d.message), JNull) else current
  }

  /** As intended: the recalled ticket becomes the current one. */
  function TicketAfterRecall(current: Json, d: Delivery): (t: Json)
    ensures !HasStatus(d, "success") ==> t == current
    ensures HasStatus(d, "success") && JsTruthy(TicketInfo(d.message)) ==> t == TicketInfo(d.message)
  {
    if HasStatus(d, "success") then JsOr(TicketInfo(d.message), JNull) else current
  }

  /** As written, a successful recall leaves the dashboard without a ticket. */
  lemma RecallLosesTicketAsWritten(dir: Directory, name: string, r: Result<Ticket, OperatorActions.ActionError>)
    requires r.Ok?
    ensures var d := Delivered(OperatorActions.ActionReply(OperatorActions.Recall, dir, name, r));
            HasStatus(d, "success") && TicketAfterRecallAsWritten(JNull, d) == JNull
  {
  }

  /** Corrected, the recalled ticket is the current one, `Called` again. */
  lemma RecallKeepsTicket(dir: Directory, tickets: map<string, Ticket>, name: string, user: string, now: int)
    requires OperatorActions.Transition(OperatorActions.Recall, tickets, name, user, now).Ok?
    ensures var r := OperatorActions.Transition(OperatorActions.Recall, tickets, name, user, now);
            var t := TicketAfterRecall(JNull, Delivered(OperatorActions.ActionReply(OperatorActions.Recall, dir, name, r)));
            Field(t, "name") == JStr(name) && Field(t, "status") == JStr("Called")
  {
    var r := OperatorActions.Transition(OperatorActions.Recall, tickets, name, user, now);
    var reply := OperatorActions.ActionReply(OperatorActions.Recall, dir, name, r);
    assert JsTruthy(TicketInfo(reply));
  }

  // ---------------------------------------------------------------------
  // Loading the dashboard

  /** `get_initial_data`'s reply: the operator, the active ticket and the
      points to choose from, all at the top level; without a logged-in user
      or an active operator record there is also an `error` text and no
      operator, ticket or points. */
  function InitialDataReply(error: Option<string>, operatorInfo: Json, current: Json, points: seq<Json>): (reply: Json)
    ensures reply.JObject? && "status" !in reply.fields && "data" !in reply.fields
    ensures error.None? ==> Field(reply, "current_ticket") == current && Field(reply, "available_service_points") == JList(points)
    ensures error.Some? ==> Field(reply, "error") == JStr(error.value) && Field(reply, "current_ticket") == JNull
  {
    if error.Some? then
      JObject(map["error" := JStr(error.value), "operator_info" := JNull, "current_ticket" := JNull,
                  "available_service_points" := JList([])])
    else
      JObject(map["operator_info" := operatorInfo, "current_ticket" := current, "available_service_points" := JList(points)])
  }

  /** What `load_initial_data` leaves behind: the current ticket, the selected
      point and the options of the point selector; or a failed load, which
      shows an error, disables every button and leaves the selector empty. */
  datatype Loaded = Loaded(current: Json, point: Json, points: seq<Json>) | LoadFailed

  /** The point selected on load: the current ticket's point, else the only
      point there is, else none. */
  function InitialPoint(current: Json, points: seq<Json>): (p: Json)
    ensures JsTruthy(current) && JsTruthy(Field(current, "service_point")) ==> p == Field(current, "service_point")
    ensures !(JsTruthy(current) && JsTruthy(Field(current, "service_point"))) && |points| != 1 ==> p == JNull
  {
    if JsTruthy(current) && JsTruthy(Field(current, "service_point")) then Field(current, "service_point")
    else if |points| == 1 then Field(points[0], "value")
    else JNull
  }

  /** The success branch, reading the ticket and the points from `data`. */
  function LoadedFrom(data: Json): (s: Loaded)
    ensures s.Loaded? && s.current == Field(data, "current_ticket")
    ensures Field(data, "available_service_points").JList? ==> s.points == Field(data, "available_service_points").items
  {
    var current := Field(data, "current_ticket");
    var listed := Field(data, "available_service_points");
    var points := if listed.JList? then listed.items else [];
    Loaded(current, InitialPoint(current, points), points)
  }

  /** `load_initial_data` as written: it succeeds only on a `status` of
      "success" and then reads `r.message.data`. */
  function LoadAsWritten(d: Delivery): (s: Loaded)
    ensures s.Loaded? <==> HasStatus(d, "success")
  {
    if HasStatus(d, "success") then LoadedFrom(Field(d.message, "data")) else LoadFailed
  }

  /** As intended: the reply is read where the endpoint puts it, and an
      `error` text fails the load. */
  function Load(d: Delivery): (s: Loaded)
    ensures s.Loaded? <==> d.Delivered? && !JsTruthy(Field(d.message, "error"))
  {
    if d.Delivered? && !JsTruthy(Field(d.message, "error")) then LoadedFrom(d.message) else LoadFailed
  }

  /** As written, every load fails, whatever the server answers. */
  lemma LoadFailsAsWritten(error: Option<string>, operatorInfo: Json, current: Json, points: seq<Json>)
    ensures LoadAsWritten(Delivered(InitialDataReply(error, operatorInfo, current, points))) == LoadFailed
  {
    var reply := InitialDataReply(error, operatorInfo, current, points);
    assert Field(reply, "status") == JNull;
  }

  /** Corrected, a reply without an error restores the operator's active
      ticket and its point, and offers the office's points. */
  lemma LoadRestoresTicket(operatorInfo: Json, current: Json, points: seq<Json>)
    ensures var s := Load(Delivered(InitialDataReply(None, operatorInfo, current, points)));
            s.Loaded? && s.current == current && s.points == points
            && (JsTruthy(current) && JsTruthy(Field(current, "service_point")) ==> s.point == Field(current, "service_point"))
            && (!JsTruthy(current) && |points| == 1 ==> s.point == Field(points[0], "value"))
  {
    var reply := InitialDataReply(None, operatorInfo, current, points);
    assert Field(reply, "error") == JNull;
  }

  /** Corrected, an error reply still fails the load. */
  lemma LoadReportsError(message: string, operatorInfo: Json, current: Json, points: seq<Json>)
    requires message != ""
    ensures Load(Delivered(InitialDataReply(Some(message), operatorInfo, current, points))) == LoadFailed
  {
  }

  /** `get_queue_stats`'s reply: "?" for both counts without an office, the
      counts when they can be read, "Err" for both when they cannot; the
      counts sit at the top level. */
  function QueueStatsReply(office: string, counts: Option<(nat, nat)>): (reply: Json)
    ensures reply.JObject? && "status" !in reply.fields && "data" !in reply.fields
    ensures office != "" && counts.Some? ==>
              Field(reply, "waiting") == JInt(counts.value.0) && Field(reply, "served_today") == JInt(counts.value.1)
  {
    if office == "" then JObject(map["waiting" := JStr("?"), "served_today" := JStr("?")])
    else if counts.Some? then JObject(map["waiting" := JInt(counts.value.0), "served_today" := JInt(counts.value.1)])
    else JObject(map["waiting" := JStr("Err"), "served_today" := JStr("Err")])
  }

  /** The two counters the dashboard shows. */
  datatype StatsView = StatsView(waiting: Json, served: Json)

  /** `refresh_queue_stats` as written: on a `status` of "success" it shows
      `r.message.data`, or "?" without it; otherwise "!" twice. */
  function StatsShownAsWritten(d: Delivery): (v: StatsView)
    ensures !HasStatus(d, "success") ==> v == StatsView(JStr("!"), JStr("!"))
  {
    if HasStatus(d, "success") then
      var stats := JsOr(Field(d.message, "data"), JObject(map["waiting" := JStr("?"), "served_today" := JStr("?")]));
      StatsView(Field(stats, "waiting"), Field(stats, "served_today"))
    else StatsView(JStr("!"), JStr("!"))
  }

  /** As intended: the counts are read where the endpoint puts them. */
  function StatsShown(d: Delivery): (v: StatsView)
    ensures d.RequestFailed? ==> v == StatsView(JStr("!"), JStr("!"))
    ensures d.Delivered? ==> v == StatsView(Field(d.message, "waiting"), Field(d.message, "served_today"))
  {
    if d.Delivered? then StatsView(Field(d.message, "waiting"), Field(d.message, "served_today"))
    else StatsView(JStr("!"), JStr("!"))
  }

  /** As written, the counters always show "!", whatever the server counted. */
  lemma StatsShowErrorAsWritten(office: string, counts: Option<(nat, nat)>)
    ensures StatsShownAsWritten(Delivered(QueueStatsReply(office, counts))) == StatsView(JStr("!"), JStr("!"))
  {
    var reply := QueueStatsReply(office, counts);
    assert Field(reply, "status") == JNull;
  }

  /** Corrected, the counters show the waiting and the served counts. */
  lemma StatsShowCounts(office: string, waiting: nat, served: nat)
    requires office != ""
    ensures StatsShown(Delivered(QueueStatsReply(office, Some((waiting, served))))) == StatsView(JInt(waiting), JInt(served))
  {
  }

  // ---------------------------------------------------------------------
  // Ticket actions from the dashboard

  /** The `action_type` of each dashboard button. */
  function ActionKey(a: OperatorActions.Action): string
  {
    match a
    case StartServing => "start_serving"
    case FinishService => "finish_service"
    case MarkNoShow => "mark_no_show"
    case Hold => "hold"
    case Recall => "recall"
  }

  /** The whitelisted action endpoints of the dashboard's server module. */
  const ServerEndpoints: set<string> :=
    {"start_serving_ticket", "finish_service_ticket", "mark_no_show", "hold_ticket", "recall_ticket"}

  /** The endpoint `handle_action` requests: the action type followed by `_ticket`. */
  function ActionEndpointAsWritten(a: OperatorActions.Action): (e: string)
    ensures |e| >= |"_ticket"| && e[|e| - |"_ticket"|..] == "_ticket"
  {
    ActionKey(a) + "_ticket"
  }

  /** The endpoint each action is served by. */
  function ActionEndpoint(a: OperatorActions.Action): (e: string)
    ensures e in ServerEndpoints
    ensures a != OperatorActions.MarkNoShow ==> e == ActionEndpointAsWritten(a)
  {
    match a
    case StartServing => assert ActionKey(a) + "_ticket" == "start_serving_ticket"; "start_serving_ticket"
    case FinishService => assert ActionKey(a) + "_ticket" == "finish_service_ticket"; "finish_service_ticket"
    case MarkNoShow => "mark_no_show"
    case Hold => assert ActionKey(a) + "_ticket" == "hold_ticket"; "hold_ticket"
    case Recall => assert ActionKey(a) + "_ticket" == "recall_ticket"; "recall_ticket"
  }

  /** Different actions reach different endpoints. */
  lemma EndpointsAreDistinct(a: OperatorActions.Action, b: OperatorActions.Action)
    requires a != b
    ensures ActionEndpoint(a) != ActionEndpoint(b)
  {
  }

  /** As written, the no-show button names an endpoint the server does not
      have; every other button names its own. */
  lemma NoShowEndpointMissingAsWritten(a: OperatorActions.Action)
    ensures ActionEndpointAsWritten(a) in ServerEndpoints <==> a != OperatorActions.MarkNoShow
  {
    var e := ActionEndpointAsWritten(a);
    if a == OperatorActions.MarkNoShow {
      assert e == "mark_no_show_ticket";
      assert e[0] == 'm' && |e| != |"mark_no_show"|;
      assert e != "start_serving_ticket" && e != "finish_service_ticket" && e != "hold_ticket" && e != "recall_ticket";
    } else {
      assert e == ActionEndpoint(a);
    }
  }

  /** What the request for `endpoint` delivers, given the reply the server
      would send (`None` when the network fails): a request to a method the
      server does not have fails like a network error. */
  function Deliver(endpoint: string, serverReply: Option<Json>): (d: Delivery)
    ensures endpoint !in ServerEndpoints ==> d == RequestFailed
    ensures endpoint in ServerEndpoints && serverReply.Some? ==> d == Delivered(serverReply.value)
  {
    if endpoint in ServerEndpoints && serverReply.Some? then Delivered(serverReply.value) else RequestFailed
  }

  /** `obj.status = 'Serving'` on the current ticket (ignored on a value that is not an object). */
  function WithStatusServing(t: Json): (u: Json)
    ensures t.JObject? ==> u.JObject? && u.fields == t.fields["status" := JStr("Serving")]
    ensures !t.JObject? ==> u == t
  {
    if t.JObject? then JObject(t.fields["status" := JStr("Serving")]) else t
  }

  /** The current ticket after a `handle_action` reply, reading the
      ticket from `read` (the handler as written passes `TicketInfoAsWritten`). */
  function TicketAfterActionWith(a: OperatorActions.Action, current: Json, d: Delivery, asWritten: bool): (t: Json)
    requires a != OperatorActions.Recall
    ensures !HasStatus(d, "success") ==> t == current
    ensures HasStatus(d, "success") && a != OperatorActions.StartServing ==> t == JNull
  {
    if !HasStatus(d, "success") then current
    else if a != OperatorActions.StartServing then JNull
    else
      var info := if asWritten then TicketInfoAsWritten(d.message) else TicketInfo(d.message);
      var kept := JsOr(info, current);
      if JsTruthy(kept) then WithStatusServing(kept) else kept
  }

  /** As written: the start reply's ticket is never read, so the dashboard
      keeps its old copy with only the status changed, and the start time
      the server recorded is missing from it. */
  lemma StartKeepsStaleTicketAsWritten(dir: Directory, tickets: map<string, Ticket>, name: string, user: string, now: int)
    requires OperatorActions.Transition(OperatorActions.StartServing, tickets, name, user, now).Ok?
    requires tickets[name].startServiceTime.None?
    ensures var r := OperatorActions.Transition(OperatorActions.StartServing, tickets, name, user, now);
            var current := JObject(OperatorActions.TicketDict(name, tickets[name]));
            var d := Deliver(ActionEndpointAsWritten(OperatorActions.StartServing),
                             Some(OperatorActions.ActionReply(OperatorActions.StartServing, dir, name, r)));
            var t := TicketAfterActionWith(OperatorActions.StartServing, current, d, true);
            Field(t, "status") == JStr("Serving") && Field(t, "start_service_time") == JNull
            && r.value.startServiceTime == Some(now)
  {
    var r := OperatorActions.Transition(OperatorActions.StartServing, tickets, name, user, now);
    var reply := OperatorActions.ActionReply(OperatorActions.StartServing, dir, name, r);
    var current := JObject(OperatorActions.TicketDict(name, tickets[name]));
    assert ActionEndpointAsWritten(OperatorActions.StartServing) == ActionEndpoint(OperatorActions.StartServing);
    var d := Deliver(ActionEndpointAsWritten(OperatorActions.StartServing), Some(reply));
    assert d == Delivered(reply) && HasStatus(d, "success");
    assert TicketInfoAsWritten(reply) == JNull;
    assert JsOr(TicketInfoAsWritten(reply), current) == current;
    assert current.fields["start_service_time"] == JNull;
  }

  /** Corrected: the dashboard holds the server's copy, with its start time. */
  lemma StartReadsServerTicket(dir: Directory, tickets: map<string, Ticket>, name: string, user: string, now: int)
    requires OperatorActions.Transition(OperatorActions.StartServing, tickets, name, user, now).Ok?
    ensures var r := OperatorActions.Transition(OperatorActions.StartServing, tickets, name, user, now);
            var current := JObject(OperatorActions.TicketDict(name, tickets[name]));
            var d := Deliver(ActionEndpoint(OperatorActions.StartServing),
                             Some(OperatorActions.ActionReply(OperatorActions.StartServing, dir, name, r)));
            var t := TicketAfterActionWith(OperatorActions.StartServing, current, d, false);
            Field(t, "name") == JStr(name) && Field(t, "status") == JStr("Serving")
            && Field(t, "start_service_time") == JInt(now)
  {
    var r := OperatorActions.Transition(OperatorActions.StartServing, tickets, name, user, now);
    var reply := OperatorActions.ActionReply(OperatorActions.StartServing, dir, name, r);
    assert JsTruthy(TicketInfo(reply));
  }

  /** As written, marking a no-show never clears the dashboard's ticket, even
      when the server would accept it. */
  lemma NoShowKeepsTicketAsWritten(current: Json, serverReply: Option<Json>)
    ensures var d := Deliver(ActionEndpointAsWritten(OperatorActions.MarkNoShow), serverReply);
            d == RequestFailed && TicketAfterActionWith(OperatorActions.MarkNoShow, current, d, true) == current
  {
    NoShowEndpointMissingAsWritten(OperatorActions.MarkNoShow);
  }

  /** Corrected, a no-show the server accepts clears it. */
  lemma NoShowClearsTicket(current: Json, dir: Directory, tickets: map<string, Ticket>, name: string, user: string, now: int)
    requires OperatorActions.Transition(OperatorActions.MarkNoShow, tickets, name, user, now).Ok?
    ensures var r := OperatorActions.Transition(OperatorActions.MarkNoShow, tickets, name, user, now);
            var d := Deliver(ActionEndpoint(OperatorActions.MarkNoShow),
                             Some(OperatorActions.ActionReply(OperatorActions.MarkNoShow, dir, name, r)));
            TicketAfterActionWith(OperatorActions.MarkNoShow, current, d, false) == JNull
  {
  }

  // ---------------------------------------------------------------------
  // Realtime events

  /** The event concerns the dashboard's current ticket. */
  predicate SameTicket(current: Json, data: Json)
  {
    JsTruthy(current) && JsTruthy(Field(data, "name")) && Field(current, "name") == Field(data, "name")
  }

  /** The guard of the third branch of `handle_realtime_update`. */
  predicate FinalizedElsewhere(current: Json, data: Json)
  {
    SameTicket(current, data)
    && Field(data, "status") in {JStr("Completed"), JStr("Cancelled"), JStr("NoShow"), JStr("Postponed")}
  }

  /** The third branch can never run: its guard implies the first's, so a
      ticket finished elsewhere is merged rather than cleared. It stays
      current with the event's status, and call-next and the point selector
      stay disabled. */
  lemma FinalizedTicketStaysCurrent(current: Json, data: Json, point: Json)
    requires FinalizedElsewhere(current, data) && current.JObject? && data.JObject?
    requires !JsTruthy(Field(data, "updated_ticket_info"))
    ensures SameTicket(current, data)
    ensures var t := Merge(current, data);
            JsTruthy(t) && Field(t, "name") == Field(current, "name") && Field(t, "status") == Field(data, "status")
            && !ControlsFor(t, point).callNext && !ControlsFor(t, point).selectPoint
  {
  }

  /** `Object.assign(current, data)`: the event's fields override the ticket's. */
  function Merge(current: Json, data: Json): (m: Json)
    ensures current.JObject? && data.JObject? ==>
              m.JObject? && m.fields.Keys == current.fields.Keys + data.fields.Keys
              && (forall k :: k in data.fields ==> m.fields[k] == data.fields[k])
              && (forall k :: k in current.fields && k !in data.fields ==> m.fields[k] == current.fields[k])
  {
    if current.JObject? && data.JObject? then JObject(current.fields + data.fields) else current
  }

  datatype RealtimeBranch = MergedCurrent | CalledByMe | ClearedCurrent | Ignored

  // ---------------------------------------------------------------------
  // The dashboard object

  class OperatorDashboard {
    /** The logged-in user (`frappe.session.user`). */
    const user: string
    /** `current_ticket`: null, or the ticket object being handled. */
    var currentTicket: Json
    /** `service_point_id`: the selected point, null until one is chosen. */
    var servicePointId: Json

    constructor(user: string)
      ensures this.user == user && currentTicket == JNull && servicePointId == JNull
    {
      this.user := user;
      currentTicket := JNull;
      servicePointId := JNull;
    }

    /** `load_initial_data`, corrected: a good reply restores the operator's
        active ticket and selects its point, or the only point there is; a
        failed load changes neither. */
    method LoadInitialData(reply: Delivery) returns (s: Loaded)
      modifies this`currentTicket, this`servicePointId
      ensures s == Load(reply)
      ensures s.Loaded? ==> currentTicket == s.current && servicePointId == s.point
      ensures s.LoadFailed? ==> currentTicket == old(currentTicket) && servicePointId == old(servicePointId)
    {
      s := Load(reply);
      if s.Loaded? {
        currentTicket := s.current;
        servicePointId := s.point;
      }
    }

    /** The point selector's change handler. */
    method ChoosePoint(point: Json)
      modifies this`servicePointId
      ensures servicePointId == point
      ensures !JsTruthy(currentTicket) && JsTruthy(point) ==> ControlsFor(currentTicket, servicePointId).callNext
    {
      servicePointId := point;
    }

    /** `handle_call_next`: without a selected point only an alert is shown
        and nothing is requested; otherwise the reply decides the ticket. */
    method HandleCallNext(reply: Delivery) returns (requested: bool)
      modifies this`currentTicket
      ensures requested <==> JsTruthy(servicePointId)
      ensures !requested ==> currentTicket == old(currentTicket)
      ensures requested ==> currentTicket == TicketAfterCall(reply)
    {
      if !JsTruthy(servicePointId) {
        return false;
      }
      if HasStatus(reply, "success") {
        currentTicket := JsOr(TicketInfo(reply.message), JNull);
      } else if HasStatus(reply, "info") {
        currentTicket := JNull;
      } else {
        // an error reply or a failed request
        currentTicket := JNull;
      }
      return true;
    }

    /** `handle_action` for the four buttons: nothing is requested without a
        current ticket or its name; otherwise the action's endpoint is
        requested and a successful finish, no-show or hold clears the
        ticket, while a successful start keeps it with status `Serving`. */
    method HandleAction(a: OperatorActions.Action, serverReply: Option<Json>) returns (endpoint: Option<string>)
      requires a != OperatorActions.Recall
      modifies this`currentTicket
      ensures endpoint.None? <==> !JsTruthy(old(currentTicket)) || !JsTruthy(Field(old(currentTicket), "name"))
      ensures endpoint.None? ==> currentTicket == old(currentTicket)
      ensures endpoint.Some? ==>
                endpoint.value == ActionEndpoint(a) && endpoint.value in ServerEndpoints
                && currentTicket == TicketAfterActionWith(a, old(currentTicket), Deliver(endpoint.value, serverReply), false)
    {
      if !JsTruthy(currentTicket) {
        return None;
      }
      var ticketName := Field(currentTicket, "name");
      if !JsTruthy(ticketName) {
        return None;
      }
      var e := ActionEndpoint(a);
      var d := Deliver(e, serverReply);
      if HasStatus(d, "success") {
        if a == OperatorActions.FinishService || a == OperatorActions.MarkNoShow || a == OperatorActions.Hold {
          currentTicket := JNull;
        } else {
          currentTicket := JsOr(TicketInfo(d.message), currentTicket);
          if JsTruthy(currentTicket) {
            currentTicket := WithStatusServing(currentTicket);
          }
        }
      }
      return Some(e);
    }

    /** `handle_recall_ticket`: nothing happens without a ticket name or
        while a ticket is current; otherwise a successful recall makes the
        returned ticket current. */
    method HandleRecallTicket(ticketName: string, reply: Delivery) returns (requested: bool)
      modifies this`currentTicket
      ensures requested <==> ticketName != "" && !JsTruthy(old(currentTicket))
      ensures !requested ==> currentTicket == old(currentTicket)
      ensures requested ==> currentTicket == TicketAfterRecall(old(currentTicket), reply)
    {
      if ticketName == "" {
        return false;
      }
      if JsTruthy(currentTicket) {
        return false;
      }
      if HasStatus(reply, "success") {
        currentTicket := JsOr(TicketInfo(reply.message), JNull);
      }
      return true;
    }

    /** `handle_realtime_update`, as far as the current ticket goes: an event
        about the current ticket replaces it or merges into it; an event
        saying this user called a ticket makes that ticket current; the
        branch meant to clear a ticket finished elsewhere is never taken. */
    method HandleRealtimeUpdate(data: Json) returns (branch: RealtimeBranch)
      modifies this`currentTicket
      ensures branch != ClearedCurrent
      ensures branch == MergedCurrent <==> SameTicket(old(currentTicket), data)
      ensures branch == MergedCurrent ==>
                currentTicket == if JsTruthy(Field(data, "updated_ticket_info")) then Field(data, "updated_ticket_info")
                                 else Merge(old(currentTicket), data)
      ensures branch == CalledByMe <==>
                !SameTicket(old(currentTicket), data)
                && Field(data, "event") == JStr("qms_ticket_called") && Field(data, "operator") == JStr(user)
      ensures branch == CalledByMe ==> currentTicket == JsOr(Field(data, "ticket_info"), data)
      ensures branch == Ignored ==> currentTicket == old(currentTicket)
    {
      if SameTicket(currentTicket, data) {
        var full := Field(data, "updated_ticket_info");
        if JsTruthy(full) {
          currentTicket := full;
        } else {
          currentTicket := Merge(currentTicket, data);
        }
        return MergedCurrent;
      } else if Field(data, "event") == JStr("qms_ticket_called") && Field(data, "operator") == JStr(user) {
        currentTicket := JsOr(Field(data, "ticket_info"), data);
        return CalledByMe;
      } else if FinalizedElsewhere(currentTicket, data) {
        // its guard repeats the first branch's, which was false
        assert false;
      }
      return Ignored;
    }
  }
}
