/** The records the queue core reads and writes: tickets, the per-office
    daily counters, and the configuration documents (services, offices,
    organizations, service points, operators, categories, schedules). */
module QueueData {
  import opened Common
  import opened OfficeHours

  /** The seven ticket statuses of the lifecycle. */
  datatype TicketStatus = Waiting | Called | Serving | Completed | NoShow | Cancelled | Postponed

  /** The status as the database and the browser spell it. */
  function StatusName(s: TicketStatus): string
  {
    match s
    case Waiting => "Waiting"
    case Called => "Called"
    case Serving => "Serving"
    case Completed => "Completed"
    case NoShow => "NoShow"
    case Cancelled => "Cancelled"
    case Postponed => "Postponed"
  }

  /** One QMS Ticket row. Link fields that the walk-in path always fills
      (office, service) are strings with "" for unset; nullable links and
      times are options. Times are seconds on one clock; the service
      duration is kept in hundredths of a minute. `creation` and
      `modified` are the timestamps the framework maintains. */
  datatype Ticket = Ticket(
    ticketNumber: string,
    office: string,
    service: string,
    status: TicketStatus,
    priority: int,
    creation: int,
    modified: int,
    operator: Option<string>,
    servicePoint: Option<string>,
    issueTime: Option<int>,
    callTime: Option<int>,
    startServiceTime: Option<int>,
    completionTime: Option<int>,
    actualServiceTimeHundredths: Option<int>,
    visitorPhone: Option<string>)

  datatype ServiceRec = ServiceRec(
    serviceName: string, enabled: bool, liveQueueEnabled: bool, category: string, icon: string)

  /** A QMS Office: its schedule link may be empty, its time zone may be empty or invalid. */
  datatype OfficeRec = OfficeRec(officeName: string, schedule: string, organization: string, timezone: string)

  datatype OrganizationRec = OrganizationRec(defaultSchedule: string)

  /** A row of an office's available-services table; the sequence order is the `idx` order. */
  datatype Assignment = Assignment(office: string, service: string, activeInOffice: bool)

  datatype ServicePointRec = ServicePointRec(office: string, pointName: string)

  datatype OperatorRec = OperatorRec(name: string, user: string, isActive: bool, skills: seq<string>)

  /** A QMS Service Category; the table is kept in `display_order, category_name` order. */
  datatype CategoryRec = CategoryRec(name: string, title: string)

  /** The configuration documents, read-only during every operation of the core. */
  datatype Directory = Directory(
    services: map<string, ServiceRec>,
    offices: map<string, OfficeRec>,
    organizations: map<string, OrganizationRec>,
    assignments: seq<Assignment>,
    servicePoints: map<string, ServicePointRec>,
    operators: seq<OperatorRec>,
    categories: seq<CategoryRec>,
    schedules: map<string, Schedule>)

  /** What the server reads from its clock: the current instant converted
      to every known time zone, the name of the system zone, the instant in
      seconds, and the server's date as `YYYY-MM-DD`. */
  datatype Environment = Environment(clock: map<string, LocalTime>, systemZone: string, now: int, today: string)

  /** The schedule that governs an office: its own, else its organization's default. */
  function ScheduleOf(dir: Directory, o: OfficeRec): string
  {
    if o.schedule != "" then o.schedule
    else if o.organization in dir.organizations then dir.organizations[o.organization].defaultSchedule
    else ""
  }

  /** The tables the core writes: tickets by name, and the daily counters
      by `"{office}-{date}"`. */
  class QueueDb {
    var tickets: map<string, Ticket>
    var counters: map<string, nat>

    constructor (tickets: map<string, Ticket>, counters: map<string, nat>)
      ensures this.tickets == tickets && this.counters == counters
    {
      this.tickets := tickets;
      this.counters := counters;
    }
  }
}
