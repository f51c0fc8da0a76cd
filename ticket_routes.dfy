/** The ticket handlers of backend/routes/ticketRoutes.js: creation with
    deadlines from the SLA policy table, the list filter, the "SLA expired"
    and dashboard counts, and the update state machine behind `PUT /:id`. */
module TicketRoutes {
  import opened JsValues
  import opened Models
  import opened Seqs
  import opened SlaConfigRoutes

  const MinuteMs: int := 60 * 1000
  const HourMs: int := 60 * 60 * 1000

  /** `new Date(now.getTime() + hours * 60 * 60 * 1000)` */
  function Deadline(now: int, hours: int): (r: int)
    ensures r - now == hours * HourMs
  {
    now + hours * 60 * 60 * 1000
  }

  // ---------------------------------------------------------------------------
  // POST /

  /** The fields the create handler reads from the body. */
  datatype CreateBody = CreateBody(
    title: JsValue, description: JsValue, priority: JsValue, category: JsValue,
    assignedTo: JsValue, clientId: JsValue, slaStart: JsValue, slaSolve: JsValue)

  /** Why a create fails: three answers 400, everything thrown answers 500. */
  datatype CreateError =
    | MissingFields
    | ClientNotFound(clientId: JsValue)
    | PolicyNotFound(plan: string, priority: string, available: set<PolicyKey>)
    | ServerError

  predicate HasRequiredFields(b: CreateBody)
  {
    Truthy(b.title) && Truthy(b.description) && Truthy(b.priority) && Truthy(b.category) && Truthy(b.clientId)
  }

  /** The primary key `Client.findByPk(v)` looks for, if any. */
  function ClientKey(v: JsValue): (r: Option<int>)
    ensures v.Num? ==> r == Some(v.n)
    ensures r.Some? ==> v.Num? || (v.Str? && IsDecimal(v.s))
  {
    match IntCell(v)
    case Accepted(Some(n)) => Some(n)
    case _ => None
  }

  /** The attributes the handler hands to `Ticket.create` once the policy
      `hours` is known: the deadlines come from the policy, never the body. */
  function CreatedData(body: CreateBody, actor: Actor, prio: string, hours: Hours, now: int): TicketData
  {
    TicketData(body.title, body.description, Str(prio), body.category,
               Num(Deadline(now, hours.startHours)), Num(Deadline(now, hours.solveHours)),
               OrNull(body.assignedTo), body.clientId, Num(actor.id), Str("open"))
  }

  /** POST / with the client rows, the policy table, the clock and the id the
      insert would receive. */
  function CreateTicket(body: CreateBody, actor: Actor, clients: map<int, Client>, table: PolicyTable,
                        now: int, newId: int): (r: Result<Ticket, CreateError>)
    ensures r.Ok? ==> r.value.id == newId && r.value.createdAt == now
  {
    if !HasRequiredFields(body) then Err(MissingFields)
    else
      var key := ClientKey(body.clientId);
      if key.None? || key.value !in clients then Err(ClientNotFound(body.clientId))
      else if !body.priority.Str? then Err(ServerError) // `priority.trim` is not a function
      else
        var plan := Normalize(PlanName(clients[key.value].plan));
        var prio := Normalize(body.priority.s);
        match Lookup(table, PlanName(clients[key.value].plan), body.priority.s)
        case None => Err(PolicyNotFound(plan, prio, table.Keys))
        case Some(hours) =>
          match InsertTicket(newId, now, CreatedData(body, actor, prio, hours, now))
          case Inserted(t) => Ok(t)
          case _ => Err(ServerError)
  }

  /** The body values the store accepts for the columns the handler copies. */
  predicate StorableBody(b: CreateBody)
  {
    && (b.category.Str? && ParseCategory(b.category.s).Some?)
    && IntCell(OrNull(b.assignedTo)).Accepted?
  }

  /** The row the insert of a created ticket produces. */
  lemma InsertCreated(body: CreateBody, actor: Actor, prio: string, hours: Hours, now: int, newId: int, clientId: int)
    requires HasRequiredFields(body) && ClientKey(body.clientId) == Some(clientId)
    ensures InsertTicket(newId, now, CreatedData(body, actor, prio, hours, now)).Inserted? <==>
              StorableBody(body) && ParsePriority(prio).Some?
    ensures InsertTicket(newId, now, CreatedData(body, actor, prio, hours, now)).Inserted? ==>
              InsertTicket(newId, now, CreatedData(body, actor, prio, hours, now)).row ==
                Ticket(newId, StringCell(body.title).value, StringCell(body.description).value, Some(Open),
                       ParsePriority(prio), None, None, ParseCategory(body.category.s),
                       Deadline(now, hours.startHours), Deadline(now, hours.solveHours),
                       Some(actor.id), IntCell(OrNull(body.assignedTo)).value, clientId, now)
  {
    EnumRoundTrips(Open, Low, Suporte, Basic, Admin);
  }

  /** A create succeeds exactly when the required fields are present, the
      client exists, a policy row matches the normalised plan and priority,
      and the store accepts the values. The ticket is then open, created by
      the actor, with the normalised priority and deadlines `now` plus the
      policy's hours. */
  lemma CreateSucceedsIff(body: CreateBody, actor: Actor, clients: map<int, Client>, table: PolicyTable,
                          now: int, newId: int)
    ensures CreateTicket(body, actor, clients, table, now, newId).Ok? <==>
      && HasRequiredFields(body) && body.priority.Str?
      && ClientKey(body.clientId).Some? && ClientKey(body.clientId).value in clients
      && Lookup(table, PlanName(clients[ClientKey(body.clientId).value].plan), body.priority.s).Some?
      && StorableBody(body)
    ensures CreateTicket(body, actor, clients, table, now, newId).Ok? ==>
      var clientId := ClientKey(body.clientId).value;
      var hours := Lookup(table, PlanName(clients[clientId].plan), body.priority.s).value;
      && ParsePriority(Normalize(body.priority.s)).Some?
      && CreateTicket(body, actor, clients, table, now, newId).value ==
           Ticket(newId, StringCell(body.title).value, StringCell(body.description).value, Some(Open),
                  ParsePriority(Normalize(body.priority.s)), None, None, ParseCategory(body.category.s),
                  Deadline(now, hours.startHours), Deadline(now, hours.solveHours),
                  Some(actor.id), IntCell(OrNull(body.assignedTo)).value, clientId, now)
  {
    if HasRequiredFields(body) && body.priority.Str? {
      var key := ClientKey(body.clientId);
      if key.Some? && key.value in clients {
        var prio := Normalize(body.priority.s);
        match Lookup(table, PlanName(clients[key.value].plan), body.priority.s)
        case None =>
        case Some(hours) =>
          assert ParsePriority(prio).Some?;
          InsertCreated(body, actor, prio, hours, now, newId, key.value);
      }
    }
  }

  /** A created ticket is the row the insert of the handler's attributes
      produced, with the hours of the policy row of its client's plan. */
  lemma CreateInserts(body: CreateBody, actor: Actor, clients: map<int, Client>, table: PolicyTable,
                      now: int, newId: int, t: Ticket) returns (hours: Hours)
    requires CreateTicket(body, actor, clients, table, now, newId) == Ok(t)
    ensures HasRequiredFields(body) && body.priority.Str?
    ensures ClientKey(body.clientId).Some? && ClientKey(body.clientId).value in clients
    ensures Lookup(table, PlanName(clients[ClientKey(body.clientId).value].plan), body.priority.s) == Some(hours)
    ensures InsertTicket(newId, now, CreatedData(body, actor, Normalize(body.priority.s), hours, now)) == Inserted(t)
  {
    var key := ClientKey(body.clientId).value;
    var k := NormalizedKey(PlanName(clients[key].plan), body.priority.s).value;
    hours := table[k];
  }

  /** A created ticket's solve deadline is no earlier than its start
      deadline exactly when its policy allows at least as long to solve as
      to start. */
  lemma CreatedDeadlinesOrdered(body: CreateBody, actor: Actor, clients: map<int, Client>, table: PolicyTable,
                                now: int, newId: int)
    requires CreateTicket(body, actor, clients, table, now, newId).Ok?
    ensures var t := CreateTicket(body, actor, clients, table, now, newId).value;
            var hours := Lookup(table, PlanName(clients[ClientKey(body.clientId).value].plan), body.priority.s).value;
            t.slaStart <= t.slaSolve <==> hours.startHours <= hours.solveHours
  {
    CreateSucceedsIff(body, actor, clients, table, now, newId);
  }

  /** The three 400 answers, each with nothing stored. */
  lemma CreateRejections(body: CreateBody, actor: Actor, clients: map<int, Client>, table: PolicyTable,
                         now: int, newId: int)
    ensures !HasRequiredFields(body) ==> CreateTicket(body, actor, clients, table, now, newId) == Err(MissingFields)
    ensures HasRequiredFields(body) && (ClientKey(body.clientId).None? || ClientKey(body.clientId).value !in clients) ==>
              CreateTicket(body, actor, clients, table, now, newId) == Err(ClientNotFound(body.clientId))
    ensures HasRequiredFields(body) && body.priority.Str? &&
            ClientKey(body.clientId).Some? && ClientKey(body.clientId).value in clients &&
            Lookup(table, PlanName(clients[ClientKey(body.clientId).value].plan), body.priority.s).None? ==>
              CreateTicket(body, actor, clients, table, now, newId) ==
                Err(PolicyNotFound(Normalize(PlanName(clients[ClientKey(body.clientId).value].plan)),
                                   Normalize(body.priority.s), table.Keys))
  {
  }

  /** Deadlines sent in the body make no difference to the ticket created. */
  lemma CreateIgnoresSentDeadlines(body: CreateBody, start: JsValue, solve: JsValue, actor: Actor,
                                   clients: map<int, Client>, table: PolicyTable, now: int, newId: int)
    ensures CreateTicket(body.(slaStart := start, slaSolve := solve), actor, clients, table, now, newId) ==
            CreateTicket(body, actor, clients, table, now, newId)
  {
  }

  /** The seeded row for premium/high, looked up by its names. */
  lemma PremiumHighPolicy(plan: string, priority: string)
    requires plan == PlanName(Premium) && priority == PriorityName(High)
    ensures Lookup(DefaultPolicies, plan, priority) == Some(Hours(1, 4))
    ensures ParsePriority(Normalize(priority)) == Some(High)
  {
    NamesAreNormal(Premium, High);
    EnumRoundTrips(Open, High, Suporte, Premium, Admin);
    assert NormalizedKey(plan, priority) == Some((Premium, High));
  }

  /** With the seeded policies a premium client's high-priority ticket must
      be started within one hour and solved within four. */
  lemma CreatePremiumHigh(body: CreateBody, actor: Actor, clients: map<int, Client>, now: int, newId: int)
    requires HasRequiredFields(body) && body.priority == Str("high")
    requires ClientKey(body.clientId).Some? && ClientKey(body.clientId).value in clients
    requires clients[ClientKey(body.clientId).value].plan == Premium
    requires StorableBody(body)
    ensures CreateTicket(body, actor, clients, DefaultPolicies, now, newId).Ok?
    ensures CreateTicket(body, actor, clients, DefaultPolicies, now, newId).value.slaStart == now + 3600000
    ensures CreateTicket(body, actor, clients, DefaultPolicies, now, newId).value.slaSolve == now + 14400000
    ensures CreateTicket(body, actor, clients, DefaultPolicies, now, newId).value.priority == Some(High)
  {
    var k := ClientKey(body.clientId).value;
    PremiumHighPolicy(PlanName(clients[k].plan), body.priority.s);
    CreateSucceedsIff(body, actor, clients, DefaultPolicies, now, newId);
    assert Deadline(now, 1) == now + 3600000 && Deadline(now, 4) == now + 14400000;
  }

  // ---------------------------------------------------------------------------
  // GET /, GET /reports/sla-expired, GET /metrics/dashboard

  /** The list filters from the query string. */
  datatype ListQuery = ListQuery(status: Option<string>, priority: Option<string>,
                                 category: Option<string>, assignedTo: Option<string>)

  /** `where.column = q`; the integer column compares with the number the
      text spells. */
  predicate ListMatches(t: Ticket, q: ListQuery)
  {
    && (Given(q.status) ==> t.status.Some? && StatusName(t.status.value) == q.status.value)
    && (Given(q.priority) ==> t.priority.Some? && PriorityName(t.priority.value) == q.priority.value)
    && (Given(q.category) ==> t.category.Some? && CategoryName(t.category.value) == q.category.value)
    && (Given(q.assignedTo) ==>
          t.assignedTo.Some? && IsDecimal(q.assignedTo.value) && DigitsValue(q.assignedTo.value) == t.assignedTo.value)
  }

  /** GET /: the tickets matching every non-empty filter, in store order. */
  function ListTickets(tickets: seq<Ticket>, q: ListQuery): (r: seq<Ticket>)
    ensures forall t :: t in r <==> t in tickets && ListMatches(t, q)
  {
    Filter(tickets, t => ListMatches(t, q))
  }

  /** Without filters every ticket is listed; an `assignedTo` filter keeps
      only tickets of that technician. */
  lemma ListFilters(tickets: seq<Ticket>, q: ListQuery)
    ensures !Given(q.status) && !Given(q.priority) && !Given(q.category) && !Given(q.assignedTo) ==>
              ListTickets(tickets, q) == tickets
    ensures forall n: nat :: q.assignedTo == Some(NatToString(n)) ==>
              forall t :: t in ListTickets(tickets, q) ==> t.assignedTo == Some(n)
  {
    if !Given(q.status) && !Given(q.priority) && !Given(q.category) && !Given(q.assignedTo) {
      FilterAll(tickets, t => ListMatches(t, q));
    }
    forall n: nat | q.assignedTo == Some(NatToString(n)) ensures forall t :: t in ListTickets(tickets, q) ==> t.assignedTo == Some(n) {
      DecimalRoundTrip(n);
    }
  }

  /** `status <> 'closed' AND slaSolve < now`. In SQL a NULL status makes the
      comparison unknown, so such a ticket never counts. */
  predicate SlaExpired(t: Ticket, now: int)
  {
    t.status.Some? && t.status.value != Closed && t.slaSolve < now
  }

  /** GET /reports/sla-expired: the expired tickets, in store order. */
  function ExpiredTickets(tickets: seq<Ticket>, now: int): (r: seq<Ticket>)
    ensures forall t :: t in r <==> t in tickets && SlaExpired(t, now)
  {
    Filter(tickets, t => SlaExpired(t, now))
  }

  /** An expired ticket is still expired later: the set only grows with time
      unless tickets are closed. */
  lemma ExpiredGrowsWithTime(tickets: seq<Ticket>, now: int, later: int)
    requires now <= later
    ensures forall t :: t in ExpiredTickets(tickets, now) ==> t in ExpiredTickets(tickets, later)
  {
  }

  predicate HasStatus(t: Ticket, s: Status) { t.status == Some(s) }
  predicate HasPriority(t: Ticket, p: Priority) { t.priority == Some(p) }

  /** The counts of GET /metrics/dashboard (the average is not modelled). */
  datatype Dashboard = Dashboard(open: nat, closed: nat, inProgress: nat, slaExpired: nat, total: nat,
                                 low: nat, medium: nat, high: nat)

  function Metrics(tickets: seq<Ticket>, now: int): Dashboard
  {
    var open := Count(tickets, t => HasStatus(t, Open));
    var closed := Count(tickets, t => HasStatus(t, Closed));
    Dashboard(open, closed, Count(tickets, t => HasStatus(t, InProgress)), Count(tickets, t => SlaExpired(t, now)),
              open + closed,
              Count(tickets, t => HasPriority(t, Low)), Count(tickets, t => HasPriority(t, Medium)),
              Count(tickets, t => HasPriority(t, High)))
  }

  /** The dashboard's total is the open and closed tickets only: tickets in
      progress are not in it, and every expired ticket is open or in progress. */
  lemma {:induction false} DashboardStatusBounds(tickets: seq<Ticket>, now: int)
    ensures Metrics(tickets, now).total + Metrics(tickets, now).inProgress <= |tickets|
    ensures Metrics(tickets, now).slaExpired <= Metrics(tickets, now).open + Metrics(tickets, now).inProgress
  {
    var openOrClosed := (t: Ticket) => HasStatus(t, Open) || HasStatus(t, Closed);
    var active := (t: Ticket) => HasStatus(t, Open) || HasStatus(t, InProgress);
    var anyStatus := (t: Ticket) => openOrClosed(t) || HasStatus(t, InProgress);
    CountDisjoint(tickets, t => HasStatus(t, Open), t => HasStatus(t, Closed), openOrClosed);
    CountDisjoint(tickets, openOrClosed, t => HasStatus(t, InProgress), anyStatus);
    CountDisjoint(tickets, t => HasStatus(t, Open), t => HasStatus(t, InProgress), active);
    CountMonotone(tickets, t => SlaExpired(t, now), active);
  }

  /** Each ticket is counted under at most one priority. */
  lemma {:induction false} DashboardPriorityBounds(tickets: seq<Ticket>, now: int)
    ensures Metrics(tickets, now).low + Metrics(tickets, now).medium + Metrics(tickets, now).high <= |tickets|
  {
    var lowOrMedium := (t: Ticket) => HasPriority(t, Low) || HasPriority(t, Medium);
    var anyPriority := (t: Ticket) => lowOrMedium(t) || HasPriority(t, High);
    CountDisjoint(tickets, t => HasPriority(t, Low), t => HasPriority(t, Medium), lowOrMedium);
    CountDisjoint(tickets, lowOrMedium, t => HasPriority(t, High), anyPriority);
  }

  // ---------------------------------------------------------------------------
  // PUT /:id

  /** The fields whose changes are logged, in the order they are examined. */
  datatype Tracked = StatusField | PriorityField | CategoryField | AssignedToField | SlaField

  const TrackFields: seq<Tracked> := [StatusField, PriorityField, CategoryField, AssignedToField, SlaField]

  function FieldName(f: Tracked): string
  {
    match f
    case StatusField => "status"
    case PriorityField => "priority"
    case CategoryField => "category"
    case AssignedToField => "assignedTo"
    case SlaField => "sla"
  }

  /** The fields of the request body the handler reads. */
  datatype UpdateBody = UpdateBody(status: JsValue, priority: JsValue, category: JsValue, assignedTo: JsValue, sla: JsValue)

  /** `req.body[field]` */
  function Sent(b: UpdateBody, f: Tracked): JsValue
  {
    match f
    case StatusField => b.status
    case PriorityField => b.priority
    case CategoryField => b.category
    case AssignedToField => b.assignedTo
    case SlaField => b.sla
  }

  /** `ticket[field]` on the loaded row; `sla` is not a column, so it reads
      `undefined`. */
  function Current(t: Ticket, f: Tracked): (r: JsValue)
    ensures r != Undefined <==> f != SlaField
  {
    match f
    case StatusField => if t.status.Some? then Str(StatusName(t.status.value)) else Null
    case PriorityField => if t.priority.Some? then Str(PriorityName(t.priority.value)) else Null
    case CategoryField => if t.category.Some? then Str(CategoryName(t.category.value)) else Null
    case AssignedToField => if t.assignedTo.Some? then Num(t.assignedTo.value) else Null
    case SlaField => Undefined
  }

  /** The test of the tracking loop: the body defines the field and differs
      strictly from the loaded value. */
  predicate Differs(t: Ticket, b: UpdateBody, f: Tracked)
  {
    Sent(b, f) != Undefined && Sent(b, f) != Current(t, f)
  }

  /** The keys of the `updates` object. */
  datatype Column = StartedAtColumn | TotalTimeSpentColumn | TrackedColumn(field: Tracked)

  type Updates = map<Column, JsValue>

  /** The audit messages the handler pushes. */
  datatype LogMessage =
    | Started(name: JsValue)
    | AutoAssigned(assignee: JsValue)
    | ClosedAfter(minutes: int)
    | Changed(field: Tracked, before: JsValue, after: JsValue)

  function MessageText(m: LogMessage): string
  {
    match m
    case Started(name) => "Atendimento iniciado por " + Render(name)
    case AutoAssigned(name) => "Respons\U{E1}vel atribu\U{ED}do automaticamente para " + Render(name)
    case ClosedAfter(minutes) => "Ticket fechado ap\U{F3}s " + IntToString(minutes) + " minutos"
    case Changed(f, before, after) => FieldName(f) + " alterado de '" + Render(before) + "' para '" + Render(after) + "'"
  }

  /** The audit rows written for `messages` by actor `actorId` on ticket `id`. */
  function Entries(id: int, actorId: int, messages: seq<LogMessage>): (r: seq<LogEntry>)
    ensures |r| == |messages|
    ensures forall i :: 0 <= i < |r| ==> r[i] == LogEntry(MessageText(messages[i]), id, Some(actorId))
  {
    seq(|messages|, i requires 0 <= i < |messages| => LogEntry(MessageText(messages[i]), id, Some(actorId)))
  }

  /** The handler's local `updates` and `logs` as they accumulate. */
  datatype Draft = Draft(updates: Updates, messages: seq<LogMessage>)

  const EmptyDraft: Draft := Draft(map[], [])

  /** `isOwner || isAdmin || status === 'in_progress'` */
  predicate MayUpdate(t: Ticket, b: UpdateBody, actor: Actor)
  {
    t.userId == Some(actor.id) || IsAdmin(actor) || b.status == Str("in_progress")
  }

  /** `!ticket.totalTimeSpent` is false: a time other than 0 is recorded. */
  predicate TimeRecorded(t: Ticket)
  {
    t.totalTimeSpent.Some? && t.totalTimeSpent.value != 0
  }

  /** `Math.round((now - startedAt) / 60000)` */
  function ElapsedMinutes(startedAt: int, now: int): (m: int)
    ensures m * MinuteMs - MinuteMs / 2 <= now - startedAt < m * MinuteMs + MinuteMs / 2
  {
    (now - startedAt + 30000) / 60000
  }

  /** The `in_progress` branch: stamp the start and claim the ticket, each
      only when unset. */
  function StartWork(t: Ticket, b: UpdateBody, actor: Actor, now: int, d: Draft): Draft
  {
    if b.status != Str("in_progress") then d
    else
      var d1 := if t.startedAt.None?
        then Draft(d.updates[StartedAtColumn := Num(now)], d.messages + [Started(actor.name)])
        else d;
      if !Truthy(Current(t, AssignedToField))
      then Draft(d1.updates[TrackedColumn(AssignedToField) := Num(actor.id)], d1.messages + [AutoAssigned(actor.name)])
      else d1
  }

  /** The `closed` branch: record the minutes since the start once. */
  function CloseWork(t: Ticket, b: UpdateBody, now: int, d: Draft): Draft
  {
    if b.status == Str("closed") && t.startedAt.Some? && !TimeRecorded(t) then
      var m := ElapsedMinutes(t.startedAt.value, now);
      Draft(d.updates[TotalTimeSpentColumn := Num(m)], d.messages + [ClosedAfter(m)])
    else d
  }

  /** One iteration of the tracking loop. */
  function TrackField(t: Ticket, b: UpdateBody, f: Tracked, d: Draft): Draft
  {
    if Differs(t, b, f)
    then Draft(d.updates[TrackedColumn(f) := Sent(b, f)], d.messages + [Changed(f, Current(t, f), Sent(b, f))])
    else d
  }

  /** The tracking loop over `fields`, in order. */
  function TrackAll(t: Ticket, b: UpdateBody, fields: seq<Tracked>, d: Draft): Draft
    decreases |fields|
  {
    if fields == [] then d
    else TrackField(t, b, fields[|fields| - 1], TrackAll(t, b, fields[..|fields| - 1], d))
  }

  /** The state before the tracking loop. */
  function Prepared(t: Ticket, b: UpdateBody, actor: Actor, now: int): Draft
  {
    CloseWork(t, b, now, StartWork(t, b, actor, now, EmptyDraft))
  }

  /** Everything the handler accumulates before writing. */
  function Planned(t: Ticket, b: UpdateBody, actor: Actor, now: int): Draft
  {
    TrackAll(t, b, TrackFields, Prepared(t, b, actor, now))
  }

  /** The value of one column after `ticket.update(u)`, once every value
      of `u` has been accepted. */
  function Written<T>(u: Updates, c: Column, cell: JsValue -> Cell<T>, current: T): T
    requires c in u ==> cell(u[c]).Accepted?
  {
    if c in u then cell(u[c]).value else current
  }

  /** Whether the store accepts `v` for the column `c`; `sla` is not a
      column, so anything is accepted (and dropped). */
  predicate Fits(c: Column, v: JsValue)
  {
    match c
    case StartedAtColumn => DateCell(v).Accepted?
    case TotalTimeSpentColumn => IntCell(v).Accepted?
    case TrackedColumn(StatusField) => StatusCell(v).Accepted?
    case TrackedColumn(PriorityField) => PriorityCell(v).Accepted?
    case TrackedColumn(CategoryField) => CategoryCell(v).Accepted?
    case TrackedColumn(AssignedToField) => IntCell(v).Accepted?
    case TrackedColumn(SlaField) => true
  }

  /** `ticket.update(u)`: every value must fit its column or nothing is
      written; a key that is not a column (`sla`) is dropped. */
  function ApplyUpdates(t: Ticket, u: Updates): (r: Cell<Ticket>)
    ensures r.Accepted? <==> forall c :: c in u ==> Fits(c, u[c])
    ensures r.Accepted? ==>
      && r.value.id == t.id && r.value.title == t.title && r.value.description == t.description
      && r.value.slaStart == t.slaStart && r.value.slaSolve == t.slaSolve
      && r.value.userId == t.userId && r.value.clientId == t.clientId && r.value.createdAt == t.createdAt
      && r.value.startedAt == (if StartedAtColumn in u then DateCell(u[StartedAtColumn]).value else t.startedAt)
      && r.value.totalTimeSpent == (if TotalTimeSpentColumn in u then IntCell(u[TotalTimeSpentColumn]).value else t.totalTimeSpent)
      && r.value.status == (if TrackedColumn(StatusField) in u then StatusCell(u[TrackedColumn(StatusField)]).value else t.status)
      && r.value.priority == (if TrackedColumn(PriorityField) in u then PriorityCell(u[TrackedColumn(PriorityField)]).value else t.priority)
      && r.value.category == (if TrackedColumn(CategoryField) in u then CategoryCell(u[TrackedColumn(CategoryField)]).value else t.category)
      && r.value.assignedTo == (if TrackedColumn(AssignedToField) in u then IntCell(u[TrackedColumn(AssignedToField)]).value else t.assignedTo)
  {
    if forall c :: c in u ==> Fits(c, u[c]) then
      Accepted(t.(startedAt := Written(u, StartedAtColumn, DateCell, t.startedAt),
                  totalTimeSpent := Written(u, TotalTimeSpentColumn, IntCell, t.totalTimeSpent),
                  status := Written(u, TrackedColumn(StatusField), StatusCell, t.status),
                  priority := Written(u, TrackedColumn(PriorityField), PriorityCell, t.priority),
                  category := Written(u, TrackedColumn(CategoryField), CategoryCell, t.category),
                  assignedTo := Written(u, TrackedColumn(AssignedToField), IntCell, t.assignedTo)))
    else Refused
  }

  /** The outcome of the handler on a loaded ticket. */
  datatype UpdateOutcome =
    | Forbidden                                          // 403
    | StoreRefused                                       // 500, nothing written
    | Updated(ticket: Ticket, messages: seq<LogMessage>) // 200

  function Update(t: Ticket, b: UpdateBody, actor: Actor, now: int): (r: UpdateOutcome)
    ensures r.Updated? ==>
      && r.ticket.id == t.id && r.ticket.title == t.title && r.ticket.description == t.description
      && r.ticket.slaStart == t.slaStart && r.ticket.slaSolve == t.slaSolve
      && r.ticket.userId == t.userId && r.ticket.clientId == t.clientId && r.ticket.createdAt == t.createdAt
  {
    if !MayUpdate(t, b, actor) then Forbidden
    else
      var d := Planned(t, b, actor, now);
      match ApplyUpdates(t, d.updates)
      case Accepted(t2) => Updated(t2, d.messages)
      case Refused => StoreRefused
  }

  // --- what the tracking loop does

  /** After the loop over `fields`, each field of `fields` has a `Changed`
      message exactly when it differs, with the loaded and the sent value,
      and the sent value is in `updates`; every other column is as before. */
  lemma {:induction false} TrackAllEffect(t: Ticket, b: UpdateBody, fields: seq<Tracked>, d: Draft)
    ensures forall f, before, after :: Changed(f, before, after) in TrackAll(t, b, fields, d).messages <==>
              Changed(f, before, after) in d.messages || (f in fields && Differs(t, b, f) && before == Current(t, f) && after == Sent(b, f))
    ensures forall c :: c in TrackAll(t, b, fields, d).updates <==>
              c in d.updates || (c.TrackedColumn? && c.field in fields && Differs(t, b, c.field))
    ensures forall c :: c in TrackAll(t, b, fields, d).updates ==>
              TrackAll(t, b, fields, d).updates[c] ==
                if c.TrackedColumn? && c.field in fields && Differs(t, b, c.field) then Sent(b, c.field) else d.updates[c]
    decreases |fields|
  {
    if fields != [] {
      var init := fields[..|fields| - 1];
      TrackAllEffect(t, b, init, d);
      assert forall f :: f in fields <==> f in init || f == fields[|fields| - 1] by {
        assert fields == init + [fields[|fields| - 1]];
      }
    }
  }

  /** The message one field contributes to the log. */
  function Logged(t: Ticket, b: UpdateBody, f: Tracked): (r: seq<LogMessage>)
    ensures |r| <= 1
  {
    if Differs(t, b, f) then [Changed(f, Current(t, f), Sent(b, f))] else []
  }

  /** The messages of the tracking loop over `fields`, on their own. */
  function ChangeMessages(t: Ticket, b: UpdateBody, fields: seq<Tracked>): (r: seq<LogMessage>)
    ensures |r| <= |fields|
    decreases |fields|
  {
    if fields == [] then []
    else ChangeMessages(t, b, fields[..|fields| - 1]) + Logged(t, b, fields[|fields| - 1])
  }

  lemma {:induction false} TrackAllMessages(t: Ticket, b: UpdateBody, fields: seq<Tracked>, d: Draft)
    ensures TrackAll(t, b, fields, d).messages == d.messages + ChangeMessages(t, b, fields)
    decreases |fields|
  {
    if fields != [] {
      TrackAllMessages(t, b, fields[..|fields| - 1], d);
    }
  }

  /** The tracked fields' messages, field by field in tracking order. */
  function TrackedMessages(t: Ticket, b: UpdateBody): seq<LogMessage>
  {
    Logged(t, b, StatusField) + Logged(t, b, PriorityField) + Logged(t, b, CategoryField) +
    Logged(t, b, AssignedToField) + Logged(t, b, SlaField)
  }

  lemma ChangeMessagesInOrder(t: Ticket, b: UpdateBody)
    ensures ChangeMessages(t, b, TrackFields) == TrackedMessages(t, b)
  {
    var fs := TrackFields;
    assert fs[..4][..3] == fs[..3] && fs[..3][..2] == fs[..2] && fs[..2][..1] == fs[..1] && fs[..1][..0] == [];
    assert ChangeMessages(t, b, fs[..1]) == Logged(t, b, StatusField);
    assert ChangeMessages(t, b, fs[..2]) == ChangeMessages(t, b, fs[..1]) + Logged(t, b, PriorityField);
    assert ChangeMessages(t, b, fs[..3]) == ChangeMessages(t, b, fs[..2]) + Logged(t, b, CategoryField);
    assert ChangeMessages(t, b, fs[..4]) == ChangeMessages(t, b, fs[..3]) + Logged(t, b, AssignedToField);
    assert ChangeMessages(t, b, fs) == ChangeMessages(t, b, fs[..4]) + Logged(t, b, SlaField);
  }

  /** Every field is tracked. */
  lemma AllTracked(f: Tracked)
    ensures f in TrackFields
  {
    match f
    case StatusField => assert TrackFields[0] == f;
    case PriorityField => assert TrackFields[1] == f;
    case CategoryField => assert TrackFields[2] == f;
    case AssignedToField => assert TrackFields[3] == f;
    case SlaField => assert TrackFields[4] == f;
  }

  /** The messages of the `in_progress` and `closed` branches. */
  function BranchMessages(t: Ticket, b: UpdateBody, actor: Actor, now: int): seq<LogMessage>
  {
    (if b.status == Str("in_progress") && t.startedAt.None? then [Started(actor.name)] else []) +
    (if b.status == Str("in_progress") && !Truthy(Current(t, AssignedToField)) then [AutoAssigned(actor.name)] else []) +
    (if b.status == Str("closed") && t.startedAt.Some? && !TimeRecorded(t)
     then [ClosedAfter(ElapsedMinutes(t.startedAt.value, now))] else [])
  }

  lemma PreparedMessages(t: Ticket, b: UpdateBody, actor: Actor, now: int)
    ensures Prepared(t, b, actor, now).messages == BranchMessages(t, b, actor, now)
  {
  }

  /** The log of an update is the start, auto-assignment and closure entries
      (those that apply, in that order) followed by one entry per changed
      tracked field, in tracking order. */
  lemma UpdateLogOrder(t: Ticket, b: UpdateBody, actor: Actor, now: int)
    requires Update(t, b, actor, now).Updated?
    ensures Update(t, b, actor, now).messages == BranchMessages(t, b, actor, now) + TrackedMessages(t, b)
  {
    TrackAllMessages(t, b, TrackFields, Prepared(t, b, actor, now));
    ChangeMessagesInOrder(t, b);
    PreparedMessages(t, b, actor, now);
  }

  /** The updates the handler passes to the store: those of the branches for
      `in_progress` and `closed`, then the sent value of every differing
      tracked field. */
  lemma PlannedUpdates(t: Ticket, b: UpdateBody, actor: Actor, now: int)
    ensures var u := Planned(t, b, actor, now).updates;
            && (forall c :: c in u <==> c in Prepared(t, b, actor, now).updates || (c.TrackedColumn? && Differs(t, b, c.field)))
            && (forall f :: Differs(t, b, f) ==> u[TrackedColumn(f)] == Sent(b, f))
            && (forall c :: c in u && !(c.TrackedColumn? && Differs(t, b, c.field)) ==> u[c] == Prepared(t, b, actor, now).updates[c])
  {
    TrackAllEffect(t, b, TrackFields, Prepared(t, b, actor, now));
    forall f ensures f in TrackFields {
      AllTracked(f);
    }
  }

  // --- properties of the update

  /** 403 exactly when the actor is neither the creator nor an admin and the
      body does not ask for `in_progress`; otherwise anyone may update, and
      an actor who is neither moves the ticket to `in_progress`. */
  lemma UpdateAuthorization(t: Ticket, b: UpdateBody, actor: Actor, now: int)
    ensures Update(t, b, actor, now) == Forbidden <==>
              t.userId != Some(actor.id) && !IsAdmin(actor) && b.status != Str("in_progress")
    ensures Update(t, b, actor, now).Updated? && t.userId != Some(actor.id) && !IsAdmin(actor) ==>
              Update(t, b, actor, now).ticket.status == Some(InProgress)
  {
    if Update(t, b, actor, now).Updated? && b.status == Str("in_progress") {
      StartWorkEffect(t, b, actor, now);
    }
  }

  /** An example of the authorisation gap: a user who neither created the
      ticket nor is an administrator changes its priority by sending
      `in_progress` with it. */
  lemma StartOpensOtherFields(t: Ticket, actor: Actor, now: int)
    requires t.userId != Some(actor.id) && !IsAdmin(actor)
    requires t.startedAt.Some? && t.assignedTo == Some(7) && t.status == Some(InProgress) && t.priority == Some(Low)
    ensures Update(t, UpdateBody(Str("in_progress"), Str("high"), Undefined, Undefined, Undefined), actor, now).Updated?
    ensures Update(t, UpdateBody(Str("in_progress"), Str("high"), Undefined, Undefined, Undefined), actor, now).ticket.priority == Some(High)
  {
    var b := UpdateBody(Str("in_progress"), Str("high"), Undefined, Undefined, Undefined);
    assert Prepared(t, b, actor, now) == EmptyDraft;
    PlannedUpdates(t, b, actor, now);
    assert forall f :: Differs(t, b, f) <==> f == PriorityField;
    var u := Planned(t, b, actor, now).updates;
    assert u[TrackedColumn(PriorityField)] == Str("high");
    assert forall c :: c in u ==> Fits(c, u[c]);
  }

  /** Starting work moves the ticket to `in_progress`, stamps `startedAt`
      and claims an unassigned ticket for the actor unless the body assigns
      it explicitly, logging each; a stamp or assignee already there stays. */
  lemma StartWorkEffect(t: Ticket, b: UpdateBody, actor: Actor, now: int)
    requires b.status == Str("in_progress") && Update(t, b, actor, now).Updated?
    ensures Update(t, b, actor, now).ticket.status == Some(InProgress)
    ensures t.startedAt.None? ==>
              Update(t, b, actor, now).ticket.startedAt == Some(now) && Started(actor.name) in Update(t, b, actor, now).messages
    ensures t.startedAt.Some? ==> Update(t, b, actor, now).ticket.startedAt == t.startedAt
    ensures !Truthy(Current(t, AssignedToField)) && b.assignedTo == Undefined ==>
              Update(t, b, actor, now).ticket.assignedTo == Some(actor.id) && AutoAssigned(actor.name) in Update(t, b, actor, now).messages
    ensures Truthy(Current(t, AssignedToField)) && b.assignedTo == Undefined ==>
              Update(t, b, actor, now).ticket.assignedTo == t.assignedTo
  {
    PlannedUpdates(t, b, actor, now);
    UpdateLogOrder(t, b, actor, now);
    if !Differs(t, b, StatusField) {
      assert t.status == Some(InProgress);
    }
  }

  /** Asking again for `in_progress` on a ticket an update just started
      changes nothing and logs nothing. */
  lemma StartIsIdempotent(t: Ticket, actor: Actor, now: int, later: int)
    requires actor.id != 0
    requires Update(t, UpdateBody(Str("in_progress"), Undefined, Undefined, Undefined, Undefined), actor, now).Updated?
    ensures var t2 := Update(t, UpdateBody(Str("in_progress"), Undefined, Undefined, Undefined, Undefined), actor, now).ticket;
            Update(t2, UpdateBody(Str("in_progress"), Undefined, Undefined, Undefined, Undefined), actor, later) == Updated(t2, [])
  {
    var b := UpdateBody(Str("in_progress"), Undefined, Undefined, Undefined, Undefined);
    var t2 := Update(t, b, actor, now).ticket;
    StartWorkEffect(t, b, actor, now);
    assert Truthy(Current(t2, AssignedToField));
    assert forall f :: !Differs(t2, b, f);
    assert Prepared(t2, b, actor, later) == EmptyDraft;
    PlannedUpdates(t2, b, actor, later);
    TrackAllMessages(t2, b, TrackFields, EmptyDraft);
    ChangeMessagesInOrder(t2, b);
    assert Planned(t2, b, actor, later).updates == map[];
  }

  /** Closing a started ticket without a recorded time records the minutes
      since the start, rounded to the nearest minute; closing one that was
      never started records nothing; a recorded time is never overwritten. */
  lemma CloseRecordsTime(t: Ticket, b: UpdateBody, actor: Actor, now: int)
    requires b.status == Str("closed") && Update(t, b, actor, now).Updated?
    ensures t.startedAt.Some? && !TimeRecorded(t) ==>
      && Update(t, b, actor, now).ticket.totalTimeSpent == Some(ElapsedMinutes(t.startedAt.value, now))
      && ClosedAfter(ElapsedMinutes(t.startedAt.value, now)) in Update(t, b, actor, now).messages
    ensures t.startedAt.None? || TimeRecorded(t) ==>
      Update(t, b, actor, now).ticket.totalTimeSpent == t.totalTimeSpent
    ensures Update(t, b, actor, now).ticket.startedAt == t.startedAt
    ensures Update(t, b, actor, now).ticket.status == Some(Closed)
  {
    PlannedUpdates(t, b, actor, now);
    UpdateLogOrder(t, b, actor, now);
    if !Differs(t, b, StatusField) {
      assert t.status == Some(Closed);
    }
  }

  /** A ticket started at 10:00 and closed at 11:35 records 95 minutes. */
  lemma CloseAfterNinetyFiveMinutes(t: Ticket, actor: Actor)
    requires t.userId == Some(actor.id)
    requires t.startedAt == Some(36000000) && t.totalTimeSpent == None && t.status == Some(InProgress)
    ensures Update(t, UpdateBody(Str("closed"), Undefined, Undefined, Undefined, Undefined), actor, 41700000) ==
            Updated(t.(status := Some(Closed), totalTimeSpent := Some(95)),
                    [ClosedAfter(95), Changed(StatusField, Str("in_progress"), Str("closed"))])
  {
    CloseAfterNinetyFiveMinutesPlan(t, actor);
    CloseAfterNinetyFiveMinutesApply(t);
  }

  lemma CloseAfterNinetyFiveMinutesPlan(t: Ticket, actor: Actor)
    requires t.startedAt == Some(36000000) && t.totalTimeSpent == None && t.status == Some(InProgress)
    ensures Planned(t, UpdateBody(Str("closed"), Undefined, Undefined, Undefined, Undefined), actor, 41700000) ==
            Draft(map[TotalTimeSpentColumn := Num(95), TrackedColumn(StatusField) := Str("closed")],
                  [ClosedAfter(95), Changed(StatusField, Str("in_progress"), Str("closed"))])
  {
    var b := UpdateBody(Str("closed"), Undefined, Undefined, Undefined, Undefined);
    assert ElapsedMinutes(36000000, 41700000) == 95;
    assert Prepared(t, b, actor, 41700000) == Draft(map[TotalTimeSpentColumn := Num(95)], [ClosedAfter(95)]);
    assert forall f :: Differs(t, b, f) <==> f == StatusField;
    PlannedUpdates(t, b, actor, 41700000);
    TrackAllMessages(t, b, TrackFields, Prepared(t, b, actor, 41700000));
    ChangeMessagesInOrder(t, b);
  }

  lemma CloseAfterNinetyFiveMinutesApply(t: Ticket)
    ensures ApplyUpdates(t, map[TotalTimeSpentColumn := Num(95), TrackedColumn(StatusField) := Str("closed")])
            == Accepted(t.(status := Some(Closed), totalTimeSpent := Some(95)))
  {
    assert IntCell(Num(95)) == Accepted(Some(95));
    assert StatusCell(Str("closed")) == Accepted(Some(Closed));
  }

  /** Each tracked field that the body sends with a different value gets
      exactly one message, with the loaded and the sent value; `sla` is
      always logged when sent, since the loaded ticket has no `sla`. */
  lemma TrackedChangesLogged(t: Ticket, b: UpdateBody, actor: Actor, now: int, f: Tracked)
    requires Update(t, b, actor, now).Updated?
    ensures forall before, after :: Changed(f, before, after) in Update(t, b, actor, now).messages <==>
              Differs(t, b, f) && before == Current(t, f) && after == Sent(b, f)
    ensures b.sla != Undefined ==> Changed(SlaField, Undefined, b.sla) in Update(t, b, actor, now).messages
  {
    TrackAllEffect(t, b, TrackFields, Prepared(t, b, actor, now));
    AllTracked(f);
    AllTracked(SlaField);
    PreparedMessages(t, b, actor, now);
  }

  /** A differing tracked column ends with the value the store makes of the
      sent one, which overrides the auto-assignment; `sla` is never stored. */
  lemma TrackedChangesStored(t: Ticket, b: UpdateBody, actor: Actor, now: int)
    requires Update(t, b, actor, now).Updated?
    ensures Differs(t, b, StatusField) ==> StatusCell(b.status) == Accepted(Update(t, b, actor, now).ticket.status)
    ensures Differs(t, b, PriorityField) ==> PriorityCell(b.priority) == Accepted(Update(t, b, actor, now).ticket.priority)
    ensures Differs(t, b, CategoryField) ==> CategoryCell(b.category) == Accepted(Update(t, b, actor, now).ticket.category)
    ensures Differs(t, b, AssignedToField) ==> IntCell(b.assignedTo) == Accepted(Update(t, b, actor, now).ticket.assignedTo)
  {
    PlannedUpdates(t, b, actor, now);
  }

  /** Sending a new priority and a new category, and nothing else, logs
      exactly those two changes in that order. */
  lemma TwoChangesTwoEntries(t: Ticket, actor: Actor, now: int, p: Priority, c: Category)
    requires MayUpdate(t, UpdateBody(Undefined, Str(PriorityName(p)), Str(CategoryName(c)), Undefined, Undefined), actor)
    requires t.priority != Some(p) && t.category != Some(c)
    ensures Update(t, UpdateBody(Undefined, Str(PriorityName(p)), Str(CategoryName(c)), Undefined, Undefined), actor, now) ==
            Updated(t.(priority := Some(p), category := Some(c)),
                    [Changed(PriorityField, Current(t, PriorityField), Str(PriorityName(p))),
                     Changed(CategoryField, Current(t, CategoryField), Str(CategoryName(c)))])
  {
    TwoChangesPlan(t, actor, now, p, c);
    TwoChangesApply(t, p, c);
  }

  /** What the handler accumulates for a body carrying only a new priority
      and a new category. */
  lemma TwoChangesPlan(t: Ticket, actor: Actor, now: int, p: Priority, c: Category)
    requires t.priority != Some(p) && t.category != Some(c)
    ensures Planned(t, UpdateBody(Undefined, Str(PriorityName(p)), Str(CategoryName(c)), Undefined, Undefined), actor, now) ==
            Draft(map[TrackedColumn(PriorityField) := Str(PriorityName(p)), TrackedColumn(CategoryField) := Str(CategoryName(c))],
                  [Changed(PriorityField, Current(t, PriorityField), Str(PriorityName(p))),
                   Changed(CategoryField, Current(t, CategoryField), Str(CategoryName(c)))])
  {
    var b := UpdateBody(Undefined, Str(PriorityName(p)), Str(CategoryName(c)), Undefined, Undefined);
    TwoChangesDiffer(t, p, c);
    assert Prepared(t, b, actor, now) == EmptyDraft;
    TwoChangesUpdates(t, actor, now, p, c);
    TrackAllMessages(t, b, TrackFields, EmptyDraft);
    ChangeMessagesInOrder(t, b);
  }

  lemma TwoChangesDiffer(t: Ticket, p: Priority, c: Category)
    requires t.priority != Some(p) && t.category != Some(c)
    ensures forall f ::
              (Differs(t, UpdateBody(Undefined, Str(PriorityName(p)), Str(CategoryName(c)), Undefined, Undefined), f)
               <==> f == PriorityField || f == CategoryField)
  {
    EnumRoundTrips(Open, p, c, Basic, Admin);
    if t.priority.Some? { EnumRoundTrips(Open, t.priority.value, Suporte, Basic, Admin); }
    if t.category.Some? { EnumRoundTrips(Open, Low, t.category.value, Basic, Admin); }
  }

  lemma TwoChangesUpdates(t: Ticket, actor: Actor, now: int, p: Priority, c: Category)
    requires t.priority != Some(p) && t.category != Some(c)
    ensures Planned(t, UpdateBody(Undefined, Str(PriorityName(p)), Str(CategoryName(c)), Undefined, Undefined), actor, now).updates ==
            map[TrackedColumn(PriorityField) := Str(PriorityName(p)), TrackedColumn(CategoryField) := Str(CategoryName(c))]
  {
    var b := UpdateBody(Undefined, Str(PriorityName(p)), Str(CategoryName(c)), Undefined, Undefined);
    TwoChangesDiffer(t, p, c);
    assert Prepared(t, b, actor, now) == EmptyDraft;
    PlannedUpdates(t, b, actor, now);
  }

  /** The store accepts a new priority and a new category. */
  lemma TwoChangesApply(t: Ticket, p: Priority, c: Category)
    ensures ApplyUpdates(t, map[TrackedColumn(PriorityField) := Str(PriorityName(p)),
                                TrackedColumn(CategoryField) := Str(CategoryName(c))])
            == Accepted(t.(priority := Some(p), category := Some(c)))
  {
    EnumRoundTrips(Open, p, c, Basic, Admin);
  }

  /** The handler's response codes. */
  datatype UpdateResponse =
    | TicketNotFound            // 404
    | AccessDenied              // 403
    | UpdateFailed              // 500
    | TicketUpdated(ticket: Ticket) // 200

  /** The Ticket and Log tables as the create and update handlers change them. */
  class HelpDesk {
    var tickets: map<int, Ticket>
    var logs: seq<LogEntry>
    var nextId: int

    /** Every ticket is stored under its own id, below the next id, and every
        log entry belongs to a stored ticket. */
    ghost predicate Valid()
      reads this
    {
      && (forall id :: id in tickets ==> tickets[id].id == id && id < nextId)
      && (forall i :: 0 <= i < |logs| ==> logs[i].ticketId in tickets)
    }

    constructor ()
      ensures Valid() && tickets == map[] && logs == [] && nextId == 1
    {
      tickets := map[];
      logs := [];
      nextId := 1;
    }

    /** POST /: no log entry is written. */
    method Create(body: CreateBody, actor: Actor, clients: map<int, Client>, table: PolicyTable, now: int)
      returns (r: Result<Ticket, CreateError>)
      requires Valid()
      modifies this
      ensures Valid()
      ensures r == CreateTicket(body, actor, clients, table, now, old(nextId))
      ensures r.Ok? ==> tickets == old(tickets)[old(nextId) := r.value] && nextId == old(nextId) + 1
      ensures r.Err? ==> tickets == old(tickets) && nextId == old(nextId)
      ensures logs == old(logs)
    {
      r := CreateTicket(body, actor, clients, table, now, nextId);
      if r.Ok? {
        tickets := tickets[nextId := r.value];
        nextId := nextId + 1;
      }
    }

    /** PUT /:id */
    method UpdateTicket(id: int, b: UpdateBody, actor: Actor, now: int) returns (r: UpdateResponse)
      requires Valid()
      modifies this
      ensures Valid() && nextId == old(nextId)
      ensures id !in old(tickets) ==> r == TicketNotFound && tickets == old(tickets) && logs == old(logs)
      ensures id in old(tickets) ==>
        match Update(old(tickets)[id], b, actor, now)
        case Forbidden => r == AccessDenied && tickets == old(tickets) && logs == old(logs)
        case StoreRefused => r == UpdateFailed && tickets == old(tickets) && logs == old(logs)
        case Updated(t2, ms) =>
          r == TicketUpdated(t2) && tickets == old(tickets)[id := t2] && logs == old(logs) + Entries(id, actor.id, ms)
    {
      if id !in tickets {
        return TicketNotFound;
      }
      var ticket := tickets[id];
      var updates: Updates := map[];
      var messages: seq<LogMessage> := [];

      var isOwner := ticket.userId == Some(actor.id);
      var isAdmin := IsAdmin(actor);
      if !isOwner && !isAdmin && b.status != Str("in_progress") {
        return AccessDenied;
      }

      if b.status == Str("in_progress") {
        if ticket.startedAt.None? {
          updates := updates[StartedAtColumn := Num(now)];
          messages := messages + [Started(actor.name)];
        }
        if !Truthy(Current(ticket, AssignedToField)) {
          updates := updates[TrackedColumn(AssignedToField) := Num(actor.id)];
          messages := messages + [AutoAssigned(actor.name)];
        }
      }

      if b.status == Str("closed") && ticket.startedAt.Some? && !TimeRecorded(ticket) {
        var diffMin := ElapsedMinutes(ticket.startedAt.value, now);
        updates := updates[TotalTimeSpentColumn := Num(diffMin)];
        messages := messages + [ClosedAfter(diffMin)];
      }

      assert Draft(updates, messages) == Prepared(ticket, b, actor, now);
      for i := 0 to |TrackFields|
        invariant Draft(updates, messages) == TrackAll(ticket, b, TrackFields[..i], Prepared(ticket, b, actor, now))
      {
        var field := TrackFields[i];
        assert TrackFields[..i + 1][..i] == TrackFields[..i];
        if Sent(b, field) != Undefined && Sent(b, field) != Current(ticket, field) {
          messages := messages + [Changed(field, Current(ticket, field), Sent(b, field))];
          updates := updates[TrackedColumn(field) := Sent(b, field)];
        }
      }
      assert TrackFields[..|TrackFields|] == TrackFields;

      var written := ApplyUpdates(ticket, updates);
      if written.Refused? {
        return UpdateFailed;
      }
      tickets := tickets[id := written.value];
      if |messages| > 0 {
        logs := logs + Entries(id, actor.id, messages);
      }
      r := TicketUpdated(written.value);
    }
  }
}
