/** `createTicket` of backend/controllers/ticketController.js: the second
    create path, which trusts the deadlines and the priority the client sends.
    It also tries to record the creation in the audit log, but hands the text
    over under a name the log helper does not read, so nothing is stored;
    `CreateTicketCorrected` is the path with the text passed as `message`. */
module TicketController {
  import opened JsValues
  import opened Models
  import opened SlaConfigRoutes
  import opened TicketRoutes

  /** The controller also demands both deadlines. */
  predicate HasControllerFields(b: CreateBody)
  {
    HasRequiredFields(b) && Truthy(b.slaStart) && Truthy(b.slaSolve)
  }

  /** The attributes handed to `Ticket.create`: everything as sent, status
      `open`, the actor as creator. */
  function SentData(b: CreateBody, actor: Actor): TicketData
  {
    TicketData(b.title, b.description, b.priority, b.category, b.slaStart, b.slaSolve,
               OrNull(b.assignedTo), b.clientId, Num(actor.id), Str("open"))
  }

  /** The audit text for a created ticket. */
  function CreationMessage(ticketId: int): string
  {
    "Ticket " + IntToString(ticketId) + " criado (SLA recebido do frontend)."
  }

  /** The `Log` attributes the call hands over as written: it passes the text
      under `description`, while the log helper only reads `message`, so the
      message attribute is `undefined`. */
  function CreationLogAsWritten(ticketId: int, actorId: int): LogData
  {
    LogData(Undefined, Num(ticketId), Num(actorId))
  }

  /** As written, the creation log is never stored: the insert fails its
      NOT NULL check on `message` (and the helper swallows the error). */
  lemma CreationLogAsWrittenNeverStored(ticketId: int, actorId: int)
    ensures InsertLog(CreationLogAsWritten(ticketId, actorId))
              == ValidationFailed([ValidationItem("message", "Log.message cannot be null", Undefined)])
  {
    var attrs := [("message", Undefined), ("ticketId", Num(ticketId))];
    assert attrs[1..] == [("ticketId", Num(ticketId))];
    assert NotNullViolations("Log", attrs[1..]) == [];
    assert "Log" + "." + "message" + " cannot be null" == "Log.message cannot be null";
  }

  /** The `Log` attributes with the text passed as `message`. */
  function CreationLog(ticketId: int, actorId: int): LogData
  {
    LogData(Str(CreationMessage(ticketId)), Num(ticketId), Num(actorId))
  }

  /** With the text passed as `message`, the entry is stored for the ticket
      and the actor. */
  lemma CreationLogStored(ticketId: int, actorId: int)
    ensures InsertLog(CreationLog(ticketId, actorId)) == Inserted(LogEntry(CreationMessage(ticketId), ticketId, Some(actorId)))
  {
    assert NotNullViolations("Log", [("ticketId", Num(ticketId))]) == [];
  }

  /** The answers of `createTicket`. */
  datatype ControllerResponse =
    | Created(ticket: Ticket)                    // 201
    | FieldsMissing                              // 400, fixed message
    | InvalidTicket(details: seq<ValidationItem>) // 400, one `{path, message, value}` per error
    | Failed                                     // 500

  /** The response and the audit entry stored beside it, if any. */
  datatype ControllerOutcome = ControllerOutcome(response: ControllerResponse, log: Option<LogEntry>)

  /** The answer of `createTicket` with the clock and the id the insert would
      receive. The log call comes after the insert and its failure is
      swallowed, so the answer never depends on it. */
  function Respond(b: CreateBody, actor: Actor, now: int, newId: int): (r: ControllerResponse)
    ensures r == FieldsMissing <==> !HasControllerFields(b)
  {
    if !HasControllerFields(b) then FieldsMissing
    else
      match InsertTicket(newId, now, SentData(b, actor))
      case Inserted(t) => Created(t)
      case ValidationFailed(errors) => InvalidTicket(errors)
      case DatabaseFailed => Failed
  }

  /** The entry the log helper stores for `data`, if the store accepts it. */
  function Stored(data: LogData): Option<LogEntry>
  {
    var entry := InsertLog(data);
    if entry.Inserted? then Some(entry.row) else None
  }

  /** `createTicket` as written: after a created ticket the log helper gets
      the attributes without `message`, so no entry is ever stored. */
  function CreateTicketAsSent(b: CreateBody, actor: Actor, now: int, newId: int): (r: ControllerOutcome)
    ensures r.response == FieldsMissing <==> !HasControllerFields(b)
    ensures r.log == None
  {
    var response := Respond(b, actor, now, newId);
    if response.Created? then
      CreationLogAsWrittenNeverStored(response.ticket.id, actor.id);
      ControllerOutcome(response, Stored(CreationLogAsWritten(response.ticket.id, actor.id)))
    else ControllerOutcome(response, None)
  }

  /** `createTicket` with the creation text passed as `message`: the same
      answer, and every created ticket gets its creation entry. */
  function CreateTicketCorrected(b: CreateBody, actor: Actor, now: int, newId: int): (r: ControllerOutcome)
    ensures r.response == CreateTicketAsSent(b, actor, now, newId).response
    ensures r.log.Some? <==> r.response.Created?
    ensures r.response.Created? ==> r.log == Some(LogEntry(CreationMessage(r.response.ticket.id), r.response.ticket.id, Some(actor.id)))
  {
    var response := Respond(b, actor, now, newId);
    if response.Created? then
      CreationLogStored(response.ticket.id, actor.id);
      ControllerOutcome(response, Stored(CreationLog(response.ticket.id, actor.id)))
    else ControllerOutcome(response, None)
  }

  /** A controller create succeeds exactly when the seven fields are present
      and the store accepts what was sent; the ticket then carries the sent
      deadlines and priority unchanged, status `open`, the actor as creator,
      `assignedTo` as sent or null, and, as written, no creation entry is
      stored beside it. */
  lemma ControllerStoresAsSent(b: CreateBody, actor: Actor, now: int, newId: int)
    ensures CreateTicketAsSent(b, actor, now, newId).response.Created? <==>
              HasControllerFields(b) && InsertTicket(newId, now, SentData(b, actor)).Inserted?
    ensures CreateTicketAsSent(b, actor, now, newId).response.Created? ==>
      var t := CreateTicketAsSent(b, actor, now, newId).response.ticket;
      && t.id == newId && t.createdAt == now
      && b.slaStart == Num(t.slaStart) && b.slaSolve == Num(t.slaSolve)
      && PriorityCell(b.priority) == Accepted(t.priority)
      && t.status == Some(Open) && t.userId == Some(actor.id)
      && IntCell(OrNull(b.assignedTo)) == Accepted(t.assignedTo)
      && CreateTicketAsSent(b, actor, now, newId).log == None
  {
    EnumRoundTrips(Open, Low, Suporte, Basic, Admin);
  }

  /** Once the seven fields are present the NOT NULL columns are filled, so
      the 400-with-details branch is never taken: every failure of the store
      is a 500. */
  lemma ControllerValidationUnreachable(b: CreateBody, actor: Actor, now: int, newId: int)
    ensures !CreateTicketAsSent(b, actor, now, newId).response.InvalidTicket?
    ensures CreateTicketAsSent(b, actor, now, newId).response == Failed <==>
              HasControllerFields(b) && InsertTicket(newId, now, SentData(b, actor)).DatabaseFailed?
  {
  }

  /** The two create paths agree when the client sends what the route
      handler would compute: the same policy deadlines (neither at the epoch,
      which the controller takes for absent) and an already normalised
      priority. */
  lemma CreatePathsAgree(b: CreateBody, actor: Actor, clients: map<int, Client>, table: PolicyTable,
                         now: int, newId: int, t: Ticket)
    requires CreateTicket(b, actor, clients, table, now, newId) == Ok(t)
    requires b.slaStart == Num(t.slaStart) && t.slaStart != 0
    requires b.slaSolve == Num(t.slaSolve) && t.slaSolve != 0
    requires b.priority.Str? && Normalize(b.priority.s) == b.priority.s
    ensures CreateTicketAsSent(b, actor, now, newId).response == Created(t)
  {
    var hours := CreateInserts(b, actor, clients, table, now, newId, t);
    assert CreatedData(b, actor, Normalize(b.priority.s), hours, now) == SentData(b, actor);
    assert HasControllerFields(b);
  }
}
