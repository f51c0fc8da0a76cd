/** The ticket form of frontend/src/pages/CreateTicket.js: it looks up the
    SLA policy of the chosen client and priority, computes both deadlines
    itself, posts the ticket and then either resets the form or shows the
    server's error. The form's state is a class whose methods change it as
    the page's state setters do. */
module CreateTicketForm {
  import opened JsValues
  import opened Models
  import opened SlaConfigRoutes
  import opened TicketRoutes

  /** What the form posts to /tickets. The deadlines travel as ISO text; here
      they are milliseconds. An id that is empty, or that `parseInt` reads as
      `NaN`, is sent as `null` (`None`). */
  datatype Payload = Payload(
    title: string, description: string, priority: string, category: string,
    assignedTo: Option<int>, clientId: Option<int>, slaStart: int, slaSolve: int)

  /** `field ? parseInt(field, 10) : null`. */
  function FormId(field: string): (r: Option<int>)
    ensures field == "" ==> r == None
  {
    if field == "" then None else ParseInt10(field)
  }

  /** A select holding the id `n` as text sends `n`. */
  lemma FormIdRoundTrip(n: int)
    ensures FormId(IntToString(n)) == Some(n)
  {
    ParseIntRoundTrip(n);
  }

  /** The body the route handler receives for a payload. */
  function PayloadBody(p: Payload): CreateBody
  {
    CreateBody(Str(p.title), Str(p.description), Str(p.priority), Str(p.category),
               if p.assignedTo.Some? then Num(p.assignedTo.value) else Null,
               if p.clientId.Some? then Num(p.clientId.value) else Null,
               Num(p.slaStart), Num(p.slaSolve))
  }

  /** The policy the form keeps from GET /sla-config: the row's hours; a 404
      is caught and leaves none. */
  function LoadedConfig(r: GetResponse): Option<Hours>
  {
    match r
    case Config(h) => Some(h)
    case ConfigNotFound => None
    case AllConfigs(_) => None // only when a parameter is empty, which the form rules out
  }

  /** What the server answered to the POST. */
  datatype PostReply =
    | CreatedReply
    | ErrorReply(status: int, error: Option<string>, details: Details)
    | NoReply(message: Option<string>)

  /** `response.data.details`: absent, a text, or a structure shown through
      `JSON.stringify(details, null, 2)` (given here as that text). */
  datatype Details = NoDetails | TextDetails(text: string) | StructuredDetails(json: string)

  const NoConfigMessage := "N\U{E3}o foi poss\U{ED}vel obter a configura\U{E7}\U{E3}o de SLA."
  const SuccessMessage := "Ticket criado com sucesso! SLA buscado do banco."
  const ErrorBase := "Erro ao criar ticket."

  /** The message and the detail shown after a failed POST. */
  function ErrorReport(reply: PostReply): (string, string)
  {
    match reply
    case CreatedReply => ("", "")
    case ErrorReply(status, error, details) =>
      var withError := if error.Some? && error.value != "" then ErrorBase + " " + error.value else ErrorBase;
      var message := if status != 0 then withError + " (HTTP " + IntToString(status) + ")" else withError;
      var detail := match details
        case NoDetails => ""
        case TextDetails(text) => text
        case StructuredDetails(json) => json;
      (message, detail)
    case NoReply(message) =>
      (ErrorBase, if message.Some? && message.value != "" then message.value else "Erro desconhecido.")
  }

  /** A server error always reads as the base message followed by the
      server's text and then the HTTP status; without an answer the message
      is the base alone and the detail is never empty. */
  lemma ErrorReportShape(status: int, error: string, details: Details, message: Option<string>)
    requires status != 0 && error != ""
    ensures ErrorReport(ErrorReply(status, Some(error), details)).0
              == ErrorBase + " " + error + " (HTTP " + IntToString(status) + ")"
    ensures IsPrefix(ErrorBase, ErrorReport(ErrorReply(status, None, details)).0)
    ensures ErrorReport(NoReply(message)).0 == ErrorBase && ErrorReport(NoReply(message)).1 != ""
  {
    var m := ErrorReport(ErrorReply(status, None, details)).0;
    assert m == ErrorBase + " (HTTP " + IntToString(status) + ")";
    assert m[..|ErrorBase|] == ErrorBase;
  }

  class TicketForm {
    var title: string
    var description: string
    var priority: string
    var category: string
    var assignedTo: string
    var clientId: string
    var message: string
    var errorDetail: Option<string>
    var slaConfig: Option<Hours>

    /** The fields and the loaded policy as the page first shows them
        (CreateTicket.js:8-18); the message and the error detail are left out,
        since a successful submit sets the one and keeps the other. */
    predicate AsFirstShown()
      reads this
    {
      && title == "" && description == "" && priority == "low" && category == "suporte"
      && assignedTo == "" && clientId == "" && slaConfig == None
    }

    /** The form as first shown. */
    constructor ()
      ensures AsFirstShown()
      ensures message == "" && errorDetail == None
    {
      title, description, priority, category := "", "", "low", "suporte";
      assignedTo, clientId := "", "";
      message, errorDetail, slaConfig := "", None, None;
    }

    /** `fetchSLAConfig`, run whenever the client or the priority changes.
        `plan` is the chosen client's plan, `None` when fetching the client
        failed. */
    method RefreshSlaConfig(plan: Option<Plan>, table: PolicyTable)
      modifies this
      ensures clientId == "" || priority == "" ==> slaConfig == None
      ensures clientId != "" && priority != "" && plan.Some? ==>
                slaConfig == LoadedConfig(Get(table, Some(PlanName(plan.value)), Some(priority)))
      ensures plan.None? ==> slaConfig == None
      ensures title == old(title) && description == old(description) && priority == old(priority)
      ensures category == old(category) && assignedTo == old(assignedTo) && clientId == old(clientId)
      ensures message == old(message) && errorDetail == old(errorDetail)
    {
      if clientId == "" || priority == "" {
        slaConfig := None;
        return;
      }
      if plan.None? {
        slaConfig := None;
      } else {
        slaConfig := LoadedConfig(Get(table, Some(PlanName(plan.value)), Some(priority)));
      }
    }

    /** The payload the form would post at `now` with policy `hours`. */
    function PayloadAt(now: int, hours: Hours): (p: Payload)
      reads this
      ensures p.slaStart == Deadline(now, hours.startHours) && p.slaSolve == Deadline(now, hours.solveHours)
    {
      Payload(title, description, priority, category, FormId(assignedTo), FormId(clientId),
              now + hours.startHours * HourMs, now + hours.solveHours * HourMs)
    }

    /** `handleSubmit` at `now`, the server answering `reply`. Without a
        loaded policy nothing is posted; otherwise the payload is posted, and
        a success resets the form while a failure shows the error. */
    method HandleSubmit(now: int, reply: PostReply) returns (sent: Option<Payload>)
      modifies this
      ensures old(slaConfig).None? ==>
                sent == None && message == NoConfigMessage && slaConfig == None
                && title == old(title) && description == old(description) && priority == old(priority)
                && category == old(category) && assignedTo == old(assignedTo) && clientId == old(clientId)
                && errorDetail == old(errorDetail)
      ensures old(slaConfig).Some? ==> sent == Some(old(PayloadAt(now, slaConfig.value)))
      ensures old(slaConfig).Some? && reply.CreatedReply? ==>
                message == SuccessMessage && errorDetail == None && AsFirstShown()
      ensures old(slaConfig).Some? && !reply.CreatedReply? ==>
                && message == ErrorReport(reply).0 && errorDetail == Some(ErrorReport(reply).1)
                && slaConfig == old(slaConfig) && title == old(title) && description == old(description)
                && priority == old(priority) && category == old(category)
                && assignedTo == old(assignedTo) && clientId == old(clientId)
    {
      if slaConfig.None? {
        message := NoConfigMessage;
        return None;
      }
      var payload := PayloadAt(now, slaConfig.value);
      message := "";
      errorDetail := None;
      sent := Some(payload);
      if reply.CreatedReply? {
        ResetAfterCreate();
      } else {
        ShowError(reply);
      }
    }

    /** The setters run after a created ticket: the success message, and
        the form as first shown. */
    method ResetAfterCreate()
      modifies this
      ensures message == SuccessMessage && errorDetail == old(errorDetail)
      ensures AsFirstShown()
    {
      message := SuccessMessage;
      title := "";
      description := "";
      priority := "low";
      category := "suporte";
      assignedTo := "";
      clientId := "";
      slaConfig := None;
    }

    /** The setters run after a failed POST: the message and the detail of
        the error, every field kept. */
    method ShowError(reply: PostReply)
      modifies this
      ensures message == ErrorReport(reply).0 && errorDetail == Some(ErrorReport(reply).1)
      ensures slaConfig == old(slaConfig) && title == old(title) && description == old(description)
      ensures priority == old(priority) && category == old(category)
      ensures assignedTo == old(assignedTo) && clientId == old(clientId)
    {
      var report := ErrorReport(reply);
      message := report.0;
      errorDetail := Some(report.1);
    }
  }

  /** The priority the form starts with (and returns to after a successful
      submit) is not the store's default, while its category is. */
  lemma ResetDefaults()
    ensures ParsePriority("low") == Some(Low) && Low != DefaultPriority
    ensures ParseCategory("suporte") == Some(DefaultCategory)
  {
  }

  /** The form and the route handler compute the same deadlines from the
      same policy row: when the form loaded `hours` for the client's plan and
      the priority, and the handler creates the posted ticket, each deadline
      the server stores differs from the one the form sent by exactly the
      time between the two clocks. */
  lemma FormAndServerDeadlinesAgree(p: Payload, formNow: int, hours: Hours, plan: Plan, table: PolicyTable,
                                    clients: map<int, Client>, actor: Actor, serverNow: int, newId: int, t: Ticket)
    requires Get(table, Some(PlanName(plan)), Some(p.priority)) == Config(hours)
    requires p.slaStart == Deadline(formNow, hours.startHours) && p.slaSolve == Deadline(formNow, hours.solveHours)
    requires p.clientId.Some? && p.clientId.value in clients && clients[p.clientId.value].plan == plan
    requires CreateTicket(PayloadBody(p), actor, clients, table, serverNow, newId) == Ok(t)
    ensures t.slaStart - p.slaStart == serverNow - formNow
    ensures t.slaSolve - p.slaSolve == serverNow - formNow
  {
    var h := CreateInserts(PayloadBody(p), actor, clients, table, serverNow, newId, t);
    assert h == hours;
  }
}
