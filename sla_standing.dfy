/** How the frontend shows a deadline: `slaStatusInfo` of
    frontend/src/pages/TicketDetails.js (a colour and a "time left / overdue
    by" text) and `getSlaColor` of frontend/src/pages/TicketList.js (the
    colour alone). Deadlines are integer milliseconds; `None` is an absent
    deadline. */
module SlaStanding {
  import opened JsValues
  import opened Models
  import opened TicketRoutes

  /** The three standings: overdue, less than an hour left, on time. */
  datatype Standing = Breached | Near | OnTime

  /** The branch `slaStatusInfo` takes: `now > deadline` first, then
      `deadline - now < 1 h`. */
  function Classify(deadline: int, now: int): Standing
  {
    if now > deadline then Breached
    else if deadline - now < HourMs then Near
    else OnTime
  }

  /** The thresholds spelled out: overdue strictly after the deadline; near
      from one hour before it up to and including the deadline itself; on
      time with at least a full hour left. */
  lemma ClassifyThresholds(deadline: int, now: int)
    ensures Classify(deadline, now) == Breached <==> deadline < now
    ensures Classify(deadline, now) == Near <==> now <= deadline < now + HourMs
    ensures Classify(deadline, now) == OnTime <==> now + HourMs <= deadline
  {
  }

  function Severity(s: Standing): nat
  {
    match s
    case OnTime => 0
    case Near => 1
    case Breached => 2
  }

  /** As time passes a deadline's standing never improves. */
  lemma StandingWorsens(deadline: int, now: int, later: int)
    requires now <= later
    ensures Severity(Classify(deadline, now)) <= Severity(Classify(deadline, later))
  {
  }

  /** The distance to the deadline split into whole hours and the whole
      minutes left over. */
  function Split(span: nat): (r: (nat, nat))
    ensures r.1 < 60
    ensures r.0 * HourMs + r.1 * MinuteMs <= span < r.0 * HourMs + (r.1 + 1) * MinuteMs
  {
    (span / HourMs, (span % HourMs) / MinuteMs)
  }

  /** `${hours ? `${hours}h ` : ''}${minutes}min`. */
  function SpanText(span: nat): string
  {
    var (hours, minutes) := Split(span);
    (if hours != 0 then NatToString(hours) + "h " else "") + NatToString(minutes) + "min"
  }

  /** The hour part appears exactly when at least an hour separates `now`
      from the deadline; the text always ends in minutes. */
  lemma SpanTextHours(span: nat)
    ensures 'h' in SpanText(span) <==> span >= HourMs
    ensures |SpanText(span)| > 3 && SpanText(span)[|SpanText(span)| - 3..] == "min"
  {
    var (hours, minutes) := Split(span);
    var m := NatToString(minutes);
    assert 'h' !in m by {
      forall i | 0 <= i < |m| ensures m[i] != 'h' { assert IsDigit(m[i]); }
    }
    assert 'h' !in "min";
    if hours != 0 {
      var h := NatToString(hours);
      assert SpanText(span) == h + "h " + m + "min";
      assert SpanText(span)[|h|] == 'h';
    } else {
      assert SpanText(span) == m + "min";
    }
  }

  function Abs(x: int): nat
  {
    if x < 0 then -x else x
  }

  const Red := "text-red-600 font-bold"
  const Yellow := "text-yellow-600 font-bold"
  const Green := "text-green-700"

  /** The colour class of a standing. */
  function StandingColor(s: Standing): string
  {
    match s
    case Breached => Red
    case Near => Yellow
    case OnTime => Green
  }

  datatype SlaInfo = SlaInfo(color: string, info: string)

  /** `slaStatusInfo(date)` at `now`. */
  function SlaStatusInfo(date: Option<int>, now: int): (r: SlaInfo)
  {
    match date
    case None => SlaInfo("", "")
    case Some(deadline) =>
      var text := SpanText(Abs(deadline - now));
      match Classify(deadline, now)
      case Breached => SlaInfo(Red, "Vencido h\U{E1} " + text)
      case Near => SlaInfo(Yellow, "Faltam " + text)
      case OnTime => SlaInfo(Green, "Faltam " + text)
  }

  /** An absent deadline, and only an absent one, shows no colour and no
      text; otherwise the text says "overdue by" exactly when the deadline
      has passed, and the colour is the standing's. */
  lemma SlaStatusInfoCases(date: Option<int>, now: int)
    ensures date.None? <==> SlaStatusInfo(date, now) == SlaInfo("", "")
    ensures date.Some? ==> SlaStatusInfo(date, now).color == StandingColor(Classify(date.value, now))
    ensures date.Some? ==> (IsPrefix("Vencido", SlaStatusInfo(date, now).info) <==> now > date.value)
  {
    if date.Some? {
      var text := SpanText(Abs(date.value - now));
      assert ("Faltam " + text)[..7] == "Faltam ";
      assert ("Vencido h\U{E1} " + text)[..7] == "Vencido";
    }
  }

  /** `getSlaColor(date)` at `now`. Its test `(deadline - now) / 1000 / 60 / 60
      < 1` is `deadline - now < 3 600 000` on integer milliseconds. */
  function SlaColor(date: Option<int>, now: int): string
  {
    if date.None? then ""
    else if now > date.value then Red
    else if date.value - now < HourMs then Yellow
    else Green
  }

  /** The list and the details page colour every deadline alike. */
  lemma SlaColorAgrees(date: Option<int>, now: int)
    ensures SlaColor(date, now) == SlaStatusInfo(date, now).color
  {
  }

  /** The backend's "SLA expired" report and the frontend's overdue standing
      of the solve deadline agree on every ticket that has a status and is
      not closed; a closed ticket is never reported although the page still
      shows it overdue. */
  lemma ExpiredIsBreached(t: Ticket, now: int)
    ensures SlaExpired(t, now) ==> Classify(t.slaSolve, now) == Breached
    ensures t.status.Some? && t.status.value != Closed ==>
              (SlaExpired(t, now) <==> Classify(t.slaSolve, now) == Breached)
    ensures t.status == Some(Closed) ==> !SlaExpired(t, now)
  {
  }
}
