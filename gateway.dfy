/** The calendar output gateway: it turns the service details of an upcoming
    collection into an all-day calendar event created through a foreign
    calendar library, with the event summary rendered from a template by
    substituting the token `<<serviceType>>`.

    The library calls (`createDuration`, `createKalendarApi`, `createEvent`)
    are inputs, gathered in `Collaborators`; the wall clock is the
    millisecond value `now` it would return. `Notify` reports, beside its
    result, the calls it made in order, so that what it does and does not ask
    of the library can be stated. */
module Gateway {
  import opened ArrowCore
  import opened Text

  /** A Kotlin `Long`. */
  type Long = x: int | -0x8000_0000_0000_0000 <= x < 0x8000_0000_0000_0000

  // ---------------------------------------------------------------------
  // Values
  // ---------------------------------------------------------------------

  /** The kinds of collection service the gateway labels. */
  datatype ServiceType = REFUSE | RECYCLING

  /** The service details handed to `notify`; only the service type is read. */
  datatype ServiceDetails = ServiceDetails(serviceType: ServiceType)

  datatype CalendarName = CalendarName(text: string)

  datatype CalendarSummaryTemplate = CalendarSummaryTemplate(text: string)

  datatype MaximumNotifyDurationSeconds = MaximumNotifyDurationSeconds(magnitude: Long)

  /** The gateway holds its three configuration values and nothing else. */
  datatype CalendarOutputGateway = CalendarOutputGateway(
    calendarName: CalendarName,
    calendarSummaryTemplate: CalendarSummaryTemplate,
    maximumNotifyDurationSeconds: MaximumNotifyDurationSeconds)

  /** A failure reported by the calendar library. */
  datatype Throwable = Throwable(message: string)

  /** The calendar library's event date: an instant in epoch milliseconds. */
  datatype EventDate = EventDate(epochMillis: Long)

  datatype NewEvent = NewEvent(
    summary: string,
    alldayEvent: bool,
    startDate: EventDate,
    endDate: EventDate)

  /** The calendar library as the gateway sees it. `D` is its duration type,
      `C` its client type and `R` what a successful `createEvent` returns.
      `createDuration` is always asked for seconds. */
  datatype Collaborators<!D, !C, R> = Collaborators(
    createDuration: Long -> Either<Throwable, D>,
    createKalendarApi: D -> C,
    createEvent: (C, string, NewEvent) -> Either<Throwable, R>)

  /** One call from `notify` into the library or the clock. */
  datatype Call<D, C> =
    | CreateDuration(seconds: Long)
    | ReadClock
    | CreateKalendarApi(maximumDuration: D)
    | CreateEvent(client: C, calendarName: string, event: NewEvent)

  /** What `notify` returns, and the calls it made to get there. */
  datatype Outcome<D, C> = Outcome(result: Either<Throwable, ()>, calls: seq<Call<D, C>>)

  // ---------------------------------------------------------------------
  // Construction
  // ---------------------------------------------------------------------

  /** Building a gateway never fails and validates nothing: the three values
      are kept as given, and a bad duration only shows when notifying. */
  function CreateCalendarOutputGateway(
    calendarName: CalendarName,
    calendarSummaryTemplate: CalendarSummaryTemplate,
    maximumNotifyDurationSeconds: MaximumNotifyDurationSeconds): (g: CalendarOutputGateway)
    ensures g.calendarName == calendarName
    ensures g.calendarSummaryTemplate == calendarSummaryTemplate
    ensures g.maximumNotifyDurationSeconds == maximumNotifyDurationSeconds
  {
    CalendarOutputGateway(calendarName, calendarSummaryTemplate, maximumNotifyDurationSeconds)
  }

  // ---------------------------------------------------------------------
  // Token substitution
  // ---------------------------------------------------------------------

  /** The placeholder for a token name: the name between `<<` and `>>`. */
  function Token(name: string): (t: string)
    ensures |t| == |name| + 4
    ensures t[..2] == "<<" && t[2..|t| - 2] == name && t[|t| - 2..] == ">>"
  {
    "<<" + name + ">>"
  }

  /** The one token the gateway recognises. */
  const ServiceTypeToken: string := Token("serviceType")

  /** Applies each (token name, replacement) pair in list order, every pair
      replacing all occurrences of its placeholder in the text produced by
      the pairs before it. */
  function ReplaceTokens(tokensAndReplacements: seq<(string, string)>, templateText: string): (r: string)
    ensures tokensAndReplacements == [] ==> r == templateText
    // A template holding none of the placeholders passes through unchanged.
    ensures (forall i :: 0 <= i < |tokensAndReplacements| ==>
               !Contains(templateText, Token(tokensAndReplacements[i].0)))
            ==> r == templateText
    decreases |tokensAndReplacements|
  {
    if tokensAndReplacements == [] then templateText
    else
      var (first, second) := tokensAndReplacements[0];
      ReplaceTokens(tokensAndReplacements[1..], ReplaceAll(templateText, Token(first), second))
  }

  /** With a single pair, substitution is one `ReplaceAll`. */
  lemma ReplaceTokensSingle(name: string, replacement: string, templateText: string)
    ensures ReplaceTokens([(name, replacement)], templateText)
         == ReplaceAll(templateText, Token(name), replacement)
  {
  }

  /** Substituting with `a + b` is substituting with `a`, then with `b`. */
  lemma {:induction false} ReplaceTokensAppend(a: seq<(string, string)>, b: seq<(string, string)>, templateText: string)
    ensures ReplaceTokens(a + b, templateText) == ReplaceTokens(b, ReplaceTokens(a, templateText))
    decreases |a|
  {
    if a != [] {
      assert (a + b)[0] == a[0];
      assert (a + b)[1..] == a[1..] + b;
      ReplaceTokensAppend(a[1..], b, ReplaceAll(templateText, Token(a[0].0), a[0].1));
    } else {
      assert a + b == b;
    }
  }

  /** The last pair of the list is applied last, to the result of all others. */
  lemma ReplaceTokensLast(pairs: seq<(string, string)>, name: string, replacement: string, templateText: string)
    ensures ReplaceTokens(pairs + [(name, replacement)], templateText)
         == ReplaceAll(ReplaceTokens(pairs, templateText), Token(name), replacement)
  {
    ReplaceTokensAppend(pairs, [(name, replacement)], templateText);
    assert [(name, replacement)][1..] == [];
  }

  // ---------------------------------------------------------------------
  // Subject rendering
  // ---------------------------------------------------------------------

  /** The enum constant's name, as `toString()` gives it: a non-empty word
      starting with an ASCII capital (`NameIsUpperCase` has the rest). */
  function Name(t: ServiceType): (name: string)
    ensures |name| > 0 && IsUpper(name[0])
  {
    match t
    case REFUSE => "REFUSE"
    case RECYCLING => "RECYCLING"
  }

  /** Every character of a constant's name is an ASCII capital. */
  lemma NameIsUpperCase(t: ServiceType)
    ensures forall i :: 0 <= i < |Name(t)| ==> IsUpper(Name(t)[i])
  {
  }

  /** The human-readable label: the name lower-cased, then capitalised. The
      generic transformation gives the labels the gateway documents. */
  function Label(t: ServiceType): (typeLabel: string)
    ensures typeLabel == (match t case REFUSE => "Refuse" case RECYCLING => "Recycling")
  {
    Capitalize(ToLower(Name(t)))
  }

  /** Every label is a title-case word as long as the name: the name's first
      letter kept upper-case, the rest lower-cased, so no capital after the
      first character. */
  lemma LabelIsTitleCase(t: ServiceType)
    ensures |Label(t)| == |Name(t)| > 0
    ensures Label(t)[0] == Name(t)[0] && IsUpper(Label(t)[0])
    ensures forall i :: 1 <= i < |Label(t)| ==> Label(t)[i] == LowerChar(Name(t)[i]) && !IsUpper(Label(t)[i])
  {
    TitleCase(Name(t));
  }

  /** The documented labels cannot take part in forming the token: each is
      non-empty, starts with a character the token lacks, and has no `<`. */
  lemma DocumentedLabelAvoidsToken(typeLabel: string)
    requires typeLabel == "Refuse" || typeLabel == "Recycling"
    ensures typeLabel != []
    ensures typeLabel[0] !in ServiceTypeToken
    ensures ServiceTypeToken[0] !in typeLabel
  {
    assert ServiceTypeToken == "<<serviceType>>";
  }

  /** So no label of a service type can take part in forming the token. */
  lemma LabelAvoidsToken(t: ServiceType)
    ensures Label(t) != []
    ensures Label(t)[0] !in ServiceTypeToken
    ensures ServiceTypeToken[0] !in Label(t)
  {
    DocumentedLabelAvoidsToken(Label(t));
  }

  /** The subject: the template with every `<<serviceType>>` replaced by the
      label of the service type. A template without the token comes back
      unchanged, and the token never survives rendering. */
  function MakeSubject(gateway: CalendarOutputGateway, serviceDetails: ServiceDetails): (subject: string)
    ensures subject == ReplaceAll(gateway.calendarSummaryTemplate.text, ServiceTypeToken, Label(serviceDetails.serviceType))
    ensures !Contains(gateway.calendarSummaryTemplate.text, ServiceTypeToken) ==> subject == gateway.calendarSummaryTemplate.text
    ensures !Contains(subject, ServiceTypeToken)
  {
    var typeLabel := Label(serviceDetails.serviceType);
    LabelAvoidsToken(serviceDetails.serviceType);
    ReplaceAllRemovesPattern(gateway.calendarSummaryTemplate.text, ServiceTypeToken, typeLabel);
    ReplaceTokens([("serviceType", typeLabel)], gateway.calendarSummaryTemplate.text)
  }

  // ---------------------------------------------------------------------
  // Notification
  // ---------------------------------------------------------------------

  /** The event is an all-day event on the single instant `now`. */
  predicate AllDayAt(event: NewEvent, now: Long)
  {
    event.alldayEvent && event.startDate == event.endDate == EventDate(now)
  }

  /** Creates the event for `serviceDetails`: a duration from the configured
      seconds, then (reading the clock once) a client bounded by it, then the
      all-day event in the configured calendar. The first failure is the
      result, verbatim; a success carries no value. */
  function Notify<D, C, R>(
    gateway: CalendarOutputGateway,
    serviceDetails: ServiceDetails,
    library: Collaborators<D, C, R>,
    now: Long): (o: Outcome<D, C>)
    ensures var seconds := gateway.maximumNotifyDurationSeconds.magnitude;
      o.calls != [] && o.calls[0] == CreateDuration(seconds)
    // A duration failure is returned as it is, and nothing else is called.
    ensures var duration := library.createDuration(gateway.maximumNotifyDurationSeconds.magnitude);
      duration.Left? ==> o.result == Left(duration.left) && |o.calls| == 1
    // Otherwise: one clock reading, one client bounded by that duration, one
    // event through that client; the result is the event call's, with its
    // success value dropped and its failure kept.
    ensures var duration := library.createDuration(gateway.maximumNotifyDurationSeconds.magnitude);
      duration.Right? ==>
        |o.calls| == 4 && o.calls[1] == ReadClock
        && o.calls[2] == CreateKalendarApi(duration.right)
        && o.calls[3].CreateEvent?
        && o.calls[3].client == library.createKalendarApi(duration.right)
        && var created := library.createEvent(o.calls[3].client, o.calls[3].calendarName, o.calls[3].event);
           (o.result.Right? <==> created.Right?)
           && (created.Left? ==> o.result.left == created.left)
    // Every event asked for is all-day at the clock reading, in the configured
    // calendar, with the rendered subject.
    ensures forall call <- o.calls :: call.CreateEvent? ==>
      AllDayAt(call.event, now)
      && call.calendarName == gateway.calendarName.text
      && call.event.summary == MakeSubject(gateway, serviceDetails)
      && !Contains(call.event.summary, ServiceTypeToken)
  {
    var seconds := gateway.maximumNotifyDurationSeconds.magnitude;
    match library.createDuration(seconds)
    case Left(failure) => Outcome(Left(failure), [CreateDuration(seconds)])
    case Right(maximumDuration) =>
      var eventDate := EventDate(now);
      var client := library.createKalendarApi(maximumDuration);
      var event := NewEvent(
        summary := MakeSubject(gateway, serviceDetails),
        alldayEvent := true,
        startDate := eventDate,
        endDate := eventDate);
      var created := library.createEvent(client, gateway.calendarName.text, event);
      Outcome(
        created.Map(_ => ()),
        [CreateDuration(seconds), ReadClock, CreateKalendarApi(maximumDuration),
         CreateEvent(client, gateway.calendarName.text, event)])
  }
}
