/** Worked examples of rendering and notification, stated over the model. */
module Scenarios {
  import opened ArrowCore
  import opened Text
  import opened Gateway

  /** A gateway for the calendar "Household" with a 30-second limit. */
  function WithTemplate(text: string): CalendarOutputGateway
  {
    CreateCalendarOutputGateway(CalendarName("Household"), CalendarSummaryTemplate(text), MaximumNotifyDurationSeconds(30))
  }

  /** A template that opens with the token and has no other occurrence renders
      as the label followed by the rest of the template. */
  lemma SubjectOfLeadingToken(gateway: CalendarOutputGateway, t: ServiceType, rest: string)
    requires gateway.calendarSummaryTemplate.text == ServiceTypeToken + rest
    requires !Contains(rest, ServiceTypeToken)
    ensures MakeSubject(gateway, ServiceDetails(t)) == Label(t) + rest
  {
    ReplaceAllLeading(ServiceTypeToken, rest, Label(t));
  }

  /** "<<serviceType>> today" renders as "Refuse today" for a refuse service. */
  lemma RenderRefuseToday()
    ensures MakeSubject(WithTemplate("<<serviceType>>" + " today"), ServiceDetails(REFUSE))
         == "Refuse" + " today"
  {
    var g := WithTemplate("<<serviceType>>" + " today");
    assert ServiceTypeToken == "<<serviceType>>";
    assert MakeSubject(g, ServiceDetails(REFUSE)) == Label(REFUSE) + " today" by {
      ShorterThanPattern(" today", ServiceTypeToken);
      SubjectOfLeadingToken(g, REFUSE, " today");
    }
  }

  /** "<<serviceType>> today" renders as "Recycling today" for a recycling service. */
  lemma RenderRecyclingToday()
    ensures MakeSubject(WithTemplate("<<serviceType>>" + " today"), ServiceDetails(RECYCLING))
         == "Recycling" + " today"
  {
    var g := WithTemplate("<<serviceType>>" + " today");
    assert ServiceTypeToken == "<<serviceType>>";
    assert MakeSubject(g, ServiceDetails(RECYCLING)) == Label(RECYCLING) + " today" by {
      ShorterThanPattern(" today", ServiceTypeToken);
      SubjectOfLeadingToken(g, RECYCLING, " today");
    }
  }

  /** A template without `<<serviceType>>` is rendered as it is, whatever the
      service type. */
  lemma RenderWithoutToken(t: ServiceType)
    ensures MakeSubject(WithTemplate("Collection today"), ServiceDetails(t)) == "Collection today"
  {
    assert ServiceTypeToken[0] == ServiceTypeToken[1] == '<' by {
      assert ServiceTypeToken[..2] == "<<";
    }
    var collection := "Collection today";
    assert !(ServiceTypeToken <= collection) && !(ServiceTypeToken <= collection[1..]);
    ShorterThanPattern(collection[2..], ServiceTypeToken);
  }

  /** An unrecognised token such as `<<token>>` is left alone. */
  lemma RenderUnknownToken(t: ServiceType)
    ensures MakeSubject(WithTemplate("<<token>> today"), ServiceDetails(t)) == "<<token>> today"
  {
    var unknown := "<<token>> today";
    assert ServiceTypeToken[2] == 's' by {
      assert ServiceTypeToken[2..|ServiceTypeToken| - 2] == "serviceType";
    }
    assert !(ServiceTypeToken <= unknown) by {
      assert unknown[2] == 't';
    }
    ShorterThanPattern(unknown[1..], ServiceTypeToken);
  }

  /** The household scenario: calendar "Household", template
      "<<serviceType>> collection", 30 seconds, a recycling service. Once the
      duration exists, exactly one all-day "Recycling collection" event is asked
      for in "Household" at the clock reading, and the outcome is a success
      exactly when the library creates that event. */
  lemma HouseholdRecycling<D, C, R>(library: Collaborators<D, C, R>, now: Long)
    requires library.createDuration(30).Right?
    ensures var o := Notify(WithTemplate("<<serviceType>>" + " collection"), ServiceDetails(RECYCLING), library, now);
      var client := library.createKalendarApi(library.createDuration(30).right);
      var event := NewEvent("Recycling" + " collection", true, EventDate(now), EventDate(now));
      o.calls == [CreateDuration(30), ReadClock, CreateKalendarApi(library.createDuration(30).right),
                  CreateEvent(client, "Household", event)]
      && (o.result == Right(()) <==> library.createEvent(client, "Household", event).Right?)
  {
    var g := WithTemplate("<<serviceType>>" + " collection");
    assert MakeSubject(g, ServiceDetails(RECYCLING)) == "Recycling" + " collection" by {
      assert ServiceTypeToken == "<<serviceType>>";
      ShorterThanPattern(" collection", ServiceTypeToken);
      SubjectOfLeadingToken(g, RECYCLING, " collection");
    }
  }
}
