/**
 * The events page (app/events/page.tsx): the colour of each event type, the
 * capacity rule behind the RSVP button, and the page's state with its
 * transitions.
 */
module Events {
  import opened Api

  /** The colour of each event type the form offers. */
  const EventTypeColors: map<string, string> :=
    map["service" := "#3498db", "study" := "#2ecc71", "prayer" := "#e74c3c", "youth" := "#f39c12"]

  /** The colour of any other type. */
  const OtherColor := "#95a5a6"

  /** The colour of the RSVP button of a full event. */
  const FullColor := "#bdc3c7"

  /** `getEventColor`: total over all strings; unknown types fall back to grey. */
  function EventColor(kind: string): (c: string)
    ensures kind in EventTypeColors ==> c == EventTypeColors[kind]
    ensures kind !in EventTypeColors ==> c == OtherColor
    ensures c != FullColor
  {
    if kind == "service" then "#3498db"
    else if kind == "study" then "#2ecc71"
    else if kind == "prayer" then "#e74c3c"
    else if kind == "youth" then "#f39c12"
    else OtherColor
  }

  /** Distinct known types get distinct colours, none of them the fallback. */
  lemma EventColorsDistinct(k1: string, k2: string)
    requires k1 in EventTypeColors && k2 in EventTypeColors && k1 != k2
    ensures EventColor(k1) != EventColor(k2)
    ensures EventColor(k1) != OtherColor
  {
  }

  /** An event is full once its RSVPs reach its capacity (overbooking included). */
  predicate IsFull(e: Event) {
    e.rsvpCount >= e.maxCapacity
  }

  datatype RsvpButton = RsvpButton(disabled: bool, caption: string, background: string, cursor: string)

  /** The RSVP button drawn on an event's card. */
  function RsvpButtonFor(e: Event): (b: RsvpButton)
    ensures b.disabled <==> e.rsvpCount >= e.maxCapacity
    ensures b.caption == "Event Full" <==> b.disabled
    ensures b.caption == "RSVP Now" <==> !b.disabled
    ensures b.background == FullColor <==> b.disabled
    ensures !b.disabled ==> b.background == EventColor(e.kind)
    ensures b.cursor == "not-allowed" <==> b.disabled
    ensures b.cursor == "pointer" <==> !b.disabled
  {
    var full := IsFull(e);
    RsvpButton(full,
               if full then "Event Full" else "RSVP Now",
               if full then FullColor else EventColor(e.kind),
               if full then "not-allowed" else "pointer")
  }

  /** More RSVPs never reopen a full event. */
  lemma FullStaysFull(e: Event, more: nat)
    requires RsvpButtonFor(e).disabled
    ensures RsvpButtonFor(e.(rsvpCount := e.rsvpCount + more)).disabled
  {
  }

  /** The create-event form's fields. */
  datatype EventDraft = EventDraft(
    title: string,
    description: string,
    date: string,
    time: string,
    location: string,
    kind: string,
    maxCapacity: int)

  const InitialEventDraft := EventDraft("", "", "", "19:00", "", "service", 50)

  /** The body of the RSVP request: the page always sends a fixed placeholder user. */
  datatype RsvpRequest = RsvpRequest(eventId: string, userId: string)

  const DemoUserId := "demo-user-id"

  /**
   * The page's state. The page never filters its events: the shown list is
   * the loaded list, which Valid records.
   */
  class EventsPage {
    var events: seq<Event>
    var filteredEvents: seq<Event>
    var loading: bool
    var showAddForm: bool
    var newEvent: EventDraft

    predicate Valid()
      reads this
    {
      filteredEvents == events
    }

    constructor ()
      ensures Valid()
      ensures events == [] && loading && !showAddForm && newEvent == InitialEventDraft
    {
      events := [];
      filteredEvents := [];
      loading := true;
      showAddForm := false;
      newEvent := InitialEventDraft;
    }

    /**
     * `loadEvents`: on success both lists become the fetched list; on failure
     * neither changes. Loading ends either way.
     */
    method LoadEvents(fetched: Fetched<seq<Event>>)
      requires Valid()
      modifies this
      ensures Valid()
      ensures fetched.Received? ==> events == fetched.value
      ensures fetched.Failed? ==> events == old(events)
      ensures !loading
      ensures showAddForm == old(showAddForm) && newEvent == old(newEvent)
    {
      if fetched.Received? {
        events := fetched.value;
        filteredEvents := fetched.value;
      }
      loading := false;
    }

    method OpenAddForm()
      requires Valid()
      modifies this
      ensures Valid()
      ensures showAddForm
      ensures events == old(events) && filteredEvents == old(filteredEvents)
      ensures loading == old(loading) && newEvent == old(newEvent)
    {
      showAddForm := true;
    }

    method CloseAddForm()
      requires Valid()
      modifies this
      ensures Valid()
      ensures !showAddForm
      ensures events == old(events) && filteredEvents == old(filteredEvents)
      ensures loading == old(loading) && newEvent == old(newEvent)
    {
      showAddForm := false;
    }

    /**
     * `handleAddEvent`, once the create request has settled. The request
     * sends the draft as it stands. On success the form closes, the draft
     * goes back to its initial values and a reload is started (`refresh`);
     * on failure nothing changes.
     */
    method HandleAddEvent(created: bool) returns (request: EventDraft, refresh: bool)
      requires Valid()
      modifies this
      ensures Valid()
      ensures request == old(newEvent)
      ensures refresh == created
      ensures created ==> !showAddForm && newEvent == InitialEventDraft
      ensures !created ==> showAddForm == old(showAddForm) && newEvent == old(newEvent)
      ensures events == old(events) && filteredEvents == old(filteredEvents) && loading == old(loading)
    {
      request := newEvent;
      if created {
        showAddForm := false;
        newEvent := InitialEventDraft;
      }
      refresh := created;
    }

    /**
     * `handleRSVP`: the request it sends for an event, and whether it starts
     * a reload (only once the server confirmed). It changes no page state.
     */
    method HandleRsvp(eventId: string, confirmed: bool) returns (request: RsvpRequest, refresh: bool)
      ensures request.eventId == eventId && request.userId == DemoUserId
      ensures refresh == confirmed
    {
      request := RsvpRequest(eventId, DemoUserId);
      refresh := confirmed;
    }
  }
}
