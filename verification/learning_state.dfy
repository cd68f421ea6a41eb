/**
 * The in-memory application state the learning loop works on
 * (backend/app/main.py): the knowledge-article rows and their id lookup, the
 * lineage rows, the learning events, the seed lookups and the vector index.
 */
module LearningState {
  import opened Wrappers
  import opened Text
  import opened VectorStore
  import opened KbIds

  /** One lineage source of a draft: where the article's knowledge came from. */
  datatype Source = Source(sourceType: string, sourceId: string, relationship: string)

  /** A KB article draft attached to an event. */
  datatype Draft = Draft(title: string, body: string, tags: string, sourceTicket: string,
                         sourceConversation: string, sourceScript: string, lineage: seq<Source>)

  /** The extra fields a scan-created event carries. */
  datatype ScanInfo = ScanInfo(bestKbScore: real, bestKbMatch: Option<string>)

  /** The extra fields a copilot-reported event carries. */
  datatype ReportInfo = ReportInfo(sourceQuestion: string, reportedConfidence: real)

  /** The fields a review writes. */
  datatype ReviewInfo = ReviewInfo(notes: string, reviewedAt: string)

  /**
   * A learning event: the nine fields every event has, then the draft and the
   * optional groups of fields only some events carry.
   */
  datatype Event = Event(
    eventId: string, ticketNumber: string, conversationId: string, detectedGap: string,
    proposedKbId: string, draftSummary: string, status: string, reviewerRole: string, timestamp: string,
    draft: Option<Draft>, scan: Option<ScanInfo>, report: Option<ReportInfo>, review: Option<ReviewInfo>)

  /**
   * The application state: knowledge-article rows and the id lookup over them,
   * lineage rows, learning events, the ticket and conversation rows, the seed
   * lookups (tickets and conversations by ticket number, scripts by id) and the
   * vector index.
   */
  datatype State = State(
    articles: seq<Row>, kbArticles: map<string, Row>, lineage: seq<Row>, events: seq<Event>,
    ticketRows: seq<Row>, conversationRows: seq<Row>,
    tickets: map<string, Row>, conversations: map<string, Row>, scripts: map<string, Row>,
    store: Store)

  /** The error answers a handler gives, with their HTTP status in the name. */
  datatype ApiError = BadRequest400(detail: string) | NotFound404(detail: string)
                    | Unprocessable422(detail: string) | ServerError500(detail: string)

  /** A handler's outcome: the state afterwards (changed even on some errors) and its answer. */
  datatype Reply<T> = Reply(state: State, result: Result<T, ApiError>)

  /** `lookup.get(key)`. */
  function Get(m: map<string, Row>, key: string): Option<Row> {
    if key in m then Some(m[key]) else None
  }

  /** Python truthiness of an optional record: present and not the empty dict. */
  predicate Found(r: Option<Row>) {
    r.Some? && r.value != map[]
  }

  /** The record if found, else the empty dict that `x.get(...) if x else ...` falls back to. */
  function OrEmpty(r: Option<Row>): Row {
    if r.Some? then r.value else map[]
  }

  /** The ids `_next_kb_sequence` looks at: every article's id, then every event's proposed id. */
  function KbIdsInUse(st: State): (ids: seq<string>)
    ensures |ids| == |st.articles| + |st.events|
    ensures forall i :: 0 <= i < |st.articles| ==> ids[i] == Field(st.articles[i], "KB_Article_ID")
    ensures forall j :: 0 <= j < |st.events| ==> ids[|st.articles| + j] == st.events[j].proposedKbId
  {
    seq(|st.articles|, i requires 0 <= i < |st.articles| => Field(st.articles[i], "KB_Article_ID"))
    + seq(|st.events|, j requires 0 <= j < |st.events| => st.events[j].proposedKbId)
  }

  /** `f"{KB_ID_PREFIX}-{_next_kb_sequence():04d}"`: a KB id no article or event uses yet. */
  function MintKbId(st: State): (id: string)
    ensures forall i :: 0 <= i < |st.articles| ==> Field(st.articles[i], "KB_Article_ID") != id
    ensures forall j :: 0 <= j < |st.events| ==> st.events[j].proposedKbId != id
  {
    var ids := KbIdsInUse(st);
    MintedIsFresh(ids, NextKbSequence(ids));
    FormatKbId(NextKbSequence(ids))
  }

  /** `next(e for e in events if e["event_id"] == id)`: the position of the first event with the id. */
  function FindEvent(events: seq<Event>, id: string): (r: Option<nat>)
    ensures r.Some? ==> r.value < |events| && events[r.value].eventId == id
    ensures r.Some? ==> forall j :: 0 <= j < r.value ==> events[j].eventId != id
    ensures r.None? ==> forall j :: 0 <= j < |events| ==> events[j].eventId != id
  {
    if events == [] then None
    else if events[0].eventId == id then Some(0)
    else
      var r := FindEvent(events[1..], id);
      if r.Some? then Some(r.value + 1) else None
  }

  /** The state with event `i` replaced. */
  function WithEvent(st: State, i: nat, e: Event): (r: State)
    requires i < |st.events|
    ensures r.events == st.events[i := e]
    ensures r == st.(events := r.events)
  {
    st.(events := st.events[i := e])
  }

  /** The event a `Learning_Events` row becomes, or nothing when it has no `Event_ID`. */
  function EventOfRow(row: Row): (e: Option<Event>)
    ensures e.Some? <==> Field(row, "Event_ID") != ""
    ensures e.Some? ==>
      && e.value.eventId == Field(row, "Event_ID")
      && e.value.status == FieldOr(row, "Final_Status", "Pending")
      && e.value.proposedKbId == Field(row, "Proposed_KB_Article_ID")
      && e.value.draft.None? && e.value.scan.None? && e.value.report.None? && e.value.review.None?
  {
    var eid := Field(row, "Event_ID");
    if eid == "" then None
    else Some(Event(eid, Field(row, "Trigger_Ticket_Number"), Field(row, "Trigger_Conversation_ID"),
                    Field(row, "Detected_Gap"), Field(row, "Proposed_KB_Article_ID"), Field(row, "Draft_Summary"),
                    FieldOr(row, "Final_Status", "Pending"), Field(row, "Reviewer_Role"),
                    Field(row, "Event_Timestamp"), None, None, None, None))
  }

  /** `_init_learning_events`: the events of the rows that have an `Event_ID`, in row order. */
  function InitEvents(rows: seq<Row>): (events: seq<Event>)
    ensures |events| <= |rows|
    ensures forall e :: e in events ==> e.eventId != "" && exists row :: row in rows && EventOfRow(row) == Some(e)
    ensures forall row :: row in rows && EventOfRow(row).Some? ==> EventOfRow(row).value in events
  {
    if rows == [] then []
    else
      var rest := InitEvents(rows[1..]);
      assert forall row :: row in rows ==> row == rows[0] || row in rows[1..];
      match EventOfRow(rows[0])
      case Some(e) => [e] + rest
      case None => rest
  }

  /** The events of two runs of rows are those of the first run followed by those of the second. */
  lemma {:induction false} InitEventsAppend(a: seq<Row>, b: seq<Row>)
    ensures InitEvents(a + b) == InitEvents(a) + InitEvents(b)
  {
    if a == [] {
      assert a + b == b;
    } else {
      assert (a + b)[1..] == a[1..] + b;
      assert (a + b)[0] == a[0];
      InitEventsAppend(a[1..], b);
    }
  }
}
