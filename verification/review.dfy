/**
 * The human-in-the-loop part of the learning loop (backend/app/main.py): a
 * draft article generated for an event or a ticket, with its lineage, and the
 * review that approves (indexing and recording the article) or rejects it.
 *
 * The language model that writes drafts is not modelled: a `TicketDrafter`
 * stands for `generate_kb_draft` and a `GapDrafter` for
 * `generate_kb_draft_from_gap`. The clock is the `now` parameter and a failing
 * index write is the `indexFails` flag.
 */
module Review {
  import opened Wrappers
  import opened Text
  import opened VectorStore
  import opened LearningState
  import opened KbRecords

  // ---------------------------------------------------------------------------
  // Shared: the ticket behind an event
  // ---------------------------------------------------------------------------

  /** The ticket a (stripped) ticket number finds: `tickets.get(n) if n else None`. */
  function TicketOf(st: State, ticketNumber: string): Option<Row> {
    if ticketNumber != "" then Get(st.tickets, ticketNumber) else None
  }

  /** `ticket.get(key, "") if ticket else ""`. */
  function TicketField(ticket: Option<Row>, key: string): string {
    if Found(ticket) then Field(ticket.value, key) else ""
  }

  /** The first non-empty string of a fallback chain `a or b or ...`, or "" when all are empty. */
  function FirstFilled(choices: seq<string>): (r: string)
    ensures r == "" <==> forall i :: 0 <= i < |choices| ==> choices[i] == ""
    ensures r != "" ==> exists i :: 0 <= i < |choices| && choices[i] == r && forall j :: 0 <= j < i ==> choices[j] == ""
  {
    if choices == [] then ""
    else if choices[0] != "" then choices[0]
    else
      var r := FirstFilled(choices[1..]);
      assert forall i :: 1 <= i < |choices| ==> choices[i] == choices[1..][i - 1];
      if r != "" then
        var k :| 0 <= k < |choices[1..]| && choices[1..][k] == r && forall j :: 0 <= j < k ==> choices[1..][j] == "";
        assert choices[k + 1] == r;
        r
      else r
  }

  /** Position of a lineage source type in the order the handlers list sources. */
  function TypeRank(sourceType: string): nat {
    if sourceType == "Ticket" then 0
    else if sourceType == "Conversation" then 1
    else if sourceType == "Script" then 2
    else 3
  }

  /** The sources are listed Ticket, Conversation, Script, Copilot, each at most once. */
  predicate InTypeOrder(sources: seq<Source>) {
    forall i, j :: 0 <= i < j < |sources| ==> TypeRank(sources[i].sourceType) < TypeRank(sources[j].sourceType)
  }

  /** The sources that are there, in slot order. */
  function Present(slots: seq<Option<Source>>): (r: seq<Source>)
    ensures |r| <= |slots|
  {
    if slots == [] then []
    else (if slots[0].Some? then [slots[0].value] else []) + Present(slots[1..])
  }

  /** A source is listed exactly when its slot holds it. */
  lemma {:induction false} PresentMembers(slots: seq<Option<Source>>, x: Source)
    ensures x in Present(slots) <==> Some(x) in slots
  {
    if slots != [] {
      PresentMembers(slots[1..], x);
      assert slots == [slots[0]] + slots[1..];
    }
  }

  /** Slots whose sources have increasing type ranks list their sources in type order. */
  lemma {:induction false} PresentOrdered(slots: seq<Option<Source>>)
    requires forall i, j :: 0 <= i < j < |slots| && slots[i].Some? && slots[j].Some? ==>
               TypeRank(slots[i].value.sourceType) < TypeRank(slots[j].value.sourceType)
    ensures InTypeOrder(Present(slots))
  {
    if slots != [] {
      var rest := Present(slots[1..]);
      PresentOrdered(slots[1..]);
      if slots[0].Some? {
        forall x | x in rest ensures TypeRank(slots[0].value.sourceType) < TypeRank(x.sourceType) {
          PresentMembers(slots[1..], x);
          var k :| 0 <= k < |slots[1..]| && slots[1..][k] == Some(x);
          assert slots[k + 1] == Some(x);
        }
        var r := [slots[0].value] + rest;
        forall i, j | 0 <= i < j < |r| ensures TypeRank(r[i].sourceType) < TypeRank(r[j].sourceType) {
          if i == 0 { assert r[j] in rest; } else { assert r[i] == rest[i - 1] && r[j] == rest[j - 1]; }
        }
      }
    }
  }

  /**
   * The four slots of a lineage list: a Ticket edge when there is a ticket
   * number, a Conversation edge when there is a conversation id, a Script edge
   * when there is a script id, and a Copilot edge when there is a reporting
   * event — in that order.
   */
  function LineageSlots(ticketNumber: string, conversationId: Option<string>, scriptId: Option<string>,
                        copilotEventId: Option<string>): (r: seq<Option<Source>>)
    ensures |r| == 4
  {
    [if ticketNumber != "" then Some(Source("Ticket", ticketNumber, "CREATED_FROM")) else None,
     if conversationId.Some? then Some(Source("Conversation", conversationId.value, "CREATED_FROM")) else None,
     if scriptId.Some? then Some(Source("Script", scriptId.value, "REFERENCES")) else None,
     if copilotEventId.Some? then Some(Source("Copilot", copilotEventId.value, "REPORTED_FROM")) else None]
  }

  /** A lineage list of the handlers: the sources of the four slots. */
  function LineageSources(ticketNumber: string, conversationId: Option<string>, scriptId: Option<string>,
                          copilotEventId: Option<string>): seq<Source> {
    Present(LineageSlots(ticketNumber, conversationId, scriptId, copilotEventId))
  }

  /**
   * A lineage list holds exactly the edges whose ingredient is there — the
   * Ticket edge with the ticket number, the Conversation edge with the
   * conversation id, and so on — in the order Ticket, Conversation, Script,
   * Copilot.
   */
  lemma LineageSourcesShape(ticketNumber: string, conversationId: Option<string>, scriptId: Option<string>,
                            copilotEventId: Option<string>)
    ensures var r := LineageSources(ticketNumber, conversationId, scriptId, copilotEventId);
      && (ticketNumber != "" ==> Source("Ticket", ticketNumber, "CREATED_FROM") in r)
      && (conversationId.Some? ==> Source("Conversation", conversationId.value, "CREATED_FROM") in r)
      && (scriptId.Some? ==> Source("Script", scriptId.value, "REFERENCES") in r)
      && (copilotEventId.Some? ==> Source("Copilot", copilotEventId.value, "REPORTED_FROM") in r)
      && (forall x :: x in r ==>
            || (ticketNumber != "" && x == Source("Ticket", ticketNumber, "CREATED_FROM"))
            || (conversationId.Some? && x == Source("Conversation", conversationId.value, "CREATED_FROM"))
            || (scriptId.Some? && x == Source("Script", scriptId.value, "REFERENCES"))
            || (copilotEventId.Some? && x == Source("Copilot", copilotEventId.value, "REPORTED_FROM")))
      && InTypeOrder(r)
  {
    LineageSourcesMembers(ticketNumber, conversationId, scriptId, copilotEventId);
    LineageSourcesOrdered(ticketNumber, conversationId, scriptId, copilotEventId);
  }

  /** The members of a lineage list, as `LineageSourcesShape` states them. */
  lemma LineageSourcesMembers(ticketNumber: string, conversationId: Option<string>, scriptId: Option<string>,
                              copilotEventId: Option<string>)
    ensures var r := LineageSources(ticketNumber, conversationId, scriptId, copilotEventId);
      && (ticketNumber != "" ==> Source("Ticket", ticketNumber, "CREATED_FROM") in r)
      && (conversationId.Some? ==> Source("Conversation", conversationId.value, "CREATED_FROM") in r)
      && (scriptId.Some? ==> Source("Script", scriptId.value, "REFERENCES") in r)
      && (copilotEventId.Some? ==> Source("Copilot", copilotEventId.value, "REPORTED_FROM") in r)
      && (forall x :: x in r ==>
            || (ticketNumber != "" && x == Source("Ticket", ticketNumber, "CREATED_FROM"))
            || (conversationId.Some? && x == Source("Conversation", conversationId.value, "CREATED_FROM"))
            || (scriptId.Some? && x == Source("Script", scriptId.value, "REFERENCES"))
            || (copilotEventId.Some? && x == Source("Copilot", copilotEventId.value, "REPORTED_FROM")))
  {
    var slots := LineageSlots(ticketNumber, conversationId, scriptId, copilotEventId);
    forall x ensures x in Present(slots) <==> Some(x) in slots {
      PresentMembers(slots, x);
    }
  }

  /** A lineage list is in type order. */
  lemma LineageSourcesOrdered(ticketNumber: string, conversationId: Option<string>, scriptId: Option<string>,
                              copilotEventId: Option<string>)
    ensures InTypeOrder(LineageSources(ticketNumber, conversationId, scriptId, copilotEventId))
  {
    PresentOrdered(LineageSlots(ticketNumber, conversationId, scriptId, copilotEventId));
  }

  // ---------------------------------------------------------------------------
  // Draft generation
  // ---------------------------------------------------------------------------

  /** The request's optional strings; "" stands for a missing one (both are falsy). */
  datatype DraftRequest = DraftRequest(eventId: string, ticketNumber: string, question: string)

  /** What a drafter returns: title, body and tags ("" for a missing key). */
  datatype DraftText = DraftText(title: string, body: string, tags: string)

  /** `generate_kb_draft(ticket, conversation, script)`. */
  type TicketDrafter = (Row, Option<Row>, Option<Row>) -> DraftText

  /** `generate_kb_draft_from_gap(question)`. */
  type GapDrafter = string -> DraftText

  /** The records a draft is built from. */
  datatype DraftContext = DraftContext(ticketNumber: string, ticket: Option<Row>, conversation: Option<Row>,
                                       scriptId: string, script: Option<Row>)

  /** The ticket number (the request's, else the event's), and the records it leads to. */
  function ContextFor(st: State, requested: string, event: Option<Event>): (c: DraftContext)
    ensures Strip(requested) != "" ==> c.ticketNumber == Strip(requested)
    ensures Strip(requested) == "" ==> c.ticketNumber == (if event.Some? then Strip(event.value.ticketNumber) else "")
    ensures c.ticketNumber == "" ==> c.ticket.None? && c.conversation.None?
    ensures c.scriptId == TicketField(c.ticket, "Script_ID")
    ensures c.scriptId == "" ==> c.script.None?
  {
    var own := Strip(requested);
    var tn := if own == "" && event.Some? then Strip(event.value.ticketNumber) else own;
    var ticket := TicketOf(st, tn);
    var conversation := if tn != "" then Get(st.conversations, tn) else None;
    var scriptId := TicketField(ticket, "Script_ID");
    var script := if scriptId != "" then Get(st.scripts, scriptId) else None;
    DraftContext(tn, ticket, conversation, scriptId, script)
  }

  /** The question a gap draft is written for: the request's, the event's reported one, or its gap text. */
  function GapQuestion(requested: string, event: Option<Event>): string {
    var reported := if event.Some? && event.value.report.Some? then event.value.report.value.sourceQuestion else "";
    var gap := if event.Some? then event.value.detectedGap else "";
    Strip(FirstFilled([requested, reported, gap]))
  }

  /** The lineage of `generate_draft`. */
  function DraftLineage(c: DraftContext, event: Option<Event>): seq<Source> {
    LineageSources(c.ticketNumber,
                   if Found(c.conversation) then Some(Field(c.conversation.value, "Conversation_ID")) else None,
                   if Found(c.script) then Some(c.scriptId) else None,
                   if c.ticketNumber == "" && event.Some? then Some(event.value.eventId) else None)
  }

  /** The draft payload `generate_draft` returns and stores on the event. */
  function DraftPayload(c: DraftContext, event: Option<Event>, text: DraftText): (d: Draft)
    ensures d.title == text.title && d.body == text.body && d.tags == text.tags
    ensures d.sourceTicket == c.ticketNumber && d.sourceScript == c.scriptId
    ensures d.lineage == DraftLineage(c, event)
  {
    var conversationId :=
      if Found(c.conversation) then Field(c.conversation.value, "Conversation_ID")
      else if event.Some? then event.value.conversationId else "";
    Draft(text.title, text.body, text.tags, c.ticketNumber, conversationId, c.scriptId, DraftLineage(c, event))
  }

  /** An event with a new draft; its summary becomes the draft's title unless that is empty. */
  function WithDraft(e: Event, d: Draft): (r: Event)
    ensures r.draft == Some(d)
    ensures r.draftSummary == if d.title != "" then d.title else e.draftSummary
    ensures r == e.(draft := r.draft, draftSummary := r.draftSummary)
  {
    e.(draft := Some(d), draftSummary := if d.title != "" then d.title else e.draftSummary)
  }

  datatype DraftResult = DraftResult(draft: Draft, ticket: Option<Row>, conversation: Option<Row>, script: Option<Row>)

  /**
   * `generate_draft`: an unknown event id is refused (404) with nothing
   * changed; otherwise a draft is written from the ticket when one is found,
   * else from the gap question, and stored on the event if there is one.
   */
  function GenerateDraft(st: State, req: DraftRequest, ticketDrafter: TicketDrafter, gapDrafter: GapDrafter)
    : (r: Reply<DraftResult>)
    ensures r.result.Err? <==> req.eventId != "" && FindEvent(st.events, req.eventId).None?
    ensures r.result.Err? ==> r.state == st && r.result.error.NotFound404?
    ensures req.eventId == "" ==> r.state == st
    ensures r.result.Ok? && req.eventId != "" ==>
      var i := FindEvent(st.events, req.eventId).value;
      r.state == WithEvent(st, i, WithDraft(st.events[i], r.result.value.draft))
    ensures r.result.Ok? ==>
      var event := if req.eventId != "" then Some(st.events[FindEvent(st.events, req.eventId).value]) else None;
      var c := ContextFor(st, req.ticketNumber, event);
      && r.result.value.draft.lineage == DraftLineage(c, event)
      && r.result.value.ticket == c.ticket
      && (Found(c.ticket) ==> r.result.value.draft.title == ticketDrafter(c.ticket.value, c.conversation, c.script).title)
      && (!Found(c.ticket) ==> r.result.value.draft.title == gapDrafter(GapQuestion(req.question, event)).title)
  {
    var found := if req.eventId != "" then FindEvent(st.events, req.eventId) else None;
    if req.eventId != "" && found.None? then Reply(st, Err(NotFound404("Learning event " + req.eventId + " not found")))
    else
      var event := if found.Some? then Some(st.events[found.value]) else None;
      var c := ContextFor(st, req.ticketNumber, event);
      var text := if Found(c.ticket) then ticketDrafter(c.ticket.value, c.conversation, c.script)
                  else gapDrafter(GapQuestion(req.question, event));
      var d := DraftPayload(c, event, text);
      var st' := if found.Some? then WithEvent(st, found.value, WithDraft(st.events[found.value], d)) else st;
      Reply(st', Ok(DraftResult(d, c.ticket, c.conversation, c.script)))
  }

  // ---------------------------------------------------------------------------
  // Review
  // ---------------------------------------------------------------------------

  /** The review request; the edited texts are `None` when the client did not send them. */
  datatype ReviewAction = ReviewAction(eventId: string, approve: bool, editedTitle: Option<string>,
                                       editedBody: Option<string>, reviewerNotes: string)

  datatype ReviewResult = ReviewResult(event: Event, articleId: Option<string>, kbTotalAfter: nat,
                                       confidenceImprovement: Option<real>)

  /** The event's draft fields as `draft.get(key)` reads them ("" when there is no draft). */
  function DraftOf(e: Event): Draft {
    if e.draft.Some? then e.draft.value else Draft("", "", "", "", "", "", [])
  }

  /** The records the learning loop only reads: ticket and conversation rows and the seed lookups. */
  function SeedsOf(st: State): (seq<Row>, seq<Row>, map<string, Row>, map<string, Row>, map<string, Row>) {
    (st.ticketRows, st.conversationRows, st.tickets, st.conversations, st.scripts)
  }

  /** The knowledge an approval adds to: article rows, id lookup, lineage rows and vector index. */
  function StockOf(st: State): (seq<Row>, map<string, Row>, seq<Row>, Store) {
    (st.articles, st.kbArticles, st.lineage, st.store)
  }

  /** Everything an approval writes, worked out from the event, its ticket and the edits. */
  datatype Approval = Approval(title: string, body: string, tags: string, moduleName: string, category: string,
                               sourceType: string, ticketNumber: string, conversationId: string, scriptId: string)

  /** The body written when neither the edit nor the draft has one. */
  function FallbackBody(e: Event, ticket: Option<Row>, notes: string): (b: string)
    ensures b != ""
  {
    if Found(ticket) then "## Problem\n" + Field(ticket.value, "Description") + "\n\n## Resolution\n" + Field(ticket.value, "Resolution")
    else "## Problem\n" + e.detectedGap + "\n\n## Resolution\n" + (if notes != "" then notes else "TBD")
  }

  /**
   * The fields an approval writes: title and body from the edits, the draft,
   * the event and finally a generated text, so neither is ever empty; tags,
   * module and category from the draft or the ticket; "generated" as source
   * type exactly when the ticket was found.
   */
  function ApprovalOf(st: State, e: Event, articleId: string, editedTitle: string, editedBody: string, notes: string)
    : (a: Approval)
    ensures a.title != "" && a.body != ""
    ensures a.title == FirstFilled([Strip(editedTitle), DraftOf(e).title, e.draftSummary, e.detectedGap,
                                    "Knowledge Article " + articleId])
    ensures Strip(editedBody) != "" ==> a.body == Strip(editedBody)
    ensures a.sourceType == "generated" <==> Found(TicketOf(st, Strip(e.ticketNumber)))
    ensures a.sourceType == "copilot" <==> !Found(TicketOf(st, Strip(e.ticketNumber)))
    ensures a.ticketNumber == Strip(e.ticketNumber)
  {
    var tn := Strip(e.ticketNumber);
    var ticket := TicketOf(st, tn);
    var d := DraftOf(e);
    var title := ApprovalTitle(e, articleId, editedTitle);
    var body0 := FirstFilled([Strip(editedBody), d.body]);
    var body := if body0 != "" then body0 else FallbackBody(e, ticket, notes);
    Approval(title, body, FirstFilled([d.tags, TicketField(ticket, "Tags")]),
             TicketField(ticket, "Module"), TicketField(ticket, "Category"),
             if Found(ticket) then "generated" else "copilot",
             tn, FirstFilled([d.sourceConversation, e.conversationId]),
             FirstFilled([d.sourceScript, TicketField(ticket, "Script_ID")]))
  }

  /** The title chain of an approval; its last link is never empty. */
  function ApprovalTitle(e: Event, articleId: string, editedTitle: string): (t: string)
    ensures t != ""
    ensures t == FirstFilled([Strip(editedTitle), DraftOf(e).title, e.draftSummary, e.detectedGap,
                              "Knowledge Article " + articleId])
  {
    var choices := [Strip(editedTitle), DraftOf(e).title, e.draftSummary, e.detectedGap, "Knowledge Article " + articleId];
    assert choices[4][0] == 'K';
    FirstFilled(choices)
  }

  /** The lineage an approval records: Ticket, Conversation, Script and Copilot edges as available. */
  function ApprovalLineage(a: Approval, eventId: string): seq<Source> {
    LineageSources(a.ticketNumber,
                   if a.conversationId != "" then Some(a.conversationId) else None,
                   if a.scriptId != "" then Some(a.scriptId) else None,
                   if a.ticketNumber == "" then Some(eventId) else None)
  }

  /** The metadata the approved article is indexed with. */
  function ApprovalMeta(a: Approval): Meta {
    map["title" := Take(a.title, SnippetLimit), "module" := a.moduleName, "category" := a.category,
        "source_type" := a.sourceType, "doc_type" := "kb_article"]
  }

  /** The review fields written last: status, reviewer role, notes and time. */
  function Reviewed(e: Event, approve: bool, notes: string, now: string): (r: Event)
    ensures r.status == (if approve then "Approved" else "Rejected")
    ensures r == e.(status := r.status, reviewerRole := "Human Reviewer", review := Some(ReviewInfo(notes, now)))
  {
    e.(status := if approve then "Approved" else "Rejected", reviewerRole := "Human Reviewer",
       review := Some(ReviewInfo(notes, now)))
  }

  /** The event with a proposed article id: its own, or a freshly minted one. */
  function WithProposedId(st: State, e: Event): (r: Event)
    ensures r.proposedKbId != ""
    ensures e.proposedKbId != "" ==> r == e
    ensures e.proposedKbId == "" ==> r == e.(proposedKbId := MintKbId(st)) && r.proposedKbId !in KbIdsInUse(st)
  {
    if e.proposedKbId != "" then e
    else
      var id := MintKbId(st);
      assert id[..7] == "KB-SYN-";
      e.(proposedKbId := id)
  }

  /**
   * The records of an approved article: the upserted article row and lookup
   * entry, and the lineage rows of its sources appended.
   */
  function Recorded(st: State, id: string, a: Approval, sources: seq<Source>, now: string): (r: State)
    ensures SeedsOf(r) == SeedsOf(st) && r.events == st.events && r.store == st.store
    ensures id in r.kbArticles
    ensures Field(r.kbArticles[id], "Title") == a.title && Field(r.kbArticles[id], "Body") == a.body
    ensures Field(r.kbArticles[id], "Source_Type") == a.sourceType
    ensures |st.lineage| <= |r.lineage| && r.lineage[..|st.lineage|] == st.lineage
  {
    var upserted := UpsertArticle(st, id, a.title, a.body, a.tags, a.moduleName, a.category, a.sourceType, now);
    ArticleRecordReads(id, a.title, a.body, a.tags, a.moduleName, a.category, a.sourceType,
                       CreatedAt(Get(st.kbArticles, id), now));
    AppendLineageOnlyAppends(upserted.lineage, id, sources);
    upserted.(lineage := AppendLineage(upserted.lineage, id, sources))
  }

  /** Every source with an id has its lineage row among the recorded ones. */
  lemma RecordedCovers(st: State, id: string, a: Approval, sources: seq<Source>, now: string)
    ensures forall s :: s in sources && s.sourceId != "" ==> HasKey(Recorded(st, id, a, sources, now).lineage, SourceKey(id, s))
  {
    var upserted := UpsertArticle(st, id, a.title, a.body, a.tags, a.moduleName, a.category, a.sourceType, now);
    AppendLineageCovers(upserted.lineage, id, sources);
  }

  /**
   * The approval after the event and its proposed id are settled: index the
   * article (an index failure answers 500), record it and its lineage, and
   * store the final draft, summary and review fields on the event.
   */
  function Approve(st: State, i: nat, a: Approval, notes: string, indexFails: bool, now: string)
    : (r: Reply<ReviewResult>)
    requires i < |st.events| && st.events[i].proposedKbId != ""
    ensures r.result.Err? <==> indexFails
    ensures r.result.Err? ==> r.state == st && r.result.error.ServerError500?
    ensures r.result.Ok? ==>
      && r.state == Approved(st, i, a, notes, AddKbArticle(st.store, st.events[i].proposedKbId,
                                                          a.title + "\n" + a.body, ApprovalMeta(a), false).value, now)
      && r.result.value.articleId == Some(st.events[i].proposedKbId)
      && r.result.value.event == r.state.events[i]
  {
    var articleId := st.events[i].proposedKbId;
    match AddKbArticle(st.store, articleId, a.title + "\n" + a.body, ApprovalMeta(a), indexFails)
    case Err(msg) => Reply(st, Err(ServerError500("Failed to index article: " + msg)))
    case Ok(store) =>
      var st' := Approved(st, i, a, notes, store, now);
      Reply(st', Ok(ReviewResult(st'.events[i], Some(articleId), |st'.articles|, None)))
  }

  /**
   * The state after a successful approval, given the index with the article
   * added: the article and its lineage recorded, and the event approved with
   * the final draft and the title as its summary.
   */
  function Approved(st: State, i: nat, a: Approval, notes: string, store: Store, now: string): (r: State)
    requires i < |st.events| && st.events[i].proposedKbId != ""
    ensures SeedsOf(r) == SeedsOf(st) && r.store == store
    ensures |r.events| == |st.events| && r.events == st.events[i := r.events[i]]
    ensures r.events[i].eventId == st.events[i].eventId
    ensures r.events[i].proposedKbId == st.events[i].proposedKbId
    ensures r.events[i].status == "Approved" && r.events[i].draftSummary == a.title
    ensures var id := st.events[i].proposedKbId;
      && id in r.kbArticles
      && Field(r.kbArticles[id], "Title") == a.title && Field(r.kbArticles[id], "Body") == a.body
      && Field(r.kbArticles[id], "Source_Type") == a.sourceType
    ensures |st.lineage| <= |r.lineage| && r.lineage[..|st.lineage|] == st.lineage
  {
    var e := st.events[i];
    var sources := ApprovalLineage(a, e.eventId);
    var linked := Recorded(st.(store := store), e.proposedKbId, a, sources, now);
    var draft := Draft(a.title, a.body, a.tags, a.ticketNumber, a.conversationId, a.scriptId, sources);
    WithEvent(linked, i, Reviewed(e.(draft := Some(draft), draftSummary := a.title), true, notes, now))
  }

  /** A rejection: only the event's review fields change. */
  function RejectEvent(st: State, i: nat, notes: string, now: string): (r: Reply<ReviewResult>)
    requires i < |st.events|
    ensures r.result.Ok? && r.result.value.articleId.None?
    ensures SeedsOf(r.state) == SeedsOf(st) && StockOf(r.state) == StockOf(st)
    ensures |r.state.events| == |st.events| && r.state.events == st.events[i := r.state.events[i]]
    ensures r.result.value.event == r.state.events[i]
    ensures r.state.events[i] == st.events[i].(status := "Rejected", reviewerRole := "Human Reviewer",
                                               review := Some(ReviewInfo(notes, now)))
  {
    var e' := Reviewed(st.events[i], false, notes, now);
    Reply(WithEvent(st, i, e'), Ok(ReviewResult(e', None, |st.articles|, None)))
  }

  /**
   * An approval: the event gets a proposed id first — its own, or one minted
   * fresh against every article and event — and keeps it even when the request
   * then fails; a missing edited text raises (500) and a failing index write
   * answers 500, both leaving the status as it was; otherwise the article is
   * indexed and recorded with a non-empty title and body, and the event is
   * approved.
   */
  function ApproveEvent(st: State, i: nat, editedTitle: Option<string>, editedBody: Option<string>, notes: string,
                        indexFails: bool, now: string): (r: Reply<ReviewResult>)
    requires i < |st.events|
    ensures r.result.Err? <==> editedTitle.None? || editedBody.None? || indexFails
    ensures r.result.Err? ==> r.result.error.ServerError500?
    ensures SeedsOf(r.state) == SeedsOf(st)
    ensures r.result.Err? ==> StockOf(r.state) == StockOf(st)
    ensures |r.state.events| == |st.events| && r.state.events == st.events[i := r.state.events[i]]
    ensures r.state.events[i].eventId == st.events[i].eventId
    ensures r.result.Err? ==> r.state.events[i].status == st.events[i].status
    ensures r.result.Ok? ==> r.result.value.event == r.state.events[i] && r.state.events[i].status == "Approved"
  {
    var minted := Minted(st, i);
    if editedTitle.None? || editedBody.None? then
      Reply(minted, Err(ServerError500("edited title or body missing")))
    else
      var r := ApproveMinted(minted, i, editedTitle.value, editedBody.value, notes, indexFails, now);
      UpdateTwice(st.events, i, minted.events[i], r.state.events[i]);
      r
  }

  /** The state once event `i` has its proposed id; nothing else differs. */
  function Minted(st: State, i: nat): (r: State)
    requires i < |st.events|
    ensures SeedsOf(r) == SeedsOf(st) && StockOf(r) == StockOf(st)
    ensures |r.events| == |st.events| && r.events == st.events[i := r.events[i]]
    ensures r.events[i] == st.events[i].(proposedKbId := r.events[i].proposedKbId)
    ensures r.events[i].proposedKbId != ""
  {
    WithEvent(st, i, WithProposedId(st, st.events[i]))
  }

  /**
   * What a successful approval leaves behind: the proposed id is the event's
   * own, or else one minted fresh against every article and event; under it
   * the article is indexed and recorded with a non-empty title and body, and
   * the lineage rows before it are kept.
   */
  lemma ApprovalRecordsArticle(st: State, i: nat, editedTitle: Option<string>, editedBody: Option<string>,
                               notes: string, indexFails: bool, now: string)
    requires i < |st.events|
    ensures var r := ApproveEvent(st, i, editedTitle, editedBody, notes, indexFails, now);
      var id := r.state.events[i].proposedKbId;
      && (st.events[i].proposedKbId != "" ==> id == st.events[i].proposedKbId)
      && (st.events[i].proposedKbId == "" ==> id == MintKbId(st) && id !in KbIdsInUse(st))
      && (r.result.Ok? ==>
            && r.result.value.articleId == Some(id)
            && id in r.state.kbArticles
            && Field(r.state.kbArticles[id], "Title") != "" && Field(r.state.kbArticles[id], "Body") != ""
            && HasId(Col(r.state.store, KbCollection), id)
            && |st.lineage| <= |r.state.lineage| && r.state.lineage[..|st.lineage|] == st.lineage)
  {
    var minted := Minted(st, i);
    assert minted.events[i] == WithProposedId(st, st.events[i]);
    if editedTitle.Some? && editedBody.Some? {
      assert ApproveEvent(st, i, editedTitle, editedBody, notes, indexFails, now)
          == ApproveMinted(minted, i, editedTitle.value, editedBody.value, notes, indexFails, now);
    }
  }

  /** An approval lists a Ticket edge when the event names a ticket, and a Copilot edge for the event otherwise. */
  lemma ApprovalLineageEdges(a: Approval, eventId: string)
    ensures a.ticketNumber != "" ==> Source("Ticket", a.ticketNumber, "CREATED_FROM") in ApprovalLineage(a, eventId)
    ensures a.ticketNumber == "" ==> Source("Copilot", eventId, "REPORTED_FROM") in ApprovalLineage(a, eventId)
  {
    LineageSourcesShape(a.ticketNumber, if a.conversationId != "" then Some(a.conversationId) else None,
                        if a.scriptId != "" then Some(a.scriptId) else None,
                        if a.ticketNumber == "" then Some(eventId) else None);
  }

  /**
   * A successful approval leaves a lineage row for the event's ticket when it
   * names one, or for the reporting event otherwise.
   */
  lemma ApprovalEdges(st: State, i: nat, editedTitle: string, editedBody: string, notes: string, now: string)
    requires i < |st.events| && st.events[i].proposedKbId != ""
    ensures var r := ApproveMinted(st, i, editedTitle, editedBody, notes, false, now);
      var e := st.events[i];
      var id, tn := e.proposedKbId, Strip(e.ticketNumber);
      && (tn != "" ==> HasKey(r.state.lineage, LineageKey(id, tn, "Ticket", "CREATED_FROM")))
      && (tn == "" && e.eventId != "" ==> HasKey(r.state.lineage, LineageKey(id, e.eventId, "Copilot", "REPORTED_FROM")))
  {
    var e := st.events[i];
    var id := e.proposedKbId;
    var a := ApprovalOf(st, e, id, editedTitle, editedBody, notes);
    ApprovalLineageEdges(a, e.eventId);
    ApproveCovers(st, i, a, notes, now);
    assert ApproveMinted(st, i, editedTitle, editedBody, notes, false, now) == Approve(st, i, a, notes, false, now);
    assert SourceKey(id, Source("Ticket", a.ticketNumber, "CREATED_FROM")) == LineageKey(id, a.ticketNumber, "Ticket", "CREATED_FROM");
    assert SourceKey(id, Source("Copilot", e.eventId, "REPORTED_FROM")) == LineageKey(id, e.eventId, "Copilot", "REPORTED_FROM");
  }

  /** A successful approval records the article as "generated" exactly when the event's ticket is found, else "copilot". */
  lemma ApprovalSourceType(st: State, i: nat, editedTitle: string, editedBody: string, notes: string, now: string)
    requires i < |st.events| && st.events[i].proposedKbId != ""
    ensures var r := ApproveMinted(st, i, editedTitle, editedBody, notes, false, now);
      var id := st.events[i].proposedKbId;
      && id in r.state.kbArticles
      && Field(r.state.kbArticles[id], "Source_Type")
           == (if Found(TicketOf(st, Strip(st.events[i].ticketNumber))) then "generated" else "copilot")
  {
    var e := st.events[i];
    var a := ApprovalOf(st, e, e.proposedKbId, editedTitle, editedBody, notes);
    assert ApproveMinted(st, i, editedTitle, editedBody, notes, false, now) == Approve(st, i, a, notes, false, now);
  }

  /** After a successful approval every listed source with an id has its lineage row. */
  lemma ApproveCovers(st: State, i: nat, a: Approval, notes: string, now: string)
    requires i < |st.events| && st.events[i].proposedKbId != ""
    ensures var r := Approve(st, i, a, notes, false, now);
      forall s :: s in ApprovalLineage(a, st.events[i].eventId) && s.sourceId != "" ==>
        HasKey(r.state.lineage, SourceKey(st.events[i].proposedKbId, s))
  {
    var e := st.events[i];
    var store := AddKbArticle(st.store, e.proposedKbId, a.title + "\n" + a.body, ApprovalMeta(a), false).value;
    RecordedCovers(st.(store := store), e.proposedKbId, a, ApprovalLineage(a, e.eventId), now);
  }

  /** An approval of an event that has its proposed id, with both edited texts. */
  function ApproveMinted(st: State, i: nat, editedTitle: string, editedBody: string, notes: string,
                         indexFails: bool, now: string): (r: Reply<ReviewResult>)
    requires i < |st.events| && st.events[i].proposedKbId != ""
    ensures r.result.Err? <==> indexFails
    ensures r.result.Err? ==> r.state == st && r.result.error.ServerError500?
    ensures SeedsOf(r.state) == SeedsOf(st)
    ensures |r.state.events| == |st.events| && r.state.events == st.events[i := r.state.events[i]]
    ensures r.state.events[i].eventId == st.events[i].eventId
    ensures r.state.events[i].proposedKbId == st.events[i].proposedKbId
    ensures r.result.Ok? ==>
      var id := st.events[i].proposedKbId;
      && r.result.value.articleId == Some(id)
      && r.result.value.event == r.state.events[i]
      && r.state.events[i].status == "Approved"
      && id in r.state.kbArticles
      && Field(r.state.kbArticles[id], "Title") != "" && Field(r.state.kbArticles[id], "Body") != ""
      && HasId(Col(r.state.store, KbCollection), id)
      && |st.lineage| <= |r.state.lineage| && r.state.lineage[..|st.lineage|] == st.lineage
  {
    var e := st.events[i];
    Approve(st, i, ApprovalOf(st, e, e.proposedKbId, editedTitle, editedBody, notes), notes, indexFails, now)
  }

  /** A second update of the same position overrides the first. */
  lemma UpdateTwice<T>(s: seq<T>, i: nat, x: T, y: T)
    requires i < |s|
    ensures s[i := x][i := y] == s[i := y]
  {
  }

  /**
   * `review_event`: an unknown event is refused (404) with nothing changed;
   * otherwise the event is rejected or approved as `RejectEvent` and
   * `ApproveEvent` say. There is no guard on the event's current status: a
   * rejection always succeeds, and so does an approval with both edited texts
   * and a working index, whether the event was pending, approved or rejected.
   */
  function ReviewEvent(st: State, action: ReviewAction, indexFails: bool, now: string): (r: Reply<ReviewResult>)
    ensures r.result.Err? && r.result.error.NotFound404? <==> FindEvent(st.events, action.eventId).None?
    ensures FindEvent(st.events, action.eventId).None? ==> r.state == st
    ensures FindEvent(st.events, action.eventId).Some? ==>
      var i := FindEvent(st.events, action.eventId).value;
      && |r.state.events| == |st.events|
      && (r.result.Ok? <==> !action.approve || (action.editedTitle.Some? && action.editedBody.Some? && !indexFails))
      && r.state.events == st.events[i := r.state.events[i]]
      && r.state.events[i].eventId == action.eventId
      && (r.result.Ok? ==> r.result.value.event == r.state.events[i]
                           && r.state.events[i].status == (if action.approve then "Approved" else "Rejected"))
      && (r.result.Err? ==> r.state.events[i].status == st.events[i].status)
    ensures SeedsOf(r.state) == SeedsOf(st)
    ensures !action.approve || r.result.Err? ==> StockOf(r.state) == StockOf(st)
    ensures r.result.Ok? ==> r.result.value.kbTotalAfter == |r.state.articles| && r.result.value.confidenceImprovement.None?
  {
    match FindEvent(st.events, action.eventId)
    case None => Reply(st, Err(NotFound404("Learning event " + action.eventId + " not found")))
    case Some(i) =>
      if !action.approve then RejectEvent(st, i, action.reviewerNotes, now)
      else ApproveEvent(st, i, action.editedTitle, action.editedBody, action.reviewerNotes, indexFails, now)
  }
}
