/**
 * The two ways learning events are created (backend/app/main.py): a batch scan
 * that turns every detected gap on a ticket no event covers yet into a Pending
 * event, and a report from the copilot when it answered a question with low
 * confidence.
 */
module GapEvents {
  import opened Wrappers
  import opened Text
  import opened VectorStore
  import opened Services
  import opened KbIds
  import opened LearningState

  /** `f"{similarity_threshold:.0%}"` for the configured threshold of 0.35. */
  const ThresholdPercent := "35%"

  /** The ticket numbers the events already cover, whatever their status. */
  function TicketNumbers(events: seq<Event>): set<string> {
    set e | e in events :: e.ticketNumber
  }

  /** `f"{prefix}{n:04d}"`. */
  function NumberedId(prefix: string, n: nat): string {
    prefix + PadNat(n, 4)
  }

  /** `conversations.get(ticket_number, {}).get("Conversation_ID", "")`. */
  function ConversationIdOf(conversations: map<string, Row>, ticketNumber: string): string {
    Field(OrEmpty(Get(conversations, ticketNumber)), "Conversation_ID")
  }

  /** The Pending event the scan creates for a gap, numbered `eventNo`, proposing article `kbSeq`. */
  function ScanEvent(gap: Gap, eventNo: nat, kbSeq: nat, conversations: map<string, Row>, now: string): (e: Event)
    ensures e.eventId == NumberedId("LEARN-AUTO-", eventNo) && e.ticketNumber == gap.ticketNumber
    ensures e.proposedKbId == FormatKbId(kbSeq) && e.status == "Pending"
    ensures e.scan == Some(ScanInfo(gap.bestKbScore, gap.bestKbMatch))
  {
    Event(NumberedId("LEARN-AUTO-", eventNo), gap.ticketNumber, ConversationIdOf(conversations, gap.ticketNumber),
          "No KB match above " + ThresholdPercent + " for: " + Take(gap.subject, 100), FormatKbId(kbSeq),
          "Auto-detected gap for: " + gap.subject, "Pending", "", now,
          None, Some(ScanInfo(gap.bestKbScore, gap.bestKbMatch)), None, None)
  }

  /**
   * The gaps the scan loop turns into events: those whose ticket number is
   * not in `existing`, in gap order. `existing` is fixed before the loop, so
   * two gaps on the same new ticket are both kept.
   */
  function NewGaps(gaps: seq<Gap>, existing: set<string>): (r: seq<Gap>)
    ensures |r| <= |gaps|
    ensures forall g :: g in r <==> g in gaps && g.ticketNumber !in existing
  {
    if gaps == [] then []
    else
      var rest := NewGaps(gaps[1..], existing);
      assert forall h :: h in gaps <==> h == gaps[0] || h in gaps[1..];
      if gaps[0].ticketNumber in existing then rest else [gaps[0]] + rest
  }

  /** When every gap's ticket is already covered, the scan keeps no gap. */
  lemma NewGapsNone(gaps: seq<Gap>, existing: set<string>)
    requires forall g :: g in gaps ==> g.ticketNumber in existing
    ensures NewGaps(gaps, existing) == []
  {
  }

  /** A new scan event: Pending, on a ticket not in `existing`, with event number and article number as given. */
  predicate ScanShaped(e: Event, existing: set<string>, eventNo: nat, kbSeq: nat) {
    && e.status == "Pending"
    && e.ticketNumber !in existing
    && e.eventId == NumberedId("LEARN-AUTO-", eventNo)
    && e.proposedKbId == FormatKbId(kbSeq)
  }

  /**
   * The scan loop: one event per new gap, in gap order, numbered on from
   * `eventNo` and proposing articles numbered on from `kbSeq`.
   */
  function ScanEvents(gaps: seq<Gap>, existing: set<string>, eventNo: nat, kbSeq: nat,
                      conversations: map<string, Row>, now: string): (r: seq<Event>)
    ensures |r| == |NewGaps(gaps, existing)|
  {
    var chosen := NewGaps(gaps, existing);
    seq(|chosen|, k requires 0 <= k < |chosen| => ScanEvent(chosen[k], eventNo + k, kbSeq + k, conversations, now))
  }

  /** The scan loop's event `k` is shaped as `ScanShaped` says and is on the ticket of new gap `k`. */
  lemma ScanEventsShaped(gaps: seq<Gap>, existing: set<string>, eventNo: nat, kbSeq: nat,
                         conversations: map<string, Row>, now: string, k: nat)
    requires k < |NewGaps(gaps, existing)|
    ensures var e := ScanEvents(gaps, existing, eventNo, kbSeq, conversations, now)[k];
      && ScanShaped(e, existing, eventNo + k, kbSeq + k)
      && e.ticketNumber == NewGaps(gaps, existing)[k].ticketNumber
  {
    var chosen := NewGaps(gaps, existing);
    assert chosen[k] in chosen;
  }

  /** What the scan reports. */
  datatype ScanSummary = ScanSummary(gapsScanned: nat, newGapsFound: nat, totalEvents: nat)

  /**
   * The scan after detection: the new events are appended after the existing
   * ones, which stay as they were, and nothing else in the state changes.
   */
  function AppendScan(st: State, gaps: seq<Gap>, now: string): (r: State)
    ensures r == st.(events := r.events)
    ensures |st.events| <= |r.events| <= |st.events| + |gaps| && r.events[..|st.events|] == st.events
  {
    var added := ScanEvents(gaps, TicketNumbers(st.events), |st.events| + 1, NextKbSequence(KbIdsInUse(st)),
                            st.conversations, now);
    var r := st.(events := st.events + added);
    assert r.events[..|st.events|] == st.events;
    r
  }

  /**
   * Each appended event is Pending, on a ticket no earlier event covers, with
   * the next event number in turn and the next article id in turn, and no
   * article or earlier event uses that id.
   */
  lemma AppendScanShaped(st: State, gaps: seq<Gap>, now: string, k: nat)
    requires |st.events| + k < |AppendScan(st, gaps, now).events|
    ensures var e := AppendScan(st, gaps, now).events[|st.events| + k];
      && ScanShaped(e, TicketNumbers(st.events), |st.events| + 1 + k, NextKbSequence(KbIdsInUse(st)) + k)
      && e.proposedKbId !in KbIdsInUse(st)
  {
    var next := NextKbSequence(KbIdsInUse(st));
    var added := ScanEvents(gaps, TicketNumbers(st.events), |st.events| + 1, next, st.conversations, now);
    assert AppendScan(st, gaps, now).events == st.events + added;
    ScanEventsShaped(gaps, TicketNumbers(st.events), |st.events| + 1, next, st.conversations, now, k);
    MintedIsFresh(KbIdsInUse(st), next + k);
  }

  /**
   * `scan_for_gaps`: detect the gaps among the ticket rows (a failure inside
   * detection answers 500 and changes nothing), then append the new events as
   * `AppendScan` says and report how many tickets were scanned, how many
   * events were added and how many there are now.
   */
  function ScanForGaps(st: State, oracle: QueryOracle, now: string): (r: Reply<ScanSummary>)
    ensures r.result.Err? <==> DetectGaps(st.ticketRows, KbSearchOf(st.store, oracle), SimilarityThreshold).Err?
    ensures r.result.Err? ==> r.state == st && r.result.error.ServerError500?
    ensures r.result.Ok? ==>
      && r.state == AppendScan(st, DetectGaps(st.ticketRows, KbSearchOf(st.store, oracle), SimilarityThreshold).value, now)
      && r.result.value.gapsScanned == |st.ticketRows|
      && r.result.value.newGapsFound == |r.state.events| - |st.events|
      && r.result.value.totalEvents == |r.state.events|
  {
    match DetectGaps(st.ticketRows, KbSearchOf(st.store, oracle), SimilarityThreshold)
    case Err(msg) => Reply(st, Err(ServerError500(msg)))
    case Ok(gaps) =>
      var st' := AppendScan(st, gaps, now);
      Reply(st', Ok(ScanSummary(|st.ticketRows|, |st'.events| - |st.events|, |st'.events|)))
  }

  /**
   * After the scan appends its events, every scanned gap's ticket is covered:
   * either an event had it already or the scan added one for it.
   */
  lemma AppendScanCovers(st: State, gaps: seq<Gap>, now: string)
    ensures forall g :: g in gaps ==> g.ticketNumber in TicketNumbers(AppendScan(st, gaps, now).events)
  {
    var existing := TicketNumbers(st.events);
    var added := ScanEvents(gaps, existing, |st.events| + 1, NextKbSequence(KbIdsInUse(st)), st.conversations, now);
    var events := AppendScan(st, gaps, now).events;
    assert events == st.events + added;
    var chosen := NewGaps(gaps, existing);
    forall g | g in gaps ensures g.ticketNumber in TicketNumbers(events) {
      if g.ticketNumber !in existing {
        var k :| 0 <= k < |chosen| && chosen[k] == g;
        ScanEventsShaped(gaps, existing, |st.events| + 1, NextKbSequence(KbIdsInUse(st)), st.conversations, now, k);
        assert added[k] in events;
      } else {
        var e :| e in st.events && e.ticketNumber == g.ticketNumber;
        assert e in events;
      }
    }
  }

  /** A scan over gaps whose tickets all have events adds nothing. */
  lemma AppendScanNothingNew(st: State, gaps: seq<Gap>, now: string)
    requires forall g :: g in gaps ==> g.ticketNumber in TicketNumbers(st.events)
    ensures AppendScan(st, gaps, now) == st
  {
    NewGapsNone(gaps, TicketNumbers(st.events));
    assert st.events + [] == st.events;
  }

  /**
   * Scanning again finds nothing new: the tickets and the index are unchanged,
   * so the second scan detects the same gaps, and every one of them is on a
   * ticket that has an event after the first scan.
   */
  lemma ScanTwiceAddsNothing(st: State, oracle: QueryOracle, now: string, later: string)
    requires ScanForGaps(st, oracle, now).result.Ok?
    ensures var once := ScanForGaps(st, oracle, now).state;
      ScanForGaps(once, oracle, later).state == once
  {
    var detected := DetectGaps(st.ticketRows, KbSearchOf(st.store, oracle), SimilarityThreshold);
    var once := AppendScan(st, detected.value, now);
    assert ScanForGaps(st, oracle, now).state == once;
    assert once.ticketRows == st.ticketRows && once.store == st.store;
    AppendScanCovers(st, detected.value, now);
    AppendScanNothingNew(once, detected.value, later);
  }

  // ---------------------------------------------------------------------------
  // Copilot gap reports
  // ---------------------------------------------------------------------------

  /**
   * The string fields of a copilot gap report ("" when absent). The
   * confidence comes both as its value and as its `{:.0%}` rendering.
   */
  datatype GapReport = GapReport(question: string, confidence: real, confidencePercent: string,
                                 conversationId: string, sessionId: string, proposedKbId: string)

  /**
   * `report_gap_from_copilot`: an empty question is refused (400) with nothing
   * changed; otherwise one Pending event without a ticket is appended, holding
   * the question and confidence, a conversation id that is never empty, and
   * the requested article id or a freshly minted one.
   */
  function ReportGap(st: State, report: GapReport, now: string): (r: Reply<Event>)
    ensures r.result.Err? <==> report.question == ""
    ensures r.result.Err? ==> r.state == st && r.result.error.BadRequest400?
    ensures r.result.Ok? ==>
      var e := r.result.value;
      && r.state == st.(events := st.events + [e])
      && e.eventId == NumberedId("LEARN-COPILOT-", |st.events| + 1)
      && e.ticketNumber == "" && e.status == "Pending" && e.conversationId != ""
      && e.report == Some(ReportInfo(report.question, report.confidence))
      && (report.proposedKbId != "" ==> e.proposedKbId == report.proposedKbId)
      && (report.proposedKbId == "" ==> e.proposedKbId == MintKbId(st) && e.proposedKbId !in KbIdsInUse(st))
  {
    if report.question == "" then Reply(st, Err(BadRequest400("No question provided")))
    else
      var eventId := NumberedId("LEARN-COPILOT-", |st.events| + 1);
      var conversationId :=
        if report.conversationId != "" then report.conversationId
        else if report.sessionId != "" then report.sessionId
        else "COPILOT-" + eventId;
      var proposed := if report.proposedKbId != "" then report.proposedKbId else MintKbId(st);
      var shown := Take(report.question, 200);
      var e := Event(eventId, "", conversationId,
                     "Copilot low confidence (" + report.confidencePercent + ") on: " + shown, proposed,
                     "User question not well covered: " + shown, "Pending", "", now,
                     None, None, Some(ReportInfo(report.question, report.confidence)), None);
      assert conversationId != "" by {
        if report.conversationId == "" && report.sessionId == "" { assert conversationId[0] == 'C'; }
      }
      Reply(st.(events := st.events + [e]), Ok(e))
  }
}
