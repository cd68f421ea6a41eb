/**
 * Reading the learning events (backend/app/main.py): the per-status tally and
 * the status-filtered, paginated listing.
 */
module EventsView {
  import opened Wrappers
  import opened Text
  import opened LearningState

  /** The tally of `_status_counts`. */
  datatype Counts = Counts(pending: nat, approved: nat, rejected: nat)

  /** Whether an event's status equals `status` ignoring (ASCII) case. */
  predicate StatusIs(e: Event, status: string) {
    Lower(e.status) == Lower(status)
  }

  /**
   * `_status_counts`: "approved" and "rejected" in any case are counted as such;
   * every other status, including the empty one, counts as pending.
   */
  function StatusCounts(events: seq<Event>): (c: Counts)
    ensures c.pending + c.approved + c.rejected == |events|
  {
    if events == [] then Counts(0, 0, 0)
    else
      var c := StatusCounts(events[1..]);
      var status := Lower(events[0].status);
      if status == "approved" then c.(approved := c.approved + 1)
      else if status == "rejected" then c.(rejected := c.rejected + 1)
      else c.(pending := c.pending + 1)
  }

  /** The events whose status equals `status` ignoring case, in their order. */
  function FilterStatus(events: seq<Event>, status: string): (r: seq<Event>)
    ensures |r| <= |events|
    ensures forall e :: e in r ==> e in events && StatusIs(e, status)
    ensures forall e :: e in events && StatusIs(e, status) ==> e in r
  {
    if events == [] then []
    else
      var rest := FilterStatus(events[1..], status);
      assert forall e :: e in events ==> e == events[0] || e in events[1..];
      if StatusIs(events[0], status) then [events[0]] + rest else rest
  }

  /** The tally of approved and rejected events is the size of the listing filtered by that status. */
  lemma {:induction false} CountsMatchFilter(events: seq<Event>)
    ensures StatusCounts(events).approved == |FilterStatus(events, "approved")|
    ensures StatusCounts(events).rejected == |FilterStatus(events, "rejected")|
    ensures StatusCounts(events).pending == |events| - |FilterStatus(events, "approved")| - |FilterStatus(events, "rejected")|
  {
    if events != [] {
      CountsMatchFilter(events[1..]);
      StatusWordsLower();
    }
  }

  /** One page of the listing with the totals it reports. */
  datatype EventPage = EventPage(data: seq<Event>, total: nat, page: nat, pageSize: nat, statusCounts: Counts)

  /** Python's `s[start:end]` for `0 <= start <= end`: clamped to the sequence. */
  function Slice<T>(s: seq<T>, start: nat, end: nat): (r: seq<T>)
    requires start <= end
    ensures |r| <= end - start
    ensures start < |s| ==> |r| == (if end <= |s| then end else |s|) - start
    ensures forall k :: 0 <= k < |r| ==> start + k < |s| && r[k] == s[start + k]
  {
    if start >= |s| then [] else if end <= |s| then s[start..end] else s[start..]
  }

  /** Where page `page` of `size` entries starts: `(page - 1) * size`. */
  function PageStart(page: int, size: int): (start: nat)
    requires page >= 1 && size >= 1
  {
    (page - 1) * size
  }

  /** Page `page` of `size` entries: `s[start:start + size]`. */
  function PageOf<T>(s: seq<T>, page: int, size: int): (r: seq<T>)
    requires page >= 1 && size >= 1
    ensures var start := PageStart(page, size);
      && |r| == (if start >= |s| then 0 else if |s| - start < size then |s| - start else size)
      && forall k :: 0 <= k < |r| ==> start + k < |s| && r[k] == s[start + k]
  {
    var start := PageStart(page, size);
    Slice(s, start, start + size)
  }

  /**
   * `list_learning_events`: a page number below 1, a page size outside 1..100
   * or a status filter longer than 20 characters is refused (422); otherwise the
   * events whose status matches (all of them for an empty filter), page
   * `page` of `page_size`, with the filtered total and the tally of all events.
   */
  function ListEvents(events: seq<Event>, status: string, page: int, pageSize: int): (r: Result<EventPage, ApiError>)
    ensures r.Err? <==> page < 1 || pageSize < 1 || pageSize > 100 || |status| > 20
    ensures r.Err? ==> r.error.Unprocessable422?
    ensures r.Ok? ==>
      && r.value.total == (if status == "" then |events| else |FilterStatus(events, status)|)
      && |r.value.data| <= pageSize
      && r.value.statusCounts == StatusCounts(events)
      && forall e :: e in r.value.data ==> e in events && (status != "" ==> StatusIs(e, status))
    ensures r.Ok? ==> r.value.page == page && r.value.pageSize == pageSize
  {
    if page < 1 || pageSize < 1 || pageSize > 100 || |status| > 20 then
      Err(Unprocessable422("query parameter out of range"))
    else
      var filtered := if status == "" then events else FilterStatus(events, status);
      var data := PageOf(filtered, page, pageSize);
      assert forall e :: e in data ==> e in filtered;
      Ok(EventPage(data, |filtered|, page, pageSize, StatusCounts(events)))
  }

  /**
   * A valid request's page is exactly `filtered[start:start + page_size]` with
   * `start = (page - 1) * page_size`: `min(page_size, total - start)` events
   * from `start` on, or none past the end.
   */
  lemma ListEventsPage(events: seq<Event>, status: string, page: int, pageSize: int)
    requires page >= 1 && 1 <= pageSize <= 100 && |status| <= 20
    ensures var r := ListEvents(events, status, page, pageSize);
      var filtered := if status == "" then events else FilterStatus(events, status);
      var start := PageStart(page, pageSize);
      && r.Ok?
      && start == (page - 1) * pageSize
      && |r.value.data| == (if start >= |filtered| then 0 else if |filtered| - start < pageSize then |filtered| - start else pageSize)
      && forall k :: 0 <= k < |r.value.data| ==> start + k < |filtered| && r.value.data[k] == filtered[start + k]
  {
    var filtered := if status == "" then events else FilterStatus(events, status);
    var data := PageOf(filtered, page, pageSize);
    var r := ListEvents(events, status, page, pageSize);
    assert r == Ok(EventPage(data, |filtered|, page, pageSize, StatusCounts(events)));
  }

  /**
   * The pages cover the filtered events in order: the event at position `j`
   * is entry `j % page_size` of page `j / page_size + 1`.
   */
  lemma PagesCover(events: seq<Event>, status: string, pageSize: int, j: nat)
    requires 1 <= pageSize <= 100 && |status| <= 20
    requires j < (if status == "" then |events| else |FilterStatus(events, status)|)
    ensures var r := ListEvents(events, status, j / pageSize + 1, pageSize);
      && r.Ok?
      && j % pageSize < |r.value.data|
      && r.value.data[j % pageSize] == (if status == "" then events else FilterStatus(events, status))[j]
  {
    var filtered := if status == "" then events else FilterStatus(events, status);
    var q, m := j / pageSize, j % pageSize;
    DivMod(j, pageSize);
    assert (q + 1 - 1) * pageSize == j - m;
    var r := ListEvents(events, status, q + 1, pageSize);
    assert r.Ok?;
  }

  /** Euclidean division of a natural number, kept apart so the page proof stays small. */
  lemma DivMod(j: nat, d: int)
    requires d >= 1
    ensures j / d >= 0 && (j / d) * d + j % d == j && 0 <= j % d < d
  {
  }

  /** The two status words are already lower case; kept apart so the tally proof stays small. */
  lemma StatusWordsLower()
    ensures Lower("approved") == "approved" && Lower("rejected") == "rejected"
  {
    LowerKeepsLowercase("approved");
    LowerKeepsLowercase("rejected");
  }

  /** `s.lower()` leaves a string without upper-case ASCII letters as it is. */
  lemma LowerKeepsLowercase(s: string)
    requires forall i :: 0 <= i < |s| ==> !('A' <= s[i] <= 'Z')
    ensures Lower(s) == s
  {
    assert forall i :: 0 <= i < |s| ==> Lower(s)[i] == s[i];
  }
}
