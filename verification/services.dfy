/**
 * The deterministic parts of the support services (backend/app/services.py):
 * knowledge-gap detection over resolved tickets, the copilot's collection
 * choice and answer classification, and the rule-based QA scorer.
 *
 * The language model is not modelled: the copilot's answer text is a
 * parameter. The transcript regular expressions of the QA scorer are not
 * modelled either: their outcomes arrive as `TranscriptSignals`.
 */
module Services {
  import opened Wrappers
  import opened Text
  import opened VectorStore
  import opened PyFloat

  /** `similarity_threshold` of the settings. */
  const SimilarityThreshold: real := 0.35
  /** `retrieval_top_k` of the settings. */
  const RetrievalTopK: nat := 5
  /** The gap query is cut to this many characters. */
  const QueryLimit: nat := 1000
  /** The copilot returns at most this many sources. */
  const SourceLimit: nat := 5

  // ---------------------------------------------------------------------------
  // Knowledge gap detection
  // ---------------------------------------------------------------------------

  /** A ticket whose best knowledge-base match is too weak. */
  datatype Gap = Gap(ticketNumber: string, subject: string, resolution: string, bestKbScore: real, bestKbMatch: Option<string>)

  /**
   * Whether `detect_gaps` looks at a ticket: closed, with a resolution, and a
   * tier that is empty or whose `float` is not below 3 (NaN and positive
   * infinity are not). A tier `float` rejects raises.
   */
  function Considered(tk: Row): (r: Result<bool, string>)
    ensures r.Err? <==>
      && Field(tk, "Status") == "Closed" && Field(tk, "Resolution") != ""
      && Field(tk, "Tier") != "" && ParseFloat(Field(tk, "Tier")).None?
    ensures r == Ok(true) <==>
      && Field(tk, "Status") == "Closed" && Field(tk, "Resolution") != ""
      && (|| Field(tk, "Tier") == ""
          || (ParseFloat(Field(tk, "Tier")).Some? && !Below(ParseFloat(Field(tk, "Tier")).value, 3.0)))
  {
    if Field(tk, "Status") != "Closed" || Field(tk, "Resolution") == "" then Ok(false)
    else if Field(tk, "Tier") == "" then Ok(true)
    else
      match ParseFloat(Field(tk, "Tier"))
      case None => Err("could not convert the tier to float")
      case Some(tier) => Ok(!Below(tier, 3.0))
  }

  /** A closed, resolved ticket with a whole-number tier is considered exactly from tier 3 up. */
  lemma WholeTier(tk: Row, n: nat)
    requires Field(tk, "Status") == "Closed" && Field(tk, "Resolution") != ""
    requires Field(tk, "Tier") == NatText(n)
    ensures Considered(tk) == Ok(n >= 3)
  {
    ParseFloatNat(n);
  }

  /** A tier in exponent form, `f"{n}e{k}"`, is read as `n * 10**k`: `1e1` is considered. */
  lemma ScientificTier(tk: Row, n: nat, k: nat)
    requires Field(tk, "Status") == "Closed" && Field(tk, "Resolution") != ""
    requires Field(tk, "Tier") == NatText(n) + "e" + NatText(k)
    ensures Considered(tk) == Ok(n * Pow10(k) >= 3)
  {
    ParseFloatScientific(n, k);
  }

  /** A tier with an underscore between digit runs is read as the digits joined: `1_0` is considered. */
  lemma UnderscoreTier(tk: Row, a: string, b: string)
    requires Field(tk, "Status") == "Closed" && Field(tk, "Resolution") != ""
    requires a != [] && AllDigits(a) && b != [] && AllDigits(b) && Field(tk, "Tier") == a + "_" + b
    ensures Considered(tk) == Ok(DigitsValue(a) * Pow10(|b|) + DigitsValue(b) >= 3)
  {
    ParseFloatUnderscore(a, b);
  }

  /** A tier spelled `inf`, `infinity` or `nan` in any case is considered: neither is below 3. */
  lemma WordTier(tk: Row)
    requires Field(tk, "Status") == "Closed" && Field(tk, "Resolution") != ""
    ensures var u := Strip(Field(tk, "Tier"));
      Spells(u, "inf") || Spells(u, "infinity") || Spells(u, "nan") ==> Considered(tk) == Ok(true)
  {
    var tier := Field(tk, "Tier");
    var u := Strip(tier);
    if Spells(u, "inf") || Spells(u, "infinity") || Spells(u, "nan") {
      ParseFloatWord(tier);
      assert |u| > 0;
      assert ParseFloat(tier).Some? && !Below(ParseFloat(tier).value, 3.0);
    }
  }

  /** A tier of `-inf` or `-infinity`, in any case, is below 3, so the ticket is skipped. */
  lemma NegativeInfinityTier(tk: Row)
    requires Field(tk, "Status") == "Closed" && Field(tk, "Resolution") != ""
    ensures var u := Strip(Field(tk, "Tier"));
      u != [] && u[0] == '-' && (Spells(u[1..], "inf") || Spells(u[1..], "infinity")) ==> Considered(tk) == Ok(false)
  {
    var tier := Field(tk, "Tier");
    var u := Strip(tier);
    if u != [] && u[0] == '-' && (Spells(u[1..], "inf") || Spells(u[1..], "infinity")) {
      ParseFloatNegativeInfinity(tier);
      assert ParseFloat(tier).Some? && Below(ParseFloat(tier).value, 3.0);
    }
  }

  /** A considered ticket's tier, when finite, holds only digits, `_`, `.`, `e`, `E` and signs. */
  lemma FiniteTierAlphabet(tk: Row)
    ensures Considered(tk) == Ok(true) && Field(tk, "Tier") != "" && ParseFloat(Field(tk, "Tier")).value.Finite?
            ==> Numeral(Strip(Field(tk, "Tier")))
  {
    FiniteAlphabet(Field(tk, "Tier"));
  }

  /** The query for a ticket: subject, description and resolution, cut to 1000 characters. */
  function GapQuery(tk: Row): (q: string)
    ensures |q| <= QueryLimit
  {
    Take(Field(tk, "Subject") + " " + Field(tk, "Description") + " " + Field(tk, "Resolution"), QueryLimit)
  }

  /**
   * The search `detect_gaps` runs for each ticket: query text to the hits of the
   * knowledge-base collection, best first.
   */
  type KbSearch = string -> seq<Hit>

  /** `vector_store.search(query, collections=[COL_KB], top_k=1)`. */
  function KbSearchOf(store: Store, oracle: QueryOracle): KbSearch {
    q => Search(store, q, Some([KbCollection]), 1, oracle)
  }

  /** The KB candidates the search ranks for a query before keeping the best one. */
  function KbCandidates(store: Store, oracle: QueryOracle, q: string): seq<Hit> {
    Merge(store, Targets(Some([KbCollection])), q, 1, oracle)
  }

  function BestScore(hits: seq<Hit>): real {
    if hits == [] then 0.0 else hits[0].score
  }

  /**
   * What `detect_gaps` makes of one ticket given its best KB hits: nothing when
   * the ticket is not considered or its best score reaches the threshold, else
   * a gap; a gap for a ticket without a `Ticket_Number` raises.
   */
  function GapFrom(tk: Row, hits: seq<Hit>, threshold: real): (r: Result<Option<Gap>, string>)
    ensures r.Ok? && r.value.Some? ==>
      && Considered(tk) == Ok(true)
      && "Ticket_Number" in tk && r.value.value.ticketNumber == tk["Ticket_Number"]
      && r.value.value.subject == Field(tk, "Subject") && r.value.value.resolution == Field(tk, "Resolution")
      && r.value.value.bestKbScore == BestScore(hits) < threshold
      && (hits == [] <==> r.value.value.bestKbMatch.None?)
      && (hits != [] ==> r.value.value.bestKbMatch == Some(hits[0].id))
    ensures Considered(tk) == Ok(false) ==> r == Ok(None)
    ensures Considered(tk) == Ok(true) && BestScore(hits) >= threshold ==> r == Ok(None)
    ensures Considered(tk) == Ok(true) && BestScore(hits) < threshold ==>
      (r.Ok? <==> "Ticket_Number" in tk) && (r.Ok? ==> r.value.Some?)
    ensures r.Err? <==>
      (|| Considered(tk).Err?
       || (Considered(tk) == Ok(true) && BestScore(hits) < threshold && "Ticket_Number" !in tk))
  {
    match Considered(tk)
    case Err(e) => Err(e)
    case Ok(false) => Ok(None)
    case Ok(true) =>
      var best := BestScore(hits);
      if best >= threshold then Ok(None)
      else if "Ticket_Number" !in tk then Err("KeyError: Ticket_Number")
      else Ok(Some(Gap(tk["Ticket_Number"], Field(tk, "Subject"), Field(tk, "Resolution"), best,
                       if hits == [] then None else Some(hits[0].id))))
  }

  /** One ticket of `detect_gaps`, searching with the ticket's query. */
  function GapOf(tk: Row, kbSearch: KbSearch, threshold: real): Result<Option<Gap>, string> {
    GapFrom(tk, kbSearch(GapQuery(tk)), threshold)
  }

  /** What one ticket contributes to a pass: an error, nothing, or a gap. */
  type Outcome = Result<Option<Gap>, string>

  /**
   * The loop of `detect_gaps` for a given per-ticket outcome: the gaps in ticket
   * order; the first raising ticket aborts the pass.
   */
  function CollectGaps(tickets: seq<Row>, outcome: Row -> Outcome): (r: Result<seq<Gap>, string>)
    ensures r.Ok? <==> forall i :: 0 <= i < |tickets| ==> outcome(tickets[i]).Ok?
    ensures r.Ok? ==> |r.value| <= |tickets|
  {
    if tickets == [] then Ok([])
    else
      var first := outcome(tickets[0]);
      var rest := CollectGaps(tickets[1..], outcome);
      assert forall i :: 1 <= i < |tickets| ==> tickets[i] == tickets[1..][i - 1];
      if first.Err? then Err(first.error)
      else if rest.Err? then Err(rest.error)
      else if first.value.Some? then Ok([first.value.value] + rest.value)
      else Ok(rest.value)
  }

  /** The gaps of a pass: those of the tail, behind the first ticket's own gap if it has one. */
  lemma CollectGapsShape(tickets: seq<Row>, outcome: Row -> Outcome)
    requires tickets != [] && CollectGaps(tickets, outcome).Ok?
    ensures CollectGaps(tickets[1..], outcome).Ok? && outcome(tickets[0]).Ok?
    ensures var first := outcome(tickets[0]).value;
      CollectGaps(tickets, outcome).value
        == (if first.Some? then [first.value] else []) + CollectGaps(tickets[1..], outcome).value
  {
    assert outcome(tickets[0]).Ok?;
  }

  /** Every gap of a pass is the gap of some input ticket. */
  lemma {:induction false} CollectGapsSound(tickets: seq<Row>, outcome: Row -> Outcome)
    requires CollectGaps(tickets, outcome).Ok?
    ensures var gaps := CollectGaps(tickets, outcome).value;
      forall k :: 0 <= k < |gaps| ==> exists i :: 0 <= i < |tickets| && outcome(tickets[i]) == Ok(Some(gaps[k]))
  {
    if tickets != [] {
      var rest := tickets[1..];
      CollectGapsShape(tickets, outcome);
      CollectGapsSound(rest, outcome);
      var gs := CollectGaps(rest, outcome).value;
      var gaps := CollectGaps(tickets, outcome).value;
      var shift := |gaps| - |gs|;
      forall k | shift <= k < |gaps|
        ensures exists i :: 0 <= i < |tickets| && outcome(tickets[i]) == Ok(Some(gaps[k]))
      {
        assert gaps[k] == gs[k - shift];
        var i' :| 0 <= i' < |rest| && outcome(rest[i']) == Ok(Some(gs[k - shift]));
        assert tickets[i' + 1] == rest[i'];
      }
    }
  }

  /** Every ticket whose outcome is a gap has that gap reported. */
  lemma {:induction false} CollectGapsComplete(tickets: seq<Row>, outcome: Row -> Outcome)
    requires CollectGaps(tickets, outcome).Ok?
    ensures forall i :: 0 <= i < |tickets| && outcome(tickets[i]).Ok? && outcome(tickets[i]).value.Some? ==>
      outcome(tickets[i]).value.value in CollectGaps(tickets, outcome).value
  {
    if tickets != [] {
      var rest := tickets[1..];
      CollectGapsShape(tickets, outcome);
      CollectGapsComplete(rest, outcome);
      forall i | 1 <= i < |tickets| && outcome(tickets[i]).Ok? && outcome(tickets[i]).value.Some?
        ensures outcome(tickets[i]).value.value in CollectGaps(tickets, outcome).value
      {
        assert tickets[i] == rest[i - 1];
      }
    }
  }

  /**
   * A pass over two runs of tickets reports the first run's gaps before the
   * second's: gaps keep the order of the tickets they come from.
   */
  lemma {:induction false} CollectGapsAppend(a: seq<Row>, b: seq<Row>, outcome: Row -> Outcome)
    ensures CollectGaps(a + b, outcome).Ok? <==> CollectGaps(a, outcome).Ok? && CollectGaps(b, outcome).Ok?
    ensures CollectGaps(a + b, outcome).Ok? ==>
      CollectGaps(a + b, outcome).value == CollectGaps(a, outcome).value + CollectGaps(b, outcome).value
  {
    if a == [] {
      assert a + b == b;
    } else {
      assert (a + b)[1..] == a[1..] + b;
      CollectGapsAppend(a[1..], b, outcome);
      assert (a + b)[0] == a[0];
      forall i | 0 <= i < |a| ensures a[i] == (a + b)[i] { }
    }
  }

  /**
   * `detect_gaps`: every reported gap is a considered ticket whose best KB
   * score stays under the threshold, and every ticket that is such a gap is reported.
   */
  function DetectGaps(tickets: seq<Row>, kbSearch: KbSearch, threshold: real): (r: Result<seq<Gap>, string>)
    ensures r.Ok? <==> forall i :: 0 <= i < |tickets| ==> GapOf(tickets[i], kbSearch, threshold).Ok?
    ensures r.Ok? ==> |r.value| <= |tickets|
    ensures r.Ok? ==> forall k :: 0 <= k < |r.value| ==>
      r.value[k].bestKbScore < threshold &&
      exists i :: 0 <= i < |tickets| && Considered(tickets[i]) == Ok(true)
               && Field(tickets[i], "Ticket_Number") == r.value[k].ticketNumber
    ensures r.Ok? ==> forall i :: 0 <= i < |tickets| && GapOf(tickets[i], kbSearch, threshold).value.Some? ==>
      GapOf(tickets[i], kbSearch, threshold).value.value in r.value
  {
    var outcome := tk => GapOf(tk, kbSearch, threshold);
    var r := CollectGaps(tickets, outcome);
    if r.Ok? then CollectGapsSound(tickets, outcome); CollectGapsComplete(tickets, outcome); r else r
  }

  /**
   * A considered ticket is a gap exactly when no knowledge-base candidate the
   * index returned for it reaches the threshold (for a positive threshold).
   */
  lemma GapIffNoStrongMatch(tk: Row, store: Store, oracle: QueryOracle, threshold: real)
    requires threshold > 0.0
    requires Considered(tk) == Ok(true) && "Ticket_Number" in tk
    ensures GapOf(tk, KbSearchOf(store, oracle), threshold).Ok?
    ensures GapOf(tk, KbSearchOf(store, oracle), threshold).value.Some? <==>
      forall h :: h in KbCandidates(store, oracle, GapQuery(tk)) ==> h.score < threshold
  {
    var q := GapQuery(tk);
    var hits := Search(store, q, Some([KbCollection]), 1, oracle);
    assert KbSearchOf(store, oracle)(q) == hits;
    BestBelowIffAllBelow(KbCandidates(store, oracle, q), hits, threshold);
    assert GapOf(tk, KbSearchOf(store, oracle), threshold) == GapFrom(tk, hits, threshold);
  }

  /** The best of a one-hit ranking is below a positive threshold exactly when every candidate is. */
  lemma BestBelowIffAllBelow(merged: seq<Hit>, hits: seq<Hit>, threshold: real)
    requires threshold > 0.0
    requires |hits| == Min(1, |merged|) && SortedByScore(hits) && multiset(hits) <= multiset(merged)
    requires forall h: Hit, i :: h in multiset(merged) - multiset(hits) && 0 <= i < |hits| ==> h.score <= hits[i].score
    ensures BestScore(hits) < threshold <==> forall h :: h in merged ==> h.score < threshold
  {
    RankedHeadIsBest(merged, hits, 1);
    if hits != [] {
      assert hits[0] in multiset(merged);
    }
  }

  // ---------------------------------------------------------------------------
  // Copilot
  // ---------------------------------------------------------------------------

  /** The copilot's reply: answer text, confidence, cited sources and answer type. */
  datatype CopilotReply = CopilotReply(answer: string, confidence: real, sources: seq<Hit>, answerType: string)

  const NoAnswer := "I couldn't find relevant information for your question. Please escalate to a Tier 3 engineer."

  /** Position of a collection in the copilot's fixed search order. */
  function CollectionRank(name: string): nat {
    if name == KbCollection then 0 else if name == ScriptsCollection then 1 else 2
  }

  /** The collections the copilot searches: KB, scripts, tickets, each only when its flag is set. */
  function CopilotCollections(includeKb: bool, includeScripts: bool, includeTickets: bool): (names: seq<string>)
    ensures KbCollection in names <==> includeKb
    ensures ScriptsCollection in names <==> includeScripts
    ensures TicketsCollection in names <==> includeTickets
    ensures forall n :: n in names ==> n in [KbCollection, ScriptsCollection, TicketsCollection]
    ensures forall i, j :: 0 <= i < j < |names| ==> CollectionRank(names[i]) < CollectionRank(names[j])
  {
    (if includeKb then [KbCollection] else [])
    + (if includeScripts then [ScriptsCollection] else [])
    + (if includeTickets then [TicketsCollection] else [])
  }

  /** The answer type for the top hit's document type. */
  function AnswerType(docType: string): (t: string)
    ensures t == "KB" <==> docType == "kb_article"
    ensures t == "SCRIPT" <==> docType == "script"
    ensures t == "TICKET_RESOLUTION" <==> docType == "ticket"
    ensures t in {"KB", "SCRIPT", "TICKET_RESOLUTION", "UNKNOWN"}
  {
    if docType == "kb_article" then "KB"
    else if docType == "script" then "SCRIPT"
    else if docType == "ticket" then "TICKET_RESOLUTION"
    else "UNKNOWN"
  }

  /**
   * The reply `copilot_answer` builds from the search results: with nothing
   * found, a fixed escalation reply; else the top hit's score and type, and at
   * most five sources. `compose` stands for the language model (or its
   * fallback text).
   */
  function CopilotReplyFor(question: string, results: seq<Hit>, compose: (string, seq<Hit>) -> string): (r: CopilotReply)
    ensures r.sources == [] <==> results == []
    ensures results == [] ==> r == CopilotReply(NoAnswer, 0.0, [], "UNKNOWN")
    ensures results != [] ==> r.confidence == results[0].score && r.answer == compose(question, results)
    ensures r.answerType in {"KB", "SCRIPT", "TICKET_RESOLUTION", "UNKNOWN"}
    ensures results != [] ==> (r.answerType == "KB" <==> results[0].docType == "kb_article")
    ensures |r.sources| == Min(SourceLimit, |results|) && r.sources == results[..|r.sources|]
    ensures SortedByScore(results) ==> forall i :: 0 <= i < |r.sources| ==> r.sources[i].score <= r.confidence
  {
    if results == [] then CopilotReply(NoAnswer, 0.0, [], "UNKNOWN")
    else
      var sources := Take(results, SourceLimit);
      assert sources[0] == results[0];
      CopilotReply(compose(question, results), results[0].score, sources, AnswerType(results[0].docType))
  }

  /** `copilot_answer`: search the chosen collections and reply from the ranked results. */
  function CopilotAnswer(question: string, store: Store, oracle: QueryOracle,
                         includeScripts: bool, includeKb: bool, includeTickets: bool,
                         compose: (string, seq<Hit>) -> string): (r: CopilotReply)
    ensures |r.sources| <= SourceLimit
    ensures r.confidence >= 0.0
    ensures forall i :: 0 <= i < |r.sources| ==> 0.0 <= r.sources[i].score <= r.confidence
  {
    var results := Search(store, question, Some(CopilotCollections(includeKb, includeScripts, includeTickets)), RetrievalTopK, oracle);
    CopilotReplyFor(question, results, compose)
  }

  /** With every collection switched off the copilot finds nothing and escalates. */
  lemma CopilotNothingSelected(question: string, store: Store, oracle: QueryOracle, compose: (string, seq<Hit>) -> string)
    ensures CopilotAnswer(question, store, oracle, false, false, false, compose) == CopilotReply(NoAnswer, 0.0, [], "UNKNOWN")
  {
    assert CopilotCollections(false, false, false) == [];
    assert Merge(store, [], question, RetrievalTopK, oracle) == [];
  }

  /**
   * The copilot cites sources exactly when some chosen collection returned a
   * hit, and the reported confidence is the best score among them all.
   */
  lemma CopilotConfidenceIsBest(question: string, store: Store, oracle: QueryOracle,
                                includeScripts: bool, includeKb: bool, includeTickets: bool,
                                compose: (string, seq<Hit>) -> string)
    ensures var names := CopilotCollections(includeKb, includeScripts, includeTickets);
            var r := CopilotAnswer(question, store, oracle, includeScripts, includeKb, includeTickets, compose);
            var merged := Merge(store, names, question, RetrievalTopK, oracle);
            && (r.sources == [] <==> merged == [])
            && (forall h :: h in merged ==> h.score <= r.confidence)
  {
    SearchReplyBest(question, store, oracle, CopilotCollections(includeKb, includeScripts, includeTickets), compose);
  }

  /** The reply to a search of `names` has the best score among their hits as its confidence. */
  lemma SearchReplyBest(question: string, store: Store, oracle: QueryOracle, names: seq<string>,
                        compose: (string, seq<Hit>) -> string)
    ensures var r := CopilotReplyFor(question, Search(store, question, Some(names), RetrievalTopK, oracle), compose);
            var merged := Merge(store, names, question, RetrievalTopK, oracle);
            && (r.sources == [] <==> merged == [])
            && (forall h :: h in merged ==> h.score <= r.confidence)
  {
    assert Targets(Some(names)) == names;
    var results := Search(store, question, Some(names), RetrievalTopK, oracle);
    ReplyFromRanking(question, Merge(store, names, question, RetrievalTopK, oracle), results, compose);
  }

  /** The reply to a ranking of the best hits among `merged` has the best score of them all as its confidence. */
  lemma ReplyFromRanking(question: string, merged: seq<Hit>, results: seq<Hit>, compose: (string, seq<Hit>) -> string)
    requires |results| == Min(RetrievalTopK, |merged|) && SortedByScore(results) && multiset(results) <= multiset(merged)
    requires forall h: Hit, i :: h in multiset(merged) - multiset(results) && 0 <= i < |results| ==> h.score <= results[i].score
    ensures var r := CopilotReplyFor(question, results, compose);
            && (r.sources == [] <==> merged == [])
            && (forall h :: h in merged ==> h.score <= r.confidence)
  {
    RankedHeadIsBest(merged, results, RetrievalTopK);
  }

  // ---------------------------------------------------------------------------
  // Rule-based QA scoring
  // ---------------------------------------------------------------------------

  datatype Verdict = Yes | No | NotApplicable

  /** Outcomes of the transcript pattern searches (greeting, closing, empathy, confirmation, steps). */
  datatype TranscriptSignals = TranscriptSignals(greeting: bool, closing: bool, empathy: bool, confirmation: bool, steps: bool)

  datatype CaseQa = CaseQa(
    clearProblemSummary: Verdict, capturedKeyContext: Verdict, actionLogCompleteness: Verdict,
    correctCategorization: Verdict, customerFacingClarity: Verdict, resolutionSpecific: Verdict,
    approvedProcess: Verdict, technicalAccuracy: Verdict, referencesKnowledge: Verdict,
    ownershipSignals: Verdict, finalScore: string)

  datatype InteractionQa = InteractionQa(
    conversationalProfessional: Verdict, engagementPersonalization: Verdict, tonePace: Verdict,
    language: Verdict, objectionHandling: Verdict, deliveredExpectedOutcome: Verdict,
    criticalThinking: Verdict, accurateInformation: Verdict, effectiveResources: Verdict,
    timeliness: Verdict, finalScore: string)

  /**
   * The scorer's report. `interaction` is `None` when there is no transcript
   * (its final score is then "N/A"); the red flags are the four violation checks.
   */
  datatype QaReport = QaReport(evaluationMode: string, interaction: Option<InteractionQa>, caseQa: CaseQa,
                               redFlags: seq<Verdict>, overall: string, recommendation: string)

  function B2N(b: bool): nat {
    if b then 1 else 0
  }

  function YesNo(b: bool): Verdict {
    if b then Yes else No
  }

  function YesNa(b: bool): Verdict {
    if b then Yes else NotApplicable
  }

  /** A percentage as the scorer writes it, `f"{n}%"`. */
  function PctText(n: nat): string {
    NatText(n) + "%"
  }

  /** `s.replace(c, "")`. */
  function Remove(s: string, c: char): (r: string)
    ensures c !in r
    ensures c !in s ==> r == s
  {
    if s == [] then []
    else (if s[0] == c then [] else [s[0]]) + Remove(s[1..], c)
  }

  /** `int(overall.replace("%", "") or 0)`; anything but digits raises. */
  function PercentValue(overall: string): (r: Result<nat, string>)
    ensures Remove(overall, '%') == [] ==> r == Ok(0)
  {
    var digits := Remove(overall, '%');
    if digits == [] then Ok(0)
    else if AllDigits(digits) then Ok(DigitsValue(digits))
    else Err("invalid literal for int()")
  }

  /** "Keep doing" for a parsed overall score of at least 70, else "Coaching needed". */
  function Recommendation(overall: string): Result<string, string> {
    if overall == "N/A" then Ok("Coaching needed")
    else
      match PercentValue(overall)
      case Err(e) => Err(e)
      case Ok(v) => Ok(if v >= 70 then "Keep doing" else "Coaching needed")
  }

  /** Writing a percentage and reading it back gives the number again. */
  lemma PctTextRoundTrip(n: nat)
    ensures PctText(n) != "N/A"
    ensures PercentValue(PctText(n)) == Ok(n)
  {
    var t := NatText(n);
    NatTextRoundTrip(n);
    assert !IsDigit('%');
    assert '%' !in t;
    RemoveAppend(t, "%", '%');
    assert Remove("%", '%') == [];
    assert t + [] == t;
    assert PctText(n)[0] == t[0];
  }

  /** The recommendation read back from a written percentage compares the number itself with 70. */
  lemma RecommendationOfPct(n: nat)
    ensures Recommendation(PctText(n)) == Ok(if n >= 70 then "Keep doing" else "Coaching needed")
  {
    PctTextRoundTrip(n);
  }

  lemma {:induction false} RemoveAppend(a: string, b: string, c: char)
    ensures Remove(a + b, c) == Remove(a, c) + Remove(b, c)
  {
    if a == [] {
      assert a + b == b;
    } else {
      assert (a + b)[0] == a[0];
      assert (a + b)[1..] == a[1..] + b;
      RemoveAppend(a[1..], b, c);
    }
  }

  /**
   * `bool(row.get(key, "").strip())`: the field holds a non-whitespace
   * character (see `Text.StripEmptyIffAllSpace`).
   */
  predicate Filled(row: Row, key: string) {
    !AllSpace(Field(row, key))
  }

  /** `eval_mode` of `score_qa`: "Both" when a conversation with a transcript exists, else "Case". */
  function EvalMode(conversation: Option<Row>): string {
    if conversation.Some? && Field(conversation.value, "Transcript") != "" then "Both" else "Case"
  }

  /** The case count: one for each evidence flag that holds, plus one always. */
  function CaseCount(ticket: Row): (c: nat)
    ensures 1 <= c <= 5
  {
    B2N(Filled(ticket, "Resolution")) + B2N(Filled(ticket, "Description"))
    + B2N(Filled(ticket, "Script_ID") || Filled(ticket, "KB_Article_ID"))
    + B2N(Filled(ticket, "Root_Cause")) + 1
  }

  /** The interaction count: one for each transcript signal, plus five always. */
  function InteractionCount(sig: TranscriptSignals): (c: nat)
    ensures 5 <= c <= 10
  {
    B2N(sig.greeting) + B2N(sig.closing) + B2N(sig.empathy) + B2N(sig.confirmation) + B2N(sig.steps) + 5
  }

  function CaseVerdicts(ticket: Row, casePct: string): (q: CaseQa)
    ensures q.finalScore == casePct
    ensures q.clearProblemSummary == YesNo(Filled(ticket, "Description"))
    ensures q.actionLogCompleteness == YesNo(Filled(ticket, "Resolution"))
    ensures q.referencesKnowledge == YesNo(Filled(ticket, "KB_Article_ID") || Filled(ticket, "Script_ID"))
  {
    var hasResolution := Filled(ticket, "Resolution");
    var hasDescription := Filled(ticket, "Description");
    var hasScript := Filled(ticket, "Script_ID");
    var hasKb := Filled(ticket, "KB_Article_ID");
    var hasRootCause := Filled(ticket, "Root_Cause");
    CaseQa(
      YesNo(hasDescription),
      YesNo(hasDescription && Field(ticket, "Module") != ""),
      YesNo(hasResolution),
      YesNo(Field(ticket, "Category") != ""),
      YesNo(hasResolution && |Field(ticket, "Resolution")| > 20),
      YesNo(hasResolution && hasRootCause),
      YesNa(hasScript),
      YesNa(hasResolution),
      YesNo(hasKb || hasScript),
      YesNo(Field(ticket, "Status") == "Closed"),
      casePct)
  }

  /** How many of the five signal-driven interaction criteria say "Yes". */
  function SignalYes(q: InteractionQa): nat {
    B2N(q.conversationalProfessional == Yes) + B2N(q.engagementPersonalization == Yes)
    + B2N(q.deliveredExpectedOutcome == Yes) + B2N(q.criticalThinking == Yes) + B2N(q.timeliness == Yes)
  }

  /** The interaction verdicts; their count is five plus the criteria the signals turned to "Yes". */
  function InteractionVerdicts(ticket: Row, sig: TranscriptSignals, pct: string): (q: InteractionQa)
    ensures q.finalScore == pct
    ensures InteractionCount(sig) == 5 + SignalYes(q)
    ensures q.tonePace == Yes && q.language == Yes && q.accurateInformation == Yes
  {
    InteractionQa(
      YesNo(sig.greeting), YesNo(sig.empathy), Yes, Yes, YesNa(sig.steps),
      YesNo(sig.confirmation), YesNo(sig.steps), Yes,
      YesNa(Filled(ticket, "Script_ID") || Filled(ticket, "KB_Article_ID")),
      YesNa(sig.closing), pct)
  }

  /** The overall percentage `_build_heuristic_qa` reports: the interaction one when there is a transcript, else the case one. */
  function OverallPct(ticket: Row, conversation: Option<Row>, sig: TranscriptSignals): (p: nat)
    ensures 20 <= p <= 100
  {
    if conversation.Some? && Field(conversation.value, "Transcript") != "" then 10 * InteractionCount(sig)
    else 20 * CaseCount(ticket)
  }

  /**
   * `_build_heuristic_qa`: case percentage `20 * count`, interaction percentage
   * `10 * count` when a transcript exists, the overall score the interaction
   * percentage if there is one and the case percentage otherwise, and the
   * recommendation read back from the overall score's text.
   */
  function HeuristicQa(ticket: Row, conversation: Option<Row>, evalMode: string, sig: TranscriptSignals): (r: QaReport)
    ensures r.caseQa.finalScore == PctText(20 * CaseCount(ticket))
    ensures (conversation.Some? && Field(conversation.value, "Transcript") != "") <==> r.interaction.Some?
    ensures r.interaction.Some? ==>
      && r.interaction.value.finalScore == PctText(10 * InteractionCount(sig))
      && InteractionCount(sig) == 5 + SignalYes(r.interaction.value)
    ensures r.overall == PctText(OverallPct(ticket, conversation, sig))
    ensures r.recommendation == "Keep doing" <==> OverallPct(ticket, conversation, sig) >= 70
    ensures r.recommendation != "Keep doing" ==> r.recommendation == "Coaching needed"
    ensures r.evaluationMode == evalMode
    ensures |r.redFlags| == 4 && forall f :: f in r.redFlags ==> f == No
  {
    var caseQa := CaseVerdicts(ticket, PctText(20 * CaseCount(ticket)));
    var hasTranscript := conversation.Some? && Field(conversation.value, "Transcript") != "";
    var interaction := if hasTranscript then Some(InteractionVerdicts(ticket, sig, PctText(10 * InteractionCount(sig)))) else None;
    var overallPct := OverallPct(ticket, conversation, sig);
    var overall := PctText(overallPct);
    RecommendationOfPct(overallPct);
    var recommendation := Recommendation(overall).value;
    QaReport(evalMode, interaction, caseQa, [No, No, No, No], overall, recommendation)
  }

  /** The case percentage is one of 20, 40, 60, 80, 100; the interaction one lies in 50..100. */
  lemma HeuristicQaRanges(ticket: Row, sig: TranscriptSignals)
    ensures 20 * CaseCount(ticket) in {20, 40, 60, 80, 100}
    ensures 50 <= 10 * InteractionCount(sig) <= 100
  {
    var c := CaseCount(ticket);
    assert c == 1 || c == 2 || c == 3 || c == 4 || c == 5;
  }

  /** With a transcript, two matched signals already earn "Keep doing". */
  lemma TwoSignalsKeepDoing(ticket: Row, conversation: Option<Row>, evalMode: string, sig: TranscriptSignals)
    requires conversation.Some? && Field(conversation.value, "Transcript") != ""
    requires InteractionCount(sig) >= 7
    ensures HeuristicQa(ticket, conversation, evalMode, sig).recommendation == "Keep doing"
  {
  }
}
