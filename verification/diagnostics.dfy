/** The error log of `DiagnosticManager`: a keyword categoriser, per-category
    counters, an append-only log, the health score and the report's counts.
    Clocks, the browser environment and the network probes are outside this
    model; uptime is passed in as a number of milliseconds. */
module Diagnostics {
  import opened Results
  import opened Text

  /** The six categories, in the order the categoriser tries them. */
  datatype Category = Network | Syntax | Timeout | Permission | Memory | Unknown {

    /** The name the source uses for the category. */
    function Name(): string {
      match this
      case Network => "NETWORK_ERROR"
      case Syntax => "SYNTAX_ERROR"
      case Timeout => "TIMEOUT_ERROR"
      case Permission => "PERMISSION_ERROR"
      case Memory => "MEMORY_ERROR"
      case Unknown => "UNKNOWN_ERROR"
    }

    /** Position in the categoriser's sequence of tests. */
    function Rank(): nat {
      match this
      case Network => 0
      case Syntax => 1
      case Timeout => 2
      case Permission => 3
      case Memory => 4
      case Unknown => 5
    }

    /** The keywords that select the category; none for `Unknown`. */
    function Keywords(): seq<string> {
      match this
      case Network => ["network", "fetch", "cors"]
      case Syntax => ["syntax", "parse"]
      case Timeout => ["timeout"]
      case Permission => ["permission", "access"]
      case Memory => ["memory", "heap"]
      case Unknown => []
    }
  }

  /** Distinct categories have distinct names, so counting by category is
      counting by the source's name strings. */
  lemma NamesIdentifyCategories(c1: Category, c2: Category)
    ensures c1.Name() == c2.Name() <==> c1 == c2
  {
  }

  /** A thrown value as the manager sees it: an optional message and an
      optional stack. */
  datatype Error = Error(message: Option<string>, stack: Option<string>)

  /** `error.message || ""`. */
  function MessageText(e: Error): string {
    match e.message
    case None => ""
    case Some(m) => m
  }

  /** The lower-cased text mentions one of the category's keywords. */
  predicate Mentions(text: string, c: Category) {
    exists k :: 0 <= k < |c.Keywords()| && Contains(text, c.Keywords()[k])
  }

  /** The categoriser's chain of tests on lower-cased text. */
  function Classify(text: string): Category {
    if Contains(text, "network") || Contains(text, "fetch") || Contains(text, "cors") then Network
    else if Contains(text, "syntax") || Contains(text, "parse") then Syntax
    else if Contains(text, "timeout") then Timeout
    else if Contains(text, "permission") || Contains(text, "access") then Permission
    else if Contains(text, "memory") || Contains(text, "heap") then Memory
    else Unknown
  }

  /** `categorizeError`: classify the lower-cased message. A missing or
      empty message is `UNKNOWN_ERROR`. */
  function Categorize(e: Error): (c: Category)
    ensures MessageText(e) == "" ==> c == Unknown
    ensures c == Unknown <==> forall d: Category :: d != Unknown ==> !Mentions(Lower(MessageText(e)), d)
    ensures c != Unknown ==> Mentions(Lower(MessageText(e)), c)
  {
    var text := Lower(MessageText(e));
    ClassifyIsFirstMatch(text, Classify(text));
    ClassifyIsFirstMatch(text, Unknown);
    Classify(text)
  }

  /** First match wins: the category chosen is the earliest one whose
      keywords the text mentions, and `Unknown` exactly when it mentions
      none. */
  lemma ClassifyIsFirstMatch(text: string, c: Category)
    ensures Classify(text) == c <==>
              && (c == Unknown || Mentions(text, c))
              && forall d: Category :: d.Rank() < c.Rank() ==> !Mentions(text, d)
  {
    assert Mentions(text, Network) <==> Contains(text, "network") || Contains(text, "fetch") || Contains(text, "cors") by {
      assert Network.Keywords()[0] == "network" && Network.Keywords()[1] == "fetch" && Network.Keywords()[2] == "cors";
    }
    assert Mentions(text, Syntax) <==> Contains(text, "syntax") || Contains(text, "parse") by {
      assert Syntax.Keywords()[0] == "syntax" && Syntax.Keywords()[1] == "parse";
    }
    assert Mentions(text, Timeout) <==> Contains(text, "timeout") by {
      assert Timeout.Keywords()[0] == "timeout";
    }
    assert Mentions(text, Permission) <==> Contains(text, "permission") || Contains(text, "access") by {
      assert Permission.Keywords()[0] == "permission" && Permission.Keywords()[1] == "access";
    }
    assert Mentions(text, Memory) <==> Contains(text, "memory") || Contains(text, "heap") by {
      assert Memory.Keywords()[0] == "memory" && Memory.Keywords()[1] == "heap";
    }
    assert !Mentions(text, Unknown);
  }

  /** Matching ignores case: messages equal up to the case of their letters
      get the same category. */
  lemma CategorizeIgnoresCase(m1: string, m2: string, s1: Option<string>, s2: Option<string>)
    requires SameIgnoringCase(m1, m2)
    ensures Categorize(Error(Some(m1), s1)) == Categorize(Error(Some(m2), s2))
  {
    LowerEqualIffSameIgnoringCase(m1, m2);
  }

  /** A message mentioning "network", "fetch" or "cors" in any case is a
      network error whatever else it mentions; for instance
      "Fetch Timeout". */
  lemma NetworkKeywordsWin(m: string, s: Option<string>)
    requires Mentions(Lower(m), Network)
    ensures Categorize(Error(Some(m), s)) == Network
  {
  }

  /** The Kelvin sign lower-cases to 'k', so "NETWOR" followed by it reads
      as "network". */
  lemma KelvinSignCompletesNetwork()
    ensures Categorize(Error(Some("NETWOR" + [KelvinSign]), None)) == Network
  {
    var low := Lower("NETWOR" + [KelvinSign]);
    assert low == "network";
    ContainsAt(low, "network", 0);
  }

  lemma FetchTimeoutIsNetwork()
    ensures Categorize(Error(Some("Fetch Timeout"), None)) == Network
  {
    var low := Lower("Fetch Timeout");
    assert low[0..5] == "fetch";
    ContainsAt(low, "fetch", 0);
  }

  /** Errors counted per category; a category never seen has no entry. */
  type Counts = map<Category, nat>

  /** `errorCounts.get(t) || 0`. */
  function Count(counts: Counts, c: Category): nat {
    if c in counts then counts[c] else 0
  }

  /** `incrementErrorCount`: one more for `t`, no change for the others. */
  function Increment(counts: Counts, t: Category): (r: Counts)
    ensures Count(r, t) == Count(counts, t) + 1
    ensures forall c :: c != t ==> Count(r, c) == Count(counts, c)
    ensures r.Keys == counts.Keys + {t}
  {
    counts[t := Count(counts, t) + 1]
  }

  /** A log entry: message and stack with their fallbacks, and the
      category. Timestamps, context and environment snapshots are not
      modelled. */
  datatype Record = Record(message: string, stack: string, kind: Category)

  datatype Manager = Manager(logs: seq<Record>, counts: Counts)

  /** A freshly constructed manager. */
  const Fresh: Manager := Manager([], map[])

  /** The result of `logError`: the updated manager and the record returned. */
  datatype Logged = Logged(manager: Manager, record: Record)

  /** `logError`: build the record, append it to the log, bump its
      category's count, return it. */
  function LogError(m: Manager, e: Error): (r: Logged)
    ensures r.manager.logs == m.logs + [r.record]
    ensures r.record.kind == Categorize(e)
    ensures r.record.message == if MessageText(e) == "" then "Unknown error" else MessageText(e)
    ensures Count(r.manager.counts, r.record.kind) == Count(m.counts, r.record.kind) + 1
    ensures forall c :: c != r.record.kind ==> Count(r.manager.counts, c) == Count(m.counts, c)
  {
    var stack := match e.stack
      case None => "No stack trace available"
      case Some(st) => if st == "" then "No stack trace available" else st;
    var message := if MessageText(e) == "" then "Unknown error" else MessageText(e);
    var rec := Record(message, stack, Categorize(e));
    Logged(Manager(m.logs + [rec], Increment(m.counts, rec.kind)), rec)
  }

  /** How many log entries have category `c`. */
  function Occurrences(logs: seq<Record>, c: Category): nat {
    if |logs| == 0 then 0
    else Occurrences(logs[..|logs| - 1], c) + (if logs[|logs| - 1].kind == c then 1 else 0)
  }

  /** The counters agree with the log: each category's count is the number
      of its entries. */
  ghost predicate Consistent(m: Manager) {
    forall c: Category :: Count(m.counts, c) == Occurrences(m.logs, c)
  }

  lemma FreshIsConsistent()
    ensures Consistent(Fresh)
  {
  }

  /** `logError` keeps the counters in step with the log. */
  lemma LogErrorKeepsConsistent(m: Manager, e: Error)
    requires Consistent(m)
    ensures Consistent(LogError(m, e).manager)
  {
  }

  /** The sum over all six categories, which is the sum of the map's
      values since its keys are categories. */
  function Total(counts: Counts): nat {
    Count(counts, Network) + Count(counts, Syntax) + Count(counts, Timeout)
      + Count(counts, Permission) + Count(counts, Memory) + Count(counts, Unknown)
  }

  /** Every log entry falls in exactly one category. */
  lemma {:induction false} OccurrencesSum(logs: seq<Record>)
    ensures Occurrences(logs, Network) + Occurrences(logs, Syntax) + Occurrences(logs, Timeout)
            + Occurrences(logs, Permission) + Occurrences(logs, Memory) + Occurrences(logs, Unknown) == |logs|
  {
    if |logs| > 0 {
      OccurrencesSum(logs[..|logs| - 1]);
    }
  }

  /** With consistent counters the summed counts equal the log length. */
  lemma TotalIsLogLength(m: Manager)
    requires Consistent(m)
    ensures Total(m.counts) == |m.logs|
  {
    OccurrencesSum(m.logs);
  }

  const UptimeBonusAfter: int := 300000

  function Min(a: int, b: int): int {
    if a <= b then a else b
  }

  function Max(a: int, b: int): int {
    if a >= b then a else b
  }

  /** `getSystemHealthScore`: 100, less ten per error up to 50, less twenty
      per network error up to 40, plus ten after five minutes of uptime,
      clamped to [0,100]. */
  function HealthScore(counts: Counts, uptime: int): (score: int)
    ensures 10 <= score <= 100
    ensures Total(counts) == 0 ==> score == 100
  {
    var afterErrors := 100 - Min(Total(counts) * 10, 50);
    var afterNetwork := afterErrors - Min(Count(counts, Network) * 20, 40);
    var withUptime := if uptime > UptimeBonusAfter then afterNetwork + 10 else afterNetwork;
    Max(0, Min(100, withUptime))
  }

  /** More errors never raise the score, and more uptime never lowers it. */
  lemma HealthScoreMonotone(c1: Counts, c2: Counts, u1: int, u2: int)
    requires Total(c1) <= Total(c2) && Count(c1, Network) <= Count(c2, Network)
    requires u2 <= u1
    ensures HealthScore(c2, u2) <= HealthScore(c1, u1)
  {
  }

  /** The counted part of `generateDiagnosticReport`. */
  datatype Report = Report(systemHealth: int, uptime: int, errorSummary: Counts,
                           totalErrors: nat, recentErrors: seq<Record>)

  const RecentCount: nat := 5

  /** `logs.slice(-5)`: the last five entries, or all of them when there
      are fewer. */
  function LastRecords(logs: seq<Record>): (r: seq<Record>)
    ensures |r| == Min(RecentCount, |logs|)
    ensures exists older :: older + r == logs
  {
    var start := if |logs| <= RecentCount then 0 else |logs| - RecentCount;
    assert logs[..start] + logs[start..] == logs;
    logs[start..]
  }

  function GenerateReport(m: Manager, uptime: int): (r: Report)
    ensures r.totalErrors == |m.logs|
    ensures r.errorSummary == m.counts
    ensures r.systemHealth == HealthScore(m.counts, uptime) && 10 <= r.systemHealth <= 100
    ensures r.uptime == uptime
    ensures |r.recentErrors| == Min(RecentCount, |m.logs|)
    ensures exists older :: older + r.recentErrors == m.logs
  {
    Report(HealthScore(m.counts, uptime), uptime, m.counts, |m.logs|, LastRecords(m.logs))
  }

  /** A report taken after more errors never shows a better health score,
      for the same or a smaller uptime. */
  lemma ReportHealthMonotone(m1: Manager, m2: Manager, u1: int, u2: int)
    requires Total(m1.counts) <= Total(m2.counts) && Count(m1.counts, Network) <= Count(m2.counts, Network)
    requires u2 <= u1
    ensures GenerateReport(m2, u2).systemHealth <= GenerateReport(m1, u1).systemHealth
  {
    HealthScoreMonotone(m1.counts, m2.counts, u1, u2);
  }

  /** In a report of a consistent manager the log length equals the sum of
      the per-category counts it reports. */
  lemma ReportTotalsAgree(m: Manager, uptime: int)
    requires Consistent(m)
    ensures GenerateReport(m, uptime).totalErrors == Total(GenerateReport(m, uptime).errorSummary)
  {
    TotalIsLogLength(m);
  }
}
