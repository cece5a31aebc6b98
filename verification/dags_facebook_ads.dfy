/** The task runner of `dags/dags_facebook_ads.py`: it announces every task,
    submits each to a worker pool and then, on the control thread, handles
    the futures in the order they complete, printing one report block per
    completion that ends with the number of tasks still outstanding.

    The pool is abstracted away: the completion order is a parameter, a
    permutation of the task names (each future is yielded exactly once),
    and what each task's callable does is a parameter too. What the runner
    prints is modelled as a sequence of `ReportLine` values. */
module DagsFacebookAds {
  import PyStr

  /** The task names of the source's task map, in its iteration order. */
  const SourceTasks: seq<string> := ["campaign_insights", "ad_insights"]

  /** `str(e)` of the `IndexError` raised by popping an empty Python list. */
  const PopFromEmptyList: string := "pop from empty list"

  /** What a task's callable did: returned, leaving `captured` as the
      contents of its capture buffer, or raised an exception whose string
      form is `message`. */
  datatype FnOutcome = FnReturned(captured: string) | FnRaised(message: string)

  /** What `future.result()` does: return a tuple whose fourth component is
      `captured`, or raise an exception whose string form is `message`. */
  datatype FutureOutcome = Returned(captured: string) | Raised(message: string)

  datatype Status = Success | Failed

  /** The status and the output text the runner decides for one future. */
  datatype Verdict = Verdict(status: Status, output: string)

  /** One printed line (message texts are abstracted to their constructor). */
  datatype ReportLine =
    | Triggering(task: string)               // "Triggering to execute ... <task> task"
    | Banner(task: string, status: Status)   // success or failure banner naming the task
    | Rule                                   // "---"
    | RuleGap                                // "---" followed by an empty line
    | Output(text: string)                   // the task's output, stripped
    | Remaining(count: int)                  // "Waiting for <count> ... remaining tasks"

  /** What the control thread prints for one completion: the task, its
      verdict and the count of tasks still outstanding. */
  datatype Report = Report(task: string, verdict: Verdict, remaining: int)

  /** The control thread's state: the `completed` set and one report per
      completion so far, in completion order. */
  datatype LoopState = LoopState(completed: set<string>, reports: seq<Report>)

  /** A whole run: the announcement lines, the final `completed` set and the
      reports, one per completion. */
  datatype DagRun = DagRun(announced: seq<ReportLine>, completed: set<string>, reports: seq<Report>)

  /** No name occurs twice (the keys of a Python dict). */
  predicate Distinct(s: seq<string>) {
    forall i, j | 0 <= i < j < |s| :: s[i] != s[j]
  }

  /** The set of names in a sequence. */
  function Names(s: seq<string>): set<string> {
    set t | t in s
  }

  // ---------------------------------------------------------------------
  // Projections of a printed report

  /** The banner lines, in printing order. */
  function Banners(lines: seq<ReportLine>): (b: seq<ReportLine>)
    ensures forall i | 0 <= i < |b| :: b[i].Banner?
    decreases |lines|
  {
    if |lines| == 0 then []
    else (if lines[0].Banner? then [lines[0]] else []) + Banners(lines[1..])
  }

  /** The remaining-task counts, in printing order. */
  function Counts(lines: seq<ReportLine>): seq<int>
    decreases |lines|
  {
    if |lines| == 0 then []
    else (if lines[0].Remaining? then [lines[0].count] else []) + Counts(lines[1..])
  }

  /** The printed task outputs, in printing order. */
  function Outputs(lines: seq<ReportLine>): seq<string>
    decreases |lines|
  {
    if |lines| == 0 then []
    else (if lines[0].Output? then [lines[0].text] else []) + Outputs(lines[1..])
  }

  /** The three projections distribute over concatenation. */
  lemma ProjectionsConcat(a: seq<ReportLine>, b: seq<ReportLine>)
    ensures Banners(a + b) == Banners(a) + Banners(b)
    ensures Counts(a + b) == Counts(a) + Counts(b)
    ensures Outputs(a + b) == Outputs(a) + Outputs(b)
  {
    BannersConcat(a, b);
    CountsConcat(a, b);
    OutputsConcat(a, b);
  }

  // One projection per lemma keeps each induction small.
  lemma {:induction false} BannersConcat(a: seq<ReportLine>, b: seq<ReportLine>)
    ensures Banners(a + b) == Banners(a) + Banners(b)
    decreases |a|
  {
    if |a| == 0 {
      assert a + b == b;
    } else {
      var head := if a[0].Banner? then [a[0]] else [];
      assert (a + b)[0] == a[0];
      assert (a + b)[1..] == a[1..] + b;
      BannersConcat(a[1..], b);
      assert Banners(a + b) == head + (Banners(a[1..]) + Banners(b));
      ConcatAssoc(head, Banners(a[1..]), Banners(b));
    }
  }

  lemma {:induction false} CountsConcat(a: seq<ReportLine>, b: seq<ReportLine>)
    ensures Counts(a + b) == Counts(a) + Counts(b)
    decreases |a|
  {
    if |a| == 0 {
      assert a + b == b;
    } else {
      var head := if a[0].Remaining? then [a[0].count] else [];
      assert (a + b)[0] == a[0];
      assert (a + b)[1..] == a[1..] + b;
      CountsConcat(a[1..], b);
      assert Counts(a + b) == head + (Counts(a[1..]) + Counts(b));
      ConcatAssoc(head, Counts(a[1..]), Counts(b));
    }
  }

  lemma {:induction false} OutputsConcat(a: seq<ReportLine>, b: seq<ReportLine>)
    ensures Outputs(a + b) == Outputs(a) + Outputs(b)
    decreases |a|
  {
    if |a| == 0 {
      assert a + b == b;
    } else {
      var head := if a[0].Output? then [a[0].text] else [];
      assert (a + b)[0] == a[0];
      assert (a + b)[1..] == a[1..] + b;
      OutputsConcat(a[1..], b);
      assert Outputs(a + b) == head + (Outputs(a[1..]) + Outputs(b));
      ConcatAssoc(head, Outputs(a[1..]), Outputs(b));
    }
  }

  /** Projecting a line followed by more lines. */
  lemma ProjectionsCons(x: ReportLine, s: seq<ReportLine>)
    ensures Banners([x] + s) == (if x.Banner? then [x] else []) + Banners(s)
    ensures Counts([x] + s) == (if x.Remaining? then [x.count] else []) + Counts(s)
    ensures Outputs([x] + s) == (if x.Output? then [x.text] else []) + Outputs(s)
  {
  }

  // ---------------------------------------------------------------------
  // Announcements

  /** One "triggering" line per task, in task-map order, printed before any
      task is submitted. */
  function Announce(tasks: seq<string>): (r: seq<ReportLine>)
    ensures |r| == |tasks|
    ensures forall i | 0 <= i < |tasks| :: r[i] == Triggering(tasks[i])
    ensures Banners(r) == [] && Counts(r) == [] && Outputs(r) == []
    decreases |tasks|
  {
    if |tasks| == 0 then []
    else
      var rest := Announce(tasks[1..]);
      ProjectionsConcat([Triggering(tasks[0])], rest);
      [Triggering(tasks[0])] + rest
  }

  // ---------------------------------------------------------------------
  // What a future yields

  /** The submitted lambda as written: it enters one `redirect_stdout` object
      and then calls `__exit__` on a second, never-entered one, whose exit
      pops from its empty stack of saved streams. So a callable that returns
      never gets its captured output to the caller: the future raises. */
  function FutureAsWritten(fn: FnOutcome): (o: FutureOutcome)
    ensures o.Raised?
    ensures fn.FnRaised? ==> o.message == fn.message
    ensures fn.FnReturned? ==> o.message == PopFromEmptyList
  {
    match fn
    case FnRaised(message) => Raised(message)
    case FnReturned(_) => Raised(PopFromEmptyList)
  }

  /** The lambda as evidently intended: enter and exit the same redirect
      scope around the callable, and return the capture buffer's contents. */
  function FutureScoped(fn: FnOutcome): (o: FutureOutcome)
    ensures o.Returned? <==> fn.FnReturned?
    ensures fn.FnReturned? ==> o.captured == fn.captured
    ensures fn.FnRaised? ==> o.message == fn.message
  {
    match fn
    case FnRaised(message) => Raised(message)
    case FnReturned(captured) => Returned(captured)
  }

  /** The status/output decision: FAILED exactly when `result()` raised, with
      the exception's string as output; otherwise SUCCESS with the fourth
      tuple component. */
  function Resolve(o: FutureOutcome): (v: Verdict)
    ensures v.status == Failed <==> o.Raised?
    ensures o.Raised? ==> v.output == o.message
    ensures o.Returned? ==> v.output == o.captured
  {
    match o
    case Raised(message) => Verdict(Failed, message)
    case Returned(captured) => Verdict(Success, captured)
  }

  /** As written, every task is reported FAILED, even one whose callable
      returned normally. */
  lemma AsWrittenAlwaysFails(fn: FnOutcome)
    ensures Resolve(FutureAsWritten(fn)).status == Failed
    ensures fn.FnReturned? ==> Resolve(FutureAsWritten(fn)) == Verdict(Failed, PopFromEmptyList)
  {
  }

  /** A concrete instance: a task that prints a line and returns is reported
      as a failure whose output is the `IndexError` text. */
  lemma AsWrittenReportsSuccessAsFailure()
    ensures Resolve(FutureAsWritten(FnReturned("extracted 3 rows\n")))
            == Verdict(Failed, PopFromEmptyList)
    ensures Resolve(FutureScoped(FnReturned("extracted 3 rows\n")))
            == Verdict(Success, "extracted 3 rows\n")
  {
  }

  /** With a properly scoped redirect, the status is SUCCESS exactly when the
      callable returned, and the output is the buffer's contents or the
      exception text. */
  lemma ScopedStatusMatchesCallable(fn: FnOutcome)
    ensures Resolve(FutureScoped(fn)).status == Success <==> fn.FnReturned?
    ensures Resolve(FutureScoped(fn)).output == (if fn.FnReturned? then fn.captured else fn.message)
  {
  }


  // ---------------------------------------------------------------------
  // One completion

  /** The lines printed for one completed task: the banner, a rule, the
      stripped output when the unstripped output is non-empty, a rule, the
      remaining count, a rule. */
  function ReportBlock(b: Report): (r: seq<ReportLine>)
    ensures |r| >= 5 && r[0] == Banner(b.task, b.verdict.status) && r[1] == Rule
    ensures forall i | 0 <= i < |r| :: !r[i].Triggering?
  {
    var head := [Banner(b.task, b.verdict.status), Rule];
    var tail := [RuleGap, Remaining(b.remaining), RuleGap];
    if b.verdict.output == "" then head + tail
    else head + [Output(PyStr.Strip(b.verdict.output))] + tail
  }

  /** A block holds one banner, naming its task and status, one count, and
      the stripped output exactly when the unstripped output is non-empty. */
  lemma BlockProjections(b: Report)
    ensures Banners(ReportBlock(b)) == [Banner(b.task, b.verdict.status)]
    ensures Counts(ReportBlock(b)) == [b.remaining]
    ensures Outputs(ReportBlock(b)) == if b.verdict.output == "" then [] else [PyStr.Strip(b.verdict.output)]
  {
    var tail := [RuleGap, Remaining(b.remaining), RuleGap];
    ProjectionsCons(RuleGap, []);
    assert [RuleGap] + [] == [RuleGap];
    ProjectionsCons(Remaining(b.remaining), [RuleGap]);
    ProjectionsCons(RuleGap, [Remaining(b.remaining), RuleGap]);
    var body := if b.verdict.output == "" then tail else [Output(PyStr.Strip(b.verdict.output))] + tail;
    ProjectionsCons(Output(PyStr.Strip(b.verdict.output)), tail);
    ProjectionsCons(Rule, body);
    ProjectionsCons(Banner(b.task, b.verdict.status), [Rule] + body);
    assert ReportBlock(b) == [Banner(b.task, b.verdict.status)] + ([Rule] + body);
  }

  /** The order inside a block: banner and rule, then the stripped output
      exactly when the unstripped output is non-empty, then rule, remaining
      count, rule. */
  lemma BlockLayout(b: Report)
    ensures var r := ReportBlock(b);
            && |r| == (if b.verdict.output == "" then 5 else 6)
            && r[..2] == [Banner(b.task, b.verdict.status), Rule]
            && r[2..|r| - 3] == (if b.verdict.output == "" then [] else [Output(PyStr.Strip(b.verdict.output))])
            && r[|r| - 3..] == [RuleGap, Remaining(b.remaining), RuleGap]
  {
  }

  /** One iteration of `for future in as_completed(futures)`: add the task to
      `completed`, decide the verdict, report it with
      `len(tasks) - len(completed)` as the remaining count. */
  function Step(taskCount: int, st: LoopState, task: string, o: FutureOutcome): (st': LoopState)
    ensures st'.completed == st.completed + {task}
    ensures task !in st.completed ==> |st'.completed| == |st.completed| + 1
    ensures |st'.reports| == |st.reports| + 1 && st'.reports[..|st.reports|] == st.reports
    ensures st'.reports[|st.reports|].task == task
    ensures st'.reports[|st.reports|].verdict == Resolve(o)
    ensures st'.reports[|st.reports|].remaining == taskCount - |st'.completed|
  {
    var completed := st.completed + {task};
    var reports := st.reports + [Report(task, Resolve(o), taskCount - |completed|)];
    assert reports[..|st.reports|] == st.reports;
    LoopState(completed, reports)
  }

  /** A step that handles a task not yet completed reports the count one
      below what was outstanding before it. */
  lemma StepNewTask(taskCount: int, st: LoopState, task: string, o: FutureOutcome)
    requires task !in st.completed
    ensures Step(taskCount, st, task, o)
            == LoopState(st.completed + {task},
                         st.reports + [Report(task, Resolve(o), taskCount - |st.completed| - 1)])
  {
  }

  /** The completion loop over the futures still to be yielded, in `order`. */
  function RunLoop(taskCount: int, st: LoopState, order: seq<string>, outcome: string -> FutureOutcome): LoopState
    decreases |order|
  {
    if |order| == 0 then st
    else RunLoop(taskCount, Step(taskCount, st, order[0], outcome(order[0])), order[1..], outcome)
  }

  // ---------------------------------------------------------------------
  // The reference report

  /** The reports the loop should make, defined without any set: the first
      names the first completed task and counts `before - 1` tasks still
      outstanding, and each later one counts one fewer. */
  function ExpectedReports(order: seq<string>, outcome: string -> FutureOutcome, before: int): seq<Report>
    decreases |order|
  {
    if |order| == 0 then []
    else [Report(order[0], Resolve(outcome(order[0])), before - 1)] + ExpectedReports(order[1..], outcome, before - 1)
  }

  /** The k-th reference report (from 0) names the k-th completed task, with
      its verdict, and counts `before - 1 - k` tasks still outstanding. */
  lemma {:induction false} ExpectedReportsAt(order: seq<string>, outcome: string -> FutureOutcome, before: int)
    ensures |ExpectedReports(order, outcome, before)| == |order|
    ensures forall k | 0 <= k < |order| ::
              ExpectedReports(order, outcome, before)[k] == Report(order[k], Resolve(outcome(order[k])), before - 1 - k)
    decreases |order|
  {
    if |order| > 0 {
      var rest := order[1..];
      ExpectedReportsAt(rest, outcome, before - 1);
      forall k | 0 < k < |order|
        ensures ExpectedReports(order, outcome, before)[k] == Report(order[k], Resolve(outcome(order[k])), before - 1 - k)
      {
        assert rest[k - 1] == order[k];
      }
    }
  }

  /** The loop's `completed` set gains exactly the tasks it handled. */
  lemma {:induction false} LoopCompletes(
    taskCount: int, st: LoopState, order: seq<string>, outcome: string -> FutureOutcome)
    ensures RunLoop(taskCount, st, order, outcome).completed == st.completed + Names(order)
    decreases |order|
  {
    if |order| == 0 {
      assert Names(order) == {};
    } else {
      var next := Step(taskCount, st, order[0], outcome(order[0]));
      LoopCompletes(taskCount, next, order[1..], outcome);
      NamesCons(order);
    }
  }

  /** The set-based loop makes exactly the reference reports, as long as
      the tasks still to come are distinct and not yet completed: the
      set's cardinality then falls by one per completion. */
  lemma {:induction false} LoopMatchesReference(
    taskCount: int, st: LoopState, order: seq<string>, outcome: string -> FutureOutcome)
    requires Distinct(order)
    requires forall i | 0 <= i < |order| :: order[i] !in st.completed
    ensures RunLoop(taskCount, st, order, outcome).reports
            == st.reports + ExpectedReports(order, outcome, taskCount - |st.completed|)
    decreases |order|
  {
    var before := taskCount - |st.completed|;
    if |order| == 0 {
      assert st.reports + [] == st.reports;
    } else {
      var rest := order[1..];
      var first := Report(order[0], Resolve(outcome(order[0])), before - 1);
      var next := LoopState(st.completed + {order[0]}, st.reports + [first]);
      var later := ExpectedReports(rest, outcome, before - 1);
      TailStaysFresh(st.completed, order);
      FirstIteration(taskCount, st, order, outcome);
      LoopMatchesReference(taskCount, next, rest, outcome);
      ConcatAssoc(st.reports, [first], later);
    }
  }

  /** The names of a non-empty sequence: its first and those of the rest. */
  lemma NamesCons(s: seq<string>)
    requires |s| > 0
    ensures Names(s) == {s[0]} + Names(s[1..])
  {
  }

  /** After the first of distinct, not-yet-completed tasks is handled, the
      rest are still distinct and not yet completed. */
  lemma TailStaysFresh(completed: set<string>, order: seq<string>)
    requires |order| > 0 && Distinct(order)
    requires forall i | 0 <= i < |order| :: order[i] !in completed
    ensures Distinct(order[1..])
    ensures forall i | 0 <= i < |order| - 1 :: order[1..][i] !in completed + {order[0]}
  {
  }

  /** The loop's first iteration on a task not yet completed reports it with
      one less than was outstanding, then carries on with the rest. */
  lemma FirstIteration(taskCount: int, st: LoopState, order: seq<string>, outcome: string -> FutureOutcome)
    requires |order| > 0 && order[0] !in st.completed
    ensures RunLoop(taskCount, st, order, outcome)
            == RunLoop(taskCount,
                       LoopState(st.completed + {order[0]},
                                 st.reports + [Report(order[0], Resolve(outcome(order[0])), taskCount - |st.completed| - 1)]),
                       order[1..], outcome)
    ensures taskCount - |st.completed + {order[0]}| == taskCount - |st.completed| - 1
  {
  }

  // Sequence concatenation is associative.
  lemma ConcatAssoc<T>(a: seq<T>, b: seq<T>, c: seq<T>)
    ensures (a + b) + c == a + (b + c)
  {
  }

  // ---------------------------------------------------------------------
  // Permutations of distinct names

  // A sequence without repeats holds each name at most once.
  lemma {:induction false} DistinctMultiplicity(s: seq<string>)
    requires Distinct(s)
    ensures forall x :: multiset(s)[x] <= 1
    decreases |s|
  {
    if |s| > 0 {
      var rest := s[1..];
      assert Distinct(rest) by {
        forall i, j | 0 <= i < j < |rest| ensures rest[i] != rest[j] {
          assert rest[i] == s[i + 1] && rest[j] == s[j + 1];
        }
      }
      DistinctMultiplicity(rest);
      assert s == [s[0]] + rest;
      assert s[0] !in rest by {
        forall i | 0 <= i < |rest| ensures rest[i] != s[0] {
          assert rest[i] == s[i + 1];
        }
      }
    }
  }

  // A name at two positions occurs at least twice.
  lemma RepeatMultiplicity(s: seq<string>, i: int, j: int)
    requires 0 <= i < j < |s| && s[i] == s[j]
    ensures multiset(s)[s[i]] >= 2
  {
    assert s == s[..j] + s[j..];
    assert s[i] in s[..j];
    assert s[j..][0] == s[j];
    assert s[j] in s[j..];
    assert multiset(s) == multiset(s[..j]) + multiset(s[j..]);
  }

  /** A permutation of distinct names is itself distinct and names the same set. */
  lemma PermutationOfDistinct(order: seq<string>, tasks: seq<string>)
    requires Distinct(tasks) && multiset(order) == multiset(tasks)
    ensures Distinct(order)
    ensures Names(order) == Names(tasks)
    ensures |order| == |tasks|
  {
    DistinctMultiplicity(tasks);
    forall i, j | 0 <= i < j < |order| ensures order[i] != order[j] {
      if order[i] == order[j] {
        RepeatMultiplicity(order, i, j);
        assert false;
      }
    }
    assert |order| == |multiset(order)| == |multiset(tasks)| == |tasks|;
    forall t ensures t in Names(order) <==> t in Names(tasks) {
      assert t in order <==> t in multiset(order);
      assert t in tasks <==> t in multiset(tasks);
    }
  }

  // ---------------------------------------------------------------------
  // The whole loop and the whole run

  /** The completion loop from an empty `completed` set, over a completion
      order that yields every task exactly once. */
  function CompletionLoop(tasks: seq<string>, order: seq<string>, outcome: string -> FutureOutcome): (r: LoopState)
    requires Distinct(tasks) && multiset(order) == multiset(tasks)
    ensures r.completed == Names(tasks)
    ensures r.reports == ExpectedReports(order, outcome, |tasks|)
  {
    PermutationOfDistinct(order, tasks);
    LoopCompletes(|tasks|, LoopState({}, []), order, outcome);
    LoopMatchesReference(|tasks|, LoopState({}, []), order, outcome);
    assert [] + ExpectedReports(order, outcome, |tasks|) == ExpectedReports(order, outcome, |tasks|);
    RunLoop(|tasks|, LoopState({}, []), order, outcome)
  }

  /** The status the runner reports for a task whose callable did `fn`, when
      the capture is properly scoped. */
  function StatusOf(fn: FnOutcome): Status {
    if fn.FnRaised? then Failed else Success
  }

  /** The output the runner reports for a task whose callable did `fn`, when
      the capture is properly scoped. */
  function OutputOf(fn: FnOutcome): string {
    if fn.FnRaised? then fn.message else fn.captured
  }

  /** `dags_facebook_ads`: announce every task, then handle the completions,
      with each task's callable run under a properly scoped capture. Every
      task gets exactly one report, whatever the completion order and however
      many tasks fail; the k-th report names the k-th completed task with its
      status and output, and counts down to zero. */
  function Dag(tasks: seq<string>, order: seq<string>, fn: string -> FnOutcome): (r: DagRun)
    requires Distinct(tasks) && multiset(order) == multiset(tasks)
    ensures |r.announced| == |tasks|
    ensures forall i | 0 <= i < |tasks| :: r.announced[i] == Triggering(tasks[i])
    ensures r.completed == Names(tasks)
    ensures |r.reports| == |tasks| == |order|
    ensures forall k | 0 <= k < |tasks| ::
              r.reports[k] == Report(order[k], Verdict(StatusOf(fn(order[k])), OutputOf(fn(order[k]))), |tasks| - 1 - k)
  {
    var outcome := t => FutureScoped(fn(t));
    var loop := CompletionLoop(tasks, order, outcome);
    PermutationOfDistinct(order, tasks);
    ExpectedReportsAt(order, outcome, |tasks|);
    DagRun(Announce(tasks), loop.completed, loop.reports)
  }

  /** The output text the runner reports for a task whose callable did `fn`,
      with the lambda as written: the callable's own exception text, or the
      `IndexError` text when it returned. */
  function AsWrittenOutputOf(fn: FnOutcome): string {
    if fn.FnRaised? then fn.message else PopFromEmptyList
  }

  /** `dags_facebook_ads` with the lambda as written. The announcements,
      the `completed` set, the order and the countdown are as in `Dag`, but
      every report is FAILED: a returning task with the `IndexError` text,
      a raising one with its own exception text. */
  function DagAsWritten(tasks: seq<string>, order: seq<string>, fn: string -> FnOutcome): (r: DagRun)
    requires Distinct(tasks) && multiset(order) == multiset(tasks)
    ensures r.announced == Announce(tasks)
    ensures r.completed == Names(tasks)
    ensures |r.reports| == |tasks| == |order|
    ensures forall k | 0 <= k < |tasks| ::
              r.reports[k] == Report(order[k], Verdict(Failed, AsWrittenOutputOf(fn(order[k]))), |tasks| - 1 - k)
    ensures forall k | 0 <= k < |tasks| :: r.reports[k].verdict.status == Failed
  {
    var outcome := t => FutureAsWritten(fn(t));
    var loop := CompletionLoop(tasks, order, outcome);
    PermutationOfDistinct(order, tasks);
    ExpectedReportsAt(order, outcome, |tasks|);
    DagRun(Announce(tasks), loop.completed, loop.reports)
  }

  /** Every task is reported exactly once, and nothing but the tasks is
      reported, whatever the completion order and however many tasks fail. */
  lemma DagReportsEachTaskOnce(tasks: seq<string>, order: seq<string>, fn: string -> FnOutcome)
    requires Distinct(tasks) && multiset(order) == multiset(tasks)
    ensures var r := Dag(tasks, order, fn);
            && |r.reports| == |tasks|
            && (forall t | t in tasks :: exists k | 0 <= k < |tasks| :: r.reports[k].task == t)
            && (forall k | 0 <= k < |tasks| :: r.reports[k].task in tasks)
            && (forall k, l | 0 <= k < l < |tasks| :: r.reports[k].task != r.reports[l].task)
  {
    var r := Dag(tasks, order, fn);
    PermutationOfDistinct(order, tasks);
    forall t | t in tasks ensures exists k | 0 <= k < |tasks| :: r.reports[k].task == t {
      assert t in multiset(order);
      var k :| 0 <= k < |order| && order[k] == t;
      assert r.reports[k].task == t;
    }
    forall k | 0 <= k < |tasks| ensures r.reports[k].task in tasks {
      assert r.reports[k].task == order[k];
      assert order[k] in multiset(tasks);
    }
  }

  // ---------------------------------------------------------------------
  // The printed lines of a run

  /** The blocks of the reports, printed one after another. */
  function Render(reports: seq<Report>): seq<ReportLine>
    decreases |reports|
  {
    if |reports| == 0 then [] else ReportBlock(reports[0]) + Render(reports[1..])
  }

  /** Everything a run prints, in order. */
  function Lines(run: DagRun): seq<ReportLine> {
    run.announced + Render(run.reports)
  }

  /** The rendered lines hold one banner and one count per report, in
      report order. */
  lemma {:induction false} RenderProjections(reports: seq<Report>)
    ensures |Banners(Render(reports))| == |reports|
    ensures forall k | 0 <= k < |reports| ::
              Banners(Render(reports))[k] == Banner(reports[k].task, reports[k].verdict.status)
    ensures |Counts(Render(reports))| == |reports|
    ensures forall k | 0 <= k < |reports| :: Counts(Render(reports))[k] == reports[k].remaining
    decreases |reports|
  {
    if |reports| > 0 {
      var rest := reports[1..];
      RenderProjections(rest);
      BlockProjections(reports[0]);
      ProjectionsConcat(ReportBlock(reports[0]), Render(rest));
      forall k | 0 <= k < |reports|
        ensures Banners(Render(reports))[k] == Banner(reports[k].task, reports[k].verdict.status)
        ensures Counts(Render(reports))[k] == reports[k].remaining
      {
        if k > 0 {
          assert reports[k] == rest[k - 1];
        }
      }
    }
  }

  /** Behind announcements that hold no banner and no count, the printed
      lines of a run hold one banner and one count per report, in report
      order. */
  lemma RunLines(run: DagRun)
    requires Banners(run.announced) == [] && Counts(run.announced) == []
    ensures |Banners(Lines(run))| == |run.reports|
    ensures forall k | 0 <= k < |run.reports| ::
              Banners(Lines(run))[k] == Banner(run.reports[k].task, run.reports[k].verdict.status)
    ensures |Counts(Lines(run))| == |run.reports|
    ensures forall k | 0 <= k < |run.reports| :: Counts(Lines(run))[k] == run.reports[k].remaining
  {
    RenderProjections(run.reports);
    ProjectionsConcat(run.announced, Render(run.reports));
  }

  /** The printed lines of a run start with the announcements, then hold
      one banner per task, in completion order, with its status. */
  lemma DagBanners(tasks: seq<string>, order: seq<string>, fn: string -> FnOutcome)
    requires Distinct(tasks) && multiset(order) == multiset(tasks)
    ensures |order| == |tasks|
    ensures var lines := Lines(Dag(tasks, order, fn));
            && |lines| >= |tasks|
            && (forall i | 0 <= i < |tasks| :: lines[i] == Triggering(tasks[i]))
            && |Banners(lines)| == |tasks|
            && (forall k | 0 <= k < |tasks| :: Banners(lines)[k] == Banner(order[k], StatusOf(fn(order[k]))))
  {
    PermutationOfDistinct(order, tasks);
    var r := Dag(tasks, order, fn);
    assert r.announced == Announce(tasks);
    RunLines(r);
  }

  /** The remaining counts a run prints fall by one per completion, from
      one less than the number of tasks down to zero. */
  lemma DagCountdown(tasks: seq<string>, order: seq<string>, fn: string -> FnOutcome)
    requires Distinct(tasks) && multiset(order) == multiset(tasks)
    ensures var counts := Counts(Lines(Dag(tasks, order, fn)));
            && |counts| == |tasks|
            && (forall k | 0 <= k < |tasks| :: counts[k] == |tasks| - 1 - k)
            && (forall k, l | 0 <= k < l < |tasks| :: counts[k] > counts[l])
            && (|tasks| > 0 ==> counts[|tasks| - 1] == 0)
  {
    var r := Dag(tasks, order, fn);
    assert r.announced == Announce(tasks);
    RunLines(r);
  }

  /** The source's two task names are distinct, and either order of them
      is a completion order. */
  lemma SourceOrders(order: seq<string>)
    requires order == SourceTasks || order == [SourceTasks[1], SourceTasks[0]]
    ensures Distinct(SourceTasks) && multiset(order) == multiset(SourceTasks)
  {
  }

  /** With the source's two tasks, the run reports the first to finish,
      counting 1, then the second, counting 0. */
  lemma TwoTaskReports(order: seq<string>, fn: string -> FnOutcome)
    requires order == SourceTasks || order == [SourceTasks[1], SourceTasks[0]]
    ensures Distinct(SourceTasks) && multiset(order) == multiset(SourceTasks)
    ensures Dag(SourceTasks, order, fn).reports
            == [Report(order[0], Verdict(StatusOf(fn(order[0])), OutputOf(fn(order[0]))), 1),
                Report(order[1], Verdict(StatusOf(fn(order[1])), OutputOf(fn(order[1]))), 0)]
  {
    SourceOrders(order);
  }

  /** The source's two tasks, whichever finishes first: when `ad_insights`
      raises and `campaign_insights` returns, both are reported, the first
      to finish counting 1 and the second 0, `ad_insights` as a failure with
      its exception text and `campaign_insights` as a success with its
      capture buffer's contents. */
  lemma TwoTaskScenario(order: seq<string>, fn: string -> FnOutcome)
    requires order == SourceTasks || order == [SourceTasks[1], SourceTasks[0]]
    requires fn("ad_insights").FnRaised? && fn("campaign_insights").FnReturned?
    ensures Distinct(SourceTasks) && multiset(order) == multiset(SourceTasks)
    ensures var ad := Verdict(Failed, fn("ad_insights").message);
            var campaign := Verdict(Success, fn("campaign_insights").captured);
            Dag(SourceTasks, order, fn).reports
            == if order == SourceTasks
               then [Report("campaign_insights", campaign, 1), Report("ad_insights", ad, 0)]
               else [Report("ad_insights", ad, 1), Report("campaign_insights", campaign, 0)]
  {
    TwoTaskReports(order, fn);
  }

  /** With the source's two tasks and the lambda as written, the run
      reports the first to finish, counting 1, then the second, counting 0,
      both FAILED. */
  lemma TwoTaskReportsAsWritten(order: seq<string>, fn: string -> FnOutcome)
    requires order == SourceTasks || order == [SourceTasks[1], SourceTasks[0]]
    ensures Distinct(SourceTasks) && multiset(order) == multiset(SourceTasks)
    ensures DagAsWritten(SourceTasks, order, fn).reports
            == [Report(order[0], Verdict(Failed, AsWrittenOutputOf(fn(order[0]))), 1),
                Report(order[1], Verdict(Failed, AsWrittenOutputOf(fn(order[1]))), 0)]
  {
    SourceOrders(order);
  }

  /** The same two-task run with the lambda as written: `campaign_insights`,
      whose callable returned, is reported FAILED with the `IndexError` text,
      and `ad_insights` FAILED with its own exception text. */
  lemma TwoTaskScenarioAsWritten(order: seq<string>, fn: string -> FnOutcome)
    requires order == SourceTasks || order == [SourceTasks[1], SourceTasks[0]]
    requires fn("ad_insights").FnRaised? && fn("campaign_insights").FnReturned?
    ensures Distinct(SourceTasks) && multiset(order) == multiset(SourceTasks)
    ensures var ad := Verdict(Failed, fn("ad_insights").message);
            var campaign := Verdict(Failed, PopFromEmptyList);
            DagAsWritten(SourceTasks, order, fn).reports
            == if order == SourceTasks
               then [Report("campaign_insights", campaign, 1), Report("ad_insights", ad, 0)]
               else [Report("ad_insights", ad, 1), Report("campaign_insights", campaign, 0)]
  {
    TwoTaskReportsAsWritten(order, fn);
  }
}
