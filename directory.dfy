/** The per-directory pipeline `analyze_single_directory`
    (project_analyzer.py:187-242): the skip test, the collection of eligible
    direct-child files, the bundle, and the validate-retry loop around the
    client. The directory listing is given as a sequence of entries and the
    client's network behaviour as one attempt script per client call. */
module Directory {
  import opened Config
  import opened Strings
  import opened Validation
  import opened Paths
  import opened Client

  datatype Option<T> = None | Some(value: T)

  /** One name returned by `os.listdir`, whether `os.path.isfile` holds of
      it, and the text `get_file_content` returns for it (its contents, or
      the error text it produces when the file cannot be read). */
  datatype Entry = Entry(name: string, isFile: bool, text: string)

  /** How a directory's analysis ends; `Aborted` means an exception left
      the pipeline. */
  datatype DirStatus = SkippedDirectory | NoEligibleFiles | ReportWritten | ValidationFailed | Aborted

  /** What the loop makes of one client call: a report to write, a
      rejection to retry, or an exception that ends the pipeline. */
  datatype Verdict = Accept(report: string) | Reject | Abort

  /** What one run of the pipeline does: how it ends, the report it writes
      (if any), the bundle it sends, how many times it calls the client, how
      many requests those calls make in all, and the sleeps of its own loop. */
  datatype DirResult = DirResult(
    status: DirStatus,
    written: Option<string>,
    bundle: string,
    calls: nat,
    requests: nat,
    sleeps: seq<nat>)

  /** An attempt script for every client call the loop can make. */
  predicate Supplied(apis: seq<Script>) {
    |apis| >= MAX_RETRIES
  }

  /** A listed entry is collected: a regular file whose path passes the extension test. */
  predicate IsEligible(directory: string, e: Entry) {
    e.isFile && ShouldAnalyzeFile(PathJoin(directory, e.name))
  }

  /** The `files` list: the eligible entries in listing order. */
  function Eligible(directory: string, listing: seq<Entry>): seq<Entry>
    decreases |listing|
  {
    if listing == [] then []
    else
      var last := listing[|listing| - 1];
      Eligible(directory, listing[..|listing| - 1]) + (if IsEligible(directory, last) then [last] else [])
  }

  /** The delimited block for one file. */
  function FilePart(e: Entry): string {
    "\n### File: " + e.name + "\n```\n" + e.text + "\n```"
  }

  /** The `content_parts` list. */
  function Parts(files: seq<Entry>): (parts: seq<string>)
    ensures |parts| == |files|
    ensures forall k :: 0 <= k < |files| ==> parts[k] == FilePart(files[k])
    decreases |files|
  {
    if files == [] then [] else Parts(files[..|files| - 1]) + [FilePart(files[|files| - 1])]
  }

  /** `full_content`: the parts joined by newlines. */
  function Bundle(files: seq<Entry>): string {
    JoinWith("\n", Parts(files))
  }

  /** What the client calls return, call by call. */
  function Runs(apis: seq<Script>): (runs: seq<ClientRun>)
    requires Supplied(apis)
    ensures |runs| == MAX_RETRIES
  {
    seq(MAX_RETRIES, i requires 0 <= i < MAX_RETRIES => ClientFrom(apis[i], 0, 0))
  }

  /** Entry `i` of `Runs` is client call `i`, which makes between 1 and
      32 requests. */
  lemma RunsAreClientCalls(apis: seq<Script>, i: nat)
    requires Supplied(apis) && i < MAX_RETRIES
    ensures Runs(apis)[i] == ClientFrom(apis[i], 0, 0)
    ensures 1 <= Runs(apis)[i].attempts <= 32
  {
    RequestBudgetAtStart();
  }

  /** The loop's reading of one client call's outcome under the validator
      `valid`. A raised call aborts. A text is written when it is valid and
      rejected otherwise. An array or object is rejected by `not content`
      when it is empty; otherwise `content.strip()` raises. */
  function Judge(o: Outcome, valid: string -> bool): Verdict {
    match o
    case Raised => Abort
    case Returned(Text(t)) => if valid(t) then Accept(t) else Reject
    case Returned(Structured(size)) => if size == 0 then Reject else Abort
  }

  /** The requests made by the first `n` client calls. */
  function Requests(runs: seq<ClientRun>, n: nat): nat
    requires n <= |runs|
  {
    if n == 0 then 0 else Requests(runs, n - 1) + runs[n - 1].attempts
  }

  /** The validate-retry loop, entered with `retry_count == k`, the
      analysis of call `k` in hand and the sleeps `slept` taken so far;
      `valid` is the report validator, which the pipeline fixes to
      `VerifyMarkdown`. */
  function ValidateFrom(bundle: string, runs: seq<ClientRun>, valid: string -> bool, k: nat, slept: seq<nat>): DirResult
    requires k < MAX_RETRIES <= |runs|
    decreases MAX_RETRIES - k
  {
    match Judge(runs[k].outcome, valid)
    case Accept(report) => DirResult(ReportWritten, Some(report), bundle, k + 1, Requests(runs, k + 1), slept)
    case Abort => DirResult(Aborted, None, bundle, k + 1, Requests(runs, k + 1), slept)
    case Reject =>
      if k + 1 < MAX_RETRIES then
        ValidateFrom(bundle, runs, valid, k + 1, slept + [Backoff(k)])
      else
        DirResult(ValidationFailed, None, bundle, MAX_RETRIES, Requests(runs, MAX_RETRIES), slept)
  }

  /** `analyze_single_directory(directory, base)` as a function of the
      directory's path, its listing, what the client calls return in turn
      (`Runs` of the attempt scripts in the pipeline itself) and the report
      validator (`VerifyMarkdown` in the pipeline itself). */
  function DirectorySpec(directory: string, listing: seq<Entry>, runs: seq<ClientRun>, valid: string -> bool): DirResult
    requires MAX_RETRIES <= |runs|
  {
    if ShouldSkipDirectory(directory) then DirResult(SkippedDirectory, None, "", 0, 0, [])
    else
      var files := Eligible(directory, listing);
      if files == [] then DirResult(NoEligibleFiles, None, "", 0, 0, [])
      else ValidateFrom(Bundle(files), runs, valid, 0, [])
  }

  /** The collection loop over `os.listdir(directory)`: keep each regular
      file whose joined path passes `should_analyze_file`, in listing order. */
  method CollectFiles(directory: string, listing: seq<Entry>) returns (files: seq<Entry>)
    ensures files == Eligible(directory, listing)
  {
    files := [];
    for i := 0 to |listing|
      invariant files == Eligible(directory, listing[..i])
    {
      assert listing[..i + 1][..i] == listing[..i];
      var item := listing[i];
      if item.isFile {
        if !ShouldAnalyzeFile(PathJoin(directory, item.name)) {
          continue;
        }
        files := files + [item];
      }
    }
    assert listing[..|listing|] == listing;
  }

  /** The loop building `content_parts`, then the newline join. */
  method BuildBundle(files: seq<Entry>) returns (full: string)
    ensures full == Bundle(files)
  {
    var parts: seq<string> := [];
    for i := 0 to |files|
      invariant parts == Parts(files[..i])
    {
      assert files[..i + 1][..i] == files[..i];
      parts := parts + [FilePart(files[i])];
    }
    assert files[..|files|] == files;
    full := JoinWith("\n", parts);
  }

  /** The pipeline: skip test, collection, bundle, then analyse, validate
      and retry while `retry_count < MAX_RETRIES`. */
  method AnalyzeSingleDirectory(directory: string, listing: seq<Entry>, apis: seq<Script>)
    returns (result: DirResult)
    requires Supplied(apis)
    ensures result == DirectorySpec(directory, listing, Runs(apis), VerifyMarkdown)
  {
    if ShouldSkipDirectory(directory) {
      return DirResult(SkippedDirectory, None, "", 0, 0, []);
    }
    var files := CollectFiles(directory, listing);
    if files == [] {
      return DirResult(NoEligibleFiles, None, "", 0, 0, []);
    }
    var full := BuildBundle(files);

    result := ValidateLoop(full, apis);
  }

  /** The validate-retry loop of the pipeline: call the client, validate
      its analysis, and on rejection sleep `RETRY_DELAY * retry_count` and
      call again, at most `MAX_RETRIES` calls in all. A call that raises,
      or an array or object that `verify_markdown` cannot strip, ends the
      pipeline with the exception. */
  method ValidateLoop(full: string, apis: seq<Script>) returns (result: DirResult)
    requires Supplied(apis)
    ensures result == ValidateFrom(full, Runs(apis), VerifyMarkdown, 0, [])
  {
    ghost var runs := Runs(apis);
    var outcome, used, prompt, delays := AnalyzeWithClaude(full, apis[0]);
    RunsAreClientCalls(apis, 0);
    var requests := used;
    var sleeps: seq<nat> := [];
    var retryCount := 0;
    while retryCount < MAX_RETRIES
      invariant retryCount <= MAX_RETRIES
      invariant retryCount < MAX_RETRIES ==> outcome == runs[retryCount].outcome
      invariant requests == Requests(runs, if retryCount < MAX_RETRIES then retryCount + 1 else MAX_RETRIES)
      invariant retryCount < MAX_RETRIES ==>
        ValidateFrom(full, runs, VerifyMarkdown, 0, []) == ValidateFrom(full, runs, VerifyMarkdown, retryCount, sleeps)
      invariant retryCount == MAX_RETRIES ==>
        ValidateFrom(full, runs, VerifyMarkdown, 0, []) == DirResult(ValidationFailed, None, full, MAX_RETRIES, requests, sleeps)
    {
      if outcome.Raised? {
        return DirResult(Aborted, None, full, retryCount + 1, requests, sleeps);
      }
      var analysis := outcome.answer;
      if analysis.Structured? && analysis.size > 0 {
        return DirResult(Aborted, None, full, retryCount + 1, requests, sleeps);
      }
      if analysis.Text? && VerifyMarkdown(analysis.text) {
        return DirResult(ReportWritten, Some(analysis.text), full, retryCount + 1, requests, sleeps);
      }
      retryCount := retryCount + 1;
      if retryCount < MAX_RETRIES {
        sleeps := sleeps + [RETRY_DELAY * retryCount];
        outcome, used, prompt, delays := AnalyzeWithClaude(full, apis[retryCount]);
        RunsAreClientCalls(apis, retryCount);
        requests := requests + used;
      }
    }
    result := DirResult(ValidationFailed, None, full, MAX_RETRIES, requests, sleeps);
  }

  /** The loop from retry count `k` calls the client between `k + 1` and
      `MAX_RETRIES` times in all, adds the sleeps `RETRY_DELAY * m` before
      each call number `m + 1` it makes, and sends the same bundle throughout. */
  lemma {:induction false} ValidateShape(bundle: string, runs: seq<ClientRun>, valid: string -> bool, k: nat, slept: seq<nat>)
    requires k < MAX_RETRIES <= |runs|
    ensures var v := ValidateFrom(bundle, runs, valid, k, slept);
      && k + 1 <= v.calls <= MAX_RETRIES
      && v.sleeps == slept + Backoffs(k, v.calls - 1 - k)
      && v.requests == Requests(runs, v.calls)
      && v.bundle == bundle
    decreases MAX_RETRIES - k
  {
    if Judge(runs[k].outcome, valid).Reject? && k + 1 < MAX_RETRIES {
      ValidateShape(bundle, runs, valid, k + 1, slept + [Backoff(k)]);
      var v := ValidateFrom(bundle, runs, valid, k, slept);
      assert v == ValidateFrom(bundle, runs, valid, k + 1, slept + [Backoff(k)]);
      var n := v.calls - 1 - (k + 1);
      assert Backoffs(k, n + 1) == [Backoff(k)] + Backoffs(k + 1, n);
      assert slept + [Backoff(k)] + Backoffs(k + 1, n) == slept + ([Backoff(k)] + Backoffs(k + 1, n));
    } else {
      assert slept + [] == slept;
    }
  }

  /** The loop from retry count `k` stops at its first call that is not
      rejected: it writes that call's text when it is accepted and aborts
      when it aborts; it fails validation only when all `MAX_RETRIES` calls
      were rejected. */
  lemma {:induction false} ValidateOutcome(bundle: string, runs: seq<ClientRun>, valid: string -> bool, k: nat, slept: seq<nat>)
    requires k < MAX_RETRIES <= |runs|
    ensures var v := ValidateFrom(bundle, runs, valid, k, slept);
      && k + 1 <= v.calls <= MAX_RETRIES
      && (v.status == ReportWritten || v.status == ValidationFailed || v.status == Aborted)
      && (v.status == ReportWritten <==> v.written.Some?)
      && (v.written.Some? ==>
            runs[v.calls - 1].outcome == Returned(Text(v.written.value)) && valid(v.written.value))
      && (v.status == Aborted ==> Judge(runs[v.calls - 1].outcome, valid) == Abort)
      && (v.status == ValidationFailed ==>
            v.calls == MAX_RETRIES && Judge(runs[MAX_RETRIES - 1].outcome, valid) == Reject)
      && (forall j :: k <= j < v.calls - 1 ==> Judge(runs[j].outcome, valid) == Reject)
    decreases MAX_RETRIES - k
  {
    if Judge(runs[k].outcome, valid).Reject? && k + 1 < MAX_RETRIES {
      ValidateOutcome(bundle, runs, valid, k + 1, slept + [Backoff(k)]);
    }
  }

  /** Independent reference: the verdict on the first of `outs` that is
      not rejected, or `Reject` when every one is. */
  function FirstDecision(outs: seq<Outcome>, valid: string -> bool): Verdict {
    if outs == [] then Reject
    else if Judge(outs[0], valid).Reject? then FirstDecision(outs[1..], valid)
    else Judge(outs[0], valid)
  }

  /** The outcomes of client calls `k` up to `MAX_RETRIES - 1`, in order. */
  function CallOutcomes(runs: seq<ClientRun>, k: nat): (outs: seq<Outcome>)
    requires k <= MAX_RETRIES <= |runs|
    ensures |outs| == MAX_RETRIES - k
    ensures forall j :: 0 <= j < |outs| ==> outs[j] == runs[k + j].outcome
    decreases MAX_RETRIES - k
  {
    if k == MAX_RETRIES then [] else [runs[k].outcome] + CallOutcomes(runs, k + 1)
  }

  /** The first decisive call among the `MAX_RETRIES` the loop may make
      decides it: the report written is that call's accepted text, the loop
      aborts exactly when that call aborts, and it fails exactly when no
      call is decisive. */
  lemma {:induction false} OutcomeIsFirstDecision(bundle: string, runs: seq<ClientRun>, valid: string -> bool, k: nat, slept: seq<nat>)
    requires k < MAX_RETRIES <= |runs|
    ensures var v, f := ValidateFrom(bundle, runs, valid, k, slept), FirstDecision(CallOutcomes(runs, k), valid);
      && (v.written.Some? <==> f.Accept?)
      && (f.Accept? ==> v.written == Some(f.report))
      && (v.status == Aborted <==> f.Abort?)
      && (v.status == ValidationFailed <==> f.Reject?)
    decreases MAX_RETRIES - k
  {
    var outs := CallOutcomes(runs, k);
    assert outs[1..] == CallOutcomes(runs, k + 1);
    if Judge(runs[k].outcome, valid).Reject? && k + 1 < MAX_RETRIES {
      OutcomeIsFirstDecision(bundle, runs, valid, k + 1, slept + [Backoff(k)]);
    }
  }

  /** When every client call makes at most `m` requests, the first `n`
      make at most `n * m`. */
  lemma {:induction false} RequestsBound(runs: seq<ClientRun>, n: nat, m: nat)
    requires n <= |runs|
    requires forall i :: 0 <= i < |runs| ==> runs[i].attempts <= m
    ensures Requests(runs, n) <= n * m
  {
    if n > 0 {
      RequestsBound(runs, n - 1, m);
    }
  }

  /** The two retry budgets compound: a directory gets at most
      `MAX_RETRIES` client calls, hence at most `MAX_RETRIES * m` requests
      when no call makes more than `m`, and at most the four loop sleeps 5,
      10, 15 and 20. */
  lemma DirectoryBudgets(directory: string, listing: seq<Entry>, runs: seq<ClientRun>, valid: string -> bool, m: nat)
    requires MAX_RETRIES <= |runs|
    requires forall i :: 0 <= i < |runs| ==> runs[i].attempts <= m
    ensures var d := DirectorySpec(directory, listing, runs, valid);
      && d.calls <= MAX_RETRIES
      && d.requests <= MAX_RETRIES * m
      && |d.sleeps| <= MAX_RETRIES - 1
      && d.sleeps == Backoffs(0, |d.sleeps|)
  {
    if !ShouldSkipDirectory(directory) && Eligible(directory, listing) != [] {
      ValidateShape(Bundle(Eligible(directory, listing)), runs, valid, 0, []);
      RequestsBound(runs, ValidateFrom(Bundle(Eligible(directory, listing)), runs, valid, 0, []).calls, m);
    }
  }

  /** The budgets for the pipeline itself: at most 5 client calls and
      160 requests per directory, and the loop sleeps a prefix of 5, 10, 15, 20. */
  lemma PipelineBudgets(directory: string, listing: seq<Entry>, apis: seq<Script>)
    requires Supplied(apis)
    ensures var d := DirectorySpec(directory, listing, Runs(apis), VerifyMarkdown);
      && d.calls <= MAX_RETRIES
      && d.requests <= 160
      && |d.sleeps| <= MAX_RETRIES - 1
      && d.sleeps == Backoffs(0, |d.sleeps|)
  {
    var runs := Runs(apis);
    forall i | 0 <= i < |runs| ensures runs[i].attempts <= 32 {
      RunsAreClientCalls(apis, i);
    }
    DirectoryBudgets(directory, listing, runs, VerifyMarkdown, 32);
  }

  /** A report is only written after it passed validation; it is the
      text of the last call made, and every earlier call was rejected. A
      failed directory had all its calls rejected; an aborted one stopped at
      its first call that was not rejected. */
  lemma WrittenOnlyIfValid(directory: string, listing: seq<Entry>, runs: seq<ClientRun>, valid: string -> bool)
    requires MAX_RETRIES <= |runs|
    ensures var d := DirectorySpec(directory, listing, runs, valid);
      && (d.written.Some? <==> d.status == ReportWritten)
      && (d.written.Some? ==>
            && valid(d.written.value)
            && runs[d.calls - 1].outcome == Returned(Text(d.written.value))
            && forall j :: 0 <= j < d.calls - 1 ==> Judge(runs[j].outcome, valid) == Reject)
      && (d.status == ValidationFailed ==>
            d.calls == MAX_RETRIES && forall j :: 0 <= j < MAX_RETRIES ==> Judge(runs[j].outcome, valid) == Reject)
      && (d.status == Aborted ==>
            && Judge(runs[d.calls - 1].outcome, valid) == Abort
            && forall j :: 0 <= j < d.calls - 1 ==> Judge(runs[j].outcome, valid) == Reject)
  {
    if !ShouldSkipDirectory(directory) && Eligible(directory, listing) != [] {
      ValidateOutcome(Bundle(Eligible(directory, listing)), runs, valid, 0, []);
    }
  }

  /** A skip-listed directory is left before anything is listed or called. */
  lemma SkippedDirectoryDoesNothing(directory: string, listing: seq<Entry>, runs: seq<ClientRun>, valid: string -> bool)
    requires MAX_RETRIES <= |runs| && ShouldSkipDirectory(directory)
    ensures DirectorySpec(directory, listing, runs, valid) == DirResult(SkippedDirectory, None, "", 0, 0, [])
  {
  }

  /** A directory without eligible files makes no client call and writes nothing. */
  lemma NoFilesNoCall(directory: string, listing: seq<Entry>, runs: seq<ClientRun>, valid: string -> bool)
    requires MAX_RETRIES <= |runs| && !ShouldSkipDirectory(directory)
    requires forall k :: 0 <= k < |listing| ==> !IsEligible(directory, listing[k])
    ensures DirectorySpec(directory, listing, runs, valid) == DirResult(NoEligibleFiles, None, "", 0, 0, [])
  {
    EligibleNone(directory, listing);
  }

  /** A listing none of whose entries is eligible collects nothing. */
  lemma {:induction false} EligibleNone(directory: string, listing: seq<Entry>)
    requires forall k :: 0 <= k < |listing| ==> !IsEligible(directory, listing[k])
    ensures Eligible(directory, listing) == []
    decreases |listing|
  {
    if listing != [] {
      var init := listing[..|listing| - 1];
      assert forall k :: 0 <= k < |init| ==> init[k] == listing[k];
      EligibleNone(directory, init);
    }
  }

  /** Collection keeps exactly the eligible entries, in listing order. */
  lemma {:induction false} EligibleMembers(directory: string, listing: seq<Entry>)
    ensures forall e :: e in Eligible(directory, listing) <==> e in listing && IsEligible(directory, e)
    decreases |listing|
  {
    if listing != [] {
      var init := listing[..|listing| - 1];
      EligibleMembers(directory, init);
      assert listing == init + [listing[|listing| - 1]];
    }
  }

  /** Collecting a listing in two pieces collects each piece in turn. */
  lemma {:induction false} EligibleAppend(directory: string, l1: seq<Entry>, l2: seq<Entry>)
    ensures Eligible(directory, l1 + l2) == Eligible(directory, l1) + Eligible(directory, l2)
    decreases |l2|
  {
    if l2 == [] {
      assert l1 + l2 == l1;
    } else {
      var init := l2[..|l2| - 1];
      EligibleAppend(directory, l1, init);
      assert (l1 + l2)[..|l1 + l2| - 1] == l1 + init;
    }
  }

  /** Every collected file reaches the bundle with its delimiters and text. */
  lemma BundleHoldsEveryFile(files: seq<Entry>, k: nat)
    requires k < |files|
    ensures Contains(Bundle(files), "\n### File: " + files[k].name + "\n```\n" + files[k].text + "\n```")
  {
    JoinContainsPart("\n", Parts(files), k);
  }

  /** The collection looks at each entry's own name: a name without a
      separator is collected exactly when it is a regular file whose name
      passes `should_analyze_file`. */
  lemma EligibleByName(directory: string, e: Entry)
    requires '/' !in e.name
    ensures IsEligible(directory, e) <==> e.isFile && ShouldAnalyzeFile(e.name)
  {
    ShouldAnalyzeJoined(directory, e.name);
  }

  /** A directory with a single eligible file whose first analysis passes
      validation: that analysis is written after one call, the bundle is
      that file's block alone, and nothing is slept. */
  lemma SingleFileFirstValid(directory: string, e: Entry, runs: seq<ClientRun>, valid: string -> bool, text: string)
    requires MAX_RETRIES <= |runs| && !ShouldSkipDirectory(directory)
    requires IsEligible(directory, e) && runs[0].outcome == Returned(Text(text)) && valid(text)
    ensures DirectorySpec(directory, [e], runs, valid)
         == DirResult(ReportWritten, Some(text), FilePart(e), 1, runs[0].attempts, [])
  {
    assert [e][..0] == [];
    assert Eligible(directory, [e]) == [e];
    assert Parts([e]) == [FilePart(e)];
    assert Bundle([e]) == FilePart(e);
    assert Requests(runs, 1) == runs[0].attempts;
  }

  /** `main.py` listed in `proj` is collected. */
  lemma MainPyEligible()
    ensures IsEligible("proj", Entry("main.py", true, "print(1)"))
  {
    EligibleByName("proj", Entry("main.py", true, "print(1)"));
    MainPyAnalyzed();
  }

  /** A directory `proj` holding only `logo.png` makes no client call. */
  lemma OnlyImageNoCall(runs: seq<ClientRun>)
    requires MAX_RETRIES <= |runs|
    ensures DirectorySpec("proj", [Entry("logo.png", true, "")], runs, VerifyMarkdown)
         == DirResult(NoEligibleFiles, None, "", 0, 0, [])
  {
    var e := Entry("logo.png", true, "");
    ProjNotSkipped();
    EligibleByName("proj", e);
    LogoPngNotAnalyzed();
    NoFilesNoCall("proj", [e], runs, VerifyMarkdown);
  }

  /** An error status whose body would pass validation yields an error
      string that passes validation too: the client does not mark its
      failures, so the pipeline cannot tell them from analyses. */
  lemma ErrorReplyValidates(a: Attempt, r: nat)
    requires a.Reply? && a.status != 200 && a.status != 429 && VerifyMarkdown(a.body)
    ensures Classify(a).Done? && Ending(a, r) == Text("API错误 (HTTP " + Decimal(a.status) + "): " + a.body)
    ensures VerifyMarkdown("API错误 (HTTP " + Decimal(a.status) + "): " + a.body)
  {
    VerifyMarkdownMonotone("API错误 (HTTP " + Decimal(a.status) + "): ", a.body, "");
    assert "API错误 (HTTP " + Decimal(a.status) + "): " + a.body + ""
        == "API错误 (HTTP " + Decimal(a.status) + "): " + a.body;
  }

  /** So a directory whose first request gets a 500 carrying a report-like
      body has that error message written as its report. */
  lemma ErrorBodyWrittenAsReport(directory: string, listing: seq<Entry>, apis: seq<Script>)
    requires Supplied(apis) && !ShouldSkipDirectory(directory) && Eligible(directory, listing) != []
    requires apis[0](0).Reply? && apis[0](0).status == 500 && apis[0](0).body == Report(SAMPLE_BODIES)
    ensures var d := DirectorySpec(directory, listing, Runs(apis), VerifyMarkdown);
      && d.status == ReportWritten && d.calls == 1
      && d.written == Some("API错误 (HTTP " + Decimal(500) + "): " + Report(SAMPLE_BODIES))
  {
    SampleReportAccepted();
    RunsAreClientCalls(apis, 0);
    ErrorReplyValidates(apis[0](0), 0);
    OtherStatusNotRetried(apis[0], 0, 0, Top);
  }

  /** A directory whose first request gets a 200 with a content without a
      length aborts: the client's retry raises after one request and one
      backoff, before the loop sleeps or writes anything. */
  lemma UnsizedContentAborts(directory: string, listing: seq<Entry>, apis: seq<Script>)
    requires Supplied(apis) && !ShouldSkipDirectory(directory) && Eligible(directory, listing) != []
    requires Rebinds(apis[0](0))
    ensures var d := DirectorySpec(directory, listing, Runs(apis), VerifyMarkdown);
      && d.status == Aborted && d.written == None
      && d.calls == 1 && d.requests == 1 && d.sleeps == []
  {
    var runs := Runs(apis);
    RunsAreClientCalls(apis, 0);
    UnsizedContentRaises(apis[0], 0, 0);
    assert Judge(runs[0].outcome, VerifyMarkdown) == Abort;
    assert Requests(runs, 1) == runs[0].attempts;
    assert DirectorySpec(directory, listing, runs, VerifyMarkdown)
        == ValidateFrom(Bundle(Eligible(directory, listing)), runs, VerifyMarkdown, 0, []);
  }

  /** A directory whose first request gets a 200 with a non-empty array or
      object as content aborts in `verify_markdown` after that one call. */
  lemma StructuredContentAborts(directory: string, listing: seq<Entry>, apis: seq<Script>, size: nat)
    requires Supplied(apis) && !ShouldSkipDirectory(directory) && Eligible(directory, listing) != []
    requires apis[0](0).Reply? && apis[0](0).status == 200 && apis[0](0).extraction == Members(size)
    requires size > 0
    ensures var d := DirectorySpec(directory, listing, Runs(apis), VerifyMarkdown);
      && d.status == Aborted && d.written == None && d.calls == 1 && d.requests == 1
  {
    var runs := Runs(apis);
    RunsAreClientCalls(apis, 0);
    StructuredReturned(apis[0], 0, 0, Top, size);
    assert Judge(runs[0].outcome, VerifyMarkdown) == Abort;
    assert Requests(runs, 1) == runs[0].attempts;
    assert DirectorySpec(directory, listing, runs, VerifyMarkdown)
        == ValidateFrom(Bundle(Eligible(directory, listing)), runs, VerifyMarkdown, 0, []);
  }

  /** An empty array or object is only rejected: the loop sleeps 5 seconds
      and calls the client again. */
  lemma EmptyStructuredRetried(directory: string, listing: seq<Entry>, apis: seq<Script>)
    requires Supplied(apis) && !ShouldSkipDirectory(directory) && Eligible(directory, listing) != []
    requires apis[0](0).Reply? && apis[0](0).status == 200 && apis[0](0).extraction == Members(0)
    ensures var d := DirectorySpec(directory, listing, Runs(apis), VerifyMarkdown);
      && d.calls >= 2 && |d.sleeps| >= 1 && d.sleeps[0] == 5
  {
    var bundle, runs := Bundle(Eligible(directory, listing)), Runs(apis);
    RunsAreClientCalls(apis, 0);
    StructuredReturned(apis[0], 0, 0, Top, 0);
    assert Judge(runs[0].outcome, VerifyMarkdown) == Reject;
    assert DirectorySpec(directory, listing, runs, VerifyMarkdown)
        == ValidateFrom(bundle, runs, VerifyMarkdown, 0, []);
    var slept: seq<nat> := [] + [Backoff(0)];
    assert ValidateFrom(bundle, runs, VerifyMarkdown, 0, []) == ValidateFrom(bundle, runs, VerifyMarkdown, 1, slept);
    ValidateShape(bundle, runs, VerifyMarkdown, 1, slept);
  }
}
