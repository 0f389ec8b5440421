/** The analysis client `analyze_with_claude` (project_analyzer.py:64-162).
    The HTTP exchange is replaced by a script that gives the outcome of
    every request, in the order the requests are made. The source's
    recursion on `retry_count` is the specification `RunFrom`, which keeps
    the 429 calls still waiting inside their `try` as an explicit stack;
    the method `AnalyzeWithClaude` runs it as a bounded loop. */
module Client {
  import opened Config
  import opened Strings
  import opened Truncation

  /** What the client finds at `choices[0].message.content` in a 200 body.
      The lookup rebinds the parameter `content` (project_analyzer.py:127),
      so the kind of value found decides what happens next. */
  datatype Extraction =
    | Content(text: string)        // a JSON string: returned as the analysis
    | Members(size: nat)           // a JSON array or object with `size` members: returned as it is
    | Unsized(error: string)       // a JSON null, number or boolean: `len` raises a TypeError with this message
    | ParseFailure(error: string)  // no JSON or no such path: raised before `content` is rebound

  /** The outcome of one attempt at the request. */
  datatype Attempt =
    | Reply(status: nat, body: string, extraction: Extraction)  // the server answered
    | ClientFailure(error: string)                              // aiohttp.ClientError
    | Unexpected(error: string)                                 // any other exception

  /** The outcome of request number `n`, for every `n`, counted over the
      whole of one client call; the script never runs out. */
  type Script = nat -> Attempt

  /** What a client call returns: a text, or the array or object it found. */
  datatype Answer = Text(text: string) | Structured(size: nat)

  /** How a client call ends: it returns an answer, or an exception leaves it. */
  datatype Outcome = Returned(answer: Answer) | Raised

  /** What one attempt decides while budget is left:
      - `Done`: the call returns;
      - `Retry`: a retry with the content unchanged, made from an exception
        handler, so that an exception of the retry leaves this call;
      - `RateLimited`: the retry of a 429, made inside the `try`
        (project_analyzer.py:142), so that the generic handler of this same
        call catches an exception of the retry, sleeps again and calls once
        more from the handler;
      - `RetryRaises`: a retry entered with `content` rebound to a value
        without a length, which raises in `truncate_content`
        (project_analyzer.py:57) before it sends anything. */
  datatype Step = Done | Retry | RateLimited | RetryRaises

  /** The status, parsing and exception branches for one attempt. A
      malformed 200 is re-raised and lands in the generic exception handler,
      so it is retried like a transient error; so is a content without a
      length, but by then `content` names that value. */
  function Classify(a: Attempt): Step {
    match a
    case Reply(status, _, extraction) =>
      if status == 200 then
        match extraction
        case Content(_) => Done
        case Members(_) => Done
        case Unsized(_) => RetryRaises
        case ParseFailure(_) => Retry
      else if status == 429 then RateLimited
      else Done
    case _ => Retry
  }

  /** What a call with retry count `r` returns when attempt `a` is its
      last: the answer of a final step, or, once the budget is spent, the
      give-up message of the branch that would have retried. */
  function Ending(a: Attempt, r: nat): Answer {
    match a
    case Reply(status, body, extraction) =>
      if status == 200 then
        match extraction
        case Content(text) => Text(text)
        case Members(size) => Structured(size)
        case Unsized(e) => Text("错误 (重试" + Decimal(r) + "次后): " + e)
        case ParseFailure(e) => Text("错误 (重试" + Decimal(r) + "次后): " + e)
      else if status == 429 then
        Text("达到最大重试次数 (" + Decimal(MAX_RETRIES) + ")，最后错误: " + body)
      else
        Text("API错误 (HTTP " + Decimal(status) + "): " + body)
    case ClientFailure(e) => Text("网络错误 (重试" + Decimal(r) + "次后): " + e)
    case Unexpected(e) => Text("错误 (重试" + Decimal(r) + "次后): " + e)
  }

  /** An attempt the client retries with its content unchanged: a 429, a
      malformed 200, or an exception. */
  predicate Transient(a: Attempt) {
    match a
    case Reply(status, _, extraction) =>
      status == 429 || (status == 200 && extraction.ParseFailure?)
    case _ => true
  }

  /** A 200 whose content has no length: the retry it triggers is made
      with `content` bound to that value. */
  predicate Rebinds(a: Attempt) {
    a.Reply? && a.status == 200 && a.extraction.Unsized?
  }

  /** The whole of one client call: how it ends, the number of requests it
      made and the backoff delays it slept, in order. */
  datatype ClientRun = ClientRun(outcome: Outcome, attempts: nat, delays: seq<nat>)

  /** A run that follows `n` requests and the sleeps `before`. */
  function Resumed(n: nat, before: seq<nat>, run: ClientRun): ClientRun {
    ClientRun(run.outcome, n + run.attempts, before + run.delays)
  }

  /** The wait before a retry made by the call with retry count `r`. */
  function Backoff(r: nat): nat {
    RETRY_DELAY * (r + 1)
  }

  /** The most requests one call from retry count `r` can make,
      `2 ^ (MAX_RETRIES - r)`: a 429 may be followed by two inner calls,
      the one inside its `try` and the one from its handler. It is never
      less than the `MAX_RETRIES + 1 - r` requests of a plain retry chain. */
  function RequestBudget(r: nat): (n: nat)
    ensures n >= MAX_RETRIES + 1 - r && n >= 1
    decreases MAX_RETRIES - r
  {
    if r >= MAX_RETRIES then 1 else 2 * RequestBudget(r + 1)
  }

  /** A whole client call may make 32 requests. */
  lemma RequestBudgetAtStart()
    ensures RequestBudget(0) == 32
  {
    assert RequestBudget(3) == 4;
  }

  /** A retry count with a retry left: that of a call that can still
      catch an exception and call again. */
  type Retrying = q: nat | q < MAX_RETRIES

  /** The 429 calls waiting on the call they made inside their `try`,
      innermost first: `Within(q, outer)` has retry count `q`. An exception
      that leaves the calls below it is caught there. */
  datatype Waiting = Top | Within(frame: Retrying, outer: Waiting)

  /** The requests still available once an inner call from retry count `r`
      is about to make its first request below the waiting calls `w`. */
  function Room(r: nat, w: Waiting): (n: nat)
    ensures n >= RequestBudget(r)
    decreases w
  {
    match w
    case Top => RequestBudget(r)
    case Within(q, outer) => RequestBudget(r) - 1 + Room(q + 1, outer)
  }

  /** Each retry leaves less room: one made from a handler, one made
      inside the `try` of a 429, and one made after a waiting call caught
      an exception. */
  lemma RoomShrinks(r: nat, w: Waiting)
    ensures r < MAX_RETRIES ==> Room(r + 1, w) < Room(r, w) && Room(r + 1, Within(r, w)) < Room(r, w)
    ensures r < MAX_RETRIES && w.Within? ==> Room(w.frame + 1, w.outer) < Room(r, w)
  {
  }

  /** What the calls do after one request: stop with the outcome of the
      whole call and the sleeps before that, or sleep `sleeps` and make the
      next request from retry count `next` below the waiting calls `below`. */
  datatype Move =
    | Stop(outcome: Outcome, sleeps: seq<nat>)
    | Go(sleeps: seq<nat>, next: nat, below: Waiting)

  /** One pass through `analyze_with_claude` after its request, for an
      attempt `a` made with retry count `r` below the waiting calls `w`. An
      answer is returned through every waiting call. An exception leaves the
      calls up to the innermost waiting one, which catches it, sleeps its
      own backoff and calls again from its handler. */
  function Decide(a: Attempt, r: nat, w: Waiting): Move {
    var step := Classify(a);
    if r >= MAX_RETRIES || step.Done? then Stop(Returned(Ending(a, r)), [])
    else if step.Retry? then Go([Backoff(r)], r + 1, w)
    else if step.RateLimited? then Go([Backoff(r)], r + 1, Within(r, w))
    else
      match w
      case Top => Stop(Raised, [Backoff(r)])
      case Within(q, outer) => Go([Backoff(r), Backoff(q)], q + 1, outer)
  }

  /** Every step that goes on leaves less room. */
  lemma DecideShrinks(a: Attempt, r: nat, w: Waiting)
    ensures Decide(a, r, w).Go? ==> Room(Decide(a, r, w).next, Decide(a, r, w).below) < Room(r, w)
  {
    RoomShrinks(r, w);
    var step := Classify(a);
    if r < MAX_RETRIES && step.Retry? {
      assert Decide(a, r, w) == Go([Backoff(r)], r + 1, w);
    } else if r < MAX_RETRIES && step.RateLimited? {
      assert Decide(a, r, w) == Go([Backoff(r)], r + 1, Within(r, w));
    }
  }

  /** The rest of a call whose next request, number `pos` of `s`, is made
      by an inner call with retry count `r` below the waiting calls `w`.
      It is unwound by `Unwind`, so that each mention of it brings in one
      request only. */
  function RunFrom(s: Script, pos: nat, r: nat, w: Waiting): (run: ClientRun)
    ensures run.attempts >= 1
  {
    assert Unwind(s, pos, r, w) == Continue(s, pos, Decide(s(pos), r, w));
    Unwind(s, pos, r, w)
  }

  /** `RunFrom`, through the decision on request number `pos`. */
  function Unwind(s: Script, pos: nat, r: nat, w: Waiting): ClientRun
    decreases Room(r, w), 1
  {
    DecideShrinks(s(pos), r, w);
    Continue(s, pos, Decide(s(pos), r, w))
  }

  /** What request number `pos` leads to, once it has led to `m`. */
  function Continue(s: Script, pos: nat, m: Move): ClientRun
    decreases if m.Go? then Room(m.next, m.below) else 0, 2
  {
    match m
    case Stop(outcome, sleeps) => ClientRun(outcome, 1, sleeps)
    case Go(sleeps, next, below) => Resumed(1, sleeps, Unwind(s, pos + 1, next, below))
  }

  /** One request of the rest of a call: it stops the call, or sleeps and
      hands on to the next request. */
  lemma Unfold(s: Script, pos: nat, r: nat, w: Waiting)
    ensures var m := Decide(s(pos), r, w);
      && (m.Stop? ==> RunFrom(s, pos, r, w) == ClientRun(m.outcome, 1, m.sleeps))
      && (m.Go? ==> RunFrom(s, pos, r, w) == Resumed(1, m.sleeps, RunFrom(s, pos + 1, m.next, m.below)))
  {
    assert RunFrom(s, pos, r, w) == Continue(s, pos, Decide(s(pos), r, w));
  }

  /** The rest of a call makes at least one request and at most its room,
      and fewer when it raises. */
  lemma {:induction false} RunWithinRoom(s: Script, pos: nat, r: nat, w: Waiting)
    ensures var run := RunFrom(s, pos, r, w);
      && 1 <= run.attempts <= Room(r, w)
      && (run.outcome.Raised? ==> run.attempts < Room(r, w))
    decreases Room(r, w)
  {
    DecideShrinks(s(pos), r, w);
    Unfold(s, pos, r, w);
    var m := Decide(s(pos), r, w);
    if m.Go? {
      RunWithinRoom(s, pos + 1, m.next, m.below);
    }
  }

  /** The call `analyze_with_claude(content, name, r)` whose first request
      is number `pos` of `s`. It makes at most `RequestBudget(r)` requests,
      and raises only with budget left and after fewer. */
  function ClientFrom(s: Script, pos: nat, r: nat): (run: ClientRun)
    ensures 1 <= run.attempts <= RequestBudget(r)
    ensures run.outcome.Raised? ==> r < MAX_RETRIES && run.attempts < RequestBudget(r)
  {
    RunWithinRoom(s, pos, r, Top);
    RunFrom(s, pos, r, Top)
  }

  /** What follows an exception that leaves the calls below `w`, with
      request number `p` next: `w` is left as well, or its innermost call
      sleeps its backoff and calls again. */
  function Caught(s: Script, p: nat, w: Waiting): ClientRun {
    match w
    case Top => ClientRun(Raised, 0, [])
    case Within(q, outer) => Resumed(0, [Backoff(q)], RunFrom(s, p, q + 1, outer))
  }

  /** The prompt template up to the place where the content goes. */
  const PROMPT_HEAD: string :=
    "请分析以下代码的结构和实现:\n1. 功能概述\n- 此代码的主要目标和用途是什么?\n- 解决了什么具体业务/技术问题?\n- 主要的输入输出是什么?\n\n"
    + "2. 架构设计\n- 整体架构和模块划分\n- 核心类/接口及其职责\n- 关键的设计模式应用\n\n"
    + "3. 实现细节\n- 主要函数的功能说明和实现逻辑\n- 关键算法和数据结构\n- 异常处理机制\n- 性能相关的实现\n\n"
    + "4. 依赖分析\n- 外部依赖项及其版本\n- 模块间的依赖关系\n- 关键的第三方库使用\n\n"
    + "5. 核心流程\n- 主要业务流程的实现步骤\n- 关键的控制流程\n- 数据流转过程\n\n"
    + "\n分析内容:\n"

  /** The prompt sent for an already truncated content. */
  function PromptFor(truncated: string): string {
    PROMPT_HEAD + truncated + "\n"
  }

  /** `analyze_with_claude(content, name)` as a loop: it truncates the
      content, builds the prompt once, and walks the attempts, keeping the
      429 calls that wait on an inner call. One prompt serves every request:
      a retry with the content unchanged rebuilds the same prompt, and a
      retry entered with `content` rebound raises before it builds one. */
  method AnalyzeWithClaude(content: string, attempts: Script)
    returns (outcome: Outcome, used: nat, prompt: string, delays: seq<nat>)
    ensures ClientRun(outcome, used, delays) == ClientFrom(attempts, 0, 0)
    ensures prompt == PromptFor(TruncateContent(content, MAX_CONTENT_LENGTH))
  {
    var truncated := TruncateContent(content, MAX_CONTENT_LENGTH);
    prompt := PromptFor(truncated);
    var pos: nat, r: nat, waiting: Waiting := 0, 0, Top;
    delays := [];
    while true
      invariant ClientFrom(attempts, 0, 0) == Resumed(pos, delays, RunFrom(attempts, pos, r, waiting))
      decreases Room(r, waiting)
    {
      DecideShrinks(attempts(pos), r, waiting);
      Unfold(attempts, pos, r, waiting);
      match Decide(attempts(pos), r, waiting)
      case Stop(last, sleeps) =>
        outcome, used, delays := last, pos + 1, delays + sleeps;
        return;
      case Go(sleeps, next, below) =>
        ResumedTwice(pos, delays, 1, sleeps, RunFrom(attempts, pos + 1, next, below));
        delays, pos, r, waiting := delays + sleeps, pos + 1, next, below;
    }
  }

  /** Two resumptions in a row are one. */
  lemma ResumedTwice(n: nat, before: seq<nat>, m: nat, more: seq<nat>, run: ClientRun)
    ensures Resumed(n, before, Resumed(m, more, run)) == Resumed(n + m, before + more, run)
  {
    assert before + (more + run.delays) == before + more + run.delays;
  }

  /** Transient outcomes are exactly those `Classify` retries with the
      content unchanged, and the 429s are those it retries inside the `try`. */
  lemma TransientIffRetried(a: Attempt)
    ensures Transient(a) <==> Classify(a).Retry? || Classify(a).RateLimited?
    ensures Classify(a).RateLimited? <==> a.Reply? && a.status == 429
  {
  }

  /** The retries with `content` rebound are exactly those after a 200
      whose content has no length. */
  lemma RebindsIffRetryRaises(a: Attempt)
    ensures Rebinds(a) <==> Classify(a).RetryRaises?
  {
  }

  /** The other outcomes are exactly those `Classify` settles the call on. */
  lemma DoneIffSettled(a: Attempt)
    ensures Classify(a).Done? <==> !Transient(a) && !Rebinds(a)
  {
  }

  /** A request that settles ends the whole call after it, whatever calls
      are waiting: the answer is returned through each of them. */
  lemma SettledEndsCall(s: Script, pos: nat, r: nat, w: Waiting)
    requires r >= MAX_RETRIES || (!Transient(s(pos)) && !Rebinds(s(pos)))
    ensures RunFrom(s, pos, r, w) == ClientRun(Returned(Ending(s(pos), r)), 1, [])
  {
    DoneIffSettled(s(pos));
    Unfold(s, pos, r, w);
  }

  /** A status other than 200 and 429 ends the call after one request, with
      an error that names the status and the body, and no sleep. */
  lemma OtherStatusNotRetried(s: Script, pos: nat, r: nat, w: Waiting)
    requires s(pos).Reply? && s(pos).status != 200 && s(pos).status != 429
    ensures RunFrom(s, pos, r, w)
         == ClientRun(Returned(Text("API错误 (HTTP " + Decimal(s(pos).status) + "): " + s(pos).body)), 1, [])
  {
    Unfold(s, pos, r, w);
  }

  /** A well-formed 200 returns its content unchanged after one request. */
  lemma SuccessReturnsContent(s: Script, pos: nat, r: nat, w: Waiting, text: string)
    requires s(pos).Reply? && s(pos).status == 200 && s(pos).extraction == Content(text)
    ensures RunFrom(s, pos, r, w) == ClientRun(Returned(Text(text)), 1, [])
  {
    Unfold(s, pos, r, w);
  }

  /** A 200 whose content is an array or object returns that value as it
      is after one request. */
  lemma StructuredReturned(s: Script, pos: nat, r: nat, w: Waiting, size: nat)
    requires s(pos).Reply? && s(pos).status == 200 && s(pos).extraction == Members(size)
    ensures RunFrom(s, pos, r, w) == ClientRun(Returned(Structured(size)), 1, [])
  {
    Unfold(s, pos, r, w);
  }

  /** A malformed 200 with budget left is retried from the handler: one
      request and one delay, then the next call on the following requests. */
  lemma MalformedIsRetried(s: Script, pos: nat, r: nat, w: Waiting)
    requires r < MAX_RETRIES
    requires s(pos).Reply? && s(pos).status == 200 && s(pos).extraction.ParseFailure?
    ensures RunFrom(s, pos, r, w) == Resumed(1, [Backoff(r)], RunFrom(s, pos + 1, r + 1, w))
  {
    Unfold(s, pos, r, w);
  }

  /** A 429 with budget left is retried inside the `try`: one request and
      one delay, then the next call, which this call now waits on. */
  lemma RateLimitedWaits(s: Script, pos: nat, r: nat, w: Waiting)
    requires r < MAX_RETRIES && s(pos).Reply? && s(pos).status == 429
    ensures RunFrom(s, pos, r, w) == Resumed(1, [Backoff(r)], RunFrom(s, pos + 1, r + 1, Within(r, w)))
  {
    Unfold(s, pos, r, w);
  }

  /** A transient request with budget left is retried at the next count,
      below this call when it was a 429 and below the same calls otherwise. */
  lemma TransientStep(s: Script, pos: nat, r: nat, w: Waiting) returns (below: Waiting)
    requires r < MAX_RETRIES && Transient(s(pos))
    ensures below == (if s(pos).Reply? && s(pos).status == 429 then Within(r, w) else w)
    ensures RunFrom(s, pos, r, w) == Resumed(1, [Backoff(r)], RunFrom(s, pos + 1, r + 1, below))
  {
    below := if s(pos).Reply? && s(pos).status == 429 then Within(r, w) else w;
    Unfold(s, pos, r, w);
  }

  /** A 200 whose content has no length, with budget left: the client
      sleeps its backoff and the retry raises before sending anything; the
      exception leaves the calls up to the innermost waiting one. */
  lemma RebindRaises(s: Script, pos: nat, r: nat, w: Waiting)
    requires r < MAX_RETRIES && Rebinds(s(pos))
    ensures RunFrom(s, pos, r, w) == Resumed(1, [Backoff(r)], Caught(s, pos + 1, w))
  {
    Unfold(s, pos, r, w);
    if w.Within? {
      RebindCaught(s, pos, r, w.frame, w.outer);
      ResumedTwice(1, [Backoff(r)], 0, [Backoff(w.frame)], RunFrom(s, pos + 1, w.frame + 1, w.outer));
    }
  }

  /** The waiting call that catches it sleeps its own backoff and calls
      again at its next count. */
  lemma RebindCaught(s: Script, pos: nat, r: nat, q: Retrying, outer: Waiting)
    requires r < MAX_RETRIES && Rebinds(s(pos))
    ensures RunFrom(s, pos, r, Within(q, outer))
         == Resumed(1, [Backoff(r), Backoff(q)], RunFrom(s, pos + 1, q + 1, outer))
  {
    RebindsIffRetryRaises(s(pos));
    Unfold(s, pos, r, Within(q, outer));
  }

  /** With no call waiting, that exception ends the call after this one
      request and one sleep. */
  lemma UnsizedContentRaises(s: Script, pos: nat, r: nat)
    requires r < MAX_RETRIES && Rebinds(s(pos))
    ensures ClientFrom(s, pos, r) == ClientRun(Raised, 1, [Backoff(r)])
  {
    RebindRaises(s, pos, r, Top);
  }

  /** The same on the last attempt returns the generic give-up message. */
  lemma UnsizedAtLastAttempt(s: Script, pos: nat, w: Waiting, error: string)
    requires s(pos).Reply? && s(pos).status == 200 && s(pos).extraction == Unsized(error)
    ensures RunFrom(s, pos, MAX_RETRIES, w) == ClientRun(Returned(Text("错误 (重试5次后): " + error)), 1, [])
  {
    Unfold(s, pos, MAX_RETRIES, w);
    assert Decimal(MAX_RETRIES) == "5";
    assert "错误 (重试" + Decimal(MAX_RETRIES) + "次后): " + error == "错误 (重试5次后): " + error;
  }

  /** The give-up message of a 429 carries the response body. */
  lemma RateLimitGiveUp(a: Attempt, r: nat)
    requires a.Reply? && a.status == 429
    ensures Ending(a, r) == Text("达到最大重试次数 (5)，最后错误: " + a.body)
  {
    assert Decimal(MAX_RETRIES) == "5";
    assert "达到最大重试次数 (" + Decimal(MAX_RETRIES) + ")，最后错误: " + a.body
        == "达到最大重试次数 (5)，最后错误: " + a.body;
  }

  /** An exception that leaves a call comes from the last request it made:
      a 200 whose content has no length. */
  lemma {:induction false} RaisedEndsOnRebind(s: Script, pos: nat, r: nat, w: Waiting)
    ensures var run := RunFrom(s, pos, r, w);
      run.outcome.Raised? ==> Rebinds(s(pos + run.attempts - 1))
    decreases Room(r, w)
  {
    RebindsIffRetryRaises(s(pos));
    DecideShrinks(s(pos), r, w);
    Unfold(s, pos, r, w);
    var m := Decide(s(pos), r, w);
    if m.Go? {
      RaisedEndsOnRebind(s, pos + 1, m.next, m.below);
      RunWithinRoom(s, pos + 1, m.next, m.below);
    }
  }

  /** How many retries a call at retry count `r` has left. */
  function Left(r: nat): nat {
    if r <= MAX_RETRIES then MAX_RETRIES - r else 0
  }

  /** The delays of `n` consecutive retries starting at retry count `r`. */
  function Backoffs(r: nat, n: nat): seq<nat>
    decreases n
  {
    if n == 0 then [] else [Backoff(r)] + Backoffs(r + 1, n - 1)
  }

  /** One more retry puts the backoff of `r` in front. */
  lemma BackoffsStep(r: nat, n: nat)
    ensures Backoffs(r, n + 1) == [Backoff(r)] + Backoffs(r + 1, n)
    ensures n == 0 ==> Backoffs(r, 1) == [Backoff(r)]
  {
  }

  /** The schedule is linear: its `k`-th delay is `RETRY_DELAY * (r + k + 1)`. */
  lemma {:induction false} BackoffsAt(r: nat, n: nat)
    ensures |Backoffs(r, n)| == n
    ensures forall k :: 0 <= k < n ==> Backoffs(r, n)[k] == RETRY_DELAY * (r + k + 1)
    decreases n
  {
    if n > 0 {
      BackoffsAt(r + 1, n - 1);
      var d := Backoffs(r, n);
      forall k | 1 <= k < n ensures d[k] == RETRY_DELAY * (r + k + 1) {
        assert d[k] == Backoffs(r + 1, n - 1)[k - 1];
      }
    }
  }

  /** The full backoff schedule of one client call. */
  lemma BackoffSchedule()
    ensures Backoffs(0, MAX_RETRIES) == [5, 10, 15, 20, 25]
  {
    assert Backoffs(4, 1) == [25];
    assert Backoffs(3, 2) == [20, 25];
    assert Backoffs(2, 3) == [15, 20, 25];
    assert Backoffs(1, 4) == [10, 15, 20, 25];
  }

  /** `x` is the backoff of some retry count from `lo` below `MAX_RETRIES`. */
  predicate IsBackoffFrom(x: nat, lo: nat) {
    exists q: nat :: lo <= q < MAX_RETRIES && x == Backoff(q)
  }

  /** Every sleep of `d` is the backoff of a retry count from `lo`. */
  predicate BackoffsFrom(d: seq<nat>, lo: nat) {
    forall k :: 0 <= k < |d| ==> IsBackoffFrom(d[k], lo)
  }

  /** Every waiting call has retry count at least `lo`. */
  predicate FramesFrom(w: Waiting, lo: nat)
    decreases w
  {
    match w
    case Top => true
    case Within(q, outer) => lo <= q && FramesFrom(outer, lo)
  }

  /** Every sleep of a call from retry count `r` below calls from at least
      `lo` is `RETRY_DELAY * (q + 1)` for some `lo <= q < MAX_RETRIES`. */
  lemma {:induction false} DelaysAreBackoffs(s: Script, pos: nat, r: nat, w: Waiting, lo: nat)
    requires lo <= r && FramesFrom(w, lo)
    ensures BackoffsFrom(RunFrom(s, pos, r, w).delays, lo)
    decreases Room(r, w)
  {
    DecideShrinks(s(pos), r, w);
    DecideKeepsFrames(s(pos), r, w, lo);
    Unfold(s, pos, r, w);
    var m := Decide(s(pos), r, w);
    if m.Go? {
      DelaysAreBackoffs(s, pos + 1, m.next, m.below, lo);
      BackoffsConcat(m.sleeps, RunFrom(s, pos + 1, m.next, m.below).delays, lo);
    }
  }

  /** One step sleeps backoffs from `lo` and waits on calls from `lo`. */
  lemma DecideKeepsFrames(a: Attempt, r: nat, w: Waiting, lo: nat)
    requires lo <= r && FramesFrom(w, lo)
    ensures BackoffsFrom(Decide(a, r, w).sleeps, lo)
    ensures Decide(a, r, w).Go? ==> lo <= Decide(a, r, w).next && FramesFrom(Decide(a, r, w).below, lo)
  {
    var step := Classify(a);
    if r < MAX_RETRIES && !step.Done? {
      assert IsBackoffFrom(Backoff(r), lo);
      if step.RetryRaises? && w.Within? {
        assert IsBackoffFrom(Backoff(w.frame), lo);
      }
    }
  }

  /** Joining two schedules from `lo`. */
  lemma BackoffsConcat(a: seq<nat>, b: seq<nat>, lo: nat)
    requires BackoffsFrom(a, lo) && BackoffsFrom(b, lo)
    ensures BackoffsFrom(a + b, lo)
  {
  }

  /** The number of requests among the `n` from number `pos` whose content
      has no length. */
  function RebindCount(s: Script, pos: nat, n: nat): (c: nat)
    ensures c <= n
    decreases n
  {
    if n == 0 then 0 else (if Rebinds(s(pos)) then 1 else 0) + RebindCount(s, pos + 1, n - 1)
  }

  /** The client sleeps once between consecutive requests, once more for
      every content without a length before its last request, and once more
      when it raises. */
  lemma {:induction false} DelayCount(s: Script, pos: nat, r: nat, w: Waiting)
    ensures var run := RunFrom(s, pos, r, w);
      |run.delays| == run.attempts - 1 + RebindCount(s, pos, run.attempts - 1) + (if run.outcome.Raised? then 1 else 0)
    decreases Room(r, w)
  {
    RebindsIffRetryRaises(s(pos));
    DecideShrinks(s(pos), r, w);
    Unfold(s, pos, r, w);
    var m := Decide(s(pos), r, w);
    if m.Go? {
      DelayCount(s, pos + 1, m.next, m.below);
      RunWithinRoom(s, pos + 1, m.next, m.below);
      var rest := RunFrom(s, pos + 1, m.next, m.below);
      assert RunFrom(s, pos, r, w) == Resumed(1, m.sleeps, rest);
      assert RebindCount(s, pos, rest.attempts)
          == (if Rebinds(s(pos)) then 1 else 0) + RebindCount(s, pos + 1, rest.attempts - 1);
    }
  }

  /** None of the `n` requests from number `pos` has content without a length. */
  predicate NoRebindIn(s: Script, pos: nat, n: nat)
    decreases n
  {
    n == 0 || (!Rebinds(s(pos)) && NoRebindIn(s, pos + 1, n - 1))
  }

  /** Without a content that has no length, a call from retry count `r`
      returns after at most `MAX_RETRIES + 1 - r` requests, whatever calls
      wait on it, and its `k`-th delay is `RETRY_DELAY * (r + k + 1)`. */
  lemma {:induction false} DelaysAreLinear(s: Script, pos: nat, r: nat, w: Waiting)
    requires r <= MAX_RETRIES && NoRebindIn(s, pos, MAX_RETRIES + 1 - r)
    ensures var run := RunFrom(s, pos, r, w);
      && run.outcome.Returned?
      && run.attempts <= MAX_RETRIES + 1 - r
      && run.delays == Backoffs(r, run.attempts - 1)
      && forall k :: 0 <= k < |run.delays| ==> run.delays[k] == RETRY_DELAY * (r + k + 1)
    decreases MAX_RETRIES - r
  {
    var run := RunFrom(s, pos, r, w);
    assert !Rebinds(s(pos));
    RebindsIffRetryRaises(s(pos));
    Unfold(s, pos, r, w);
    var m := Decide(s(pos), r, w);
    if m.Go? {
      assert m.next == r + 1 && m.sleeps == [Backoff(r)];
      DelaysAreLinear(s, pos + 1, r + 1, m.below);
      var rest := RunFrom(s, pos + 1, r + 1, m.below);
      BackoffsStep(r, rest.attempts - 1);
    }
    BackoffsAt(r, run.attempts - 1);
  }

  /** Without a content that has no length, consecutive delays of a call
      strictly increase. */
  lemma DelaysIncrease(s: Script, pos: nat)
    requires NoRebindIn(s, pos, MAX_RETRIES + 1)
    ensures var d := ClientFrom(s, pos, 0).delays;
      forall k :: 0 <= k < |d| - 1 ==> d[k] < d[k + 1]
  {
    DelaysAreLinear(s, pos, 0, Top);
  }

  /** When every request is transient, a call from retry count `r` makes
      exactly `MAX_RETRIES + 1 - r` requests, sleeps the linear schedule,
      and returns the give-up message of the last request. */
  lemma {:induction false} AllTransientExhausts(s: Script, pos: nat, r: nat, w: Waiting)
    requires r <= MAX_RETRIES && TransientRun(s, pos, Left(r) + 1)
    ensures var run := RunFrom(s, pos, r, w);
      && run.attempts == Left(r) + 1
      && run.delays == Backoffs(r, Left(r))
      && run.outcome == Returned(Ending(s(pos + Left(r)), MAX_RETRIES))
    decreases Left(r)
  {
    if r < MAX_RETRIES {
      assert Left(r) == Left(r + 1) + 1;
      assert pos + 1 + Left(r + 1) == pos + Left(r);
      var below := TransientStep(s, pos, r, w);
      AllTransientExhausts(s, pos + 1, r + 1, below);
      BackoffsStep(r, Left(r + 1));
    } else {
      Unfold(s, pos, r, w);
    }
  }

  /** The `n` requests from number `pos` are all transient. */
  predicate TransientRun(s: Script, pos: nat, n: nat)
    decreases n
  {
    n == 0 || (Transient(s(pos)) && TransientRun(s, pos + 1, n - 1))
  }

  /** Six 429s in a row: six requests, delays 5 to 25, and a message that
      carries the last response body. */
  lemma RateLimitedThroughout(s: Script, pos: nat)
    requires forall j :: pos <= j <= pos + MAX_RETRIES ==> s(j).Reply? && s(j).status == 429
    ensures var run := ClientFrom(s, pos, 0);
      && run.attempts == 6
      && run.delays == [5, 10, 15, 20, 25]
      && run.outcome == Returned(Text("达到最大重试次数 (5)，最后错误: " + s(pos + MAX_RETRIES).body))
  {
    forall j | pos <= j < pos + MAX_RETRIES + 1 ensures Transient(s(j)) {
      assert s(j).status == 429;
    }
    TransientRunFrom(s, pos, MAX_RETRIES + 1);
    AllTransientExhausts(s, pos, 0, Top);
    BackoffSchedule();
    RateLimitGiveUp(s(pos + MAX_RETRIES), MAX_RETRIES);
  }

  /** A run of transient requests, stated request by request. */
  lemma {:induction false} TransientRunFrom(s: Script, pos: nat, n: nat)
    requires forall j :: pos <= j < pos + n ==> Transient(s(j))
    ensures TransientRun(s, pos, n)
    decreases n
  {
    if n > 0 {
      assert Transient(s(pos));
      TransientRunFrom(s, pos + 1, n - 1);
    }
  }

  /** How many requests from number `pos` are transient before the first
      one that is not, counting at most up to the request made at
      `MAX_RETRIES`. */
  function FirstSettled(s: Script, pos: nat, r: nat): (i: nat)
    ensures i == 0 || r + i <= MAX_RETRIES
    decreases MAX_RETRIES - r
  {
    if r >= MAX_RETRIES || !Transient(s(pos)) then 0 else 1 + FirstSettled(s, pos + 1, r + 1)
  }

  /** None of the `i` requests from number `pos` is a 429. */
  predicate NoRateLimitBefore(s: Script, pos: nat, i: nat)
    decreases i
  {
    i == 0 || (!(s(pos).Reply? && s(pos).status == 429) && NoRateLimitBefore(s, pos + 1, i - 1))
  }

  /** Independent description of a call: the requests up to the first
      settled one are made at consecutive retry counts. That request decides
      the call, unless it is a 200 whose content has no length with budget
      left: then the call raises after it when nothing waits and no 429 came
      before it, and otherwise a waiting 429 call catches the exception and
      sends more requests. */
  lemma ClientIsFirstSettled(s: Script, pos: nat, r: nat, w: Waiting)
    ensures var i, run := FirstSettled(s, pos, r), RunFrom(s, pos, r, w);
      && (!(Rebinds(s(pos + i)) && r + i < MAX_RETRIES) ==>
            run == ClientRun(Returned(Ending(s(pos + i), r + i)), i + 1, Backoffs(r, i)))
      && (Rebinds(s(pos + i)) && r + i < MAX_RETRIES && w.Top? && NoRateLimitBefore(s, pos, i) ==>
            run == ClientRun(Raised, i + 1, Backoffs(r, i + 1)))
      && (Rebinds(s(pos + i)) && r + i < MAX_RETRIES && !(w.Top? && NoRateLimitBefore(s, pos, i)) ==>
            run.attempts > i + 1)
  {
    var i := FirstSettled(s, pos, r);
    if !(Rebinds(s(pos + i)) && r + i < MAX_RETRIES) {
      SettledDecides(s, pos, r, w);
    } else if w.Top? && NoRateLimitBefore(s, pos, i) {
      UncaughtRebindRaises(s, pos, r);
    } else {
      CaughtRebindGoesOn(s, pos, r, w);
    }
  }

  /** The first settled request decides the call when it is not a content
      without a length with budget left. */
  lemma {:induction false} SettledDecides(s: Script, pos: nat, r: nat, w: Waiting)
    requires var i := FirstSettled(s, pos, r); !(Rebinds(s(pos + i)) && r + i < MAX_RETRIES)
    ensures var i := FirstSettled(s, pos, r);
      RunFrom(s, pos, r, w) == ClientRun(Returned(Ending(s(pos + i), r + i)), i + 1, Backoffs(r, i))
    decreases MAX_RETRIES - r, 1
  {
    if r < MAX_RETRIES && Transient(s(pos)) {
      SettledAfterRetry(s, pos, r, w);
    } else {
      SettledAtOnce(s, pos, r, w);
    }
  }

  /** The same after a transient first request: it is retried, and the
      first settled request of the rest decides. */
  lemma {:induction false} SettledAfterRetry(s: Script, pos: nat, r: nat, w: Waiting)
    requires r < MAX_RETRIES && Transient(s(pos))
    requires var i := FirstSettled(s, pos, r); !(Rebinds(s(pos + i)) && r + i < MAX_RETRIES)
    ensures var i := FirstSettled(s, pos, r);
      RunFrom(s, pos, r, w) == ClientRun(Returned(Ending(s(pos + i), r + i)), i + 1, Backoffs(r, i))
    decreases MAX_RETRIES - r, 0
  {
    var i := FirstSettled(s, pos, r);
    var k := FirstSettled(s, pos + 1, r + 1);
    assert i == k + 1 && pos + i == pos + 1 + k && r + i == r + 1 + k;
    var below := TransientStep(s, pos, r, w);
    SettledDecides(s, pos + 1, r + 1, below);
    var last := Returned(Ending(s(pos + i), r + i));
    assert RunFrom(s, pos + 1, r + 1, below) == ClientRun(last, k + 1, Backoffs(r + 1, k));
    BackoffsStep(r, k);
  }

  /** A first request that is not transient, or made without budget, is the
      first settled one and, unless it has content without a length and
      budget is left, decides the call. */
  lemma SettledAtOnce(s: Script, pos: nat, r: nat, w: Waiting)
    requires !(r < MAX_RETRIES && Transient(s(pos)))
    ensures FirstSettled(s, pos, r) == 0
    ensures !(Rebinds(s(pos)) && r < MAX_RETRIES) ==>
      RunFrom(s, pos, r, w) == ClientRun(Returned(Ending(s(pos), r)), 1, Backoffs(r, 0))
  {
    if !(Rebinds(s(pos)) && r < MAX_RETRIES) {
      SettledEndsCall(s, pos, r, w);
    }
  }

  /** A content without a length at the first settled request, with budget
      left, no 429 before it and no call waiting, raises out of the call. */
  lemma {:induction false} UncaughtRebindRaises(s: Script, pos: nat, r: nat)
    requires var i := FirstSettled(s, pos, r);
      Rebinds(s(pos + i)) && r + i < MAX_RETRIES && NoRateLimitBefore(s, pos, i)
    ensures var i := FirstSettled(s, pos, r);
      RunFrom(s, pos, r, Top) == ClientRun(Raised, i + 1, Backoffs(r, i + 1))
    decreases Left(r)
  {
    var i := FirstSettled(s, pos, r);
    if r < MAX_RETRIES && Transient(s(pos)) {
      var k := FirstSettled(s, pos + 1, r + 1);
      assert i == k + 1 && pos + i == pos + 1 + k;
      assert !(s(pos).Reply? && s(pos).status == 429);
      assert NoRateLimitBefore(s, pos + 1, k);
      var below := TransientStep(s, pos, r, Top);
      UncaughtRebindRaises(s, pos + 1, r + 1);
      BackoffsStep(r, k + 1);
    } else {
      assert i == 0;
      RebindRaises(s, pos, r, Top);
      BackoffsStep(r, 0);
    }
  }

  /** Otherwise the exception is caught by a waiting 429 call, which sends
      more requests. */
  lemma {:induction false} CaughtRebindGoesOn(s: Script, pos: nat, r: nat, w: Waiting)
    requires var i := FirstSettled(s, pos, r);
      Rebinds(s(pos + i)) && r + i < MAX_RETRIES && !(w.Top? && NoRateLimitBefore(s, pos, i))
    ensures RunFrom(s, pos, r, w).attempts > FirstSettled(s, pos, r) + 1
    decreases Left(r)
  {
    var i := FirstSettled(s, pos, r);
    if r < MAX_RETRIES && Transient(s(pos)) {
      var below := TransientStep(s, pos, r, w);
      CaughtRebindGoesOn(s, pos + 1, r + 1, below);
    } else {
      RebindRaises(s, pos, r, w);
      RunWithinRoom(s, pos + 1, w.frame + 1, w.outer);
    }
  }

  /** A call raises exactly when its first settled request is a 200 whose
      content has no length and budget is left after it, provided no 429
      comes before that request. */
  lemma RaisesIffRebound(s: Script, pos: nat, r: nat)
    requires NoRateLimitBefore(s, pos, FirstSettled(s, pos, r))
    ensures var i := FirstSettled(s, pos, r);
      ClientFrom(s, pos, r).outcome.Raised? <==> r + i < MAX_RETRIES && Rebinds(s(pos + i))
  {
    ClientIsFirstSettled(s, pos, r, Top);
  }

  /** The client with every retry made outside the `try`, so that an
      exception of a retry always leaves the call: the reading under which
      `MAX_RETRIES` bounds the requests of one call. */
  function IntendedFrom(s: Script, pos: nat, r: nat): (run: ClientRun)
    ensures 1 <= run.attempts
    ensures r <= MAX_RETRIES ==> run.attempts <= MAX_RETRIES + 1 - r
    decreases MAX_RETRIES - r
  {
    var a := s(pos);
    var step := Classify(a);
    if r >= MAX_RETRIES || step.Done? then ClientRun(Returned(Ending(a, r)), 1, [])
    else if step.RetryRaises? then ClientRun(Raised, 1, [Backoff(r)])
    else Resumed(1, [Backoff(r)], IntendedFrom(s, pos + 1, r + 1))
  }

  /** The intended client retries a transient request at the next count. */
  lemma IntendedStep(s: Script, pos: nat, r: nat)
    requires r < MAX_RETRIES && Transient(s(pos))
    ensures IntendedFrom(s, pos, r) == Resumed(1, [Backoff(r)], IntendedFrom(s, pos + 1, r + 1))
  {
    TransientIffRetried(s(pos));
  }

  /** The intended client sleeps the linear schedule from `r`: once between
      consecutive requests, and once more when it raises. */
  lemma {:induction false} IntendedDelaysAreLinear(s: Script, pos: nat, r: nat)
    ensures var run := IntendedFrom(s, pos, r);
      run.delays == Backoffs(r, run.attempts - 1 + (if run.outcome.Raised? then 1 else 0))
    decreases MAX_RETRIES - r
  {
    if r < MAX_RETRIES && Transient(s(pos)) {
      IntendedStep(s, pos, r);
      IntendedDelaysAreLinear(s, pos + 1, r + 1);
      var rest := IntendedFrom(s, pos + 1, r + 1);
      var n := rest.attempts - 1 + (if rest.outcome.Raised? then 1 else 0);
      BackoffsStep(r, n);
    }
  }

  /** The client as written behaves as the intended one unless an exception
      is caught by a waiting 429 call: when no 429 comes before the first
      settled request. */
  lemma {:induction false} ClientIsIntendedBeforeRateLimit(s: Script, pos: nat, r: nat)
    requires NoRateLimitBefore(s, pos, FirstSettled(s, pos, r))
    ensures ClientFrom(s, pos, r) == IntendedFrom(s, pos, r)
    decreases MAX_RETRIES - r
  {
    TransientIffRetried(s(pos));
    RebindsIffRetryRaises(s(pos));
    Unfold(s, pos, r, Top);
    if r < MAX_RETRIES && Transient(s(pos)) {
      assert !(s(pos).Reply? && s(pos).status == 429);
      var i := FirstSettled(s, pos, r);
      assert NoRateLimitBefore(s, pos + 1, i - 1);
      ClientIsIntendedBeforeRateLimit(s, pos + 1, r + 1);
    }
  }

  /** A 429, a 200 whose content has no length, then five 429s: as written
      the exception of the second call is caught by the first, which
      retries at count 1 and goes on to make seven requests in all. */
  lemma CaughtRebindOverruns(s: Script)
    requires s(0).Reply? && s(0).status == 429 && Rebinds(s(1))
    requires forall j :: 2 <= j <= 6 ==> s(j).Reply? && s(j).status == 429
    ensures ClientFrom(s, 0, 0)
         == ClientRun(Returned(Text("达到最大重试次数 (5)，最后错误: " + s(6).body)), 7, [5, 10, 5, 10, 15, 20, 25])
  {
    var last := RunFrom(s, 2, 1, Top);
    RateLimitedFromOne(s);
    RateLimitedWaits(s, 0, 0, Top);
    RebindCaught(s, 1, 1, 0, Top);
    ResumedTwice(1, [5], 1, [10, 5], last);
  }

  /** Five 429s from request number 2 at retry count 1, with no call
      waiting: five requests and the give-up message. */
  lemma RateLimitedFromOne(s: Script)
    requires forall j :: 2 <= j <= 6 ==> s(j).Reply? && s(j).status == 429
    ensures RunFrom(s, 2, 1, Top)
         == ClientRun(Returned(Text("达到最大重试次数 (5)，最后错误: " + s(6).body)), 5, [10, 15, 20, 25])
  {
    forall j | 2 <= j < 2 + 5 ensures Transient(s(j)) {
      assert s(j).status == 429;
    }
    TransientRunFrom(s, 2, 5);
    AllTransientExhausts(s, 2, 1, Top);
    assert Backoffs(1, 4) == [10, 15, 20, 25];
    RateLimitGiveUp(s(6), MAX_RETRIES);
  }

  /** The same requests make the intended client raise after two. */
  lemma IntendedRebindRaises(s: Script)
    requires s(0).Reply? && s(0).status == 429 && Rebinds(s(1))
    ensures IntendedFrom(s, 0, 0) == ClientRun(Raised, 2, [5, 10])
  {
    assert IntendedFrom(s, 1, 1) == ClientRun(Raised, 1, [10]);
  }

  /** Whatever occurs in the truncated content occurs in the prompt. */
  lemma PromptKeeps(truncated: string, needle: string)
    requires Contains(truncated, needle)
    ensures Contains(PromptFor(truncated), needle)
  {
    ContainsInInfix(PROMPT_HEAD, truncated, "\n", needle);
  }

  /** A content within the limit reaches the prompt whole. */
  lemma ShortContentInPrompt(content: string)
    requires |content| <= MAX_CONTENT_LENGTH
    ensures Contains(PromptFor(TruncateContent(content, MAX_CONTENT_LENGTH)), content)
  {
    TruncateShortIsIdentity(content, MAX_CONTENT_LENGTH);
    ContainsItself(content);
    PromptKeeps(content, content);
  }

  /** A longer content reaches the prompt by its first and last 4000 characters. */
  lemma LongContentEndsInPrompt(content: string)
    requires |content| > MAX_CONTENT_LENGTH
    ensures var p := PromptFor(TruncateContent(content, MAX_CONTENT_LENGTH));
      Contains(p, content[..4000]) && Contains(p, content[|content| - 4000..])
  {
    var head, tail := content[..4000], content[|content| - 4000..];
    var t := TruncateContent(content, MAX_CONTENT_LENGTH);
    assert t == head + MARKER + tail;
    ContainsItself(head);
    ContainsInInfix("", head, MARKER + tail, head);
    assert "" + head + (MARKER + tail) == t;
    PromptKeeps(t, head);
    ContainsItself(tail);
    ContainsInInfix(head + MARKER, tail, "", tail);
    assert head + MARKER + tail + "" == t;
    PromptKeeps(t, tail);
  }
}
