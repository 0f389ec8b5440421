/** The report validator `verify_markdown` (project_analyzer.py:174-185):
    a length check on the stripped text and a substring check for five
    fixed section headers in the unstripped text. */
module Validation {
  import opened Strings

  /** The five section headers every accepted report must contain. */
  const SECTIONS: seq<string> := ["功能概述", "架构设计", "实现细节", "依赖分析", "核心流程"]

  /** Shortest stripped length a report may have. */
  const MIN_STRIPPED_LENGTH: nat := 100

  /** Every required header occurs somewhere in `content`. */
  predicate HasAllSections(content: string) {
    forall k :: 0 <= k < |SECTIONS| ==> Contains(content, SECTIONS[k])
  }

  /** `verify_markdown(content)`. */
  predicate VerifyMarkdown(content: string) {
    if |content| == 0 || |Strip(content)| < MIN_STRIPPED_LENGTH then false
    else HasAllSections(content)
  }

  /** The emptiness test is subsumed by the length test: a report is
      accepted exactly when its stripped form has at least 100 characters
      and all five headers occur. */
  lemma VerifyMarkdownIff(content: string)
    ensures VerifyMarkdown(content)
       <==> |Strip(content)| >= MIN_STRIPPED_LENGTH && HasAllSections(content)
  {
  }

  /** A report missing any one of the headers is rejected. */
  lemma MissingSectionRejected(content: string, k: nat)
    requires k < |SECTIONS| && !Contains(content, SECTIONS[k])
    ensures !VerifyMarkdown(content)
  {
  }

  /** Adding text before or after an accepted report keeps it accepted. */
  lemma VerifyMarkdownMonotone(a: string, content: string, b: string)
    requires VerifyMarkdown(content)
    ensures VerifyMarkdown(a + content + b)
  {
    StripOfInfix(a, content, b);
    forall k | 0 <= k < |SECTIONS| ensures Contains(a + content + b, SECTIONS[k]) {
      ContainsInInfix(a, content, b, SECTIONS[k]);
    }
  }

  /** The five headers alone are far too short to be accepted. */
  lemma HeadersAloneRejected()
    ensures !VerifyMarkdown("功能概述架构设计实现细节依赖分析核心流程")
  {
    var s := "功能概述架构设计实现细节依赖分析核心流程";
    assert |Strip(s)| <= |s| == 20;
  }

  /** Text that is all white space is rejected, however long. */
  lemma BlankRejected(content: string)
    requires forall k :: 0 <= k < |content| ==> IsSpace(content[k])
    ensures !VerifyMarkdown(content)
  {
    var i, j := StripWindow(content);
    assert i == j;
  }

  /** One section of a report: a header line and its text. */
  function Section(header: string, body: string): string {
    "# " + header + "\n" + body
  }

  /** A report made of the five required sections in order, with the given texts. */
  function Report(bodies: seq<string>): string
    requires |bodies| == |SECTIONS|
  {
    Section(SECTIONS[0], bodies[0]) + Section(SECTIONS[1], bodies[1])
      + Section(SECTIONS[2], bodies[2]) + Section(SECTIONS[3], bodies[3])
      + Section(SECTIONS[4], bodies[4])
  }

  /** A header occurs in its own section. */
  lemma SectionHasHeader(header: string, body: string)
    ensures Contains(Section(header, body), header)
  {
    ContainsItself(header);
    ContainsInInfix("# ", header, "\n" + body, header);
    assert "# " + header + ("\n" + body) == Section(header, body);
  }

  /** A five-section report holds every header. */
  lemma ReportHasAllSections(bodies: seq<string>)
    requires |bodies| == |SECTIONS|
    ensures HasAllSections(Report(bodies))
  {
    forall k | 0 <= k < |SECTIONS| ensures Contains(Report(bodies), SECTIONS[k]) {
      ReportHasSection(bodies, k);
    }
  }

  /** Header `k` occurs in a five-section report: it occurs in section `k`,
      and appending sections on either side keeps it. */
  lemma ReportHasSection(bodies: seq<string>, k: nat)
    requires |bodies| == |SECTIONS| && k < |SECTIONS|
    ensures Contains(Report(bodies), SECTIONS[k])
  {
    var p0 := Section(SECTIONS[0], bodies[0]);
    var p1 := Section(SECTIONS[1], bodies[1]);
    var p2 := Section(SECTIONS[2], bodies[2]);
    var p3 := Section(SECTIONS[3], bodies[3]);
    var p4 := Section(SECTIONS[4], bodies[4]);
    var n := SECTIONS[k];
    SectionHasHeader(n, bodies[k]);
    if k == 0 { ContainsAppend(p0, p1, n); }
    if k == 1 { ContainsPrepend(p0, p1, n); }
    if k <= 1 { ContainsAppend(p0 + p1, p2, n); }
    if k == 2 { ContainsPrepend(p0 + p1, p2, n); }
    if k <= 2 { ContainsAppend(p0 + p1 + p2, p3, n); }
    if k == 3 { ContainsPrepend(p0 + p1 + p2, p3, n); }
    if k <= 3 { ContainsAppend(p0 + p1 + p2 + p3, p4, n); }
    if k == 4 { ContainsPrepend(p0 + p1 + p2 + p3, p4, n); }
  }

  /** A five-section report is accepted once it is long enough and its last
      character is not white space: 35 characters of headers plus at least
      65 of text. */
  lemma ReportAccepted(bodies: seq<string>)
    requires |bodies| == |SECTIONS|
    requires |bodies[0]| + |bodies[1]| + |bodies[2]| + |bodies[3]| + |bodies[4]| >= 65
    requires bodies[4] != [] && !IsSpace(bodies[4][|bodies[4]| - 1])
    ensures VerifyMarkdown(Report(bodies))
  {
    var s := Report(bodies);
    var p0 := Section(SECTIONS[0], bodies[0]);
    var p4 := Section(SECTIONS[4], bodies[4]);
    var rest := Section(SECTIONS[1], bodies[1]) + Section(SECTIONS[2], bodies[2])
      + Section(SECTIONS[3], bodies[3]);
    assert s == p0 + rest + p4;
    assert s[0] == p0[0] == '#';
    assert s[|s| - 1] == p4[|p4| - 1] == bodies[4][|bodies[4]| - 1];
    assert StripLeft(s) == s;
    assert StripRight(s) == s;
    ReportHasAllSections(bodies);
  }

  /** The texts of a sample report. */
  const SAMPLE_BODIES: seq<string> := [
    "解析命令行参数并遍历目标目录。\n",
    "异步任务和信号量限制并发请求数量。\n",
    "逐个读取源文件并截断过长的内容。\n",
    "使用 aiohttp 与 tqdm 两个第三方库。\n",
    "收集文件、请求分析、校验并保存报告。"]

  /** The sample report, 130 characters long, is accepted. */
  lemma SampleReportAccepted()
    ensures VerifyMarkdown(Report(SAMPLE_BODIES))
  {
    ReportAccepted(SAMPLE_BODIES);
  }
}
