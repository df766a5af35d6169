/** Judging one submission: set-up, compilation and the test loop. */
module Verdict {
  import opened Topics
  import opened Text
  import opened CommandLine

  datatype TestCase = TestCase(input: string, output: string)

  // What one exec in a container answers.
  datatype Answer = Exited(stdout: string, stderr: string, code: int) | ExecFailed(error: string)

  // One exec: its arguments, its standard input, and the files in the submission's directory.
  datatype Call = Call(argv: seq<string>, stdin: string, files: map<string, string>)

  // A container, the record of what was executed in it, and the submission's directory, which
  // is mounted there.  It may answer the n-th call in any way at all.
  class Container {
    const respond: (nat, Call) -> Answer
    var calls: seq<Call>
    var files: map<string, string>

    constructor (respond: (nat, Call) -> Answer)
      ensures this.respond == respond && calls == [] && files == map[]
    {
      this.respond := respond;
      calls, files := [], map[];
    }

    // MkdirTemp: a new and empty directory.
    method NewDirectory()
      modifies this`files
      ensures files == map[]
    {
      files := map[];
    }

    method WriteFile(name: string, data: string)
      modifies this`files
      ensures files == old(files)[name := data]
    {
      files := files[name := data];
    }

    method ExecInWorker(argv: seq<string>, stdin: string) returns (a: Answer)
      modifies this`calls
      ensures calls == old(calls) + [Call(argv, stdin, files)]
      ensures a == respond(|old(calls)|, Call(argv, stdin, files))
    {
      a := respond(|calls|, Call(argv, stdin, files));
      calls := calls + [Call(argv, stdin, files)];
    }
  }

  // What the rest of the environment answers while a submission is set up.
  datatype TestsReply = Tests(cases: seq<TestCase>) | TestsError(error: string)
  datatype Setup = Setup(
    tests: string -> TestsReply,     // GetTestCases, by problem
    mkdirError: Option<string>,      // os.MkdirAll
    subDir: string, tempError: Option<string>,  // os.MkdirTemp
    codeWritten: bool,               // os.WriteFile
    timeout: int)                    // seconds allowed to a test

  const BUILD_TIMEOUT := 120

  function BinPath(subDir: string): string { subDir + "/app.bin" }

  function CodeFileName(lang: string): string { if lang == "go" then "main.go" else "main.py" }

  // The directory once the code is written.
  function Source(sub: SubmissionEvent): map<string, string> {
    map[CodeFileName(sub.language) := sub.code]
  }

  function CompileCall(sub: SubmissionEvent, env: Setup): Call {
    var args := JudgeArgs("compile", sub.language, env.subDir, BinPath(env.subDir), Decimal(BUILD_TIMEOUT));
    Call(["judge-runner"] + args, "", Source(sub))
  }

  function RunCall(sub: SubmissionEvent, env: Setup, tc: TestCase): Call {
    var args := JudgeArgs("run", sub.language, env.subDir, BinPath(env.subDir), Decimal(env.timeout));
    Call(["judge-runner"] + args, tc.input, Source(sub))
  }

  function Complaint(stdout: string, stderr: string): string {
    if Trim(stderr) == "" then Trim(stdout) else Trim(stderr)
  }

  // The status and message of one test.
  function Classify(a: Answer, tc: TestCase): (string, string) {
    match a
    case ExecFailed(error) => ("RE", error)
    case Exited(stdout, stderr, code) =>
      if code == 124 || code == 137 then ("TLE", "Time Limit Exceeded")
      else if code != 0 then ("RE", "Runtime Error (Exit Code: " + Decimal(code) + ")\n" + Complaint(stdout, stderr))
      else if Trim(stdout) != Trim(tc.output) then
        ("WA", "Wrong Answer.\nExpected:\n" + tc.output + "\nGot:\n" + stdout)
      else ("AC", "")
  }

  // The program ended normally and printed the expected output up to surrounding space.
  predicate Accepts(a: Answer, tc: TestCase) {
    a.Exited? && a.code == 0 && Trim(a.stdout) == Trim(tc.output)
  }

  lemma AcceptsIff(a: Answer, tc: TestCase)
    ensures Classify(a, tc).0 == "AC" <==> Accepts(a, tc)
    ensures Classify(a, tc).0 == "TLE" <==> a.Exited? && a.code in {124, 137}
    ensures Classify(a, tc).0 == "WA" <==> a.Exited? && a.code == 0 && Trim(a.stdout) != Trim(tc.output)
    ensures Classify(a, tc).0 in {"AC", "WA", "TLE", "RE"}
  {
    var status := Classify(a, tc).0;
    assert |"AC"| == |"WA"| == |"RE"| == 2 && |"TLE"| == 3;
    assert "AC"[0] == 'A' && "WA"[0] == 'W' && "RE"[0] == 'R';
  }

  // A program that prints the expected output and ends its last line is accepted, whichever
  // white space that takes.
  lemma PrintedAnswerAccepted(tc: TestCase, stderr: string, ending: string)
    requires forall c :: c in ending ==> c in {' ', '\t', '\r', '\n'}
    ensures Classify(Exited(tc.output + ending, stderr, 0), tc) == ("AC", "")
  {
    TrimTrailing(tc.output, ending);
  }

  // One that prints something else is not, unless the difference is space at the ends.
  lemma OtherAnswerRejected(tc: TestCase, stdout: string, stderr: string)
    requires Printable(stdout) && Printable(tc.output) && stdout != tc.output
    ensures Classify(Exited(stdout, stderr, 0), tc) ==
      ("WA", "Wrong Answer.\nExpected:\n" + tc.output + "\nGot:\n" + stdout)
  {
    PrintableKept(stdout);
    PrintableKept(tc.output);
  }

  // How a container answers its n-th call.
  type Responses = (nat, Call) -> Answer

  // The answer to the run call of test i, when test 0 is call number `from`.
  function RunAnswer(respond: Responses, from: nat, sub: SubmissionEvent, env: Setup,
                     tests: seq<TestCase>, i: nat): Answer
    requires i < |tests|
  {
    respond(from + i, RunCall(sub, env, tests[i]))
  }

  // k is the first test that is not accepted, or the number of tests if all are.
  ghost predicate FirstFailure(respond: Responses, from: nat, sub: SubmissionEvent, env: Setup,
                               tests: seq<TestCase>, k: nat) {
    && k <= |tests|
    && (forall i :: 0 <= i < k ==> Accepts(RunAnswer(respond, from, sub, env, tests, i), tests[i]))
    && (k < |tests| ==> !Accepts(RunAnswer(respond, from, sub, env, tests, k), tests[k]))
  }

  // r is the verdict of the first failing test after that many calls, or AC after all.
  ghost predicate LoopResult(respond: Responses, from: nat, sub: SubmissionEvent, env: Setup,
                             tests: seq<TestCase>, r: ResultEvent, calls: nat) {
    exists k :: 0 <= k <= |tests| && FirstFailure(respond, from, sub, env, tests, k) &&
      if k == |tests| then r == ResultEvent(sub.id, "AC", "All tests passed") && calls == from + k
      else calls == from + k + 1 && r.id == sub.id &&
           (r.status, r.message) == Classify(RunAnswer(respond, from, sub, env, tests, k), tests[k])
  }

  // One exec of the script's run phase, with the test's input; its answer decides.
  method RunTestCase(c: Container, lang: string, subDir: string, timeout: int, tc: TestCase)
    returns (status: string, output: string, err: Option<string>)
    modifies c`calls
    ensures err.None? && |c.calls| == |old(c.calls)| + 1 && old(c.calls) <= c.calls
    ensures c.calls[|old(c.calls)|] == Call(
      ["judge-runner", "--phase", "run", "--lang", lang, "--workdir", subDir, "--outbin", subDir + "/app.bin",
       "--timeout", Decimal(timeout)], tc.input, c.files)
    ensures (status, output) == Classify(c.respond(|old(c.calls)|, c.calls[|old(c.calls)|]), tc)
    ensures match c.respond(|old(c.calls)|, c.calls[|old(c.calls)|])
      case ExecFailed(error) => status == "RE" && output == error
      case Exited(stdout, stderr, code) =>
        if code in {124, 137} then status == "TLE" && output == "Time Limit Exceeded"
        else if code != 0 then
          var complaint := if Trim(stderr) != "" then Trim(stderr) else Trim(stdout);
          status == "RE" && output == "Runtime Error (Exit Code: " + Decimal(code) + ")\n" + complaint
        else if Trim(stdout) == Trim(tc.output) then status == "AC" && output == ""
        else status == "WA" && output == "Wrong Answer.\nExpected:\n" + tc.output + "\nGot:\n" + stdout
  {
    var argv := ["judge-runner"] + JudgeArgs("run", lang, subDir, BinPath(subDir), Decimal(timeout));
    var a := c.ExecInWorker(argv, tc.input);
    err := None;
    match a
    case ExecFailed(error) => status, output := "RE", error;
    case Exited(stdout, stderr, code) =>
      if code == 124 || code == 137 {
        return "TLE", "Time Limit Exceeded", None;
      }
      if code != 0 {
        var msg := Trim(stderr);
        if msg == "" { msg := Trim(stdout); }
        return "RE", "Runtime Error (Exit Code: " + Decimal(code) + ")\n" + msg, None;
      }
      if Trim(stdout) != Trim(tc.output) {
        return "WA", "Wrong Answer.\nExpected:\n" + tc.output + "\nGot:\n" + stdout, None;
      }
      status, output := "AC", "";
  }

  // The set-up gets as far as the container.
  predicate Ready(sub: SubmissionEvent, env: Setup) {
    && sub.language in {"go", "python"} && env.tests(sub.problem).Tests? && env.tests(sub.problem).cases != []
    && env.mkdirError.None? && env.tempError.None? && env.codeWritten
  }

  // Neither the set-up nor the compilation decides the verdict.
  predicate ReachesTests(sub: SubmissionEvent, env: Setup, compiled: Answer) {
    Ready(sub, env) && (sub.language == "go" ==> compiled.Exited? && compiled.code == 0)
  }

  // The verdict when they do.
  function Early(sub: SubmissionEvent, env: Setup, compiled: Answer): (ResultEvent, Option<string>)
    requires !ReachesTests(sub, env, compiled)
  {
    if sub.language !in {"go", "python"} then (ResultEvent(sub.id, "RE", "Unsupported language"), None)
    else match env.tests(sub.problem)
    case TestsError(e) => (ResultEvent(sub.id, "RE", "Failed to get test cases: " + e), Some(e))
    case Tests(cases) =>
      if cases == [] then (ResultEvent(sub.id, "AC", "No test cases found for this problem."), None)
      else if env.mkdirError.Some? then (ResultEvent(sub.id, "RE", "Failed to ensure work dir"), env.mkdirError)
      else if env.tempError.Some? then (ResultEvent(sub.id, "RE", "Failed to create temp dir"), env.tempError)
      else if !env.codeWritten then (ResultEvent(sub.id, "RE", "Failed to write code to file"), None)
      else match compiled
      case ExecFailed(e) => (ResultEvent(sub.id, "CE", "Compilation Error: " + e), None)
      case Exited(stdout, stderr, _) =>
        (ResultEvent(sub.id, "CE", "Compilation Error: " + Complaint(stdout, stderr)), None)
  }

  // One exec for the compiler, if the submission gets that far.
  predicate Compiles(sub: SubmissionEvent, env: Setup) {
    Ready(sub, env) && sub.language == "go"
  }

  function CompileAnswer(respond: Responses, at: nat, sub: SubmissionEvent, env: Setup): Answer {
    respond(at, CompileCall(sub, env))
  }

  method Prepare(c: Container, sub: SubmissionEvent, env: Setup) returns (early: Option<(ResultEvent, Option<string>)>)
    modifies c`calls, c`files
    ensures early.None? <==> ReachesTests(sub, env, CompileAnswer(c.respond, |old(c.calls)|, sub, env))
    ensures early.Some? ==> early.value == Early(sub, env, CompileAnswer(c.respond, |old(c.calls)|, sub, env))
    ensures early.None? ==> c.files == Source(sub)
    ensures c.calls == old(c.calls) + (if Compiles(sub, env) then [CompileCall(sub, env)] else [])
  {
    if sub.language !in {"go", "python"} {
      return Some((ResultEvent(sub.id, "RE", "Unsupported language"), None));
    }
    var reply := env.tests(sub.problem);
    if reply.TestsError? {
      return Some((ResultEvent(sub.id, "RE", "Failed to get test cases: " + reply.error), Some(reply.error)));
    }
    if reply.cases == [] {
      return Some((ResultEvent(sub.id, "AC", "No test cases found for this problem."), None));
    }
    if env.mkdirError.Some? { return Some((ResultEvent(sub.id, "RE", "Failed to ensure work dir"), env.mkdirError)); }
    if env.tempError.Some? { return Some((ResultEvent(sub.id, "RE", "Failed to create temp dir"), env.tempError)); }
    c.NewDirectory();
    if !env.codeWritten { return Some((ResultEvent(sub.id, "RE", "Failed to write code to file"), None)); }
    c.WriteFile(CodeFileName(sub.language), sub.code);
    assert c.files == Source(sub);
    if sub.language == "go" {
      var args := JudgeArgs("compile", sub.language, env.subDir, BinPath(env.subDir), Decimal(BUILD_TIMEOUT));
      var a := c.ExecInWorker(["judge-runner"] + args, "");
      if a.ExecFailed? { return Some((ResultEvent(sub.id, "CE", "Compilation Error: " + a.error), None)); }
      if a.code != 0 {
        var msg := Trim(a.stderr);
        if msg == "" { msg := Trim(a.stdout); }
        return Some((ResultEvent(sub.id, "CE", "Compilation Error: " + msg), None));
      }
    }
    early := None;
  }

  function RunCalls(sub: SubmissionEvent, env: Setup, tests: seq<TestCase>): (calls: seq<Call>)
    ensures |calls| == |tests|
  {
    seq(|tests|, i requires 0 <= i < |tests| => RunCall(sub, env, tests[i]))
  }

  // calls continues before with calls of the first tests, each with its input and the code.
  ghost predicate RunsInOrder(calls: seq<Call>, before: seq<Call>, tests: seq<TestCase>, files: map<string, string>) {
    && before <= calls && |calls| <= |before| + |tests|
    && forall j :: |before| <= j < |calls| ==> calls[j].stdin == tests[j - |before|].input && calls[j].files == files
  }

  lemma CallsInOrder(before: seq<Call>, sub: SubmissionEvent, env: Setup, tests: seq<TestCase>, k: nat)
    requires k <= |tests|
    ensures RunsInOrder(before + RunCalls(sub, env, tests)[..k], before, tests, Source(sub))
  {}

  method RunTests(c: Container, sub: SubmissionEvent, env: Setup, tests: seq<TestCase>) returns (r: ResultEvent)
    requires c.files == Source(sub)
    modifies c`calls
    ensures LoopResult(c.respond, |old(c.calls)|, sub, env, tests, r, |c.calls|)
    ensures 0 <= |c.calls| - |old(c.calls)| <= |tests|
    ensures c.calls == old(c.calls) + RunCalls(sub, env, tests)[..|c.calls| - |old(c.calls)|]
    ensures RunsInOrder(c.calls, old(c.calls), tests, c.files)
  {
    ghost var from := |c.calls|;
    for i := 0 to |tests|
      invariant c.calls == old(c.calls) + RunCalls(sub, env, tests)[..i]
      invariant forall k :: 0 <= k < i ==> Accepts(RunAnswer(c.respond, from, sub, env, tests, k), tests[k])
    {
      ghost var before := c.calls;
      var status, output, e := RunTestCase(c, sub.language, env.subDir, env.timeout, tests[i]);
      assert c.calls[|before|] == RunCall(sub, env, tests[i]);
      assert c.calls == before + [RunCall(sub, env, tests[i])];
      AcceptsIff(RunAnswer(c.respond, from, sub, env, tests, i), tests[i]);
      if e.Some? {
        assert false;  // the code's error branch is never taken
      } else if status != "AC" {
        assert FirstFailure(c.respond, from, sub, env, tests, i);
        assert c.calls == old(c.calls) + RunCalls(sub, env, tests)[..i + 1];
        CallsInOrder(old(c.calls), sub, env, tests, i + 1);
        return ResultEvent(sub.id, status, output);
      }
    }
    assert FirstFailure(c.respond, from, sub, env, tests, |tests|);
    CallsInOrder(old(c.calls), sub, env, tests, |tests|);
    r := ResultEvent(sub.id, "AC", "All tests passed");
  }

  // Set-up and compilation, then the tests one after the other.
  method Judge(c: Container, sub: SubmissionEvent, env: Setup) returns (r: ResultEvent, err: Option<string>)
    modifies c`calls, c`files
    ensures var n := |old(c.calls)|; var compiled := CompileAnswer(c.respond, n, sub, env);
      if ReachesTests(sub, env, compiled) then
        err.None? && LoopResult(c.respond, TestsFrom(sub, n), sub, env, env.tests(sub.problem).cases, r, |c.calls|)
      else
        (r, err) == Early(sub, env, compiled) && |c.calls| == n + (if Compiles(sub, env) then 1 else 0)
    ensures var compile := if Compiles(sub, env) then [CompileCall(sub, env)] else [];
      if ReachesTests(sub, env, CompileAnswer(c.respond, |old(c.calls)|, sub, env)) then
        var from := |old(c.calls)| + |compile|;
        0 <= |c.calls| - from <= |env.tests(sub.problem).cases| &&
        c.calls == old(c.calls) + compile + RunCalls(sub, env, env.tests(sub.problem).cases)[..|c.calls| - from]
      else c.calls == old(c.calls) + compile
    ensures Ready(sub, env) && sub.language == "go" ==>
      var n := |old(c.calls)|;
      n < |c.calls| && c.calls[n].stdin == "" && c.calls[n].files == map["main.go" := sub.code]
    ensures Ready(sub, env) ==>
      var from := |old(c.calls)| + (if sub.language == "go" then 1 else 0);
      var files := map[(if sub.language == "go" then "main.go" else "main.py") := sub.code];
      from <= |c.calls| && RunsInOrder(c.calls, c.calls[..from], env.tests(sub.problem).cases, files)
  {
    var early := Prepare(c, sub, env);
    if early.Some? { return early.value.0, early.value.1; }
    r := RunTests(c, sub, env, env.tests(sub.problem).cases);
    err := None;
  }

  // The number of the first test's call, when n calls came before the submission.
  function TestsFrom(sub: SubmissionEvent, n: nat): nat { if sub.language == "go" then n + 1 else n }

  // event is what judging the submission comes to, when n calls came before it.
  ghost predicate Outcome(respond: Responses, n: nat, sub: SubmissionEvent, env: Setup, event: ResultEvent) {
    var compiled := CompileAnswer(respond, n, sub, env);
    if ReachesTests(sub, env, compiled) then
      exists calls :: LoopResult(respond, TestsFrom(sub, n), sub, env, env.tests(sub.problem).cases, event, calls)
    else if Early(sub, env, compiled).1.Some? then
      event == ResultEvent(sub.id, "RE", Early(sub, env, compiled).1.value)
    else
      event == Early(sub, env, compiled).0
  }

  // The event written to the results topic: an error of judge, which there is only in the
  // set-up, becomes an RE result with its text.  AC comes from a problem without tests, or
  // from accepting every test, and in no other way.
  method ProcessSubmission(c: Container, sub: SubmissionEvent, env: Setup) returns (event: ResultEvent)
    modifies c`calls, c`files
    ensures event.id == sub.id && event.status in {"AC", "WA", "TLE", "RE", "CE"} && event.status != PENDING
    ensures Outcome(c.respond, |old(c.calls)|, sub, env, event)
    ensures event.status == "AC" <==>
      || (sub.language in {"go", "python"} && env.tests(sub.problem) == Tests([]))
      || (ReachesTests(sub, env, CompileAnswer(c.respond, |old(c.calls)|, sub, env)) &&
          var tests := env.tests(sub.problem).cases;
          FirstFailure(c.respond, TestsFrom(sub, |old(c.calls)|), sub, env, tests, |tests|))
  {
    ghost var n := |c.calls|;
    var r, err := Judge(c, sub, env);
    if err.Some? {
      event := ResultEvent(sub.id, "RE", err.value);
    } else {
      event := r;
    }
    StatusesDiffer();
    if ReachesTests(sub, env, CompileAnswer(c.respond, n, sub, env)) {
      LoopStatus(c.respond, TestsFrom(sub, n), sub, env, env.tests(sub.problem).cases, r, |c.calls|);
    }
  }

  lemma StatusesDiffer()
    ensures "AC" != "WA" && "AC" != "TLE" && "AC" != "RE" && "AC" != "CE"
    ensures PENDING !in {"AC", "WA", "TLE", "RE", "CE"}
  {
    assert |"AC"| == |"WA"| == |"RE"| == |"CE"| == 2 && |"TLE"| == 3 && |PENDING| == 7;
    assert "AC"[0] == 'A' && "WA"[0] == 'W' && "RE"[0] == 'R' && "CE"[0] == 'C';
  }

  // AC holds exactly when every test is accepted.
  lemma LoopStatus(respond: Responses, from: nat, sub: SubmissionEvent, env: Setup,
                   tests: seq<TestCase>, r: ResultEvent, calls: nat)
    requires LoopResult(respond, from, sub, env, tests, r, calls)
    ensures r.id == sub.id && r.status in {"AC", "WA", "TLE", "RE"}
    ensures r.status == "AC" <==>
        forall i: nat :: i < |tests| ==> Accepts(RunAnswer(respond, from, sub, env, tests, i), tests[i])
    ensures r.status == "AC" <==> FirstFailure(respond, from, sub, env, tests, |tests|)
  {
    var k :| 0 <= k <= |tests| && FirstFailure(respond, from, sub, env, tests, k) &&
      if k == |tests| then r == ResultEvent(sub.id, "AC", "All tests passed") && calls == from + k
      else calls == from + k + 1 && r.id == sub.id &&
           (r.status, r.message) == Classify(RunAnswer(respond, from, sub, env, tests, k), tests[k]);
    if k < |tests| { AcceptsIff(RunAnswer(respond, from, sub, env, tests, k), tests[k]); }
  }

  // ---- the outcome, case by case ----

  // What a set-up that does not get as far as the container comes to.
  lemma OutcomeOfSetup(respond: Responses, n: nat, sub: SubmissionEvent, env: Setup, event: ResultEvent)
    requires Outcome(respond, n, sub, env, event)
    ensures sub.language !in {"go", "python"} ==> event == ResultEvent(sub.id, "RE", "Unsupported language")
    ensures sub.language in {"go", "python"} ==>
      match env.tests(sub.problem)
      case TestsError(error) => event == ResultEvent(sub.id, "RE", error)
      case Tests(cases) =>
        && (cases == [] ==> event == ResultEvent(sub.id, "AC", "No test cases found for this problem."))
        && (cases != [] ==>
            && (env.mkdirError.Some? ==> event == ResultEvent(sub.id, "RE", env.mkdirError.value))
            && (env.mkdirError.None? && env.tempError.Some? ==> event == ResultEvent(sub.id, "RE", env.tempError.value))
            && (env.mkdirError.None? && env.tempError.None? && !env.codeWritten ==>
                event == ResultEvent(sub.id, "RE", "Failed to write code to file")))
  {}

  // The two commands, their input and the code they find.
  lemma CallsAre(sub: SubmissionEvent, env: Setup, tc: TestCase)
    requires sub.language in {"go", "python"}
    ensures sub.language == "go" ==> CompileCall(sub, env) == Call(
      ["judge-runner", "--phase", "compile", "--lang", "go", "--workdir", env.subDir,
       "--outbin", env.subDir + "/app.bin", "--timeout", "120"], "", map["main.go" := sub.code])
    ensures RunCall(sub, env, tc) == Call(
      ["judge-runner", "--phase", "run", "--lang", sub.language, "--workdir", env.subDir,
       "--outbin", env.subDir + "/app.bin", "--timeout", Decimal(env.timeout)],
      tc.input, map[(if sub.language == "go" then "main.go" else "main.py") := sub.code])
  {
    assert Decimal(BUILD_TIMEOUT) == "120";
  }

  // What a failing compilation of Go code comes to.
  lemma OutcomeOfCompilation(respond: Responses, n: nat, sub: SubmissionEvent, env: Setup, event: ResultEvent)
    requires Outcome(respond, n, sub, env, event) && Ready(sub, env) && sub.language == "go"
    ensures match respond(n, CompileCall(sub, env))
      case ExecFailed(error) => event == ResultEvent(sub.id, "CE", "Compilation Error: " + error)
      case Exited(stdout, stderr, code) =>
        var complaint := if Trim(stderr) != "" then Trim(stderr) else Trim(stdout);
        code != 0 ==> event == ResultEvent(sub.id, "CE", "Compilation Error: " + complaint)
  {}

  // Without one: the tests are called in order; the first whose program fails decides.
  lemma OutcomeOfTests(respond: Responses, n: nat, sub: SubmissionEvent, env: Setup, event: ResultEvent)
    returns (k: nat)
    requires Outcome(respond, n, sub, env, event) && Ready(sub, env)
    requires sub.language == "go" ==> var a := respond(n, CompileCall(sub, env)); a.Exited? && a.code == 0
    ensures k <= |env.tests(sub.problem).cases|
    ensures var tests, from := env.tests(sub.problem).cases, if sub.language == "go" then n + 1 else n;
      && (forall i: nat :: i < k ==> Accepts(RunAnswer(respond, from, sub, env, tests, i), tests[i]))
      && if k == |tests| then event == ResultEvent(sub.id, "AC", "All tests passed")
         else var a := RunAnswer(respond, from, sub, env, tests, k);
           !Accepts(a, tests[k]) && event == ResultEvent(sub.id, Classify(a, tests[k]).0, Classify(a, tests[k]).1)
  {
    var tests, from := env.tests(sub.problem).cases, TestsFrom(sub, n);
    var calls :| LoopResult(respond, from, sub, env, tests, event, calls);
    k :| 0 <= k <= |tests| && FirstFailure(respond, from, sub, env, tests, k) &&
      if k == |tests| then event == ResultEvent(sub.id, "AC", "All tests passed") && calls == from + k
      else calls == from + k + 1 && event.id == sub.id &&
           (event.status, event.message) == Classify(RunAnswer(respond, from, sub, env, tests, k), tests[k]);
  }

  // The answers determine the outcome.
  lemma OutcomeIsUnique(respond: Responses, n: nat, sub: SubmissionEvent, env: Setup, a: ResultEvent, b: ResultEvent)
    requires Outcome(respond, n, sub, env, a) && Outcome(respond, n, sub, env, b)
    ensures a == b
  {
    if ReachesTests(sub, env, CompileAnswer(respond, n, sub, env)) {
      var j := OutcomeOfTests(respond, n, sub, env, a);
      var k := OutcomeOfTests(respond, n, sub, env, b);
    }
  }

  lemma {:induction false} FirstFailureFrom(respond: Responses, from: nat, sub: SubmissionEvent, env: Setup,
                                            tests: seq<TestCase>, i: nat) returns (k: nat)
    requires i <= |tests|
    requires forall j :: 0 <= j < i ==> Accepts(RunAnswer(respond, from, sub, env, tests, j), tests[j])
    ensures FirstFailure(respond, from, sub, env, tests, k)
    decreases |tests| - i
  {
    if i == |tests| || !Accepts(RunAnswer(respond, from, sub, env, tests, i), tests[i]) {
      k := i;
    } else {
      k := FirstFailureFrom(respond, from, sub, env, tests, i + 1);
    }
  }

  lemma OutcomeExists(respond: Responses, n: nat, sub: SubmissionEvent, env: Setup) returns (event: ResultEvent)
    ensures Outcome(respond, n, sub, env, event)
  {
    var compiled := CompileAnswer(respond, n, sub, env);
    if ReachesTests(sub, env, compiled) {
      var tests, from := env.tests(sub.problem).cases, TestsFrom(sub, n);
      var k := FirstFailureFrom(respond, from, sub, env, tests, 0);
      if k == |tests| {
        event := ResultEvent(sub.id, "AC", "All tests passed");
        assert LoopResult(respond, from, sub, env, tests, event, from + k);
      } else {
        var (status, message) := Classify(RunAnswer(respond, from, sub, env, tests, k), tests[k]);
        event := ResultEvent(sub.id, status, message);
        assert LoopResult(respond, from, sub, env, tests, event, from + k + 1);
      }
    } else if Early(sub, env, compiled).1.Some? {
      event := ResultEvent(sub.id, "RE", Early(sub, env, compiled).1.value);
    } else {
      event := Early(sub, env, compiled).0;
    }
  }

  // The outcome, as a function of the answers.
  ghost function OutcomeOf(respond: Responses, n: nat, sub: SubmissionEvent, env: Setup): (event: ResultEvent)
    ensures Outcome(respond, n, sub, env, event)
  {
    assert exists event :: Outcome(respond, n, sub, env, event) by {
      var event := OutcomeExists(respond, n, sub, env);
    }
    var event :| Outcome(respond, n, sub, env, event);
    event
  }
}
