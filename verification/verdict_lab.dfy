/** Judging when the test list is fixed and every program answers the same input the same way. */
module VerdictLab {
  import opened Topics
  import opened Text
  import opened CommandLine
  import opened Verdict

  datatype Lab = Lab(
    tests: string -> seq<TestCase>,               // by problem
    compile: string -> Answer,                    // by code
    run: (string, string, string) -> Answer)      // by language, code and input

  function TestsVerdict(lab: Lab, sub: SubmissionEvent, tests: seq<TestCase>): string {
    if tests == [] then "AC" else
    var a := lab.run(sub.language, sub.code, tests[0].input);
    if Accepts(a, tests[0]) then TestsVerdict(lab, sub, tests[1..]) else Classify(a, tests[0]).0
  }

  // The verdict on a submission: a function of its own problem, language and code.
  function VerdictOf(lab: Lab, sub: SubmissionEvent): string {
    if sub.language !in {"go", "python"} then "RE"
    else if lab.tests(sub.problem) == [] then "AC"
    else if sub.language == "go" && !(lab.compile(sub.code).Exited? && lab.compile(sub.code).code == 0) then "CE"
    else TestsVerdict(lab, sub, lab.tests(sub.problem))
  }

  // The environment delivers the lab's tests, and whichever call it is, and whatever the other
  // arguments are, compiling depends on the code in the directory, and running on the code there
  // and the standard input.
  ghost predicate Faithful(c: Container, sub: SubmissionEvent, env: Setup, lab: Lab) {
    && (forall problem :: env.tests(problem) == Tests(lab.tests(problem)))
    && env.mkdirError.None? && env.tempError.None? && env.codeWritten
    && (forall n: nat, args: seq<string> ::
          c.respond(n, Call(["judge-runner", "--phase", "compile"] + args, "", map["main.go" := sub.code]))
          == lab.compile(sub.code))
    && (forall n: nat, args: seq<string>, input: string ::
          c.respond(n, Call(["judge-runner", "--phase", "run"] + args, input, WrittenTo(sub.language, sub.code)))
          == lab.run(sub.language, sub.code, input))
  }

  function WrittenTo(language: string, code: string): map<string, string> {
    if language == "go" then map["main.go" := code] else map["main.py" := code]
  }

  lemma AnswersOfLab(c: Container, sub: SubmissionEvent, env: Setup, lab: Lab, n: nat, tc: TestCase)
    requires Faithful(c, sub, env, lab)
    ensures sub.language == "go" ==> CompileAnswer(c.respond, n, sub, env) == lab.compile(sub.code)
    ensures c.respond(n, RunCall(sub, env, tc)) == lab.run(sub.language, sub.code, tc.input)
  {
    var compile, run := CompileCall(sub, env), RunCall(sub, env, tc);
    assert compile.argv == ["judge-runner", "--phase", "compile"] + compile.argv[3..];
    assert run.argv == ["judge-runner", "--phase", "run"] + run.argv[3..];
    assert run == Call(["judge-runner", "--phase", "run"] + run.argv[3..], tc.input, WrittenTo(sub.language, sub.code));
  }

  lemma {:induction false} TestsVerdictAt(lab: Lab, sub: SubmissionEvent, tests: seq<TestCase>, k: nat)
    requires k <= |tests|
    requires forall i :: 0 <= i < k ==> Accepts(lab.run(sub.language, sub.code, tests[i].input), tests[i])
    requires k < |tests| ==> !Accepts(lab.run(sub.language, sub.code, tests[k].input), tests[k])
    ensures TestsVerdict(lab, sub, tests) ==
      if k == |tests| then "AC" else Classify(lab.run(sub.language, sub.code, tests[k].input), tests[k]).0
  {
    if k > 0 {
      TestsVerdictAt(lab, sub, tests[1..], k - 1);
    }
  }

  lemma LoopResultIsVerdict(c: Container, from: nat, sub: SubmissionEvent, env: Setup, lab: Lab,
                            r: ResultEvent, calls: nat)
    requires Faithful(c, sub, env, lab) && LoopResult(c.respond, from, sub, env, env.tests(sub.problem).cases, r, calls)
    ensures r.status == TestsVerdict(lab, sub, env.tests(sub.problem).cases)
  {
    var tests := env.tests(sub.problem).cases;
    var k :| 0 <= k <= |tests| && FirstFailure(c.respond, from, sub, env, tests, k) &&
      if k == |tests| then r == ResultEvent(sub.id, "AC", "All tests passed") && calls == from + k
      else calls == from + k + 1 && r.id == sub.id &&
           (r.status, r.message) == Classify(RunAnswer(c.respond, from, sub, env, tests, k), tests[k]);
    forall i: nat | i < |tests|
      ensures RunAnswer(c.respond, from, sub, env, tests, i) == lab.run(sub.language, sub.code, tests[i].input) {
      AnswersOfLab(c, sub, env, lab, from + i, tests[i]);
    }
    TestsVerdictAt(lab, sub, tests, k);
  }

  // Whenever and wherever a submission is judged, the event written carries its verdict.
  method JudgeInLab(c: Container, sub: SubmissionEvent, env: Setup, ghost lab: Lab) returns (event: ResultEvent)
    requires Faithful(c, sub, env, lab)
    modifies c`calls, c`files
    ensures event.id == sub.id && event.status == VerdictOf(lab, sub)
  {
    ghost var n := |c.calls|;
    event := ProcessSubmission(c, sub, env);
    AnswersOfLab(c, sub, env, lab, n, TestCase("", ""));
    if ReachesTests(sub, env, CompileAnswer(c.respond, n, sub, env)) {
      var calls :| LoopResult(c.respond, TestsFrom(sub, n), sub, env, env.tests(sub.problem).cases, event, calls);
      LoopResultIsVerdict(c, TestsFrom(sub, n), sub, env, lab, event, calls);
    }
  }

  lemma {:induction false} AcceptedIff(lab: Lab, sub: SubmissionEvent, tests: seq<TestCase>)
    ensures TestsVerdict(lab, sub, tests) == "AC" <==>
      forall tc :: tc in tests ==> Accepts(lab.run(sub.language, sub.code, tc.input), tc)
  {
    if tests != [] {
      AcceptsIff(lab.run(sub.language, sub.code, tests[0].input), tests[0]);
      AcceptedIff(lab, sub, tests[1..]);
      assert tests == [tests[0]] + tests[1..];
    }
  }

  // The query for the tests has no ORDER BY; whether a submission is accepted does not depend
  // on the order it returns.
  lemma AcceptanceIgnoresOrder(lab: Lab, sub: SubmissionEvent, a: seq<TestCase>, b: seq<TestCase>)
    requires multiset(a) == multiset(b)
    ensures TestsVerdict(lab, sub, a) == "AC" <==> TestsVerdict(lab, sub, b) == "AC"
  {
    AcceptedIff(lab, sub, a);
    AcceptedIff(lab, sub, b);
    forall tc ensures tc in a <==> tc in b {
      assert tc in a <==> tc in multiset(a);
      assert tc in b <==> tc in multiset(b);
    }
  }

  lemma VerdictIsOneOf(lab: Lab, sub: SubmissionEvent)
    ensures VerdictOf(lab, sub) in {"AC", "WA", "TLE", "RE", "CE"}
    ensures VerdictOf(lab, sub) != PENDING
  {
    StatusesDiffer();
    TestsVerdictIsOneOf(lab, sub, lab.tests(sub.problem));
  }

  lemma {:induction false} TestsVerdictIsOneOf(lab: Lab, sub: SubmissionEvent, tests: seq<TestCase>)
    ensures TestsVerdict(lab, sub, tests) in {"AC", "WA", "TLE", "RE"}
  {
    if tests != [] {
      AcceptsIff(lab.run(sub.language, sub.code, tests[0].input), tests[0]);
      TestsVerdictIsOneOf(lab, sub, tests[1..]);
    }
  }

  // The script understands every command Judge executes.
  lemma CallsAreUnderstood(sub: SubmissionEvent, env: Setup, tc: TestCase, cd: string -> bool)
    requires sub.language in {"go", "python"} && env.subDir != "" && cd(env.subDir)
    ensures sub.language == "go" ==> Understood(CompileCall(sub, env), cd, Build("120", env.subDir + "/app.bin"))
    ensures Understood(RunCall(sub, env, tc), cd,
              if sub.language == "go" then RunBinary(Decimal(env.timeout), env.subDir + "/app.bin")
              else RunPython(Decimal(env.timeout)))
  {
    var bin := BinPath(env.subDir);
    assert Decimal(BUILD_TIMEOUT) == "120";
    JudgeCommands("compile", sub.language, env.subDir, bin, "120", cd);
    JudgeCommands("run", sub.language, env.subDir, bin, Decimal(env.timeout), cd);
    assert CompileCall(sub, env).argv[1..] == JudgeArgs("compile", sub.language, env.subDir, bin, "120");
    assert RunCall(sub, env, tc).argv[1..] == JudgeArgs("run", sub.language, env.subDir, bin, Decimal(env.timeout));
  }

  ghost predicate Understood(call: Call, cd: string -> bool, action: Action) {
    && |call.argv| > 0 && WellFormed(call.argv[1..]) && Parse(call.argv[1..], UNSET).Variables?
    && Dispatch(Parse(call.argv[1..], UNSET).v, cd) == action
  }
}
