/** The judge-runner command line: printed by the judge, parsed by the shell script. */
module CommandLine {
  import opened Topics

  datatype Flag = Lang | Workdir | Phase | Outbin | Timeout

  function Name(f: Flag): string {
    match f
    case Lang => "--lang"
    case Workdir => "--workdir"
    case Phase => "--phase"
    case Outbin => "--outbin"
    case Timeout => "--timeout"
  }

  // The shell variables.
  datatype Fields = Fields(lang: string, workdir: string, phase: string, outbin: string, timeout: string)

  const UNSET := Fields("", "", "", "", "")

  function Get(v: Fields, f: Flag): string {
    match f
    case Lang => v.lang
    case Workdir => v.workdir
    case Phase => v.phase
    case Outbin => v.outbin
    case Timeout => v.timeout
  }

  function Set(v: Fields, f: Flag, x: string): (w: Fields)
    ensures forall g :: Get(w, g) == if g == f then x else Get(v, g)
  {
    match f
    case Lang => v.(lang := x)
    case Workdir => v.(workdir := x)
    case Phase => v.(phase := x)
    case Outbin => v.(outbin := x)
    case Timeout => v.(timeout := x)
  }

  datatype Pair = Pair(flag: Flag, value: string)

  function Print(ps: seq<Pair>): seq<string> {
    if ps == [] then [] else [Name(ps[0].flag), ps[0].value] + Print(ps[1..])
  }

  // The argument vector the judge builds, without the program name.
  function JudgeArgs(phase: string, lang: string, workdir: string, outbin: string, timeout: string): seq<string> {
    ["--phase", phase, "--lang", lang, "--workdir", workdir, "--outbin", outbin, "--timeout", timeout]
  }

  datatype Parsed = Variables(v: Fields) | UnknownArg(arg: string) | UnsetParameter

  function FlagOf(arg: string): (f: Option<Flag>)
    ensures f.Some? ==> Name(f.value) == arg
    ensures forall g :: Name(g) == arg ==> f == Some(g)
  {
    if arg == "--lang" then Some(Lang)
    else if arg == "--workdir" then Some(Workdir)
    else if arg == "--phase" then Some(Phase)
    else if arg == "--outbin" then Some(Outbin)
    else if arg == "--timeout" then Some(Timeout)
    else None
  }

  function Parse(args: seq<string>, v: Fields): Parsed {
    if args == [] then Variables(v) else
    match FlagOf(args[0])
    case None => UnknownArg(args[0])
    case Some(f) => if |args| < 2 then UnsetParameter else Parse(args[2..], Set(v, f, args[1]))
  }

  // The script's argument loop.
  method ParseArguments(args: seq<string>) returns (r: Parsed)
    ensures r == Parse(args, UNSET)
  {
    var lang, workdir, phase, outbin, timeout := "", "", "", "", "";
    var rest := args;
    while |rest| > 0
      invariant Parse(rest, Fields(lang, workdir, phase, outbin, timeout)) == Parse(args, UNSET)
    {
      if FlagOf(rest[0]) == None { return UnknownArg(rest[0]); }
      if |rest| < 2 { return UnsetParameter; }
      match rest[0] {
        case "--lang" => lang := rest[1];
        case "--workdir" => workdir := rest[1];
        case "--phase" => phase := rest[1];
        case "--outbin" => outbin := rest[1];
        case _ => timeout := rest[1];
      }
      rest := rest[2..];
    }
    r := Variables(Fields(lang, workdir, phase, outbin, timeout));
  }

  // ---- round trip ----

  // The value the last pair gives to f, or what f was before.
  function Last(ps: seq<Pair>, f: Flag, before: string): string {
    if ps == [] then before
    else if ps[|ps| - 1].flag == f then ps[|ps| - 1].value
    else Last(ps[..|ps| - 1], f, before)
  }

  lemma {:induction false} LastFromFront(ps: seq<Pair>, f: Flag, before: string)
    requires ps != []
    ensures Last(ps, f, before) == Last(ps[1..], f, if ps[0].flag == f then ps[0].value else before)
  {
    if |ps| > 1 {
      assert ps[..|ps| - 1][1..] == ps[1..][..|ps| - 2];
      LastFromFront(ps[..|ps| - 1], f, before);
    }
  }

  // Whatever the values are, flag names included, each variable ends up with the value of
  // the last pair that names it.
  lemma {:induction false} ParsePrinted(ps: seq<Pair>, v: Fields)
    ensures Parse(Print(ps), v).Variables?
    ensures forall f :: Get(Parse(Print(ps), v).v, f) == Last(ps, f, Get(v, f))
  {
    if ps != [] {
      var w := Set(v, ps[0].flag, ps[0].value);
      assert Print(ps)[2..] == Print(ps[1..]);
      ParsePrinted(ps[1..], w);
      forall f ensures Get(Parse(Print(ps), v).v, f) == Last(ps, f, Get(v, f)) {
        LastFromFront(ps, f, Get(v, f));
      }
    }
  }

  lemma {:induction false} LastOfDistinct(ps: seq<Pair>, p: Pair, before: string)
    requires p in ps && forall i, j :: 0 <= i < j < |ps| ==> ps[i].flag != ps[j].flag
    ensures Last(ps, p.flag, before) == p.value
  {
    if ps[|ps| - 1] != p {
      assert p in ps[..|ps| - 1];
      LastOfDistinct(ps[..|ps| - 1], p, before);
    }
  }

  function Pairs(v: Fields): seq<Pair> {
    [Pair(Phase, v.phase), Pair(Lang, v.lang), Pair(Workdir, v.workdir),
     Pair(Outbin, v.outbin), Pair(Timeout, v.timeout)]
  }

  // Printing the five fields in any order and parsing gives them back.
  lemma RoundTrip(v: Fields, ps: seq<Pair>)
    requires multiset(ps) == multiset(Pairs(v))
    ensures Parse(Print(ps), UNSET) == Variables(v)
  {
    ParsePrinted(ps, UNSET);
    var w := Parse(Print(ps), UNSET).v;
    LastOfFields(v, ps, Lang);
    LastOfFields(v, ps, Workdir);
    LastOfFields(v, ps, Phase);
    LastOfFields(v, ps, Outbin);
    LastOfFields(v, ps, Timeout);
    assert Get(w, Lang) == v.lang && Get(w, Workdir) == v.workdir && Get(w, Phase) == v.phase &&
      Get(w, Outbin) == v.outbin && Get(w, Timeout) == v.timeout;
  }

  lemma LastOfFields(v: Fields, ps: seq<Pair>, f: Flag)
    requires multiset(ps) == multiset(Pairs(v))
    ensures Last(ps, f, "") == Get(v, f)
  {
    var p := Pair(f, Get(v, f));
    assert p in Pairs(v);
    assert p in multiset(Pairs(v));
    forall i, j | 0 <= i < j < |ps| ensures ps[i].flag != ps[j].flag { SameFlagSamePlace(v, ps, i, j); }
    LastOfDistinct(ps, p, "");
  }

  lemma CountTwo<T>(s: seq<T>, i: nat, j: nat)
    requires i < j < |s| && s[i] == s[j]
    ensures multiset(s)[s[i]] >= 2
  {
    assert s == s[..j] + s[j..];
    assert s[i] in s[..j] && s[i] in s[j..];
  }

  lemma SameFlagSamePlace(v: Fields, ps: seq<Pair>, i: nat, j: nat)
    requires multiset(ps) == multiset(Pairs(v)) && i < j < |ps|
    ensures ps[i].flag != ps[j].flag
  {
    assert ps[i] in multiset(ps) && ps[j] in multiset(ps);
    assert ps[i] in Pairs(v) && ps[j] in Pairs(v);
    if ps[i] == ps[j] { CountTwo(ps, i, j); }
  }

  // The loop accepts exactly the printed lists of pairs.
  lemma ParsesIff(args: seq<string>, v: Fields)
    ensures Parse(args, v).Variables? <==> exists ps :: args == Print(ps)
  {
    if ps :| args == Print(ps) { ParsePrinted(ps, v); }
    if Parse(args, v).Variables? { var ps := Unprint(args, v); }
  }

  lemma {:induction false} Unprint(args: seq<string>, v: Fields) returns (ps: seq<Pair>)
    requires Parse(args, v).Variables?
    ensures args == Print(ps)
  {
    ps := [];
    if args != [] {
      var f := FlagOf(args[0]).value;
      ps := Unprint(args[2..], Set(v, f, args[1]));
      assert ([Pair(f, args[1])] + ps)[1..] == ps;
      ps := [Pair(f, args[1])] + ps;
    }
  }

  // ---- dispatch ----

  datatype Action =
    | Usage                                     // exit 2 with a usage message
    | NoDirectory                               // cd failed
    | Build(timeout: string, outbin: string)    // go mod tidy, go build
    | RunBinary(timeout: string, outbin: string)
    | RunPython(timeout: string)
    | NothingToDo                               // exit 0
    | UnknownPhase | UnsupportedLanguage        // exit 2

  // The script after its loop.  cd tells which directories can be entered.
  method Runner(args: seq<string>, cd: string -> bool) returns (a: Action)
    ensures a == Usage <==> !WellFormed(args)
    ensures WellFormed(args) ==> Parse(args, UNSET).Variables? && a == Dispatch(Parse(args, UNSET).v, cd)
    ensures WellFormed(args) ==> var v := Parse(args, UNSET).v;
      && (a.NoDirectory? <==> !cd(v.workdir))
      && (a.UnsupportedLanguage? <==> cd(v.workdir) && v.lang !in {"go", "python"})
      && (a.UnknownPhase? <==> cd(v.workdir) && v.lang in {"go", "python"} && v.phase !in {"compile", "run"})
      && (a.NothingToDo? <==> cd(v.workdir) && v.lang == "python" && v.phase == "compile")
  {
    WellFormedIff(args);
    var parsed := ParseArguments(args);
    if !parsed.Variables? { return Usage; }
    var v := parsed.v;
    if v.lang == "" || v.workdir == "" || v.phase == "" || v.timeout == "" { return Usage; }
    if !cd(v.workdir) { return NoDirectory; }
    if v.lang == "go" {
      if v.phase == "compile" { a := Build(v.timeout, v.outbin); }
      else if v.phase == "run" { a := RunBinary(v.timeout, v.outbin); }
      else { a := UnknownPhase; }
    } else if v.lang == "python" {
      if v.phase == "compile" { a := NothingToDo; }
      else if v.phase == "run" { a := RunPython(v.timeout); }
      else { a := UnknownPhase; }
    } else {
      a := UnsupportedLanguage;
    }
  }

  // A list of pairs whose last values for the four required flags are not empty.
  ghost predicate WellFormed(args: seq<string>) {
    exists ps :: args == Print(ps) && Complete(ps)
  }

  predicate Complete(ps: seq<Pair>) {
    Last(ps, Lang, "") != "" && Last(ps, Workdir, "") != "" && Last(ps, Phase, "") != "" && Last(ps, Timeout, "") != ""
  }

  lemma WellFormedIff(args: seq<string>)
    ensures WellFormed(args) <==>
      && Parse(args, UNSET).Variables?
      && var v := Parse(args, UNSET).v; v.lang != "" && v.workdir != "" && v.phase != "" && v.timeout != ""
  {
    ParsesIff(args, UNSET);
    forall ps | args == Print(ps)
      ensures Parse(args, UNSET).Variables? && var v := Parse(args, UNSET).v;
        Complete(ps) <==> v.lang != "" && v.workdir != "" && v.phase != "" && v.timeout != ""
    {
      ParsePrinted(ps, UNSET);
      var v := Parse(args, UNSET).v;
      assert v.lang == Get(v, Lang) && v.workdir == Get(v, Workdir) &&
        v.phase == Get(v, Phase) && v.timeout == Get(v, Timeout);
    }
  }

  function Dispatch(v: Fields, cd: string -> bool): Action {
    if !cd(v.workdir) then NoDirectory else
    match (v.lang, v.phase)
    case ("go", "compile") => Build(v.timeout, v.outbin)
    case ("go", "run") => RunBinary(v.timeout, v.outbin)
    case ("python", "compile") => NothingToDo
    case ("python", "run") => RunPython(v.timeout)
    case ("go", _) => UnknownPhase
    case ("python", _) => UnknownPhase
    case _ => UnsupportedLanguage
  }

  // Every command the judge builds is understood: with a supported language, one of its two
  // phases and the fields it fills in, the script runs that language's action on them.
  lemma JudgeCommands(phase: string, lang: string, workdir: string, outbin: string, timeout: string, cd: string -> bool)
    requires phase in {"compile", "run"} && lang in {"go", "python"} && workdir != "" && timeout != "" && cd(workdir)
    ensures var args := JudgeArgs(phase, lang, workdir, outbin, timeout);
      && WellFormed(args) && Parse(args, UNSET).Variables?
      && Dispatch(Parse(args, UNSET).v, cd) ==
        (if phase == "run" then (if lang == "go" then RunBinary(timeout, outbin) else RunPython(timeout))
         else if lang == "go" then Build(timeout, outbin) else NothingToDo)
  {
    var v := Fields(lang, workdir, phase, outbin, timeout);
    JudgeArgsPrinted(v);
    RoundTrip(v, Pairs(v));
    WellFormedIff(Print(Pairs(v)));
  }

  lemma JudgeArgsPrinted(v: Fields)
    ensures JudgeArgs(v.phase, v.lang, v.workdir, v.outbin, v.timeout) == Print(Pairs(v))
  {
    var ps := Pairs(v);
    assert ps[1..][1..][1..][1..] == [ps[4]];
    assert Print([ps[4]]) == ["--timeout", v.timeout];
    assert ps[1..][1..][1..] == [ps[3], ps[4]];
    assert Print(ps[1..][1..][1..]) == ["--outbin", v.outbin, "--timeout", v.timeout];
    assert ps[1..][1..] == [ps[2], ps[3], ps[4]];
    assert Print(ps[1..][1..]) == ["--workdir", v.workdir, "--outbin", v.outbin, "--timeout", v.timeout];
  }
}
