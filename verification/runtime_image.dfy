/** Reuse of the judge's runtime image by a signature over its sources. */
module RuntimeImage {
  import opened Topics
  import opened Newlines
  import opened BuildLog

  const RUNTIME_LABEL_KEY := "code-checker.runtime.sha256"

  // SHA-256 in hexadecimal, taken to be injective and to print no newline.
  ghost predicate Hash(sha: string -> string) {
    && (forall x, y :: sha(x) == sha(y) ==> x == y)
    && (forall x :: '\n' !in sha(x))
  }

  function Signature(sha: string -> string, dockerfile: string, runner: string): string {
    sha(dockerfile + "\0" + runner)
  }

  // With no NUL in the Dockerfiles, equal signatures mean equal sources.
  lemma SignatureIff(sha: string -> string, d1: string, r1: string, d2: string, r2: string)
    requires Hash(sha) && '\0' !in d1 && '\0' !in d2
    ensures Signature(sha, d1, r1) == Signature(sha, d2, r2) <==> d1 == d2 && r1 == r2
  {
    var x, y := d1 + "\0" + r1, d2 + "\0" + r2;
    if x == y {
      assert x[|d1|] == '\0' && y[|d2|] == '\0';
      assert forall i :: 0 <= i < |d1| ==> x[i] == d1[i] != '\0';
      assert forall i :: 0 <= i < |d2| ==> y[i] == d2[i] != '\0';
      assert |d1| == |d2|;
      assert d1 == x[..|d1|] && d2 == y[..|d2|];
      assert r1 == x[|d1| + 1..] && r2 == y[|d2| + 1..];
    }
  }

  // The separator alone does not suffice: a NUL in a Dockerfile can make two sources collide.
  lemma NulCollides(sha: string -> string)
    ensures Signature(sha, "", "\0") == Signature(sha, "\0", "")
  {
    assert "" + "\0" + "\0" == "\0" + "\0" + "";
  }

  // ---- how the daemon reads a Dockerfile ----

  // The text before and after the first c: all of it and nothing if there is none.
  function Before(s: string, c: char): string {
    if s == "" || s[0] == c then "" else [s[0]] + Before(s[1..], c)
  }

  function After(s: string, c: char): string {
    if s == "" then "" else if s[0] == c then s[1..] else After(s[1..], c)
  }

  lemma {:induction false} SplitsAtFirst(a: string, c: char, b: string)
    requires c !in a
    ensures Before(a + [c] + b, c) == a && After(a + [c] + b, c) == b
  {
    var s := a + [c] + b;
    if a == "" {
      assert s[1..] == b;
    } else {
      assert s[1..] == a[1..] + [c] + b;
      SplitsAtFirst(a[1..], c, b);
    }
  }

  // The key and the value of a line that is a LABEL instruction.
  function LabelOf(line: string): Option<(string, string)> {
    var rest := After(line, ' ');
    if Before(line, ' ') == "LABEL" && '=' in rest then Some((Before(rest, '='), After(rest, '='))) else None
  }

  // The text after the last newline.
  function Tail(text: string): (line: string)
    ensures |line| <= |text| && (text != "" && text[|text| - 1] != '\n' ==> line != "")
  {
    if text == "" || text[|text| - 1] == '\n' then "" else Tail(text[..|text| - 1]) + [text[|text| - 1]]
  }

  // The labels the lines of a Dockerfile give to the image; a later one replaces an earlier.
  function Labels(text: string): map<string, string>
    decreases |text|
  {
    if text == "" then map[] else
    var body := if text[|text| - 1] == '\n' then text[..|text| - 1] else text;
    var line := Tail(body);
    var earlier := Labels(body[..|body| - |line|]);
    match LabelOf(line)
    case Some((key, value)) => earlier[key := value]
    case None => earlier
  }

  // ---- the label this code adds ----

  function Terminated(dockerfile: string): string {
    if |dockerfile| > 0 && dockerfile[|dockerfile| - 1] != '\n' then dockerfile + "\n" else dockerfile
  }

  function Labelled(dockerfile: string, key: string, value: string): string {
    Terminated(dockerfile) + "LABEL " + key + "=" + value + "\n"
  }

  function WithLabel(dockerfile: string, signature: string): string {
    Labelled(dockerfile, RUNTIME_LABEL_KEY, signature)
  }

  lemma {:induction false} TailOfLine(text: string, line: string)
    requires '\n' !in line && (text == "" || text[|text| - 1] == '\n')
    ensures Tail(text + line) == line
  {
    if line == "" {
      assert text + line == text;
    } else {
      assert (text + line)[..|text + line| - 1] == text + line[..|line| - 1];
      TailOfLine(text, line[..|line| - 1]);
    }
  }

  lemma LabelsOfTerminated(dockerfile: string)
    ensures Labels(Terminated(dockerfile)) == Labels(dockerfile)
  {
    var d := dockerfile + "\n";
    assert d[..|d| - 1] == dockerfile;
  }

  lemma LabelsWithLine(text: string, line: string, key: string, value: string)
    requires '\n' !in line && (text == "" || text[|text| - 1] == '\n') && LabelOf(line) == Some((key, value))
    ensures Labels(text + line + "\n") == Labels(text)[key := value]
  {
    var all := text + line + "\n";
    assert all[..|all| - 1] == text + line && (text + line)[..|text|] == text;
    TailOfLine(text, line);
  }

  lemma LineIsLabel(key: string, signature: string)
    requires '=' !in key
    ensures LabelOf("LABEL " + key + "=" + signature) == Some((key, signature))
  {
    var rest := key + ['='] + signature;
    assert "LABEL " + key + "=" + signature == "LABEL" + [' '] + rest;
    SplitsAtFirst("LABEL", ' ', rest);
    SplitsAtFirst(key, '=', signature);
    assert rest[|key|] == '=';
  }

  lemma KeyReadsBack(dockerfile: string, key: string, signature: string)
    requires '\n' !in key && '=' !in key && '\n' !in signature
    ensures Labels(Labelled(dockerfile, key, signature)) == Labels(dockerfile)[key := signature]
  {
    var line := "LABEL " + key + "=" + signature;
    LineIsLabel(key, signature);
    LabelsWithLine(Terminated(dockerfile), line, key, signature);
    LabelsOfTerminated(dockerfile);
    LabelledIsLine(Terminated(dockerfile), key, signature);
  }

  lemma LabelledIsLine(text: string, key: string, value: string)
    ensures text + "LABEL " + key + "=" + value + "\n" == text + ("LABEL " + key + "=" + value) + "\n"
  {}

  lemma KeyIsPlain()
    ensures '\n' !in RUNTIME_LABEL_KEY && '=' !in RUNTIME_LABEL_KEY
  {}

  // The daemon reads the added line as the label with the key and the signature; all other
  // labels are those of the file, which is unchanged in front.
  lemma LabelReadsBack(dockerfile: string, signature: string)
    requires '\n' !in signature
    ensures Labels(WithLabel(dockerfile, signature)) == Labels(dockerfile)[RUNTIME_LABEL_KEY := signature]
    ensures dockerfile <= WithLabel(dockerfile, signature)
  {
    KeyIsPlain();
    KeyReadsBack(dockerfile, RUNTIME_LABEL_KEY, signature);
  }

  // The line itself.
  lemma LabelLine(dockerfile: string, signature: string)
    ensures WithLabel(dockerfile, signature) ==
      (if dockerfile == "" || dockerfile[|dockerfile| - 1] == '\n' then dockerfile else dockerfile + "\n")
      + "LABEL " + "code-checker.runtime.sha256" + "=" + signature + "\n"
  {
    assert RUNTIME_LABEL_KEY == "code-checker.runtime.sha256";
  }

  method AppendRuntimeLabel(dockerfile: string, signature: string) returns (out: string)
    ensures out == WithLabel(dockerfile, signature) && dockerfile <= out
    ensures out == (if dockerfile == "" || dockerfile[|dockerfile| - 1] == '\n' then dockerfile else dockerfile + "\n")
                   + "LABEL " + "code-checker.runtime.sha256" + "=" + signature + "\n"
    ensures '\n' !in signature ==> Labels(out) == Labels(dockerfile)[RUNTIME_LABEL_KEY := signature]
  {
    out := dockerfile;
    if |out| > 0 && out[|out| - 1] != '\n' {
      out := out + "\n";
    }
    out := out + "LABEL " + RUNTIME_LABEL_KEY + "=" + signature + "\n";
    LabelLine(dockerfile, signature);
    if '\n' !in signature { LabelReadsBack(dockerfile, signature); }
  }

  // An image: its labels, and the files it was built from.
  datatype Image = Image(labels: map<string, string>, dockerfile: string, runner: string)

  // The image this code builds from normalised sources.
  function ImageOf(sha: string -> string, dockerfile: string, runner: string): Image {
    var labelled := WithLabel(dockerfile, Signature(sha, dockerfile, runner));
    Image(Labels(labelled), labelled, runner)
  }

  predicate Bears(image: Image, signature: string) {
    RUNTIME_LABEL_KEY in image.labels && image.labels[RUNTIME_LABEL_KEY] == signature
  }

  // The label is on the image only because this code put it there.
  ghost predicate Honest(image: Image, sha: string -> string) {
    RUNTIME_LABEL_KEY in image.labels ==> exists d, r :: '\0' !in d && image == ImageOf(sha, d, r)
  }

  // The container runtime.
  class Docker {
    var images: map<string, Image>
    var builds: nat

    constructor ()
      ensures images == map[] && builds == 0
    {
      images, builds := map[], 0;
    }

    // A build request.  Whether the daemon gets as far as tagging the image is its affair.
    method ImageBuild(name: string, dockerfile: string, runner: string, tagged: bool)
      modifies this
      ensures builds == old(builds) + 1
      ensures images == if tagged
        then old(images)[name := Image(Labels(dockerfile), dockerfile, runner)] else old(images)
    {
      builds := builds + 1;
      if tagged { images := images[name := Image(Labels(dockerfile), dockerfile, runner)]; }
    }
  }

  // What the environment answers: a failing inspection, a failing step before the request, a
  // request that returns an error, what is read of the log, and whether the image was tagged.
  datatype Replies = Replies(inspectFails: bool, localFails: bool, requestFails: bool, body: Body, tagged: bool)

  // The daemon tags an image exactly if its whole log, of which the client read some, is clean.
  ghost predicate Faithful(env: Replies) {
    exists sent :: Carries(env.body, sent) && (env.tagged <==> Clean(sent))
  }

  predicate InPlace(images: map<string, Image>, name: string, image: Image) {
    name in images && images[name] == image
  }

  // The image to be reused carries this label.
  predicate Reusable(images: map<string, Image>, name: string, signature: string) {
    name in images && Bears(images[name], signature)
  }

  ghost predicate HonestAt(images: map<string, Image>, name: string, sha: string -> string) {
    name in images ==> Honest(images[name], sha)
  }

  // A label with the signature of given sources is only on the image built from them.
  lemma LabelIdentifies(image: Image, sha: string -> string, dockerfile: string, runner: string)
    requires Hash(sha) && '\0' !in dockerfile && Honest(image, sha)
    ensures Bears(image, Signature(sha, dockerfile, runner)) <==> image == ImageOf(sha, dockerfile, runner)
  {
    BearsOwn(sha, dockerfile, runner);
    if Bears(image, Signature(sha, dockerfile, runner)) {
      var d, r :| '\0' !in d && image == ImageOf(sha, d, r);
      BearsOwn(sha, d, r);
      SignatureIff(sha, d, r, dockerfile, runner);
    }
  }

  lemma BearsOwn(sha: string -> string, dockerfile: string, runner: string)
    requires Hash(sha)
    ensures forall signature :: Bears(ImageOf(sha, dockerfile, runner), signature) <==>
              signature == Signature(sha, dockerfile, runner)
  {
    LabelReadsBack(dockerfile, Signature(sha, dockerfile, runner));
  }

  // A clean log read to its end means that the image was tagged.
  lemma CompleteIsTagged(env: Replies)
    requires Faithful(env) && Complete(env.body) && Succeeds(env.body.items)
    ensures env.tagged
  {
    CleanIff(env.body);
  }

  lemma SameImage(sha: string -> string, d1: string, r1: string, d2: string, r2: string)
    requires Hash(sha) && '\0' !in d1 && '\0' !in d2
    ensures ImageOf(sha, d1, r1) == ImageOf(sha, d2, r2) <==> d1 == d2 && r1 == r2
  {
    BearsOwn(sha, d1, r1);
    BearsOwn(sha, d2, r2);
    SignatureIff(sha, d1, r1, d2, r2);
    assert Bears(ImageOf(sha, d1, r1), Signature(sha, d1, r1));
  }

  ghost function Left(before: map<string, Image>, name: string, image: Image, built: bool): map<string, Image> {
    if built then before[name := image] else before
  }

  // What a start leaves in place.
  lemma LeftInPlace(before: map<string, Image>, name: string, sha: string -> string, d: string, r: string, built: bool)
    requires Hash(sha) && '\0' !in d && HonestAt(before, name, sha)
    ensures var after := Left(before, name, ImageOf(sha, d, r), built);
      && HonestAt(after, name, sha)
      && (InPlace(after, name, ImageOf(sha, d, r)) <==> Reusable(before, name, Signature(sha, d, r)) || built)
  {
    if name in before { LabelIdentifies(before[name], sha, d, r); }
  }

  // Whether another start can reuse it.
  lemma LeftReusable(before: map<string, Image>, name: string, sha: string -> string,
                     d1: string, r1: string, built: bool, d2: string, r2: string)
    requires Hash(sha) && '\0' !in d1 && '\0' !in d2 && HonestAt(before, name, sha)
    ensures Reusable(Left(before, name, ImageOf(sha, d1, r1), built), name, Signature(sha, d2, r2)) <==>
      if built then d1 == d2 && r1 == r2 else InPlace(before, name, ImageOf(sha, d2, r2))
  {
    if built {
      BearsOwn(sha, d1, r1);
      SignatureIff(sha, d1, r1, d2, r2);
    } else if name in before {
      LabelIdentifies(before[name], sha, d2, r2);
    }
  }

  // Requests at most one build: none if the label is there already, one if it is not and the
  // environment lets it.  After a success the image in place was built from exactly these
  // sources, up to line endings, if the label was there or the daemon tagged what it built;
  // and a log read to its end tells that it did.
  method EnsureRuntimeImage(docker: Docker, name: string, dockerfile: string, runner: string,
                            sha: string -> string, env: Replies)
    returns (ok: bool)
    requires Hash(sha)
    modifies docker
    ensures var d, r := Normalize(dockerfile), Normalize(runner);
      var reusable := Reusable(old(docker.images), name, Signature(sha, d, r));
      var asked := !env.inspectFails && !reusable && !env.localFails;
      && (ok <==> !env.inspectFails && (reusable || (!env.localFails && !env.requestFails && Succeeds(env.body.items))))
      && docker.builds == old(docker.builds) + (if asked then 1 else 0)
      && docker.images == Left(old(docker.images), name, ImageOf(sha, d, r), asked && env.tagged)
      && ('\0' !in d && HonestAt(old(docker.images), name, sha) ==>
            && HonestAt(docker.images, name, sha)
            && (ok ==> (InPlace(docker.images, name, ImageOf(sha, d, r)) <==> reusable || env.tagged))
            && (ok && Faithful(env) && Complete(env.body) ==> InPlace(docker.images, name, ImageOf(sha, d, r))))
  {
    var dockerfileData, runnerData := Normalize(dockerfile), Normalize(runner);
    var signature := Signature(sha, dockerfileData, runnerData);
    if '\0' !in dockerfileData && HonestAt(docker.images, name, sha) {
      LeftInPlace(docker.images, name, sha, dockerfileData, runnerData, false);
      LeftInPlace(docker.images, name, sha, dockerfileData, runnerData, true);
    }
    if env.inspectFails { return false; }
    if name in docker.images && RUNTIME_LABEL_KEY in docker.images[name].labels {
      if docker.images[name].labels[RUNTIME_LABEL_KEY] == signature { return true; }
    }
    if env.localFails { return false; }
    var labelled := AppendRuntimeLabel(dockerfileData, signature);
    docker.ImageBuild(name, labelled, runnerData, env.tagged);
    if env.requestFails { return false; }
    var outcome := ParseBuildErrors(env.body);
    if outcome.Succeeded? && Faithful(env) && Complete(env.body) { CompleteIsTagged(env); }
    ok := outcome.Succeeded?;
  }

  // A success with nothing built: the connection breaks between two messages, the daemon's
  // build fails unseen, and an older image stays in use.
  method StaleImageStays(docker: Docker, name: string, dockerfile: string, runner: string, sha: string -> string,
                         before: seq<Item>, error: string)
    returns (ok: bool)
    requires Hash(sha) && Clean(before) && error != ""
    requires name in docker.images &&
      !Reusable(docker.images, name, Signature(sha, Normalize(dockerfile), Normalize(runner)))
    modifies docker
    ensures ok && docker.images == old(docker.images)
    ensures Faithful(Replies(false, false, false, Body(before, Cut), false))
  {
    var failure := Message("", error);
    CutHides(before, [failure]) by {
      assert [failure][0] == failure;
    }
    var env := Replies(false, false, false, Body(before, Cut), false);
    ok := EnsureRuntimeImage(docker, name, dockerfile, runner, sha, env);
  }

  // Unless it fails before its request, the next start builds nothing exactly if its normalised
  // sources are those of the image that the first one left in place: its own sources if it
  // tagged an image, which it did if it succeeded on a log read to its end, and else those of
  // the image that was there before.
  method EnsureAgain(docker: Docker, name: string, d1: string, r1: string, d2: string, r2: string,
                     sha: string -> string, env1: Replies, env2: Replies)
    returns (first: bool, between: nat, second: bool)
    requires Hash(sha) && '\0' !in Normalize(d1) && '\0' !in Normalize(d2)
    requires HonestAt(docker.images, name, sha)
    modifies docker
    ensures old(docker.builds) <= between <= old(docker.builds) + 1 && between <= docker.builds <= between + 1
    ensures var same := Normalize(d1) == Normalize(d2) && Normalize(r1) == Normalize(r2);
      var failsEarly := env2.inspectFails || env2.localFails;
      && (between > old(docker.builds) && env1.tagged ==> (docker.builds == between <==> failsEarly || same))
      && (between == old(docker.builds) || !env1.tagged ==>
            (docker.builds == between <==>
              failsEarly || InPlace(old(docker.images), name, ImageOf(sha, Normalize(d2), Normalize(r2)))))
      && (first && Faithful(env1) && Complete(env1.body) ==> (docker.builds == between <==> failsEarly || same))
      && (docker.builds == between && !failsEarly ==> second)
  {
    ghost var before := docker.images;
    first := EnsureRuntimeImage(docker, name, d1, r1, sha, env1);
    between := docker.builds;
    ghost var built := between > old(docker.builds) && env1.tagged;
    LeftReusable(before, name, sha, Normalize(d1), Normalize(r1), built, Normalize(d2), Normalize(r2));
    LeftInPlace(before, name, sha, Normalize(d1), Normalize(r1), built);
    SameImage(sha, Normalize(d1), Normalize(r1), Normalize(d2), Normalize(r2));
    second := EnsureRuntimeImage(docker, name, d2, r2, sha, env2);
  }
}
