/** The scanner over the messages of an image build. */
module BuildLog {
  import opened Text

  // What comes next on the stream: a message, something that does not decode (a message cut
  // short among it), or a closing bracket where a message should start.
  datatype Item = Message(stream: string, error: string) | Garbage | Closer

  // How the stream stops between two items: it ends, or reading fails.
  datatype End = Eof | Cut

  datatype Body = Body(items: seq<Item>, end: End)

  datatype Outcome = Succeeded | ParseError | BuildFailed(error: string, tail: string)

  const LIMIT := 64 * 1024

  predicate Bad(x: Item) { x.Garbage? || (x.Message? && x.error != "") }

  // The decoder's More: false before a closing bracket, at the end, and after a read error.
  predicate More(body: Body, i: nat) {
    i < |body.items| && !body.items[i].Closer?
  }

  // The items before the first closing bracket.
  function Visible(items: seq<Item>): (seen: seq<Item>)
    ensures seen <= items && (forall x :: x in seen ==> !x.Closer?)
    ensures |seen| < |items| ==> items[|seen|].Closer?
  {
    if items == [] || items[0].Closer? then [] else [items[0]] + Visible(items[1..])
  }

  ghost predicate Succeeds(items: seq<Item>) {
    var seen := Visible(items);
    forall k :: 0 <= k < |seen| ==> !Bad(seen[k])
  }

  predicate FirstBad(items: seq<Item>, k: int) {
    0 <= k < |items| && Bad(items[k]) && forall i :: 0 <= i < k ==> !Bad(items[i])
  }

  // What the buffer holds after these messages.
  function Retained(items: seq<Item>): string {
    if items == [] then "" else
    var before := Retained(items[..|items| - 1]);
    var x := items[|items| - 1];
    if x.Message? && |before| < LIMIT then before + x.stream else before
  }

  // The error names item k, and carries its error text and, trimmed, what was retained until then.
  predicate Reports(r: Outcome, items: seq<Item>, k: nat)
    requires k < |items|
  {
    match items[k]
    case Garbage => r.ParseError?
    case Message(_, error) => r.BuildFailed? && r.error == error && r.tail == Trim(Retained(items[..k + 1]))
    case Closer => false
  }

  // Success exactly if nothing before the first closing bracket is bad, however the stream
  // stops; otherwise the first offending item is reported, with the text retained up to it.
  method ParseBuildErrors(body: Body) returns (r: Outcome)
    ensures r.Succeeded? <==> Succeeds(body.items)
    ensures !r.Succeeded? ==> exists k :: FirstBad(Visible(body.items), k) && Reports(r, Visible(body.items), k)
  {
    ghost var seen := Visible(body.items);
    var out, i := "", 0;
    while More(body, i)
      invariant i <= |seen| && out == Retained(seen[..i])
      invariant forall k :: 0 <= k < i ==> !Bad(seen[k])
      decreases |body.items| - i
    {
      assert seen[i] == body.items[i];
      assert seen[..i + 1][..i] == seen[..i];
      if body.items[i].Garbage? {
        assert FirstBad(seen, i);
        return ParseError;
      }
      var Message(stream, error) := body.items[i];
      if stream != "" {
        if |out| < LIMIT { out := out + stream; }
      }
      if error != "" {
        assert FirstBad(seen, i) && out == Retained(seen[..i + 1]);
        return BuildFailed(error, Trim(out));
      }
      i := i + 1;
    }
    r := Succeeded;
  }

  // ---- what a success says about the build ----

  // A build that went well: messages only, none with an error.
  predicate Clean(log: seq<Item>) { forall i :: 0 <= i < |log| ==> log[i].Message? && log[i].error == "" }

  // The client can read this when the daemon's whole log is sent: all of it, or, if reading
  // fails, some first items and perhaps the beginning of the next.
  ghost predicate Carries(body: Body, sent: seq<Item>) {
    match body.end
    case Eof => body.items == sent
    case Cut => body.items <= sent || exists k :: 0 <= k < |sent| && body.items == sent[..k] + [Garbage]
  }

  predicate Complete(body: Body) {
    body.end.Eof? && Closer !in body.items
  }

  lemma VisibleAll(items: seq<Item>)
    ensures Closer !in items <==> Visible(items) == items
  {}

  // A success tells that the build went well, whatever log the daemon sent, exactly if the
  // stream was read to its end and holds no closing bracket.
  lemma CleanIff(body: Body)
    requires Succeeds(body.items)
    ensures (forall sent :: Carries(body, sent) ==> Clean(sent)) <==> Complete(body)
  {
    VisibleAll(body.items);
    if Complete(body) {
      forall sent: seq<Item> | Carries(body, sent) ensures Clean(sent) {
        forall i | 0 <= i < |sent| ensures sent[i].Message? && sent[i].error == "" {
          assert !Bad(Visible(body.items)[i]) && sent[i] in sent;
        }
      }
    } else if body.end.Cut? {
      var failure := Message("", "no space left");
      assert [failure][0] == failure;
      CutHides(body.items, [failure]);
      assert Carries(body, body.items + [failure]);
    } else {
      assert Carries(body, body.items) && !Clean(body.items);
    }
  }

  // Whatever the daemon has still to say when reading fails between two messages is not seen.
  lemma CutHides(before: seq<Item>, after: seq<Item>)
    requires Succeeds(before) && !Clean(after)
    ensures Carries(Body(before, Cut), before + after) && !Clean(before + after)
  {
    var k :| 0 <= k < |after| && !(after[k].Message? && after[k].error == "");
    assert (before + after)[|before| + k] == after[k];
  }

  // Nor is anything behind a closing bracket.
  lemma BracketHides(before: seq<Item>, after: seq<Item>)
    requires Clean(before)
    ensures Succeeds(before + [Closer] + after) && !Clean(before + [Closer] + after)
  {
    var all := before + [Closer] + after;
    assert all[|before|] == Closer;
    VisibleBefore(before, after);
  }

  lemma {:induction false} VisibleBefore(before: seq<Item>, after: seq<Item>)
    requires forall k :: 0 <= k < |before| ==> !before[k].Closer?
    ensures Visible(before + [Closer] + after) == before
  {
    var all := before + [Closer] + after;
    if before != [] {
      assert all[1..] == before[1..] + [Closer] + after;
      VisibleBefore(before[1..], after);
    }
  }

  function Streams(items: seq<Item>): string {
    if items == [] then "" else
    Streams(items[..|items| - 1]) + (if items[|items| - 1].Message? then items[|items| - 1].stream else "")
  }

  // The buffer is the whole text of some first messages: everything, or enough to pass the
  // limit; and it passes it by less than one message.
  lemma {:induction false} RetainedBound(items: seq<Item>, longest: nat) returns (m: nat)
    requires forall x :: x in items && x.Message? ==> |x.stream| <= longest
    ensures m <= |items| && Retained(items) == Streams(items[..m])
    ensures m < |items| ==> 65536 <= |Retained(items)|
    ensures |Retained(items)| <= 65535 + longest
  {
    if items == [] {
      m := 0;
    } else {
      var last := |items| - 1;
      m := RetainedBound(items[..last], longest);
      assert items[..last][..m] == items[..m];
      assert items[last] in items;
      if |Retained(items[..last])| < LIMIT {
        m := |items|;
        assert items[..m] == items;
      }
    }
  }
}
