/** Line-ending normalisation of the embedded files.  A char stands for a byte. */
module Newlines {

  // bytes.ReplaceAll: leftmost, non-overlapping.
  function ReplaceAll(data: string, old_: string, new_: string): string
    requires old_ != ""
  {
    if |data| < |old_| then data
    else if data[..|old_|] == old_ then new_ + ReplaceAll(data[|old_|..], old_, new_)
    else [data[0]] + ReplaceAll(data[1..], old_, new_)
  }

  // normalizeLineEndings
  function Normalize(data: string): string {
    ReplaceAll(ReplaceAll(data, "\r\n", "\n"), "\r", "\n")
  }

  // The number of bytes of the newline data starts with, if any.
  function NewlineLength(data: string): nat {
    if data == "" then 0
    else if data[0] == '\n' then 1
    else if data[0] != '\r' then 0
    else if |data| > 1 && data[1] == '\n' then 2 else 1
  }

  // One scan that reads CRLF, CR and LF each as one newline.
  function Scan(data: string): string {
    if data == "" then ""
    else if NewlineLength(data) > 0 then "\n" + Scan(data[NewlineLength(data)..])
    else [data[0]] + Scan(data[1..])
  }

  lemma ReplaceSingle(c: char, data: string)
    ensures ReplaceAll([c] + data, "\r", "\n") == (if c == '\r' then "\n" else [c]) + ReplaceAll(data, "\r", "\n")
  {
    assert ([c] + data)[1..] == data;
    assert ([c] + data)[..1] == [c];
  }

  // The two passes are one scan.
  lemma {:induction false} NormalizeIsScan(data: string)
    ensures Normalize(data) == Scan(data)
  {
    if data != "" {
      var crlf := |data| > 1 && data[0] == '\r' && data[1] == '\n';
      var rest := if crlf then data[2..] else data[1..];
      var first := if crlf then '\n' else data[0];
      assert |data| > 1 ==> data[..2] == [data[0], data[1]];
      assert ReplaceAll(data, "\r\n", "\n") == [first] + ReplaceAll(rest, "\r\n", "\n");
      ReplaceSingle(first, ReplaceAll(rest, "\r\n", "\n"));
      NormalizeIsScan(rest);
    }
  }

  lemma {:induction false} ScanClean(data: string)
    ensures '\r' !in Scan(data)
  {
    if data != "" {
      ScanClean(if NewlineLength(data) > 0 then data[NewlineLength(data)..] else data[1..]);
    }
  }

  lemma {:induction false} ScanFixes(data: string)
    requires '\r' !in data
    ensures Scan(data) == data
  {
    if data != "" { ScanFixes(data[1..]); }
  }

  // No CR is left, and a second normalisation changes nothing.
  lemma NormalizeIdempotent(data: string)
    ensures '\r' !in Normalize(data) && Normalize(Normalize(data)) == Normalize(data)
  {
    NormalizeIsScan(data);
    ScanClean(data);
    NormalizeIsScan(Normalize(data));
    ScanFixes(Scan(data));
  }

  // The logical lines.
  function Lines(data: string): (ls: seq<string>)
    ensures ls != []
  {
    if data == "" then [""]
    else if NewlineLength(data) > 0 then [""] + Lines(data[NewlineLength(data)..])
    else var ls := Lines(data[1..]); [[data[0]] + ls[0]] + ls[1..]
  }

  lemma {:induction false} ScanKeepsLines(data: string)
    ensures Lines(Scan(data)) == Lines(data)
  {
    if data != "" {
      if NewlineLength(data) > 0 {
        var rest := data[NewlineLength(data)..];
        ScanKeepsLines(rest);
        assert ("\n" + Scan(rest))[1..] == Scan(rest);
      } else {
        ScanKeepsLines(data[1..]);
        assert ([data[0]] + Scan(data[1..]))[1..] == Scan(data[1..]);
      }
    }
  }

  lemma NormalizeKeepsLines(data: string)
    ensures Lines(Normalize(data)) == Lines(data)
  {
    NormalizeIsScan(data);
    ScanKeepsLines(data);
  }

  // A CRLF cut in two.
  predicate Splits(a: string, b: string) { a != "" && b != "" && a[|a| - 1] == '\r' && b[0] == '\n' }

  lemma ScanConcat(a: string, b: string)
    ensures Scan(a + b) == Scan(a) + Scan(if Splits(a, b) then b[1..] else b)
    decreases a, 1
  {
    if a == "" {
      assert a + b == b;
    } else if a == "\r" && Splits(a, b) {
      assert NewlineLength(a + b) == 2 && (a + b)[2..] == b[1..];
      assert Scan(a[1..]) == "";
      assert Scan(a) == "\n";
    } else {
      ScanConcatStep(a, b, if NewlineLength(a) > 0 then NewlineLength(a) else 1);
    }
  }

  lemma ScanConcatStep(a: string, b: string, n: nat)
    requires a != "" && !(a == "\r" && Splits(a, b)) && n == if NewlineLength(a) > 0 then NewlineLength(a) else 1
    ensures Scan(a + b) == Scan(a) + Scan(if Splits(a, b) then b[1..] else b)
    decreases a, 0
  {
    CutFacts(a, b, n);
    ScanConcat(a[n..], b);
    var c := if NewlineLength(a) > 0 then "\n" else [a[0]];
    assert Scan(a + b) == c + Scan(a[n..] + b);
    assert Scan(a) == c + Scan(a[n..]);
  }

  lemma CutFacts(a: string, b: string, n: nat)
    requires a != "" && !(a == "\r" && Splits(a, b)) && n == if NewlineLength(a) > 0 then NewlineLength(a) else 1
    ensures n <= |a| && NewlineLength(a + b) == NewlineLength(a) && (a + b)[0] == a[0] && (a + b)[n..] == a[n..] + b
    ensures Splits(a[n..], b) <==> Splits(a, b)
  {}

  // Normalisation distributes over concatenation except where the cut splits a CRLF.
  lemma NormalizeConcatIff(a: string, b: string)
    ensures Normalize(a + b) == Normalize(a) + Normalize(b) <==> !Splits(a, b)
  {
    NormalizeIsScan(a); NormalizeIsScan(b); NormalizeIsScan(a + b);
    ScanConcat(a, b);
    if Splits(a, b) { assert Scan(b) == "\n" + Scan(b[1..]); }
  }
}
