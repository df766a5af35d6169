/** Strings as the services compare and print them. */
module Text {

  // unicode.IsSpace
  predicate IsSpace(c: char) {
    || '\t' <= c <= '\r' || c == ' ' || c == '\U{0085}' || c == '\U{00A0}' || c == '\U{1680}'
    || '\U{2000}' <= c <= '\U{200A}' || c == '\U{2028}' || c == '\U{2029}'
    || c == '\U{202F}' || c == '\U{205F}' || c == '\U{3000}'
  }

  ghost predicate AllSpace(s: string) { forall i :: 0 <= i < |s| ==> IsSpace(s[i]) }

  // Neither empty at a side nor padded at one.
  ghost predicate Tight(s: string) { s == "" || (!IsSpace(s[0]) && !IsSpace(s[|s| - 1])) }

  function TrimLeft(s: string): string {
    if s != "" && IsSpace(s[0]) then TrimLeft(s[1..]) else s
  }

  function TrimRight(s: string): string {
    if s != "" && IsSpace(s[|s| - 1]) then TrimRight(s[..|s| - 1]) else s
  }

  // strings.TrimSpace
  function Trim(s: string): string { TrimRight(TrimLeft(s)) }

  lemma {:induction false} TrimLeftDrops(l: string, s: string)
    requires AllSpace(l) && (s == "" || !IsSpace(s[0]))
    ensures TrimLeft(l + s) == s
  {
    if l == "" {
      assert l + s == s;
    } else {
      assert (l + s)[1..] == l[1..] + s;
      TrimLeftDrops(l[1..], s);
    }
  }

  lemma {:induction false} TrimRightDrops(s: string, r: string)
    requires AllSpace(r) && (s == "" || !IsSpace(s[|s| - 1]))
    ensures TrimRight(s + r) == s
  {
    if r == "" {
      assert s + r == s;
    } else {
      assert (s + r)[..|s + r| - 1] == s + r[..|r| - 1];
      TrimRightDrops(s, r[..|r| - 1]);
    }
  }

  // Trim(s) is the only tight string that s pads with space.
  lemma TrimIsTheCore(l: string, t: string, r: string)
    requires AllSpace(l) && AllSpace(r) && Tight(t)
    ensures Trim(l + t + r) == t
  {
    if t == "" {
      assert l + t + r == (l + r) + "";
      TrimLeftDrops(l + r, "");
    } else {
      assert l + t + r == l + (t + r);
      TrimLeftDrops(l, t + r);
      TrimRightDrops(t, r);
    }
  }

  lemma {:induction false} TrimLeftSplits(s: string) returns (l: string)
    ensures AllSpace(l) && s == l + TrimLeft(s)
    ensures TrimLeft(s) == "" || !IsSpace(TrimLeft(s)[0])
  {
    if s != "" && IsSpace(s[0]) {
      var rest := TrimLeftSplits(s[1..]);
      l := [s[0]] + rest;
      assert s == [s[0]] + s[1..];
    } else {
      l := "";
    }
  }

  lemma {:induction false} TrimRightSplits(s: string) returns (r: string)
    ensures AllSpace(r) && s == TrimRight(s) + r
    ensures TrimRight(s) == "" || !IsSpace(TrimRight(s)[|TrimRight(s)| - 1])
  {
    if s != "" && IsSpace(s[|s| - 1]) {
      var rest := TrimRightSplits(s[..|s| - 1]);
      r := rest + [s[|s| - 1]];
      assert s == s[..|s| - 1] + [s[|s| - 1]];
    } else {
      r := "";
    }
  }

  lemma TrimPads(s: string) returns (l: string, r: string)
    ensures AllSpace(l) && AllSpace(r) && s == l + Trim(s) + r && Tight(Trim(s))
  {
    l := TrimLeftSplits(s);
    r := TrimRightSplits(TrimLeft(s));
    if Trim(s) != "" { assert TrimLeft(s)[0] == Trim(s)[0]; }
  }

  // Two strings are equal after trimming exactly when both pad the same tight core with space.
  lemma TrimEqualIff(a: string, b: string)
    ensures Trim(a) == Trim(b) <==> exists la, lb, t, ra, rb :: Padded(a, la, t, ra) && Padded(b, lb, t, rb)
  {
    if Trim(a) == Trim(b) {
      var la, ra := TrimPads(a);
      var lb, rb := TrimPads(b);
      assert Padded(a, la, Trim(a), ra) && Padded(b, lb, Trim(a), rb);
    }
    if la, lb, t, ra, rb :| Padded(a, la, t, ra) && Padded(b, lb, t, rb) {
      TrimIsTheCore(la, t, ra);
      TrimIsTheCore(lb, t, rb);
    }
  }

  ghost predicate Padded(s: string, l: string, t: string, r: string) {
    AllSpace(l) && Tight(t) && AllSpace(r) && s == l + t + r
  }

  // Exactly these characters are trimmed.
  lemma TrimsExactly(c: char)
    ensures Trim([c]) == "" <==> c in {
      '\t', '\n', '\U{000B}', '\U{000C}', '\r', ' ', '\U{0085}', '\U{00A0}', '\U{1680}', '\U{2000}',
      '\U{2001}', '\U{2002}', '\U{2003}', '\U{2004}', '\U{2005}', '\U{2006}', '\U{2007}', '\U{2008}', '\U{2009}',
      '\U{200A}', '\U{2028}', '\U{2029}', '\U{202F}', '\U{205F}', '\U{3000}'}
  {
    assert [c][1..] == "";
    assert IsSpace(c) ==> TrimLeft([c]) == TrimLeft("");
  }

  // Both ends of s, if it has any, are printed as themselves.
  predicate Printable(s: string) {
    s == "" || ('!' <= s[0] <= '~' && '!' <= s[|s| - 1] <= '~')
  }

  lemma PrintableKept(s: string)
    requires Printable(s)
    ensures Trim(s) == s
  {}

  // White space added at the end makes no difference.
  lemma TrimTrailing(s: string, ending: string)
    requires forall c :: c in ending ==> c in {' ', '\t', '\r', '\n'}
    ensures Trim(s + ending) == Trim(s)
  {
    var l, r := TrimPads(s);
    assert s + ending == l + Trim(s) + (r + ending);
    forall i | 0 <= i < |ending| ensures IsSpace(ending[i]) { assert ending[i] in ending; }
    TrimIsTheCore(l, Trim(s), r + ending);
  }

  // fmt.Sprintf("%d")
  function Decimal(n: int): (s: string)
    ensures s != ""
    decreases n < 0, if n < 0 then -n else n
  {
    if n < 0 then "-" + Decimal(-n)
    else if n < 10 then [('0' as int + n) as char]
    else Decimal(n / 10) + [('0' as int + n % 10) as char]
  }

  function Value(s: string): int {
    if s == "" then 0 else Value(s[..|s| - 1]) * 10 + (s[|s| - 1] as int - '0' as int)
  }

  // A printed number reads back, and is made of digits after the sign.
  lemma DecimalReadsBack(n: int)
    ensures (if Decimal(n)[0] == '-' then -Value(Decimal(n)[1..]) else Value(Decimal(n))) == n
    ensures Decimal(n)[0] == '-' <==> n < 0
    ensures forall i :: (if n < 0 then 1 else 0) <= i < |Decimal(n)| ==> '0' <= Decimal(n)[i] <= '9'
  {
    if n < 0 { DigitsReadBack(-n); } else { DigitsReadBack(n); }
  }

  lemma {:induction false} DigitsReadBack(n: nat)
    ensures Value(Decimal(n)) == n && forall i :: 0 <= i < |Decimal(n)| ==> '0' <= Decimal(n)[i] <= '9'
  {
    if n < 10 {
      assert Decimal(n)[..0] == "";
    } else {
      DigitsReadBack(n / 10);
      assert Decimal(n)[..|Decimal(n)| - 1] == Decimal(n / 10);
    }
  }
}
