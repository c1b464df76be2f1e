/** The page a printed argument list asks for: it is read from the whole list, the filter's text included. */
module PrintedPage {
  import opened Wrappers

  import opened Ints
  import opened QueryRoundTrip
  import opened QuerySearch
  import opened QueryText
  import opened QuotedArgs

  /** A number in the filter's text is taken before one that stands on its own. */
  function NumberOf(key: string, filter: string, rest: string): Option<int> {
    if FirstNumber(key, filter).Some? then FirstNumber(key, filter) else FirstNumber(key, rest)
  }

  lemma {:induction false} NumberSearchSkips(pre: string, t: string, key: string)
    requires forall k :: 0 <= k < |pre| ==> !(key <= (pre + t)[k..])
    ensures FirstNumber(key, pre + t) == FirstNumber(key, t)
  {
    if pre == "" {
      assert pre + t == t;
    } else {
      assert (pre + t)[0..] == pre + t && (pre + t)[1..] == pre[1..] + t;
      forall k | 0 <= k < |pre[1..]| ensures !(key <= (pre[1..] + t)[k..]) {
        assert (pre[1..] + t)[k..] == (pre + t)[k + 1..];
      }
      NumberSearchSkips(pre[1..], t, key);
    }
  }

  lemma NumberAtWithin(x: string, y: string, key: string)
    requires '"' !in x && '"' !in key
    ensures NumberAt(key, x + ("\"" + y)) == NumberAt(key, x)
  {
    hide BehindColon, Decimal;
    var q := "\"" + y;
    PrefixWithin(key, x, q);
    if key <= x {
      assert (x + q)[|key|..] == x[|key|..] + q;
      ColonWithin(x[|key|..], y);
      var d := BehindColon(x[|key|..]);
      if d.Some? {
        RunWithin(IsDigit, d.value, q);
        var n := Run(IsDigit, d.value);
        assert (d.value + q)[..n] == d.value[..n];
      }
    }
  }

  lemma {:induction false} NumberWithin(x: string, y: string, key: string)
    requires '"' !in x && '"' !in key
    ensures FirstNumber(key, x + ("\"" + y)) == NumberOf(key, x, y)
  {
    hide NumberAt;
    var s := x + ("\"" + y);
    NumberAtWithin(x, y, key);
    if x == "" {
      assert s[1..] == y;
      NoNumberInNothing(key);
    } else {
      assert s[1..] == x[1..] + ("\"" + y);
      NumberWithin(x[1..], y, key);
    }
  }

  lemma NoNumberInNothing(key: string)
    ensures NumberAt(key, "").None?
  {
  }

  lemma {:induction false} NoNumberWithoutColon(s: string, key: string)
    requires ':' !in s
    ensures FirstNumber(key, s).None?
  {
    if s != "" { NoNumberWithoutColon(s[1..], key); }
  }

  /** Neither key occurs in front of a quoted argument. */
  lemma OpeningHasNoNumberKey(lead: string, name: string, colon: string, start: string, t: string, key: string, k: nat)
    requires IsLead(lead)
    requires name in {"sort", "filter"} && key in {"first", "offset"} && IsGap(colon) && IsGap(start)
    requires k < |lead + Opening(name, colon, start)|
    ensures !(key <= ((lead + Opening(name, colon, start)) + t)[k..])
  {
    var o := Opening(name, colon, start);
    var u := ((lead + o) + t)[k..];
    if key <= u {
      assert u[0] == key[0] && u[1] == key[1] && u[2] == key[2];
    }
    if k < |lead| {
      assert u[0] == lead[k];
    } else {
      var j := k - |lead|;
      assert u[0] == o[j];
      if j < |name| {
        assert o[j] == name[j];
        assert j + 2 < |name| ==> u[1] == name[j + 1] && u[2] == name[j + 2];
        assert j + 1 < |name| ==> u[1] == name[j + 1];
      } else {
        var c := colon + (":" + (start + "\""));
        assert o[j] == c[j - |name|];
      }
    }
  }

  lemma ArgumentRead(lead: string, name: string, colon: string, start: string, value: string, t: string, key: string)
    requires IsLead(lead)
    requires name in {"sort", "filter"} && key in {"first", "offset"} && IsGap(colon) && IsGap(start) && '"' !in value
    ensures FirstNumber(key, lead + (PrintArg(name, colon, start, value) + t)) == NumberOf(key, value, t)
  {
    var pre, tail := lead + Opening(name, colon, start), value + ("\"" + t);
    ArgPieces(lead, name, colon, start, value, t);
    hide FirstNumber, Opening, PrintArg, IsGap, NumberOf;
    forall k | 0 <= k < |pre| ensures !(key <= (pre + tail)[k..]) {
      OpeningHasNoNumberKey(lead, name, colon, start, tail, key, k);
    }
    NumberSearchSkips(pre, tail, key);
    NumberWithin(value, t, key);
  }

  lemma ArgPieces(lead: string, name: string, colon: string, start: string, value: string, t: string)
    ensures lead + (PrintArg(name, colon, start, value) + t) ==
        (lead + Opening(name, colon, start)) + (value + ("\"" + t))
  {
    Openings(name, colon, start, value, t);
    hide Opening, PrintArg;
    QueryText.Regroup(lead, Opening(name, colon, start), value + ("\"" + t));
  }

  /** Exactly which number is read from a printed argument list. */
  lemma NumbersAreRead(sort: string, filter: string, g: HeadGaps, key: string)
    requires IsSortArg(sort) && IsFilterArg(filter) && IsHeadGaps(g) && key in {"first", "offset"}
    ensures FirstNumber(key, ArgsText(sort, filter, g)) == NumberOf(key, filter, g.rest)
  {
    assert '"' !in sort && '"' !in filter && ':' !in sort;
    NoNumberWithoutColon(sort, key);
    NoNumberWithoutColon("", key);
    GapsOf(g);
    var comma := g.sortEnd + ("," + g.filterStart);
    var last := FilterText(filter, g) + g.rest;
    if sort == "" && filter == "" {
      GapHasNoNumberKey(g.open, g.rest, key);
    } else {
      hide FirstNumber, PrintArg, IsSortArg, IsFilterArg, IsHeadGaps, IsGap, IsLead;
      if filter == "" {
        ArgumentRead(g.open, "sort", g.sortColon, g.sortValue, sort, g.rest, key);
      } else if sort == "" {
        ArgumentRead(g.open, "filter", g.filterColon, g.filterValue, filter, g.rest, key);
      } else {
        ArgumentRead(g.open, "sort", g.sortColon, g.sortValue, sort, comma + last, key);
        ArgumentRead(comma, "filter", g.filterColon, g.filterValue, filter, g.rest, key);
      }
    }
  }

  predicate IsLead(s: string) { forall i :: 0 <= i < |s| ==> IsSpace(s[i]) || s[i] == ',' }

  lemma GapsOf(g: HeadGaps)
    requires IsHeadGaps(g)
    ensures IsGap(g.open) && IsGap(g.sortColon) && IsGap(g.sortValue) && IsGap(g.filterColon) && IsGap(g.filterValue)
    ensures IsLead(g.open) && IsLead(g.sortEnd + ("," + g.filterStart))
  {
  }

  lemma GapHasNoNumberKey(gap: string, t: string, key: string)
    requires IsGap(gap) && key in {"first", "offset"}
    ensures FirstNumber(key, gap + t) == FirstNumber(key, t)
  {
    forall k | 0 <= k < |gap| ensures !(key <= (gap + t)[k..]) {
      assert (gap + t)[k..][0] == gap[k];
    }
    NumberSearchSkips(gap, t, key);
  }

  /** Without braces there is no page in braces. */
  lemma PageWithoutBraces(args: string)
    requires '{' !in args
    ensures PageRead(args) == PageOf(FirstNumber("first", args), FirstNumber("offset", args))
  {
    forall k, c | 0 <= k <= |args| ensures NumberSizeAt(args[k..], c).None? && SizeNumberAt(args[k..], c).None? {
      PaginationNeedsABrace(args[k..]);
      assert forall i :: 0 <= i < |args[k..]| ==> args[k..][i] == args[k + i];
    }
    hide Leftmost, FirstNumber, NumberSizeAt, SizeNumberAt;
    NothingFound(NumberSizeAt, args, true);
    NothingFound(SizeNumberAt, args, true);
  }

  lemma PaginationNeedsABrace(s: string)
    requires '{' !in s
    ensures NumberSizeAt(s, true).None? && SizeNumberAt(s, true).None? &&
        NumberSizeAt(s, false).None? && SizeNumberAt(s, false).None?
  {
    hide LastPair, BehindColon;
    if "pagination" <= s {
      BehindColonIsSuffix(s[10..]);
      var d := BehindColon(s[10..]);
      if d.Some? && d.value != "" {
        assert d.value[0] in s;
      }
    }
  }

  // ---- The rows of a page ----

  /** How many rows a page has and how many are passed over; 0 rows stand for all of them. */
  function Span(p: Paging): (int, int) {
    (if p.size > 0 then p.size else 0, if p.size > 0 && p.number > 1 then Wrap64((p.number - 1) * p.size) else 0)
  }

  function SizeOf(first: Option<int>): int { if first.Some? then first.value else 0 }

  /** How many whole pages an offset passes over; the largest one leaves 64 bits and passes over none. */
  function WholePages(offset: Option<int>, size: int): int {
    if size != 0 && offset.Some? && offset.value / size < MAX_INT then offset.value / size else 0
  }

  predicate IsNumber(n: Option<int>) { n.Some? ==> 0 <= n.value <= MAX_INT }

  lemma {:induction false} NumberIsInRange(key: string, s: string)
    ensures IsNumber(FirstNumber(key, s))
  {
    hide BehindColon, Decimal;
    if s != "" { NumberIsInRange(key, s[1..]); }
  }

  lemma NumbersAreInRange(s: string)
    ensures IsNumber(FirstNumber("first", s)) && IsNumber(FirstNumber("offset", s))
  {
    NumberIsInRange("first", s);
    NumberIsInRange("offset", s);
  }

  lemma WholePagesFit(offset: int, size: int)
    requires 0 < size <= MAX_INT && 0 <= offset <= MAX_INT
    ensures 0 <= offset / size <= MAX_INT && 0 <= (offset / size) * size <= MAX_INT
    ensures offset / size * size == offset <==> offset % size == 0
  {
    var k, r := offset / size, offset % size;
    assert offset == k * size + r && 0 <= r < size;
    assert k >= 0;
    AtLeastOnce(k, size);
  }

  lemma {:induction false} AtLeastOnce(k: nat, size: nat)
    requires size > 0
    ensures k <= k * size
  {
    if k > 0 {
      AtLeastOnce(k - 1, size);
      assert k * size == (k - 1) * size + size;
    }
  }

  /** A page asked for by its size and an offset passes over whole pages only. */
  lemma SpanOfNumbers(first: Option<int>, offset: Option<int>)
    requires IsNumber(first) && IsNumber(offset)
    ensures var size := SizeOf(first);
            Span(PageOf(first, offset)) == if size == 0 then (0, 0) else (size, WholePages(offset, size) * size)
  {
    var size := SizeOf(first);
    if size > 0 && offset.Some? {
      WholePagesFit(offset.value, size);
      var k := offset.value / size;
      assert k < MAX_INT ==> Wrap64(k + 1) == k + 1 && Wrap64(k * size) == k * size;
      assert k == MAX_INT ==> Wrap64(k + 1) < 0;
    }
  }

  lemma PagesDiffer(size: int, a: Option<int>, b: Option<int>)
    requires size > 0
    ensures WholePages(a, size) * size == WholePages(b, size) * size <==> WholePages(a, size) == WholePages(b, size)
  {
  }

  /** So the rows begin at the offset asked for exactly if it is a multiple of the size, and not the largest number. */
  lemma OffsetsAreRoundedDown(size: int, offset: int)
    requires 0 < size <= MAX_INT && 0 <= offset <= MAX_INT
    ensures Span(PageOf(Some(size), Some(offset))) == (size, offset) <==> offset % size == 0 && offset / size < MAX_INT
  {
    hide Span, PageOf;
    SpanOfNumbers(Some(size), Some(offset));
    WholePagesFit(offset, size);
  }

  // ---- Printed pages ----

  lemma {:induction false} DigitsReadBack(n: nat)
    ensures Digits(n) != "" && forall k :: 0 <= k < |Digits(n)| ==> IsDigit(Digits(n)[k])
    ensures Decimal(Digits(n)) == n
  {
    var last := "0123456789"[n % 10];
    LastDigit(n % 10);
    if n >= 10 {
      DigitsReadBack(n / 10);
      assert Digits(n)[..|Digits(n)| - 1] == Digits(n / 10);
    } else {
      assert Digits(n)[..0] == "";
    }
  }

  lemma LastDigit(k: nat)
    requires k < 10
    ensures IsDigit("0123456789"[k]) && DigitValue("0123456789"[k]) == k
  {
  }

  function NumberText(key: string, colon: string, start: string, n: nat): string {
    key + (colon + (":" + (start + Digits(n))))
  }

  function Clamped(n: nat): int { if n <= MAX_INT then n else MAX_INT }

  lemma NumberTextIsRead(key: string, colon: string, start: string, n: nat, t: string)
    requires IsGap(colon) && IsGap(start) && (t == "" || !IsDigit(t[0]))
    ensures NumberAt(key, NumberText(key, colon, start, n) + t) == Some(Clamped(n))
  {
    DigitsReadBack(n);
    var digits := Digits(n);
    NumberPieces(key, colon, start, n, t);
    RunIs(IsDigit, digits + t, |digits|);
    assert (digits + t)[..|digits|] == digits;
    ColonRead(colon, start, digits + t);
    hide BehindColon, Run, Digits, Decimal, IsGap, NumberText;
  }

  lemma NumberPieces(key: string, colon: string, start: string, n: nat, t: string)
    ensures var s := NumberText(key, colon, start, n) + t;
            key <= s && s[|key|..] == colon + (":" + (start + (Digits(n) + t)))
  {
    hide Digits;
  }

  lemma ColonRead(colon: string, start: string, t: string)
    requires IsGap(colon) && IsGap(start) && t != "" && !QueryText.IsBlank(t[0])
    ensures BehindColon(colon + (":" + (start + t))) == Some(t)
  {
    var s := colon + (":" + (start + t));
    RunIs(QueryText.IsBlank, s, |colon|);
    assert s[|colon|..] == ":" + (start + t);
    assert (":" + (start + t))[1..] == start + t;
    RunIs(QueryText.IsBlank, start + t, |start|);
  }

  /** Two numbers with nothing but white space and commas around them. */
  datatype Numbers = Numbers(
    lead: string, colon: string, start: string, sep: string, otherColon: string, otherStart: string, tail: string)

  predicate IsNumbers(g: Numbers) {
    && IsLead(g.lead) && IsGap(g.colon) && IsGap(g.start) && IsLead(g.sep)
    && IsGap(g.otherColon) && IsGap(g.otherStart) && IsLead(g.tail)
  }

  function NumbersText(one: string, m: nat, other: string, n: nat, g: Numbers): string {
    g.lead + (NumberText(one, g.colon, g.start, m)
              + (g.sep + (NumberText(other, g.otherColon, g.otherStart, n) + g.tail)))
  }

  lemma NumberTextHolds(key: string, colon: string, start: string, n: nat, c: char)
    requires IsGap(colon) && IsGap(start) && key != "" && c !in key[1..] && !IsSpace(c) && c != ':' && !IsDigit(c)
    ensures var s := NumberText(key, colon, start, n);
            s != "" && s[0] == key[0] && forall k :: 1 <= k < |s| ==> s[k] != c
  {
    DigitsReadBack(n);
    hide Digits;
    var s := NumberText(key, colon, start, n);
    forall k | 1 <= k < |s| ensures s[k] != c {
      if k < |key| {
        assert s[k] == key[1..][k - 1];
      }
    }
  }

  lemma KeyIsNot(s: string, key: string)
    requires key != "" && (s == "" || s[0] != key[0])
    ensures !(key <= s)
  {
  }

  /** The first number of a key, behind text that does not hold the key's first letter. */
  lemma NumberBehind(pre: string, key: string, colon: string, start: string, n: nat, t: string)
    requires IsGap(colon) && IsGap(start) && (t == "" || !IsDigit(t[0])) && key != "" && key[0] !in pre
    ensures FirstNumber(key, pre + (NumberText(key, colon, start, n) + t)) == Some(Clamped(n))
  {
    hide NumberAt, NumberText;
    NumberTextIsRead(key, colon, start, n, t);
    var s := NumberText(key, colon, start, n) + t;
    forall k | 0 <= k < |pre| ensures !(key <= (pre + s)[k..]) {
      assert pre[k] in pre && (pre + s)[k..][0] == pre[k];
    }
    NumberSearchSkips(pre, s, key);
  }

  lemma NoNumberWithout(s: string, key: string)
    requires key != "" && key[0] !in s
    ensures FirstNumber(key, s).None?
  {
    hide NumberAt;
    forall k | 0 <= k < |s| ensures !(key <= (s + "")[k..]) {
      assert s[k] in s && (s + "")[k..][0] == s[k];
    }
    NumberSearchSkips(s, "", key);
    NothingInEmpty(key);
    assert s + "" == s;
  }

  lemma NothingInEmpty(key: string)
    requires key != ""
    ensures FirstNumber(key, "").None?
  {
  }

  /** `first: n` on its own, or with `offset: m` behind it, is read as what it says. */
  lemma PrintedNumbersAreRead(n: nat, m: nat, g: Numbers)
    requires IsNumbers(g)
    ensures var s := NumbersText("first", n, "offset", m, g);
            FirstNumber("first", s) == Some(Clamped(n)) && FirstNumber("offset", s) == Some(Clamped(m))
    ensures var s := g.lead + (NumberText("first", g.colon, g.start, n) + g.tail);
            FirstNumber("first", s) == Some(Clamped(n)) && FirstNumber("offset", s) == None
  {
    var one, other := NumberText("first", g.colon, g.start, n), NumberText("offset", g.otherColon, g.otherStart, m);
    NumberTextHolds("first", g.colon, g.start, n, 'o');
    NumberTextHolds("offset", g.otherColon, g.otherStart, m, 'd');
    LeadsAreNoLetters(g);
    var pre := g.lead + (one + g.sep);
    assert 'o' !in pre && 'o' !in g.lead + (one + g.tail);
    assert g.sep + (other + g.tail) == "" || !IsDigit((g.sep + (other + g.tail))[0]);
    hide FirstNumber, NumberText, IsLead, IsGap;
    NumberBehind(g.lead, "first", g.colon, g.start, n, g.sep + (other + g.tail));
    NumberBehind(g.lead, "first", g.colon, g.start, n, g.tail);
    NumberBehind(pre, "offset", g.otherColon, g.otherStart, m, g.tail);
    FivePieces(g.lead, one, g.sep, other, g.tail);
    NoNumberWithout(g.lead + (one + g.tail), "offset");
  }

  lemma FivePieces(a: string, b: string, c: string, d: string, e: string)
    ensures (a + (b + c)) + (d + e) == a + (b + (c + (d + e)))
  {
  }

  lemma LeadsAreNoLetters(g: Numbers)
    requires IsNumbers(g)
    ensures 'f' !in g.lead && 'o' !in g.lead && 'o' !in g.sep && 'o' !in g.tail
    ensures (g.tail == "" || !IsDigit(g.tail[0])) && (g.sep == "" || !IsDigit(g.sep[0]))
  {
  }

  // ---- Pages in braces ----

  /** `pagination: { … }` with white space around the colon. */
  function BracePage(colon: string, open: string, inside: string): string {
    "pagination" + (colon + (":" + (open + ("{" + (inside + "}")))))
  }

  lemma {:induction false} NoLastNumber(key: string, s: string)
    requires key != "" && key[0] !in s
    ensures LastNumber(key, s).None?
  {
    if s != "" {
      NoLastNumber(key, s[1..]);
      assert s[0] in s;
      KeyIsNot(s, key);
    }
  }

  lemma {:induction false} LastNumberBehind(key: string, u: string, s: string)
    requires LastNumber(key, s).Some?
    ensures LastNumber(key, u + s) == LastNumber(key, s)
  {
    hide NumberAt;
    if u == "" {
      assert u + s == s;
    } else {
      assert (u + s)[1..] == u[1..] + s;
      LastNumberBehind(key, u[1..], s);
    }
  }

  /** No number of `one` has a number of `other` behind it where all of `other` comes first. */
  lemma {:induction false} NoLastPair(one: string, other: string, u: string, v: string)
    requires one != "" && other != "" && one[0] !in u && other[0] !in v
    ensures LastPair(one, other, u + v).None?
    decreases |u|, |v|
  {
    hide NumberAt, LastNumber;
    var s := u + v;
    if u != "" {
      assert s[1..] == u[1..] + v;
      NoLastPair(one, other, u[1..], v);
      assert s[0] == u[0] && u[0] in u;
      NumberNeedsItsKey(one, s);
    } else if v != "" {
      assert s == v && s[1..] == "" + v[1..];
      NoLastPair(one, other, "", v[1..]);
      NoLastNumber(other, v[1..]);
    }
  }

  lemma NumberNeedsItsKey(key: string, s: string)
    requires key != "" && s != "" && s[0] != key[0]
    ensures NumberAt(key, s).None?
  {
    KeyIsNot(s, key);
  }

  lemma {:induction false} LastPairBehind(one: string, other: string, u: string, s: string)
    requires LastPair(one, other, s).Some?
    ensures LastPair(one, other, u + s) == LastPair(one, other, s)
  {
    hide NumberAt, LastNumber;
    if u == "" {
      assert u + s == s;
    } else {
      assert (u + s)[1..] == u[1..] + s;
      LastPairBehind(one, other, u[1..], s);
    }
  }

  /** A number that begins a text and whose key's first letter does not come again is the last one. */
  lemma OnlyNumber(key: string, colon: string, start: string, n: nat, t: string)
    requires IsGap(colon) && IsGap(start) && key in {"number", "size"} && (t == "" || !IsDigit(t[0])) && key[0] !in t
    ensures LastNumber(key, NumberText(key, colon, start, n) + t) == Some(Clamped(n))
  {
    hide NumberAt, NumberText, IsGap, Decimal, Digits, Clamped;
    NumberTextHolds(key, colon, start, n, key[0]);
    NumberTextIsRead(key, colon, start, n, t);
    var x := NumberText(key, colon, start, n);
    var s := x + t;
    assert key[0] !in s[1..] by {
      forall k | 0 <= k < |s[1..]| ensures s[1..][k] != key[0] {
        if k + 1 < |x| { assert s[1..][k] == x[k + 1]; } else { assert s[1..][k] == t[k + 1 - |x|]; }
      }
    }
    NoLastNumber(key, s[1..]);
  }

  lemma PairKeys(one: string, other: string)
    requires (one == "number" && other == "size") || (one == "size" && other == "number")
    ensures one != "" && other != "" && one[0] != other[0] && one[0] !in one[1..] && other[0] !in other[1..]
    ensures one[0] !in other && other[0] !in one
    ensures !IsSpace(one[0]) && one[0] != ':' && one[0] != ',' && !IsDigit(one[0])
    ensures !IsSpace(other[0]) && other[0] != ':' && other[0] != ',' && !IsDigit(other[0])
  {
  }

  /** Two printed numbers as a pair, in the order in which they are written and in no other. */
  lemma PairsAreRead(one: string, m: nat, other: string, n: nat, g: Numbers)
    requires IsNumbers(g) && ((one == "number" && other == "size") || (one == "size" && other == "number"))
    ensures LastPair(one, other, NumbersText(one, m, other, n, g)) == Some((Clamped(m), Clamped(n)))
    ensures LastPair(other, one, NumbersText(one, m, other, n, g)).None?
  {
    PairKeys(one, other);
    var x, y := NumberText(one, g.colon, g.start, m), NumberText(other, g.otherColon, g.otherStart, n);
    var last := y + g.tail;
    PairPieces(one, m, other, n, g);
    hide NumberText, IsNumbers, IsGap, IsLead, LastPair, LastNumber, NumberAt;
    FivePieces(g.lead, x, g.sep, y, g.tail);
    NoLastPair(other, one, g.lead + (x + g.sep), last);
    PairAtItsStart(one, m, other, n, g);
    LastPairBehind(one, other, g.lead, x + (g.sep + last));
  }

  /** What the pieces of two printed numbers do not hold. */
  lemma PairPieces(one: string, m: nat, other: string, n: nat, g: Numbers)
    requires IsNumbers(g) && ((one == "number" && other == "size") || (one == "size" && other == "number"))
    ensures var x, y := NumberText(one, g.colon, g.start, m), NumberText(other, g.otherColon, g.otherStart, n);
            && other[0] !in g.lead + (x + g.sep) && one[0] !in y + g.tail && other[0] !in g.tail
            && x != "" && x[0] == one[0] && one[0] !in x[1..] + (g.sep + (y + g.tail))
            && (g.tail == "" || !IsDigit(g.tail[0])) && !IsDigit((g.sep + (y + g.tail))[0])
  {
    PairKeys(one, other);
    var x, y := NumberText(one, g.colon, g.start, m), NumberText(other, g.otherColon, g.otherStart, n);
    NumberTextHolds(one, g.colon, g.start, m, other[0]);
    NumberTextHolds(one, g.colon, g.start, m, one[0]);
    NumberTextHolds(other, g.otherColon, g.otherStart, n, one[0]);
    LeadsHold(g, one[0]);
    LeadsHold(g, other[0]);
    hide NumberText, IsGap, IsNumbers;
    assert one[0] !in x[1..] by { forall k | 0 <= k < |x[1..]| ensures x[1..][k] != one[0] {} }
    assert one[0] !in y by { forall k | 0 <= k < |y| ensures y[k] != one[0] {} }
    assert other[0] !in x by { forall k | 0 <= k < |x| ensures x[k] != other[0] {} }
    assert (g.sep + (y + g.tail))[0] == if g.sep == "" then y[0] else g.sep[0];
  }

  lemma LeadsHold(g: Numbers, c: char)
    requires IsNumbers(g) && !IsSpace(c) && c != ','
    ensures c !in g.lead && c !in g.sep && c !in g.tail
    ensures (g.tail == "" || !IsDigit(g.tail[0])) && (g.sep == "" || !IsDigit(g.sep[0]))
  {
  }

  lemma PairAtItsStart(one: string, m: nat, other: string, n: nat, g: Numbers)
    requires IsNumbers(g) && ((one == "number" && other == "size") || (one == "size" && other == "number"))
    ensures var x, y := NumberText(one, g.colon, g.start, m), NumberText(other, g.otherColon, g.otherStart, n);
            LastPair(one, other, x + (g.sep + (y + g.tail))) == Some((Clamped(m), Clamped(n)))
  {
    PairKeys(one, other);
    PairPieces(one, m, other, n, g);
    var x, y := NumberText(one, g.colon, g.start, m), NumberText(other, g.otherColon, g.otherStart, n);
    var rest := g.sep + (y + g.tail);
    NumberTextIsRead(one, g.colon, g.start, m, rest);
    OnlyNumber(other, g.otherColon, g.otherStart, n, g.tail);
    WithoutItsStart(x, g.sep, y + g.tail);
    hide NumberText, NumberAt, LastNumber, LastPair, IsGap, IsLead, IsNumbers;
    var s := x + rest;
    NoLastPair(one, other, s[1..], "");
    LastNumberBehind(other, x[1..] + g.sep, y + g.tail);
    PairHere(one, other, s);
  }

  lemma WithoutItsStart(x: string, sep: string, t: string)
    requires x != ""
    ensures var s := x + (sep + t);
            s != "" && s[1..] == x[1..] + (sep + t) && s[1..] == (x[1..] + sep) + t && s[1..] + "" == s[1..]
  {
  }

  lemma PairHere(one: string, other: string, s: string)
    requires s != "" && LastPair(one, other, s[1..]).None? && NumberAt(one, s).Some? && LastNumber(other, s[1..]).Some?
    ensures LastPair(one, other, s) == Some((NumberAt(one, s).value, LastNumber(other, s[1..]).value))
  {
    hide NumberAt, LastNumber;
  }

  // ---- Where the page is found ----

  /** Around the opening brace of a page no other page begins. */
  lemma NoOtherPage(pre: string, colon: string, open: string, rest: string, k: nat, one: string, other: string)
    requires '{' !in pre && '{' !in rest && IsGap(colon) && IsGap(open)
    requires var s := pre + ("pagination" + (colon + (":" + (open + ("{" + rest))))); k < |s| && k != |pre|
    ensures PaginationAt(one, other, (pre + ("pagination" + (colon + (":" + (open + ("{" + rest))))))[k..]).None?
  {
    hide LastPair, BehindColon;
    var key := "pagination" + (colon + (":" + (open + "{")));
    var s := pre + ("pagination" + (colon + (":" + (open + ("{" + rest)))));
    PageParts(pre, colon, open, rest);
    var u := s[k..];
    if k < |pre| {
      if "pagination" <= u {
        var last := |pre| + 9;
        assert u[10..] == s[k + 10..];
        forall i | 0 <= i <= last - k - 10 ensures u[10..][i] != '{' {
          assert u[10..][i] == s[k + 10 + i];
        }
        assert u[10..][last - k - 10] == s[last];
        SolidAhead(u[10..], last - k - 10, '{');
      }
    } else if k < |pre| + |key| {
      assert u[0] == s[k];
    } else {
      assert '{' !in u by {
        forall i | 0 <= i < |u| ensures u[i] != '{' { assert u[i] == s[k + i]; }
      }
      PaginationNeeds(u, one, other);
    }
  }

  lemma PaginationNeeds(s: string, one: string, other: string)
    requires '{' !in s
    ensures PaginationAt(one, other, s).None?
  {
    hide LastPair, BehindColon;
    if "pagination" <= s {
      BehindColonIsSuffix(s[10..]);
      var d := BehindColon(s[10..]);
      if d.Some? && d.value != "" {
        assert d.value[0] in s;
      }
    }
  }

  /** The characters of a text with a page in it. */
  lemma PageParts(pre: string, colon: string, open: string, rest: string)
    requires '{' !in pre && '{' !in rest && IsGap(colon) && IsGap(open)
    ensures var s := pre + ("pagination" + (colon + (":" + (open + ("{" + rest)))));
            var n := |pre| + 10 + |colon| + 1 + |open|;
            && |s| == n + 1 + |rest| && s[|pre| + 9] == 'n'
            && (forall i :: 0 <= i < n ==> s[i] != '{') && (forall i :: |pre| < i < n ==> s[i] != 'p') && s[n] == '{'
            && (forall i :: n < i < |s| ==> s[i] != '{')
  {
    var word := "pagination";
    var s := pre + (word + (colon + (":" + (open + ("{" + rest)))));
    var n := |pre| + 10 + |colon| + 1 + |open|;
    forall i | 0 <= i < |pre| ensures s[i] != '{' { assert s[i] == pre[i] && pre[i] in pre; }
    forall i | |pre| <= i < |pre| + 10 ensures s[i] == word[i - |pre|] {}
    forall i | n < i < |s| ensures s[i] != '{' { assert s[i] == rest[i - n - 1] && rest[i - n - 1] in rest; }
  }

  lemma PageHere(colon: string, open: string, inside: string, post: string, one: string, other: string)
    requires IsGap(colon) && IsGap(open) && '}' !in inside
    ensures PaginationAt(one, other, BracePage(colon, open, inside) + post) == LastPair(one, other, inside)
  {
    hide LastPair;
    var d := "{" + (inside + ("}" + post));
    BracePieces(colon, open, inside, post);
    ColonRead(colon, open, d);
    BraceEnds(inside, post);
    hide BehindColon, BracePage, IsGap, IndexOf;
  }

  lemma BraceEnds(inside: string, post: string)
    requires '}' !in inside
    ensures var d := "{" + (inside + ("}" + post));
            d[0] == '{' && IndexOf(d, '}') == |inside| + 1 < |d| && d[1..][..|inside|] == inside
  {
    var d := "{" + (inside + ("}" + post));
    forall i | 0 <= i < |inside| + 1 ensures d[i] != '}' {
      if i > 0 { assert d[i] == inside[i - 1] && inside[i - 1] in inside; }
    }
    RunIs(c => c != '}', d, |inside| + 1);
    assert d[1..] == inside + ("}" + post);
    assert (inside + ("}" + post))[..|inside|] == inside;
  }

  lemma BracePieces(colon: string, open: string, inside: string, post: string)
    ensures var s := BracePage(colon, open, inside) + post;
            && "pagination" <= s && s[10..] == colon + (":" + (open + ("{" + (inside + ("}" + post)))))
            && s == "pagination" + (colon + (":" + (open + ("{" + (inside + ("}" + post))))))
  {
  }

  lemma NumbersHaveNoBraces(one: string, m: nat, other: string, n: nat, g: Numbers)
    requires IsNumbers(g) && one in {"number", "size"} && other in {"number", "size"}
    ensures var s := NumbersText(one, m, other, n, g); '{' !in s && '}' !in s
  {
    NumberTextHolds(one, g.colon, g.start, m, '{');
    NumberTextHolds(one, g.colon, g.start, m, '}');
    NumberTextHolds(other, g.otherColon, g.otherStart, n, '{');
    NumberTextHolds(other, g.otherColon, g.otherStart, n, '}');
    var x, y := NumberText(one, g.colon, g.start, m), NumberText(other, g.otherColon, g.otherStart, n);
    LeadsHold(g, '{');
    LeadsHold(g, '}');
    hide NumberText, IsNumbers;
    assert '{' !in x && '}' !in x by { forall k | 0 <= k < |x| ensures x[k] != '{' && x[k] != '}' {} }
    assert '{' !in y && '}' !in y by { forall k | 0 <= k < |y| ensures y[k] != '{' && y[k] != '}' {} }
  }

  /** The text between the braces, its numbers in either order. */
  function PageInside(sizeFirst: bool, size: nat, number: nat, g: Numbers): string {
    if sizeFirst then NumbersText("size", size, "number", number, g) else NumbersText("number", number, "size", size, g)
  }

  /** A printed page is read as its size and number, whichever comes first and whatever stands around it. */
  lemma BracePagesReadBack(pre: string, colon: string, open: string, sizeFirst: bool, size: nat, number: nat,
                           g: Numbers, post: string)
    requires IsGap(colon) && IsGap(open) && IsNumbers(g) && '{' !in pre && '{' !in post
    ensures PageRead(pre + (BracePage(colon, open, PageInside(sizeFirst, size, number, g)) + post))
         == Paging(Clamped(size), Clamped(number))
  {
    var inside := PageInside(sizeFirst, size, number, g);
    NumbersHaveNoBraces("size", size, "number", number, g);
    NumbersHaveNoBraces("number", number, "size", size, g);
    PairsAreRead("size", size, "number", number, g);
    PairsAreRead("number", number, "size", size, g);
    PageFound(pre, colon, open, inside, post, "number", "size");
    PageFound(pre, colon, open, inside, post, "size", "number");
    hide BracePage, PageInside, LastPair, Leftmost, PaginationAt, NumbersText;
    if sizeFirst {
      assert inside == NumbersText("size", size, "number", number, g);
    } else {
      assert inside == NumbersText("number", number, "size", size, g);
    }
  }

  /** The leftmost page is the only one. */
  lemma PageFound(pre: string, colon: string, open: string, inside: string, post: string, one: string, other: string)
    requires IsGap(colon) && IsGap(open) && '{' !in pre && '{' !in post && '{' !in inside && '}' !in inside
    requires (one == "number" && other == "size") || (one == "size" && other == "number")
    ensures var s := pre + (BracePage(colon, open, inside) + post);
            && (one == "number" ==> Leftmost(NumberSizeAt, s, true) == LastPair("number", "size", inside))
            && (one == "size" ==> Leftmost(SizeNumberAt, s, true) == LastPair("size", "number", inside))
  {
    var page := BracePage(colon, open, inside) + post;
    var rest := inside + ("}" + post);
    var s := pre + page;
    BracePieces(colon, open, inside, post);
    PageHere(colon, open, inside, post, one, other);
    assert '{' !in rest;
    assert s[|pre|..] == page;
    hide BracePage, LastPair, PaginationAt, IsGap;
    forall k: nat | k <= |s| && k != |pre| ensures PaginationAt(one, other, s[k..]).None? {
      if k < |s| {
        NoOtherPage(pre, colon, open, rest, k, one, other);
      } else {
        PaginationNeeds(s[k..], one, other);
      }
    }
    if one == "number" {
      FoundOnlyAt(NumberSizeAt, pre, page);
    } else {
      FoundOnlyAt(SizeNumberAt, pre, page);
    }
  }

  lemma FoundOnlyAt<T>(at: (string, bool) -> Option<T>, pre: string, t: string)
    requires forall k: nat, c :: k <= |pre + t| && k != |pre| ==> at((pre + t)[k..], c).None?
    requires at(t, true) == at(t, false)
    ensures Leftmost(at, pre + t, true) == at(t, true)
  {
    assert (pre + t)[|pre|..] == t;
    if at(t, true).Some? {
      SearchGoesOn(at, pre, t, true);
    } else {
      NothingFound(at, pre + t, true);
    }
  }
}
