/** The patterns the reader of a whole query searches for: the keys asked for and the page. */
module QuerySearch {
  import opened Wrappers

  import opened Ints
  import opened QueryText

  /** What stands behind `\s*:\s*` at the start of `s`. */
  function BehindColon(s: string): Option<string> {
    var b := s[Run(IsBlank, s)..];
    if b == "" || b[0] != ':' then None else Some(b[1..][Run(IsBlank, b[1..])..])
  }

  /** The leftmost match of a pattern that may ask for a word boundary in front of it; `b` is whether one is there. */
  function Leftmost<T>(at: (string, bool) -> Option<T>, s: string, b: bool): Option<T> {
    if at(s, b).Some? then at(s, b)
    else if s == "" then None
    else Leftmost(at, s[1..], !IsWordChar(s[0]))
  }

  // ---- Keys ----

  /** What stands behind `\bids?\s*:\s*`. */
  function BehindIds(s: string, b: bool): Option<string> {
    if b && "id" <= s then BehindColon(s[if "ids" <= s then 3 else 2..]) else None
  }

  /** What stands behind `\bids?\s*:\s*\[`. */
  function OpenAt(s: string, b: bool): Option<string> {
    var d := BehindIds(s, b);
    if d.Some? && d.value != "" && d.value[0] == '[' then Some(d.value[1..]) else None
  }

  /** `\bids?\s*:\s*\[([^\]]*)\]` */
  function ListAt(s: string, b: bool): Option<string> {
    var w := OpenAt(s, b);
    if w.Some? && IndexOf(w.value, ']') < |w.value| then Some(w.value[..IndexOf(w.value, ']')]) else None
  }

  /** `\bids?\s*:\s*"([^"]+)"` */
  function SingleAt(s: string, b: bool): Option<string> {
    var d := BehindIds(s, b);
    if d.Some? && d.value != "" && d.value[0] == '"' then
      var n := IndexOf(d.value[1..], '"');
      if 0 < n < |d.value[1..]| then Some(d.value[1..][..n]) else None
    else None
  }

  /** The parts of a list between its commas. */
  function Split(s: string): (parts: seq<string>)
    ensures |parts| > 0
  {
    if s == "" then [""]
    else
      var rest := Split(s[1..]);
      if s[0] == ',' then [""] + rest else [[s[0]] + rest[0]] + rest[1..]
  }

  predicate IsQuote(c: char) { c == '"' || c == '\'' }

  function StripEnd(s: string): string {
    if s != "" && IsQuote(s[|s| - 1]) then StripEnd(s[..|s| - 1]) else s
  }

  function Key(part: string): string { StripEnd(Trim(part)[Run(IsQuote, Trim(part))..]) }

  function Keys(parts: seq<string>): seq<string> {
    if parts == [] then [] else (if Key(parts[0]) == "" then [] else [Key(parts[0])]) + Keys(parts[1..])
  }

  /** The keys a query asks for: those of the first list, or else the first single one. */
  function IdsRead(inner: string): seq<string> {
    match Leftmost(ListAt, inner, true)
    case Some(list) => Keys(Split(list))
    case None =>
      match Leftmost(SingleAt, inner, true)
      case Some(id) => [id]
      case None => []
  }

  lemma KeysOfLonger(parts: seq<string>, i: nat)
    requires i < |parts|
    ensures Keys(parts[..i + 1]) == Keys(parts[..i]) + if Key(parts[i]) == "" then [] else [Key(parts[i])]
  {
    hide Key;
    if i == 0 {
      assert parts[..1][1..] == [];
    } else {
      assert parts[..i + 1][1..] == parts[1..][..i] && parts[..i][1..] == parts[1..][..i - 1];
      KeysOfLonger(parts[1..], i - 1);
    }
  }

  method ReadIds(inner: string) returns (ids: seq<string>)
    ensures ids == IdsRead(inner)
  {
    hide Leftmost, Split, Key;
    ids := [];
    var list := Leftmost(ListAt, inner, true);
    if list.Some? {
      var parts := Split(list.value);
      for i := 0 to |parts|
        invariant ids == Keys(parts[..i])
      {
        KeysOfLonger(parts, i);
        var id := Key(parts[i]);
        if id != "" {
          ids := ids + [id];
        }
      }
      assert parts[..|parts|] == parts;
    } else {
      var single := Leftmost(SingleAt, inner, true);
      if single.Some? {
        ids := [single.value];
      }
    }
  }

  // ---- The page ----

  predicate IsDigit(c: char) { '0' <= c <= '9' }

  function DigitValue(c: char): nat
    requires IsDigit(c)
  {
    c as int - '0' as int
  }

  function Decimal(s: string): nat
    requires forall k :: 0 <= k < |s| ==> IsDigit(s[k])
  {
    if s == "" then 0 else Decimal(s[..|s| - 1]) * 10 + DigitValue(s[|s| - 1])
  }

  /** `key\s*:\s*(\d+)`; a number out of range is read as the largest one. */
  function NumberAt(key: string, s: string): Option<int> {
    var d := if key <= s then BehindColon(s[|key|..]) else None;
    if d.Some? && Run(IsDigit, d.value) > 0 then
      var n := Decimal(d.value[..Run(IsDigit, d.value)]);
      Some(if n <= MAX_INT then n else MAX_INT)
    else None
  }

  /** The leftmost number of a key. */
  function FirstNumber(key: string, s: string): Option<int> {
    if NumberAt(key, s).Some? then NumberAt(key, s)
    else if s == "" then None
    else FirstNumber(key, s[1..])
  }

  function LastNumber(key: string, s: string): Option<int> {
    if s == "" then None
    else if LastNumber(key, s[1..]).Some? then LastNumber(key, s[1..])
    else NumberAt(key, s)
  }

  /** The last number of one key that has a number of another key behind it, and the last of these. */
  function LastPair(one: string, other: string, s: string): Option<(int, int)> {
    if s == "" then None
    else if LastPair(one, other, s[1..]).Some? then LastPair(one, other, s[1..])
    else if NumberAt(one, s).Some? && LastNumber(other, s[1..]).Some? then
      Some((NumberAt(one, s).value, LastNumber(other, s[1..]).value))
    else None
  }

  /** `pagination\s*:\s*\{[^}]*one\s*:\s*(\d+)[^}]*other\s*:\s*(\d+)[^}]*\}` */
  function PaginationAt(one: string, other: string, s: string): Option<(int, int)> {
    var d := if "pagination" <= s then BehindColon(s[10..]) else None;
    if d.Some? && d.value != "" && d.value[0] == '{' && IndexOf(d.value, '}') < |d.value| then
      LastPair(one, other, d.value[1..][..IndexOf(d.value, '}') - 1])
    else None
  }

  function NumberSizeAt(s: string, b: bool): Option<(int, int)> { PaginationAt("number", "size", s) }

  function SizeNumberAt(s: string, b: bool): Option<(int, int)> { PaginationAt("size", "number", s) }

  datatype Paging = Paging(size: int, number: int)

  /** The page arguments ask for; size 0 stands for no limit. */
  function PageRead(args: string): Paging {
    var a := Leftmost(NumberSizeAt, args, true);
    var b := Leftmost(SizeNumberAt, args, true);
    if a.Some? then Paging(a.value.1, a.value.0)
    else if b.Some? then Paging(b.value.0, b.value.1)
    else PageOf(FirstNumber("first", args), FirstNumber("offset", args))
  }

  function PageOf(first: Option<int>, offset: Option<int>): Paging {
    var size := if first.Some? then first.value else 0;
    Paging(size, if size > 0 && offset.Some? then Wrap64(offset.value / size + 1) else 0)
  }

  method ReadPage(args: string) returns (page: Paging)
    ensures page == PageRead(args)
  {
    hide Leftmost, FirstNumber;
    page := Paging(0, 0);
    var m := Leftmost(NumberSizeAt, args, true);
    if m.Some? {
      return Paging(m.value.1, m.value.0);
    }
    m := Leftmost(SizeNumberAt, args, true);
    if m.Some? {
      return Paging(m.value.0, m.value.1);
    }
    var n := FirstNumber("first", args);
    if n.Some? {
      page := page.(size := n.value);
    }
    n := FirstNumber("offset", args);
    if n.Some? && page.size > 0 {
      page := page.(number := Wrap64(n.value / page.size + 1));
    }
  }

  // ---- Searching in parts ----

  lemma {:induction false} SearchGoesOn<T>(at: (string, bool) -> Option<T>, pre: string, t: string, b: bool)
    requires forall k, c :: 0 <= k < |pre| ==> at((pre + t)[k..], c).None?
    ensures Leftmost(at, pre + t, b) == Leftmost(at, t, if pre == "" then b else !IsWordChar(pre[|pre| - 1]))
  {
    if pre == "" {
      assert pre + t == t;
    } else {
      assert (pre + t)[0..] == pre + t && (pre + t)[1..] == pre[1..] + t;
      forall k, c | 0 <= k < |pre[1..]| ensures at((pre[1..] + t)[k..], c).None? {
        assert (pre[1..] + t)[k..] == (pre + t)[k + 1..];
      }
      SearchGoesOn(at, pre[1..], t, !IsWordChar(pre[0]));
    }
  }

  lemma {:induction false} NothingFound<T>(at: (string, bool) -> Option<T>, s: string, b: bool)
    requires forall k, c :: 0 <= k <= |s| ==> at(s[k..], c).None?
    ensures Leftmost(at, s, b).None?
  {
    assert s[0..] == s;
    if s != "" {
      forall k, c | 0 <= k <= |s[1..]| ensures at(s[1..][k..], c).None? {
        assert s[1..][k..] == s[k + 1..];
      }
      NothingFound(at, s[1..], !IsWordChar(s[0]));
    }
  }

  /** Reading over a colon stops at a quote. */
  lemma ColonWithin(x: string, y: string)
    requires '"' !in x
    ensures BehindColon(x + ("\"" + y)) == match BehindColon(x) case Some(d) => Some(d + ("\"" + y)) case None => None
  {
    hide Run;
    var q := "\"" + y;
    RunWithin(IsBlank, x, q);
    var n := Run(IsBlank, x);
    assert (x + q)[n..] == x[n..] + q;
    if n < |x| && x[n] == ':' {
      var c := x[n..][1..];
      assert (x[n..] + q)[1..] == c + q;
      RunWithin(IsBlank, c, q);
      assert (c + q)[Run(IsBlank, c)..] == c[Run(IsBlank, c)..] + q;
    }
  }

  lemma {:induction false} RunWithin(p: char -> bool, x: string, t: string)
    requires t != "" && !p(t[0])
    ensures Run(p, x + t) == Run(p, x)
  {
    if x == "" {
      assert x + t == t;
    } else {
      assert (x + t)[1..] == x[1..] + t;
      RunWithin(p, x[1..], t);
    }
  }

  /** A character that is neither white space nor a colon ends the run of both. */
  lemma SolidAhead(s: string, n: nat, c: char)
    requires n < |s| && !IsBlank(s[n]) && s[n] != ':' && forall k :: 0 <= k <= n ==> s[k] != c
    ensures var d := BehindColon(s); d.Some? ==> d.value != "" && d.value[0] != c
  {
    var m := Run(IsBlank, s);
    assert m <= n;
    if s[m] == ':' {
      var t := s[m..][1..];
      assert t[n - m - 1] == s[n];
      assert Run(IsBlank, t) <= n - m - 1;
      assert t[Run(IsBlank, t)] == s[m + 1 + Run(IsBlank, t)];
    }
  }
}
