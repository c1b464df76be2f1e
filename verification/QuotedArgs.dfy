/** Which keys a printed query is taken to ask for: the search runs through the whole text and all quoted arguments. */
module QuotedArgs {
  import opened Wrappers

  import opened QueryRoundTrip
  import opened QuerySearch
  import opened QueryText

  /** A sort or filter argument and the text in front of it. */
  datatype Arg = Arg(lead: string, key: string, colon: string, start: string, value: string)

  /** A text cut at its quoted arguments. */
  datatype Woven = Woven(args: seq<Arg>, tail: string)

  predicate IsQuiet(s: string) {
    forall k :: 0 <= k < |s| ==> s[k] !in {'"', '[', ']'}
  }

  predicate IsArg(a: Arg) {
    IsQuiet(a.lead) && a.key in {"sort", "filter"} && IsGap(a.colon) && IsGap(a.start) && '"' !in a.value
  }

  predicate IsWoven(w: Woven) {
    IsQuiet(w.tail) && forall i :: 0 <= i < |w.args| ==> IsArg(w.args[i])
  }

  function Text(w: Woven): string
    decreases |w.args|
  {
    if w.args == [] then w.tail
    else
      var a := w.args[0];
      (a.lead + Opening(a.key, a.colon, a.start)) + (a.value + ("\"" + Text(Woven(w.args[1..], w.tail))))
  }

  function Values(w: Woven): seq<string> { seq(|w.args|, i requires 0 <= i < |w.args| => w.args[i].value) }

  // ---- The condition ----

  /** What the search for a list of keys finds in quoted values: a list within one value, or one that begins in one
      value and ends in another. */
  datatype Bracket = NoBracket | Within(list: string) | Across

  function FirstBracket(values: seq<string>): Bracket {
    if values == [] then NoBracket
    else
      match Leftmost(OpenAt, values[0], true)
      case None => FirstBracket(values[1..])
      case Some(w) =>
        if ']' in w then Within(w[..IndexOf(w, ']')])
        else if exists i :: 1 <= i < |values| && ']' in values[i] then Across
        else NoBracket
  }

  /** A value that ends in the key, so that its closing quote is taken for an opening one. */
  predicate EndsInKey(v: string, b: bool) {
    BehindIds(v, b) == Some("") || (v != "" && EndsInKey(v[1..], !IsWordChar(v[0])))
  }

  /** The quoted values of a query from which it is taken to ask for keys. */
  predicate NamesKeys(values: seq<string>) {
    match FirstBracket(values)
    case Within(list) => Keys(Split(list)) != []
    case Across => true
    case NoBracket => exists i :: 0 <= i < |values| - 1 && EndsInKey(values[i], true)
  }

  // ---- Within a value ----

  lemma BehindIdsWithin(x: string, y: string, b: bool)
    requires '"' !in x
    ensures BehindIds(x + ("\"" + y), b)
         == match BehindIds(x, b) case Some(d) => Some(d + ("\"" + y)) case None => None
  {
    hide BehindColon;
    var s := x + ("\"" + y);
    PrefixWithin("id", x, "\"" + y);
    PrefixWithin("ids", x, "\"" + y);
    if "id" <= x {
      var n := if "ids" <= x then 3 else 2;
      assert s[n..] == x[n..] + ("\"" + y);
      ColonWithin(x[n..], y);
    }
  }

  lemma PrefixWithin(key: string, x: string, t: string)
    requires t != "" && t[0] !in key
    ensures key <= x + t <==> key <= x
  {
    if |key| > |x| {
      assert key[|x|] in key && (x + t)[|x|] == t[0];
    }
  }

  lemma {:induction false} OpenInValue(x: string, y: string, b: bool)
    requires '"' !in x
    ensures Leftmost(OpenAt, x + ("\"" + y), b)
         == match Leftmost(OpenAt, x, b) case Some(w) => Some(w + ("\"" + y)) case None => Leftmost(OpenAt, y, true)
  {
    hide BehindIds;
    var s := x + ("\"" + y);
    BehindIdsWithin(x, y, b);
    var d := BehindIds(x, b);
    if d.Some? {
      assert d.value != "" ==> (d.value + ("\"" + y))[1..] == d.value[1..] + ("\"" + y);
    }
    if x == "" {
      assert s[1..] == y;
      NoIdsInNothing(b);
    } else {
      assert s[1..] == x[1..] + ("\"" + y);
      OpenInValue(x[1..], y, !IsWordChar(x[0]));
    }
  }

  lemma NoIdsInNothing(b: bool)
    ensures BehindIds("", b).None?
  {
  }

  lemma {:induction false} SingleInValue(x: string, y: string, b: bool)
    requires '"' !in x
    ensures Leftmost(SingleAt, x + ("\"" + y), b).Some?
            <==> (EndsInKey(x, b) && 0 < IndexOf(y, '"') < |y|) || Leftmost(SingleAt, y, true).Some?
  {
    hide BehindIds, IndexOf;
    var s := x + ("\"" + y);
    BehindIdsWithin(x, y, b);
    NoIdsInNothing(b);
    var d := BehindIds(x, b);
    if d.Some? {
      assert d.value == "" ==> (d.value + ("\"" + y))[1..] == y;
      assert d.value != "" ==> (d.value + ("\"" + y))[0] == d.value[0];
      NotAQuote(x, b);
    }
    if x == "" {
      assert s[1..] == y;
    } else {
      assert s[1..] == x[1..] + ("\"" + y);
      SingleInValue(x[1..], y, !IsWordChar(x[0]));
    }
  }

  lemma NotAQuote(x: string, b: bool)
    requires '"' !in x
    ensures BehindIds(x, b).Some? ==> '"' !in BehindIds(x, b).value
  {
  }

  // ---- In front of a value ----

  lemma OpeningHasNoKeys(a: Arg, t: string, k: nat, b: bool)
    requires IsArg(a) && k < |a.lead + Opening(a.key, a.colon, a.start)|
    ensures var s := (a.lead + Opening(a.key, a.colon, a.start)) + t;
            OpenAt(s[k..], b).None? && SingleAt(s[k..], b).None?
  {
    hide BehindColon, Opening, Run, IsGap, IsQuiet;
    var s := (a.lead + Opening(a.key, a.colon, a.start)) + t;
    var u := s[k..];
    var last := |a.lead| + |a.key| - 1;
    OpeningText(a, t);
    if k < |a.lead| && b && "id" <= u {
      var n := if "ids" <= u then 3 else 2;
      assert u[n..] == s[k + n..];
      forall i | 0 <= i <= last - k - n ensures u[n..][i] !in {'"', '['} {
        assert u[n..][i] == s[k + n + i];
      }
      assert u[n..][last - k - n] == s[last];
      SolidAhead(u[n..], last - k - n, '"');
      SolidAhead(u[n..], last - k - n, '[');
    } else if k >= |a.lead| {
      NoIdInOpening(a, t, k);
    }
  }

  /** The characters of an argument up to its opening quote. */
  lemma OpeningText(a: Arg, t: string)
    requires IsArg(a)
    ensures var s := (a.lead + Opening(a.key, a.colon, a.start)) + t;
            var last := |a.lead| + |a.key| - 1;
            && last < |s| && s[last] in {'t', 'r'} && |a.key| >= 4 && !IsBlank(s[last])
            && forall i :: 0 <= i <= last ==> s[i] !in {'"', '['}
  {
    var s := (a.lead + Opening(a.key, a.colon, a.start)) + t;
    var n := |a.lead|;
    forall i | n <= i < n + |a.key| ensures s[i] == a.key[i - n] {}
  }

  lemma NoIdInOpening(a: Arg, t: string, k: nat)
    requires IsArg(a) && |a.lead| <= k < |a.lead + Opening(a.key, a.colon, a.start)|
    ensures !("id" <= ((a.lead + Opening(a.key, a.colon, a.start)) + t)[k..])
  {
    var o := Opening(a.key, a.colon, a.start);
    var s := (a.lead + o) + t;
    var u := s[k..];
    var j := k - |a.lead|;
    assert u[0] == o[j];
    if j < |a.key| {
      assert o[j] == a.key[j];
      assert j == 1 ==> u[1..2] == [a.key[2]];
      assert |u| >= 2 && j + 1 < |a.key| ==> u[1] == a.key[j + 1];
    } else {
      SecondPart(a, j);
    }
  }

  lemma SecondPart(a: Arg, j: nat)
    requires IsArg(a) && |a.key| <= j < |Opening(a.key, a.colon, a.start)|
    ensures Opening(a.key, a.colon, a.start)[j] != 'i'
  {
    var c := a.colon + (":" + (a.start + "\""));
    assert Opening(a.key, a.colon, a.start)[j] == c[j - |a.key|];
  }

  lemma OpeningIsPassed(a: Arg, t: string, b: bool)
    requires IsArg(a)
    ensures var s := (a.lead + Opening(a.key, a.colon, a.start)) + t;
            Leftmost(OpenAt, s, b) == Leftmost(OpenAt, t, true) &&
                Leftmost(SingleAt, s, b) == Leftmost(SingleAt, t, true)
  {
    hide OpenAt, SingleAt, IsArg;
    var pre := a.lead + Opening(a.key, a.colon, a.start);
    assert pre[|pre| - 1] == '"';
    forall k, c | 0 <= k < |pre| ensures OpenAt((pre + t)[k..], c).None? && SingleAt((pre + t)[k..], c).None? {
      OpeningHasNoKeys(a, t, k, c);
    }
    SearchGoesOn(OpenAt, pre, t, b);
    SearchGoesOn(SingleAt, pre, t, b);
  }

  lemma QuietHasNoKeys(s: string, b: bool)
    requires IsQuiet(s)
    ensures Leftmost(OpenAt, s, b).None? && Leftmost(SingleAt, s, b).None?
  {
    forall k, c | 0 <= k <= |s| ensures OpenAt(s[k..], c).None? && SingleAt(s[k..], c).None? {
      BehindIdsIsSuffix(s[k..], c);
      assert forall i :: 0 <= i < |s[k..]| ==> s[k..][i] == s[k + i];
    }
    hide OpenAt, SingleAt;
    NothingFound(OpenAt, s, b);
    NothingFound(SingleAt, s, b);
  }

  /** What stands behind the key is an end of the text. */
  lemma BehindIdsIsSuffix(s: string, b: bool)
    ensures var d := BehindIds(s, b); d.Some? ==> |d.value| < |s| && d.value == s[|s| - |d.value|..]
  {
    if b && "id" <= s {
      BehindColonIsSuffix(s[if "ids" <= s then 3 else 2..]);
    }
  }

  lemma BehindColonIsSuffix(s: string)
    ensures var d := BehindColon(s); d.Some? ==> |d.value| < |s| && d.value == s[|s| - |d.value|..]
  {
  }

  // ---- Through the whole text ----

  /** The leftmost list begins at the leftmost opening: behind it there is a closing bracket or none at all. */
  lemma {:induction false} ListsBeginAtTheOpening(s: string, b: bool)
    ensures Leftmost(ListAt, s, b)
         == match Leftmost(OpenAt, s, b)
            case Some(w) => (if ']' in w then Some(w[..IndexOf(w, ']')]) else None)
            case None => None
  {
    hide OpenAt;
    if OpenAt(s, b).Some? {
      var w := OpenAt(s, b).value;
      IndexIsThere(w, ']');
      if ']' !in w {
        NothingClosesLater(s, b);
        NoListWithout(s, b);
      }
    } else if s != "" {
      ListsBeginAtTheOpening(s[1..], !IsWordChar(s[0]));
    }
  }

  lemma IndexIsThere(s: string, c: char)
    ensures IndexOf(s, c) < |s| <==> c in s
  {
  }

  lemma NothingClosesLater(s: string, b: bool)
    requires OpenAt(s, b).Some? && ']' !in OpenAt(s, b).value
    ensures ']' !in s
  {
    hide BehindColon;
    var n := if "ids" <= s then 3 else 2;
    ClosingBehindColon(s[n..]);
    var d := BehindIds(s, b).value;
    assert d == ['['] + d[1..];
    assert s == s[..n] + s[n..];
    assert ']' !in s[..n] by { assert n == 3 ==> s[..3] == "ids"; assert n == 2 ==> s[..2] == "id"; }
  }

  lemma ClosingBehindColon(s: string)
    requires BehindColon(s).Some? && ']' !in BehindColon(s).value
    ensures ']' !in s
  {
    ClosingBehindBlanks(s);
    var b := s[Run(IsBlank, s)..];
    ClosingBehindBlanks(b[1..]);
    assert b == [b[0]] + b[1..];
  }

  lemma ClosingBehindBlanks(s: string)
    requires ']' !in s[Run(IsBlank, s)..]
    ensures ']' !in s
  {
    var n := Run(IsBlank, s);
    assert s == s[..n] + s[n..];
  }

  lemma {:induction false} NoListWithout(s: string, b: bool)
    requires ']' !in s
    ensures Leftmost(ListAt, s, b).None?
  {
    hide BehindIds;
    BehindIdsIsSuffix(s, b);
    if ListAt(s, b).Some? {
      IndexIsThere(OpenAt(s, b).value, ']');
    }
    if s != "" { NoListWithout(s[1..], !IsWordChar(s[0])); }
  }

  lemma {:induction false} ClosedInValues(w: Woven)
    requires IsWoven(w)
    ensures ']' in Text(w) <==> exists i :: 0 <= i < |w.args| && ']' in w.args[i].value
    decreases |w.args|
  {
    if w.args != [] {
      var rest := Woven(w.args[1..], w.tail);
      ClosedInValues(rest);
      var a := w.args[0];
      OpeningHolds(a);
      assert ']' in Text(w) <==> ']' in a.value || ']' in Text(rest);
      assert forall i :: 0 <= i < |rest.args| ==> rest.args[i] == w.args[i + 1];
    }
  }

  lemma OpeningHolds(a: Arg)
    requires IsArg(a)
    ensures ']' !in a.lead + Opening(a.key, a.colon, a.start)
  {
  }

  predicate Finds(r: Option<string>, f: Bracket) {
    match f
    case NoBracket => r.None?
    case Within(list) => r == Some(list)
    case Across => r.Some? && Keys(Split(r.value)) != []
  }

  function Rest(w: Woven): Woven
    requires w.args != []
  {
    Woven(w.args[1..], w.tail)
  }

  lemma ValuesOfRest(w: Woven)
    requires w.args != []
    ensures Values(w) == [w.args[0].value] + Values(Rest(w)) && Values(w)[1..] == Values(Rest(w))
    ensures |Values(w)| == |w.args|
  {
  }

  lemma {:induction false} ListIsRead(w: Woven, b: bool)
    requires IsWoven(w)
    ensures Finds(Leftmost(ListAt, Text(w), b), FirstBracket(Values(w)))
    decreases |w.args|
  {
    hide OpenAt, ListAt, Keys, Split, Opening, IsArg, IsQuiet;
    ListsBeginAtTheOpening(Text(w), b);
    if w.args == [] {
      QuietHasNoKeys(w.tail, b);
    } else {
      var a, y := w.args[0], Text(Rest(w));
      ListIsRead(Rest(w), true);
      ListsBeginAtTheOpening(y, true);
      OpeningIsPassed(a, a.value + ("\"" + y), b);
      QuotesOnlyOutside(a);
      OpenInValue(a.value, y, true);
      ValuesOfRest(w);
      var open := Leftmost(OpenAt, a.value, true);
      if open.Some? {
        ListBehind(w, open.value);
      }
    }
  }

  lemma QuotesOnlyOutside(a: Arg)
    requires IsArg(a)
    ensures '"' !in a.value
  {
  }

  /** The list that begins with `x` in the first value. */
  lemma ListBehind(w: Woven, x: string)
    requires IsWoven(w) && w.args != []
    ensures var s := x + ("\"" + Text(Rest(w)));
            var n := IndexOf(s, ']');
            && (']' in x ==> ']' in s && s[..n] == x[..IndexOf(x, ']')])
            && (']' !in x && (exists i :: 1 <= i < |Values(w)| && ']' in Values(w)[i]) ==>
                ']' in s && Keys(Split(s[..n])) != [])
            && (']' !in x && !(exists i :: 1 <= i < |Values(w)| && ']' in Values(w)[i]) ==> ']' !in s)
  {
    hide Keys, Split, Opening, IsArg, Text;
    var y := Text(Rest(w));
    var s := x + ("\"" + y);
    ClosedInValues(Rest(w));
    assert ']' in y <==> exists i :: 1 <= i < |Values(w)| && ']' in Values(w)[i] by {
      assert forall i :: 1 <= i < |w.args| ==> Values(w)[i] == Rest(w).args[i - 1].value;
      assert forall i :: 0 <= i < |Rest(w).args| ==> Rest(w).args[i].value == Values(w)[i + 1];
    }
    if ']' in x {
      IndexIsThere(x, ']');
      var n := IndexOf(x, ']');
      assert s[n] == x[n];
      assert forall k :: 0 <= k < n ==> s[k] == x[k];
      RunIs(c => c != ']', s, n);
    } else if ']' in y {
      ListAcross(Rest(w), x);
    }
  }

  lemma ListAcross(w: Woven, x: string)
    requires IsWoven(w) && ']' in Text(w) && ']' !in x
    ensures var s := x + ("\"" + Text(w)); ']' in s && Keys(Split(s[..IndexOf(s, ']')])) != []
  {
    hide Keys, Split;
    var y := Text(w);
    var s := x + ("\"" + y);
    ClosedInValues(w);
    var a := w.args[0];
    var pre := a.lead + Opening(a.key, a.colon, a.start);
    OpeningHolds(a);
    OpeningText(a, "");
    assert pre + "" == pre;
    var last := |a.lead| + |a.key| - 1;
    var k := |x| + 1 + last;
    assert s[k] == y[last] == pre[last];
    forall i | 0 <= i <= k ensures s[i] != ']' {
      if i < |x| {
        assert s[i] in x;
      } else if i > |x| {
        assert s[i] == pre[i - |x| - 1] && pre[i - |x| - 1] in pre;
      }
    }
    IndexIsThere(s, ']');
    var n := IndexOf(s, ']');
    assert n > k;
    SomethingIsKept(s[..n], k);
  }

  // ---- Keys that are kept ----

  lemma {:induction false} SomethingIsKept(s: string, n: nat)
    requires n < |s| && s[n] != ',' && !IsTrimmed(s[n]) && !IsQuote(s[n])
    ensures Keys(Split(s)) != []
  {
    hide Key;
    var i := PartOf(s, n);
    SolidPartsAreKept(Split(s), i, s[n]);
  }

  lemma {:induction false} PartOf(s: string, n: nat) returns (i: nat)
    requires n < |s| && s[n] != ','
    ensures i < |Split(s)| && s[n] in Split(s)[i]
  {
    if n == 0 {
      i := 0;
    } else {
      assert s[1..][n - 1] == s[n];
      i := PartOf(s[1..], n - 1);
      if s[0] == ',' {
        i := i + 1;
      }
    }
  }

  lemma {:induction false} SolidPartsAreKept(parts: seq<string>, i: nat, c: char)
    requires i < |parts| && c in parts[i] && !IsTrimmed(c) && !IsQuote(c)
    ensures Keys(parts) != []
  {
    hide Key;
    if i == 0 {
      SolidIsKept(parts[0], c);
    } else {
      SolidPartsAreKept(parts[1..], i - 1, c);
    }
  }

  lemma SolidIsKept(part: string, c: char)
    requires c in part && !IsTrimmed(c) && !IsQuote(c)
    ensures Key(part) != ""
  {
    TrimKeeps(part, c);
    hide Trim;
    var t := Trim(part);
    var m := Run(IsQuote, t);
    assert t == t[..m] + t[m..];
    StripEndKeeps(t[m..], c);
  }

  lemma TrimKeeps(s: string, c: char)
    requires c in s && !IsTrimmed(c)
    ensures c in Trim(s)
  {
    var n := Run(IsTrimmed, s);
    assert s == s[..n] + s[n..];
    TrimEndKeeps(s[n..], c);
  }

  lemma {:induction false} TrimEndKeeps(s: string, c: char)
    requires c in s && !IsTrimmed(c)
    ensures c in TrimEnd(s)
  {
    if IsTrimmed(s[|s| - 1]) {
      assert s == s[..|s| - 1] + [s[|s| - 1]];
      TrimEndKeeps(s[..|s| - 1], c);
    }
  }

  lemma {:induction false} StripEndKeeps(s: string, c: char)
    requires c in s && !IsQuote(c)
    ensures c in StripEnd(s)
  {
    if IsQuote(s[|s| - 1]) {
      assert s == s[..|s| - 1] + [s[|s| - 1]];
      StripEndKeeps(s[..|s| - 1], c);
    }
  }

  // ---- The result ----

  lemma {:induction false} SingleIsRead(w: Woven, b: bool)
    requires IsWoven(w)
    ensures Leftmost(SingleAt, Text(w), b).Some? <==>
        exists i :: 0 <= i < |Values(w)| - 1 && EndsInKey(Values(w)[i], true)
    decreases |w.args|
  {
    hide SingleAt, OpenAt, BehindIds, IsArg, IsQuiet, Opening;
    if w.args == [] {
      QuietHasNoKeys(w.tail, b);
    } else {
      var a, y := w.args[0], Text(Rest(w));
      SingleIsRead(Rest(w), true);
      OpeningIsPassed(a, a.value + ("\"" + y), b);
      QuotesOnlyOutside(a);
      SingleInValue(a.value, y, true);
      NextQuote(Rest(w));
      ValuesOfRest(w);
      ValuesOfShorter(a.value, Values(Rest(w)));
    }
  }

  lemma ValuesOfShorter(value: string, values: seq<string>)
    ensures (exists i :: 0 <= i < |[value] + values| - 1 && EndsInKey(([value] + values)[i], true))
            <==>
            || (|values| > 0 && EndsInKey(value, true))
            || (exists i :: 0 <= i < |values| - 1 && EndsInKey(values[i], true))
  {
    hide EndsInKey;
    var v := [value] + values;
    if exists i :: 0 <= i < |values| - 1 && EndsInKey(values[i], true) {
      var i :| 0 <= i < |values| - 1 && EndsInKey(values[i], true);
      assert v[i + 1] == values[i];
    }
    if |values| > 0 && EndsInKey(value, true) {
      assert v[0] == value;
    }
  }

  /** Another value follows exactly if another quote does, and then not at once. */
  lemma NextQuote(w: Woven)
    requires IsWoven(w)
    ensures 0 < IndexOf(Text(w), '"') < |Text(w)| <==> |w.args| > 0
  {
    var s := Text(w);
    if w.args == [] {
      RunIs(c => c != '"', s, |s|);
    } else {
      var a := w.args[0];
      OpeningText(a, a.value + ("\"" + Text(Rest(w))));
      assert s[0] != '"';
      assert '"' in Opening(a.key, a.colon, a.start);
      IndexIsThere(s, '"');
    }
  }

  /** A printed query is taken to ask for keys exactly if its quoted values name some. */
  lemma KeysAreRead(w: Woven)
    requires IsWoven(w)
    ensures IdsRead(Text(w)) != [] <==> NamesKeys(Values(w))
  {
    hide Leftmost, Split;
    ListIsRead(w, true);
    SingleIsRead(w, true);
  }

  // ---- Printed queries ----

  function ArgValues(sort: string, filter: string): seq<string> {
    (if sort == "" then [] else [sort]) + if filter == "" then [] else [filter]
  }

  /** The quoted values of a selection in the order they are written. */
  function ValuesIn(items: seq<Item>): seq<string>
    decreases items
  {
    if items == [] then []
    else
      match items[0]
      case Field(_, _) => ValuesIn(items[1..])
      case Related(_, sort, filter, _, _, inner, _) => ArgValues(sort, filter) + ValuesIn(inner) + ValuesIn(items[1..])
  }

  /** One text behind the other. */
  lemma {:induction false} Glued(u: Woven, v: Woven) returns (w: Woven)
    requires IsWoven(u) && IsWoven(v)
    ensures IsWoven(w) && Text(w) == Text(u) + Text(v) && Values(w) == Values(u) + Values(v)
    decreases |u.args|
  {
    if u.args == [] {
      if v.args == [] {
        w := Woven([], u.tail + v.tail);
      } else {
        var a := v.args[0];
        var front := a.(lead := u.tail + a.lead);
        w := Woven([front] + v.args[1..], v.tail);
        hide Opening;
        assert Rest(w) == Rest(v);
        assert Text(w) == u.tail + Text(v);
      }
    } else {
      var rest := Glued(Rest(u), v);
      w := Woven([u.args[0]] + rest.args, rest.tail);
      assert Rest(w) == rest;
      GluedText(u, v, w);
    }
  }

  lemma GluedText(u: Woven, v: Woven, w: Woven)
    requires u.args != [] && w.args != [] && w.args[0] == u.args[0]
    requires Text(Rest(w)) == Text(Rest(u)) + Text(v)
    requires Values(Rest(w)) == Values(Rest(u)) + Values(v)
    ensures Text(w) == Text(u) + Text(v) && Values(w) == Values(u) + Values(v)
  {
    hide Opening;
    ValuesOfRest(u);
    ValuesOfRest(w);
    var a := u.args[0];
    assert [a.value] + (Values(Rest(u)) + Values(v)) == ([a.value] + Values(Rest(u))) + Values(v);
    FrontStays(a.lead + Opening(a.key, a.colon, a.start), a.value, Text(Rest(u)), Text(v));
  }

  lemma FrontStays(front: string, value: string, x: string, y: string)
    ensures front + (value + ("\"" + (x + y))) == (front + (value + ("\"" + x))) + y
  {
  }

  lemma Quiet(s: string) returns (w: Woven)
    requires IsQuiet(s)
    ensures IsWoven(w) && Text(w) == s && Values(w) == []
  {
    w := Woven([], s);
  }

  lemma GapsAreQuiet(g: HeadGaps)
    requires IsHeadGaps(g)
    ensures IsQuiet(g.before + ("(" + g.open)) && IsQuiet(g.sortEnd + ("," + g.filterStart))
    ensures IsQuiet(g.rest + ")") && IsQuiet(g.behind) && IsQuiet(g.before + ("(" + (g.open + (g.rest + ")"))))
  {
  }

  lemma WeaveOne(lead: string, key: string, colon: string, start: string, value: string, tail: string)
      returns (w: Woven)
    requires key in {"sort", "filter"} && IsQuiet(lead) && IsGap(colon) && IsGap(start) &&
        '"' !in value && IsQuiet(tail)
    ensures IsWoven(w) && Text(w) == lead + (PrintArg(key, colon, start, value) + tail) && Values(w) == [value]
  {
    w := Woven([Arg(lead, key, colon, start, value)], tail);
    assert Woven(w.args[1..], w.tail) == Woven([], tail);
    Openings(key, colon, start, value, tail);
  }

  /** A printed argument list by its pieces. */
  lemma ArgsPieces(sort: string, filter: string, g: HeadGaps)
    ensures var lead, tail := g.before + ("(" + g.open), g.rest + ")";
            var comma := g.sortEnd + ("," + g.filterStart);
            PrintArgs(sort, filter, g)
            == if !HasArgs(sort, filter, g) then ""
               else if sort == "" && filter == "" then g.before + ("(" + (g.open + (g.rest + ")")))
               else if filter == "" then lead + (SortText(sort, g) + tail)
               else if sort == "" then lead + (FilterText(filter, g) + tail)
               else (lead + (SortText(sort, g) + "")) + (comma + (FilterText(filter, g) + tail))
  {
    hide PrintArg, SortText, FilterText;
    var comma := g.sortEnd + ("," + g.filterStart);
    if sort == "" || filter == "" {
    } else {
      BothPieces(SortText(sort, g), comma, FilterText(filter, g), g);
    }
  }

  lemma BothPieces(x: string, comma: string, y: string, g: HeadGaps)
    ensures g.before + ("(" + (g.open + (x + (comma + (y + g.rest)))) + ")")
         == (g.before + ("(" + g.open) + (x + "")) + (comma + (y + (g.rest + ")")))
  {
  }

  lemma WeaveArgs(sort: string, filter: string, g: HeadGaps) returns (w: Woven)
    requires IsSortArg(sort) && IsFilterArg(filter) && IsHeadGaps(g)
    ensures IsWoven(w) && Text(w) == PrintArgs(sort, filter, g) && Values(w) == ArgValues(sort, filter)
  {
    GapsAreQuiet(g);
    ArgsPieces(sort, filter, g);
    assert IsQuiet("") && '"' !in sort && '"' !in filter;
    var lead, tail := g.before + ("(" + g.open), g.rest + ")";
    hide PrintArg, PrintArgs, IsQuiet, IsSortArg, IsFilterArg, IsGap, IsWoven, Text, Values;
    if !HasArgs(sort, filter, g) {
      w := Quiet("");
    } else if sort == "" && filter == "" {
      w := Quiet(g.before + ("(" + (g.open + (g.rest + ")"))));
    } else if filter == "" {
      w := WeaveOne(lead, "sort", g.sortColon, g.sortValue, sort, tail);
    } else if sort == "" {
      w := WeaveOne(lead, "filter", g.filterColon, g.filterValue, filter, tail);
    } else {
      var u := WeaveOne(lead, "sort", g.sortColon, g.sortValue, sort, "");
      var v := WeaveOne(g.sortEnd + ("," + g.filterStart), "filter", g.filterColon, g.filterValue, filter, tail);
      w := Glued(u, v);
    }
  }

  lemma WeaveBlock(inner: Woven, x: string, g: BlockGaps) returns (w: Woven)
    requires IsWoven(inner) && Text(inner) == x && IsBlockGaps(g)
    ensures IsWoven(w) && Text(w) == BlockText(x, g) && Values(w) == Values(inner)
  {
    BlockAround(x, g);
    hide BlockText, IsWoven, Text, Values, IsQuiet;
    var pre := Quiet(BlockStart(g));
    var post := Quiet(BlockEnd(g));
    var front := Glued(pre, inner);
    w := Glued(front, post);
    assert [] + Values(inner) + [] == Values(inner);
  }

  function BlockStart(g: BlockGaps): string {
    ("{" + (g.beforeEdges + ("edges" + (g.afterEdges + ("{" + g.beforeNode))))) +
        ("node" + (g.afterNode + ("{" + g.beforeItems)))
  }

  function BlockEnd(g: BlockGaps): string {
    g.afterItems + ("}" + (g.afterNodeBlock + ("}" + (g.afterEdgesBlock + "}"))))
  }

  lemma BlockAround(x: string, g: BlockGaps)
    requires IsBlockGaps(g)
    ensures BlockText(x, g) == (BlockStart(g) + x) + BlockEnd(g) && IsQuiet(BlockStart(g)) && IsQuiet(BlockEnd(g))
  {
    BlockPieces(x, g, "");
    NodePieces(x, g, g.afterNodeBlock + ("}" + (g.afterEdgesBlock + ("}" + ""))));
    hide NodeText, BlockText;
    assert BlockText(x, g) + "" == BlockText(x, g);
  }

  lemma NodePieces(x: string, g: BlockGaps, t: string)
    ensures NodeText(x, g) + t == ("node" + (g.afterNode + ("{" + g.beforeItems))) + (x + (g.afterItems + ("}" + t)))
  {
  }

  lemma NamesAreQuiet(s: string)
    requires IsName(s) || IsGap(s)
    ensures IsQuiet(s)
  {
  }

  lemma {:induction false} WeaveItems(items: seq<Item>) returns (w: Woven)
    requires Printable(items)
    ensures IsWoven(w) && Text(w) == Print(items) && Values(w) == ValuesIn(items)
    decreases items
  {
    hide IsWoven, Text, Values, IsQuiet, BlockText, PrintArgs, IsHeadGaps, IsBlockGaps, IsName, IsGap;
    if items == [] {
      NamesAreQuiet("") by { GapIsEmpty(); }
      w := Quiet("");
    } else {
      var item := items[0];
      AfterIsGap(items);
      NamesAreQuiet(item.name);
      NamesAreQuiet(item.after);
      var first := Quiet(item.name);
      if item.Related? {
        var inner := WeaveItems(item.items);
        var block := WeaveBlock(inner, Print(item.items), item.block);
        first := WeaveRelated(item, block);
      }
      var gap := Quiet(item.after);
      var rest := WeaveItems(items[1..]);
      var tail := Glued(gap, rest);
      w := Glued(first, tail);
    }
  }

  lemma GapIsEmpty()
    ensures IsGap("")
  {
  }

  lemma WeaveHead(sort: string, filter: string, g: HeadGaps, t: Woven) returns (w: Woven)
    requires IsSortArg(sort) && IsFilterArg(filter) && IsHeadGaps(g) && IsWoven(t)
    ensures IsWoven(w) && Text(w) == PrintArgs(sort, filter, g) + (g.behind + Text(t))
    ensures Values(w) == ArgValues(sort, filter) + Values(t)
  {
    GapsAreQuiet(g);
    hide *;
    var args := WeaveArgs(sort, filter, g);
    var behind := Quiet(g.behind);
    var end := Glued(behind, t);
    w := Glued(args, end);
  }

  lemma WeaveRelated(item: Item, block: Woven) returns (w: Woven)
    requires item.Related? && IsName(item.name) && IsRelated(item.sort, item.filter, item.head, item.block)
    requires IsWoven(block) && Text(block) == PrintBlock(item.items, item.block)
    ensures IsWoven(w) && Text(w) == PrintItem(item)
    ensures Values(w) == ArgValues(item.sort, item.filter) + Values(block)
  {
    NamesAreQuiet(item.name);
    hide IsWoven, Text, Values, IsQuiet, PrintBlock, PrintArgs, IsHeadGaps, IsBlockGaps, IsName, IsSortArg, IsFilterArg,
      ArgValues;
    var name := Quiet(item.name);
    var tail := WeaveHead(item.sort, item.filter, item.head, block);
    w := Glued(name, tail);
  }
}
