/** Printing a selection as query text and reading it back. The text is a selection set with aliases, fragments and
    directives left out: a subset of sections 2.4 and 2.6 of the GraphQL specification, October 2021. */
module QueryRoundTrip {
  import opened Wrappers
  import opened QueryText

  /** White space between two tokens. */
  predicate IsGap(s: string) {
    forall k :: 0 <= k < |s| ==> s[k] == ' ' || s[k] == '\t' || s[k] == '\n' || s[k] == '\r'
  }

  /** The white space in front of an argument list, inside it and behind it. What stands between the last of the two
      arguments and the closing parenthesis may also be other arguments, which are passed over. */
  datatype HeadGaps = HeadGaps(
    before: string, open: string, sortColon: string, sortValue: string, sortEnd: string,
    filterStart: string, filterColon: string, filterValue: string, rest: string, behind: string)

  /** The white space in `{ edges { node { … } } }`. */
  datatype BlockGaps = BlockGaps(
    beforeEdges: string, afterEdges: string, beforeNode: string, afterNode: string,
    beforeItems: string, afterItems: string, afterNodeBlock: string, afterEdgesBlock: string)

  /** The items of a selection set in the order they are written, with the white space they are written with. */
  datatype Item =
    Field(name: string, after: string)
  | Related(name: string, sort: string, filter: string, head: HeadGaps, block: BlockGaps,
      items: seq<Item>, after: string)

  predicate IsName(s: string) {
    && s != ""
    && forall k :: 0 <= k < |s| ==> 'a' <= s[k] <= 'z' || 'A' <= s[k] <= 'Z' || '0' <= s[k] <= '9' || s[k] == '_'
  }

  /** A sort argument is a column name, possibly preceded by a minus sign. */
  predicate IsSortArg(s: string) {
    forall k :: 0 <= k < |s| ==> IsWordChar(s[k]) || s[k] == '-'
  }

  predicate IsFilterArg(s: string) {
    forall k :: 0 <= k < |s| ==> s[k] !in {'"', '(', ')', '{', '}'}
  }

  predicate IsRest(s: string) {
    forall k :: 0 <= k < |s| ==> s[k] !in {'"', '\'', '(', ')', '{', '}', '[', ']'}
  }

  predicate IsHeadGaps(g: HeadGaps) {
    && IsGap(g.before) && IsGap(g.open) && IsGap(g.sortColon) && IsGap(g.sortValue) && IsGap(g.sortEnd)
    && IsGap(g.filterStart) && IsGap(g.filterColon) && IsGap(g.filterValue) && IsRest(g.rest) && IsGap(g.behind)
  }

  /** Any white space will do, but the word `node` is not recognised in front of a carriage return. */
  predicate IsBlockGaps(g: BlockGaps) {
    AreGaps(g) && (g.afterNode != "" ==> g.afterNode[0] != '\r')
  }

  predicate AreGaps(g: BlockGaps) {
    && IsGap(g.beforeEdges) && IsGap(g.afterEdges) && IsGap(g.beforeNode) && IsGap(g.afterNode)
    && IsGap(g.beforeItems) && IsGap(g.afterItems) && IsGap(g.afterNodeBlock) && IsGap(g.afterEdgesBlock)
  }

  /** Two fields need something between them; what follows the last item belongs to the block. */
  predicate Printable(items: seq<Item>) {
    forall i :: 0 <= i < |items| ==>
      && IsName(items[i].name)
      && (if i == |items| - 1 then items[i].after == ""
          else IsGap(items[i].after) && (items[i].Field? ==> items[i].after != ""))
      && (items[i].Related? ==>
            && IsRelated(items[i].sort, items[i].filter, items[i].head, items[i].block)
            && HoldsSomething(items[i].items, items[i].block)
            && Printable(items[i].items))
  }

  /** A node's braces with nothing at all between them, not even white space, are taken for no node. */
  predicate HoldsSomething(items: seq<Item>, g: BlockGaps) {
    items != [] || g.beforeItems != "" || g.afterItems != ""
  }

  predicate IsRelated(sort: string, filter: string, head: HeadGaps, block: BlockGaps) {
    IsSortArg(sort) && IsFilterArg(filter) && IsHeadGaps(head) && IsBlockGaps(block)
  }

  function PrintArg(key: string, colon: string, start: string, value: string): string {
    key + (colon + (":" + (start + ("\"" + (value + "\"")))))
  }

  function SortText(sort: string, g: HeadGaps): string { PrintArg("sort", g.sortColon, g.sortValue, sort) }

  function FilterText(filter: string, g: HeadGaps): string { PrintArg("filter", g.filterColon, g.filterValue, filter) }

  function ArgsText(sort: string, filter: string, g: HeadGaps): string {
    g.open
    + if sort == "" && filter == "" then g.rest
      else if filter == "" then SortText(sort, g) + g.rest
      else if sort == "" then FilterText(filter, g) + g.rest
      else SortText(sort, g) + ((g.sortEnd + ("," + g.filterStart)) + (FilterText(filter, g) + g.rest))
  }

  function PrintArgs(sort: string, filter: string, g: HeadGaps): string {
    if HasArgs(sort, filter, g) then g.before + ("(" + ArgsText(sort, filter, g) + ")") else ""
  }

  /** Without any argument the parentheses are left out. */
  predicate HasArgs(sort: string, filter: string, g: HeadGaps) { sort != "" || filter != "" || g.rest != "" }

  function PrintItem(item: Item): string
    decreases item, 1
  {
    match item
    case Field(name, _) => name
    case Related(name, sort, filter, head, block, items, _) =>
      name + (PrintArgs(sort, filter, head) + (head.behind + PrintBlock(items, block)))
  }

  function Braces(before: string, x: string, after: string): string { "{" + (before + x + after) + "}" }

  function NodeText(x: string, g: BlockGaps): string { "node" + (g.afterNode + Braces(g.beforeItems, x, g.afterItems)) }

  function EdgesText(x: string, g: BlockGaps): string {
    "edges" + (g.afterEdges + Braces(g.beforeNode, NodeText(x, g), g.afterNodeBlock))
  }

  function BlockText(x: string, g: BlockGaps): string { Braces(g.beforeEdges, EdgesText(x, g), g.afterEdgesBlock) }

  /** `{ edges { node { … } } }` */
  function PrintBlock(items: seq<Item>, g: BlockGaps): string
    decreases items, 1
  {
    BlockText(Print(items), g)
  }

  function Print(items: seq<Item>): string
    decreases items, 0
  {
    if items == [] then "" else PrintItem(items[0]) + (items[0].after + Print(items[1..]))
  }

  /** What reading should give back: the fields in order and the relationships in order. */
  function Meaning(items: seq<Item>): Selection
    decreases items
  {
    if items == [] then NOTHING
    else
      var rest := Meaning(items[1..]);
      match items[0]
      case Field(name, _) => Selection([name] + rest.fields, rest.rels)
      case Related(name, sort, filter, _, _, inner, _) =>
        var m := Meaning(inner);
        Selection(rest.fields, [Rel(name, sort, filter, m.fields, m.rels)] + rest.rels)
  }

  // ---- Brackets in printed text ----

  /** The depth after reading `s` from depth `d`, or 0 once the bracket at depth 1 has been closed. */
  function Depth(s: string, d: nat, open: char, close: char): nat {
    if d == 0 || s == "" then d
    else if s[0] == open then Depth(s[1..], d + 1, open, close)
    else if s[0] == close then Depth(s[1..], d - 1, open, close)
    else Depth(s[1..], d, open, close)
  }

  lemma {:induction false} DepthOfConcat(s: string, t: string, d: nat, open: char, close: char)
    ensures Depth(s + t, d, open, close) == Depth(t, Depth(s, d, open, close), open, close)
  {
    if d != 0 && s != "" {
      assert (s + t)[1..] == s[1..] + t;
      var e := if s[0] == open then d + 1 else if s[0] == close then d - 1 else d;
      DepthOfConcat(s[1..], t, e, open, close);
    } else if s == "" {
      assert s + t == t;
    }
  }

  lemma {:induction false} CloseSkips(s: string, t: string, d: nat, open: char, close: char)
    requires d > 0 && Depth(s, d, open, close) > 0 && open != close
    ensures Close(s + t, d, open, close) == |s| + Close(t, Depth(s, d, open, close), open, close)
  {
    if s == "" {
      assert s + t == t;
    } else {
      assert (s + t)[1..] == s[1..] + t;
      var e := if s[0] == open then d + 1 else if s[0] == close then d - 1 else d;
      CloseSkips(s[1..], t, e, open, close);
    }
  }

  lemma {:induction false} PlainTextKeepsDepth(s: string, d: nat, open: char, close: char)
    requires forall k :: 0 <= k < |s| ==> s[k] != open && s[k] != close
    ensures Depth(s, d, open, close) == d
  {
    if d != 0 && s != "" { PlainTextKeepsDepth(s[1..], d, open, close); }
  }

  /** A balanced text between brackets is exactly what the scan takes out. */
  lemma BracketsAreFound(x: string, t: string, open: char, close: char)
    requires open != close && Depth(x, 1, open, close) == 1
    ensures var s := [open] + x + [close] + t;
            Inside(s, open, close) == x && Past(s, open, close) == |x| + 2
  {
    var s := [open] + x + [close] + t;
    assert s[1..] == x + ([close] + t);
    CloseSkips(x, [close] + t, 1, open, close);
    assert Close(s, 0, open, close) == 1 + |x|;
    assert s[1..1 + |x|] == x;
  }

  lemma GapsAreFlat(s: string, d: nat)
    requires IsGap(s)
    ensures Depth(s, d, '{', '}') == d
  {
    PlainTextKeepsDepth(s, d, '{', '}');
  }

  lemma BracesAreBalanced(before: string, x: string, after: string, d: nat)
    requires d > 0 && IsGap(before) && IsGap(after) && Depth(x, d + 1, '{', '}') == d + 1
    ensures Depth(Braces(before, x, after), d, '{', '}') == d
  {
    PaddedDepth(before, x, after, d + 1);
    var padded := before + x + after;
    hide IsGap;
    DepthOfConcat(padded, "}", d + 1, '{', '}');
    assert Depth("}", d + 1, '{', '}') == d;
    assert Braces(before, x, after)[1..] == padded + "}";
  }

  lemma PaddedDepth(before: string, x: string, after: string, d: nat)
    requires IsGap(before) && IsGap(after) && Depth(x, d, '{', '}') == d
    ensures Depth(before + x + after, d, '{', '}') == d
  {
    hide Depth;
    GapsAreFlat(before, d);
    GapsAreFlat(after, d);
    DepthOfConcat(before, x, d, '{', '}');
    DepthOfConcat(before + x, after, d, '{', '}');
  }

  lemma PlainPrefix(pre: string, x: string, d: nat)
    requires forall k :: 0 <= k < |pre| ==> pre[k] != '{' && pre[k] != '}'
    requires Depth(x, d, '{', '}') == d
    ensures Depth(pre + x, d, '{', '}') == d
  {
    PlainTextKeepsDepth(pre, d, '{', '}');
    DepthOfConcat(pre, x, d, '{', '}');
  }

  lemma WordPrefix(word: string, gap: string, x: string, d: nat)
    requires IsName(word) && IsGap(gap) && Depth(x, d, '{', '}') == d
    ensures Depth(word + (gap + x), d, '{', '}') == d
  {
    hide Depth;
    PlainPrefix(gap, x, d);
    PlainPrefix(word, gap + x, d);
  }

  lemma Keywords()
    ensures IsName("node") && IsName("edges")
  {
  }

  lemma {:induction false} DepthFromBelow(x: string, d: nat, more: nat)
    requires d > 0 && Depth(x, d, '{', '}') > 0
    ensures Depth(x, d + more, '{', '}') == Depth(x, d, '{', '}') + more
  {
    if x != "" {
      var e := if x[0] == '{' then d + 1 else if x[0] == '}' then d - 1 else d;
      DepthFromBelow(x[1..], e, more);
    }
  }

  /** Text balanced at one depth is balanced at every depth above. */
  predicate IsBalanced(x: string) { Depth(x, 1, '{', '}') == 1 }

  lemma Deeper(x: string, d: nat)
    requires IsBalanced(x) && d > 0
    ensures Depth(x, d, '{', '}') == d
  {
    DepthFromBelow(x, 1, d - 1);
  }

  lemma BlocksAreBalanced(x: string, g: BlockGaps)
    requires IsBalanced(x) && IsBlockGaps(g)
    ensures IsBalanced(NodeText(x, g)) && IsBalanced(EdgesText(x, g)) && IsBalanced(BlockText(x, g))
  {
    hide Depth, Braces, IsGap;
    Keywords();
    Deeper(x, 2);
    BracesAreBalanced(g.beforeItems, x, g.afterItems, 1);
    WordPrefix("node", g.afterNode, Braces(g.beforeItems, x, g.afterItems), 1);
    Deeper(NodeText(x, g), 2);
    BracesAreBalanced(g.beforeNode, NodeText(x, g), g.afterNodeBlock, 1);
    WordPrefix("edges", g.afterEdges, Braces(g.beforeNode, NodeText(x, g), g.afterNodeBlock), 1);
    Deeper(EdgesText(x, g), 2);
    BracesAreBalanced(g.beforeEdges, EdgesText(x, g), g.afterEdgesBlock, 1);
  }

  predicate IsFlat(s: string) {
    forall k :: 0 <= k < |s| ==> s[k] !in {'(', ')', '{', '}'}
  }

  lemma JoinedFlat(s: string, t: string)
    requires IsFlat(s) && IsFlat(t)
    ensures IsFlat(s + t)
  {
  }

  lemma FlatPieces(sort: string, filter: string, g: HeadGaps)
    requires IsSortArg(sort) && IsFilterArg(filter) && IsHeadGaps(g)
    ensures IsFlat(SortText(sort, g)) && IsFlat(FilterText(filter, g))
    ensures IsFlat(g.open) && IsFlat(g.rest) && IsFlat(g.sortEnd + ("," + g.filterStart)) &&
        IsFlat(g.before) && IsFlat(g.behind)
  {
  }

  lemma ArgsAreFlat(sort: string, filter: string, g: HeadGaps)
    requires IsSortArg(sort) && IsFilterArg(filter) && IsHeadGaps(g)
    ensures IsFlat(ArgsText(sort, filter, g))
  {
    FlatPieces(sort, filter, g);
    hide IsFlat, SortText, FilterText;
    var comma := g.sortEnd + ("," + g.filterStart);
    JoinedFlat(SortText(sort, g), g.rest);
    JoinedFlat(FilterText(filter, g), g.rest);
    JoinedFlat(comma, FilterText(filter, g) + g.rest);
    JoinedFlat(SortText(sort, g), comma + (FilterText(filter, g) + g.rest));
    JoinedFlat(g.open, SortText(sort, g) + g.rest);
    JoinedFlat(g.open, FilterText(filter, g) + g.rest);
    JoinedFlat(g.open, SortText(sort, g) + (comma + (FilterText(filter, g) + g.rest)));
  }

  lemma ArgsHaveNoBraces(sort: string, filter: string, g: HeadGaps)
    requires IsSortArg(sort) && IsFilterArg(filter) && IsHeadGaps(g)
    ensures var h := PrintArgs(sort, filter, g); forall k :: 0 <= k < |h| ==> h[k] != '{' && h[k] != '}'
  {
    ArgsAreFlat(sort, filter, g);
    hide ArgsText;
  }

  lemma {:induction false} PrintIsBalanced(items: seq<Item>)
    requires Printable(items)
    ensures IsBalanced(Print(items))
    decreases items
  {
    hide Depth, BlockText, PrintArgs, IsHeadGaps, IsBlockGaps;
    if items == [] {
      PlainTextKeepsDepth("", 1, '{', '}');
    } else {
      var item, rest := items[0], items[1..];
      match item {
        case Field(name, _) => PlainTextKeepsDepth(name, 1, '{', '}');
        case Related(name, sort, filter, head, block, inner, _) =>
          PrintIsBalanced(inner);
          BlocksAreBalanced(Print(inner), block);
          RelatedIsBalanced(name, sort, filter, head, PrintBlock(inner, block));
      }
      PrintIsBalanced(rest);
      AfterIsGap(items);
      PlainPrefix(item.after, Print(rest), 1);
      DepthOfConcat(PrintItem(item), item.after + Print(rest), 1, '{', '}');
    }
  }

  lemma AfterIsGap(items: seq<Item>)
    requires Printable(items) && items != []
    ensures items[0].Related? ==> HoldsSomething(items[0].items, items[0].block)
    ensures IsGap(items[0].after) && forall k :: 0 <= k < |items[0].after| ==>
        items[0].after[k] != '{' && items[0].after[k] != '}'
    ensures Printable(items[1..])
  {
    forall i | 0 <= i < |items[1..]| ensures items[1..][i] == items[i + 1] {}
  }

  lemma RelatedIsBalanced(name: string, sort: string, filter: string, g: HeadGaps, block: string)
    requires IsName(name) && IsSortArg(sort) && IsFilterArg(filter) && IsHeadGaps(g) && IsBalanced(block)
    ensures IsBalanced(name + (PrintArgs(sort, filter, g) + (g.behind + block)))
  {
    ArgsHaveNoBraces(sort, filter, g);
    hide Depth, PrintArgs;
    PlainPrefix(g.behind, block, 1);
    PlainPrefix(PrintArgs(sort, filter, g), g.behind + block, 1);
    PlainPrefix(name, PrintArgs(sort, filter, g) + (g.behind + block), 1);
  }

  // ---- Arguments ----

  /** A quoted value is found whatever stands behind it. */
  lemma MatchQuoted(key: string, colon: string, start: string, value: string, t: string, quote: char, nonEmpty: bool)
    requires quote !in value && (nonEmpty ==> value != "") && IsGap(colon) && IsGap(start) && quote in {'"', '\''}
    ensures MatchAt(key + (colon + (":" + (start + ([quote] + (value + ([quote] + t)))))), key, quote, nonEmpty)
            == Some(value)
  {
    hide Run;
    var quoted := [quote] + (value + ([quote] + t));
    var s := key + (colon + (":" + (start + quoted)));
    var a := s[|key|..];
    assert s[..|key|] == key && a == colon + (":" + (start + quoted));
    RunIs(IsBlank, a, |colon|);
    var b := a[|colon|..];
    assert b == ":" + (start + quoted);
    var c := b[1..];
    assert c == start + quoted;
    RunIs(IsBlank, c, |start|);
    var d := c[|start|..];
    assert d == quoted;
    QuotedValue(value, t, quote);
  }

  lemma MatchHere(key: string, colon: string, start: string, value: string, t: string, nonEmpty: bool)
    requires '"' !in value && (nonEmpty ==> value != "") && IsGap(colon) && IsGap(start)
    ensures MatchAt(PrintArg(key, colon, start, value) + t, key, '"', nonEmpty) == Some(value)
  {
    hide MatchAt;
    ArgText(key, colon, start, value, t);
    MatchQuoted(key, colon, start, value, t, '"', nonEmpty);
  }

  lemma ArgText(key: string, colon: string, start: string, value: string, t: string)
    ensures PrintArg(key, colon, start, value) + t == key + (colon + (":" + (start + ("\"" + (value + ("\"" + t))))))
  {
  }

  lemma QuotedValue(value: string, t: string, quote: char)
    requires quote !in value
    ensures var d := [quote] + (value + ([quote] + t));
            d[0] == quote && IndexOf(d[1..], quote) == |value| && |value| < |d[1..]| && d[1..][..|value|] == value
  {
    var d := value + ([quote] + t);
    assert ([quote] + d)[1..] == d;
    forall k | 0 <= k < |value| ensures d[k] != quote { assert d[k] == value[k] && value[k] in value; }
    assert d[|value|] == quote;
    RunIs(x => x != quote, d, |value|);
  }

  /** A match needs an opening and a closing quote. */
  lemma MatchNeedsQuotes(s: string, key: string, quote: char, nonEmpty: bool)
    requires MatchAt(s, key, quote, nonEmpty).Some?
    ensures exists i, j :: 0 <= i < j < |s| && s[i] == quote && s[j] == quote
  {
    var i := OpeningQuote(s, key, quote, nonEmpty);
    hide MatchAt;
    var t := s[i + 1..];
    assert s[i..][1..] == t;
    var n := IndexOf(t, quote);
    assert t[n] == quote;
    hide IndexOf;
    assert s[i + 1 + n] == t[n];
  }

  /** Where a match has its opening quote. */
  lemma OpeningQuote(s: string, key: string, quote: char, nonEmpty: bool) returns (i: nat)
    requires MatchAt(s, key, quote, nonEmpty).Some?
    ensures i < |s| && s[i] == quote && IndexOf(s[i..][1..], quote) < |s[i..][1..]|
  {
    hide Run;
    var a := s[|key|..];
    var m := Run(IsBlank, a);
    var c := a[m..][1..];
    var n := Run(IsBlank, c);
    i := |key| + m + 1 + n;
    SuffixOfSuffix(s, |key|, m, n);
    assert c[n..] == s[i..];
  }

  lemma SuffixOfSuffix(s: string, k: nat, m: nat, n: nat)
    requires k + m + 1 + n <= |s|
    ensures s[k..][m..][1..][n..] == s[k + m + 1 + n..]
  {
  }

  lemma {:induction false} FewQuotesNoMatch(s: string, key: string, quote: char, nonEmpty: bool)
    requires forall i, j :: 0 <= i < j < |s| ==> s[i] != quote || s[j] != quote
    ensures FirstMatch(s, key, quote, nonEmpty).None?
  {
    if MatchAt(s, key, quote, nonEmpty).Some? { MatchNeedsQuotes(s, key, quote, nonEmpty); }
    if s != "" { FewQuotesNoMatch(s[1..], key, quote, nonEmpty); }
  }

  /** The search passes over characters the key does not start with. */
  lemma {:induction false} SearchSkips(pre: string, t: string, key: string, quote: char, nonEmpty: bool)
    requires key != "" && forall k :: 0 <= k < |pre| ==> pre[k] != key[0]
    ensures FirstMatch(pre + t, key, quote, nonEmpty) == FirstMatch(t, key, quote, nonEmpty)
  {
    if pre == "" {
      assert pre + t == t;
    } else {
      assert (pre + t)[1..] == pre[1..] + t;
      assert (pre + t)[0] != key[0];
      SearchSkips(pre[1..], t, key, quote, nonEmpty);
    }
  }

  /** It also passes over text without a colon in front of the key itself. */
  lemma {:induction false} SearchSkipsColonless(pre: string, t: string, key: string, quote: char, nonEmpty: bool)
    requires key != "" && key <= t && ':' !in pre && ':' !in key && forall k :: 0 <= k < |key| ==> !IsBlank(key[k])
    ensures FirstMatch(pre + t, key, quote, nonEmpty) == FirstMatch(t, key, quote, nonEmpty)
  {
    if pre == "" {
      assert pre + t == t;
    } else {
      var s := pre + t;
      assert s[1..] == pre[1..] + t;
      if key <= s {
        var a := s[|key|..];
        var m := Run(IsBlank, a);
        var last := |pre| + |key| - 1;
        assert s[last] == key[|key| - 1];
        assert |key| <= last && a[last - |key|] == s[last];
        assert m <= last - |key|;
        assert a[m] == s[|key| + m];
        assert a[m] != ':' by { if |key| + m >= |pre| { assert s[|key| + m] == key[|key| + m - |pre|]; } }
      }
      SearchSkipsColonless(pre[1..], t, key, quote, nonEmpty);
    }
  }

  lemma {:induction false} GapsHaveNoKeys(gap: string, t: string, key: string, quote: char, nonEmpty: bool)
    requires IsGap(gap) && key != "" && !IsSpace(key[0])
    ensures FirstMatch(gap + t, key, quote, nonEmpty) == FirstMatch(t, key, quote, nonEmpty)
  {
    SearchSkips(gap, t, key, quote, nonEmpty);
  }

  lemma ArgsReadBack(sort: string, filter: string, g: HeadGaps)
    requires IsSortArg(sort) && IsFilterArg(filter) && IsHeadGaps(g)
    ensures SortArg(ArgsText(sort, filter, g)) == sort && FilterArg(ArgsText(sort, filter, g)) == filter
  {
    hide MatchAt, Run, FirstMatch;
    if sort == "" && filter == "" {
      var args := g.open + g.rest;
      FewQuotesNoMatch(args, "sort", '"', true);
      FewQuotesNoMatch(args, "filter", '"', false);
      FewQuotesNoMatch(args, "filter", '\'', false);
    } else if sort == "" {
      FilterAlone(filter, g);
    } else if filter == "" {
      SortAlone(sort, g);
    } else {
      SortAndFilter(sort, filter, g);
    }
  }

  /** The text of an argument up to and with its opening quote. */
  function Opening(key: string, colon: string, start: string): string { key + (colon + (":" + (start + "\""))) }

  lemma Openings(key: string, colon: string, start: string, value: string, t: string)
    ensures PrintArg(key, colon, start, value) + t == Opening(key, colon, start) + (value + ("\"" + t))
  {
    ArgText(key, colon, start, value, t);
  }

  lemma FilterAlone(filter: string, g: HeadGaps)
    requires IsFilterArg(filter) && IsHeadGaps(g) && filter != ""
    ensures var args := g.open + (FilterText(filter, g) + g.rest); SortArg(args) == "" && FilterArg(args) == filter
  {
    hide MatchAt, Run, FirstMatch;
    var t := FilterText(filter, g) + g.rest;
    GapsHaveNoKeys(g.open, t, "sort", '"', true);
    GapsHaveNoKeys(g.open, t, "filter", '"', false);
    MatchHere("filter", g.filterColon, g.filterValue, filter, g.rest, false);
    FirstIsHere(t, "filter", '"', false);
    var opening, tail := Opening("filter", g.filterColon, g.filterValue), filter + ("\"" + g.rest);
    Openings("filter", g.filterColon, g.filterValue, filter, g.rest);
    SearchSkips(opening, tail, "sort", '"', true);
    OneQuoteNoMatch(filter, g.rest, "sort", true);
  }

  lemma OneQuoteNoMatch(value: string, t: string, key: string, nonEmpty: bool)
    requires '"' !in value && '"' !in t
    ensures FirstMatch(value + ("\"" + t), key, '"', nonEmpty).None?
  {
    var s := value + ("\"" + t);
    forall i | 0 <= i < |s| && i != |value| ensures s[i] != '"' {
      if i < |value| {
        assert s[i] == value[i] && value[i] in value;
      } else {
        assert s[i] == t[i - |value| - 1] && t[i - |value| - 1] in t;
      }
    }
    FewQuotesNoMatch(s, key, '"', nonEmpty);
  }

  lemma FirstIsHere(s: string, key: string, quote: char, nonEmpty: bool)
    requires MatchAt(s, key, quote, nonEmpty).Some?
    ensures FirstMatch(s, key, quote, nonEmpty) == MatchAt(s, key, quote, nonEmpty)
  {
    hide MatchAt;
  }

  lemma SortAlone(sort: string, g: HeadGaps)
    requires IsSortArg(sort) && IsHeadGaps(g) && sort != ""
    ensures var args := g.open + (SortText(sort, g) + g.rest); SortArg(args) == sort && FilterArg(args) == ""
  {
    hide MatchAt, Run, FirstMatch;
    var t := SortText(sort, g) + g.rest;
    var args := g.open + t;
    GapsHaveNoKeys(g.open, t, "sort", '"', true);
    GapsHaveNoKeys(g.open, t, "filter", '"', false);
    MatchHere("sort", g.sortColon, g.sortValue, sort, g.rest, true);
    FirstIsHere(t, "sort", '"', true);
    var opening, tail := Opening("sort", g.sortColon, g.sortValue), sort + ("\"" + g.rest);
    Openings("sort", g.sortColon, g.sortValue, sort, g.rest);
    SearchSkips(opening, tail, "filter", '"', false);
    OneQuoteNoMatch(sort, g.rest, "filter", false);
    FewQuotesNoMatch(args, "filter", '\'', false);
  }

  lemma SortAndFilter(sort: string, filter: string, g: HeadGaps)
    requires IsSortArg(sort) && IsFilterArg(filter) && IsHeadGaps(g) && sort != "" && filter != ""
    ensures var args :=
              g.open + (SortText(sort, g) + ((g.sortEnd + ("," + g.filterStart)) + (FilterText(filter, g) + g.rest)));
            SortArg(args) == sort && FilterArg(args) == filter
  {
    hide MatchAt, Run, FirstMatch;
    var comma, last := g.sortEnd + ("," + g.filterStart), FilterText(filter, g) + g.rest;
    var t := SortText(sort, g) + (comma + last);
    GapsHaveNoKeys(g.open, t, "sort", '"', true);
    GapsHaveNoKeys(g.open, t, "filter", '"', false);
    MatchHere("sort", g.sortColon, g.sortValue, sort, comma + last, true);
    FirstIsHere(t, "sort", '"', true);
    var opening := Opening("sort", g.sortColon, g.sortValue);
    Openings("sort", g.sortColon, g.sortValue, sort, comma + last);
    SearchSkips(opening, sort + ("\"" + (comma + last)), "filter", '"', false);
    var pre := sort + ("\"" + comma);
    assert sort + ("\"" + (comma + last)) == pre + last;
    assert "filter" <= last;
    assert ':' !in pre;
    SearchSkipsColonless(pre, last, "filter", '"', false);
    MatchHere("filter", g.filterColon, g.filterValue, filter, g.rest, false);
    FirstIsHere(last, "filter", '"', false);
  }

  /** A filter in single quotes is read too, where nothing stands in double quotes. */
  lemma SingleQuotedFilterReadsBack(lead: string, colon: string, start: string, filter: string, rest: string)
    requires IsGap(colon) && IsGap(start) && '\'' !in filter && 'f' !in lead
    requires '"' !in lead && '"' !in filter && '"' !in rest
    ensures FilterArg(lead + ("filter" + (colon + (":" + (start + ("'" + (filter + ("'" + rest)))))))) == filter
  {
    hide MatchAt, Run, FirstMatch;
    var t := "filter" + (colon + (":" + (start + ("'" + (filter + ("'" + rest))))));
    MatchQuoted("filter", colon, start, filter, rest, '\'', false);
    FirstIsHere(t, "filter", '\'', false);
    SearchSkips(lead, t, "filter", '\'', false);
    NoDoubleQuote(colon, start, filter, rest);
    FewQuotesNoMatch(lead + t, "filter", '"', false);
  }

  lemma NoDoubleQuote(colon: string, start: string, filter: string, rest: string)
    requires IsGap(colon) && IsGap(start) && '"' !in filter && '"' !in rest
    ensures '"' !in "filter" + (colon + (":" + (start + ("'" + (filter + ("'" + rest))))))
  {
  }

  // ---- Blocks ----

  lemma {:induction false} NodeSearchSkips(pre: string, t: string)
    requires forall k :: 0 <= k < |pre| ==> pre[k] != 'n'
    ensures NodeBody(pre + t) == NodeBody(t)
  {
    if pre == "" || |pre + t| < 4 {
      assert pre == "" ==> pre + t == t;
    } else {
      assert (pre + t)[1..] == pre[1..] + t;
      assert (pre + t)[..4][0] == pre[0] && "node"[0] == 'n';
      NodeSearchSkips(pre[1..], t);
    }
  }

  lemma BracesAreFound(before: string, x: string, after: string, t: string)
    requires IsBalanced(x) && IsGap(before) && IsGap(after)
    ensures var s := Braces(before, x, after) + t;
            && s != "" && s[0] == '{' && Inside(s, '{', '}') == before + x + after
            && Past(s, '{', '}') == |Braces(before, x, after)|
  {
    hide Depth, Inside, Past, IsGap;
    var padded := before + x + after;
    PaddedDepth(before, x, after, 1);
    BracketsAreFound(padded, t, '{', '}');
    assert Braces(before, x, after) + t == ['{'] + padded + ['}'] + t;
  }

  lemma RunIs(p: char -> bool, s: string, n: nat)
    requires n <= |s| && (forall k :: 0 <= k < n ==> p(s[k])) && (n < |s| ==> !p(s[n]))
    ensures Run(p, s) == n
  {
  }

  /** The keyword is found in front of a brace, with white space in between not beginning with a carriage return. */
  lemma NodeKeyword(gap: string, s: string)
    requires IsGap(gap) && (gap != "" ==> gap[0] != '\r') && s != "" && s[0] == '{'
    ensures NodeBody("node" + (gap + s)) == Inside(s, '{', '}')
  {
    hide Inside, Run;
    var n := "node" + (gap + s);
    assert n[..4] == "node" && n[4..] == gap + s;
    assert n[4] == if gap != "" then gap[0] else '{';
    RunIs(x => x != '{', gap + s, |gap|);
    assert n[4 + |gap|..] == s;
  }

  /** In front of a carriage return it is not: the search goes on behind the word. */
  lemma NodeHidesBeforeReturn(gap: string, s: string)
    requires gap != "" && gap[0] == '\r'
    ensures NodeBody("node" + (gap + s)) == NodeBody(gap + s)
  {
    hide Inside, Run;
    var n := "node" + (gap + s);
    assert n[..4] == "node" && n[4..] == gap + s;
    assert n[4] == gap[0];
  }

  lemma NodeIsFound(x: string, g: BlockGaps, t: string)
    requires IsBalanced(x) && IsBlockGaps(g)
    ensures NodeBody(NodeText(x, g) + t) == g.beforeItems + x + g.afterItems
  {
    hide Depth, Inside, Braces, Run, NodeBody, IsGap;
    var braces := Braces(g.beforeItems, x, g.afterItems);
    BracesAreFound(g.beforeItems, x, g.afterItems, t);
    NodeKeyword(g.afterNode, braces + t);
    assert NodeText(x, g) + t == "node" + (g.afterNode + (braces + t));
  }

  /** Everything in front of the keyword is passed over. */
  lemma NodeWithin(x: string, g: BlockGaps, t: string)
    requires IsBalanced(x) && IsBlockGaps(g)
    ensures NodeBody(g.beforeEdges + (EdgesText(x, g) + t)) == g.beforeItems + x + g.afterItems
    ensures NodeBody(BlockText(x, g) + t) == g.beforeItems + x + g.afterItems
  {
    hide Depth, NodeBody, IsGap, Inside, Run;
    var tail := g.afterNodeBlock + ("}" + t);
    var pre := g.beforeEdges + ("edges" + (g.afterEdges + ("{" + g.beforeNode)));
    EdgesPieces(x, g, t);
    PrefixHasNoN(g);
    NodeIsFound(x, g, tail);
    NodeSearchSkips(pre, NodeText(x, g) + tail);
    var wide := g.afterNodeBlock + ("}" + (g.afterEdgesBlock + ("}" + t)));
    BlockPieces(x, g, t);
    NodeIsFound(x, g, wide);
    NodeSearchSkips("{" + pre, NodeText(x, g) + wide);
  }

  lemma PrefixHasNoN(g: BlockGaps)
    requires AreGaps(g)
    ensures var pre := g.beforeEdges + ("edges" + (g.afterEdges + ("{" + g.beforeNode)));
            (forall k :: 0 <= k < |pre| ==> pre[k] != 'n') &&
                (forall k :: 0 <= k < |"{" + pre| ==> ("{" + pre)[k] != 'n')
  {
  }

  lemma EdgesPieces(x: string, g: BlockGaps, t: string)
    ensures g.beforeEdges + (EdgesText(x, g) + t)
         == (g.beforeEdges + ("edges" + (g.afterEdges + ("{" + g.beforeNode)))) +
             (NodeText(x, g) + (g.afterNodeBlock + ("}" + t)))
  {
    hide NodeText;
  }

  lemma BlockPieces(x: string, g: BlockGaps, t: string)
    ensures BlockText(x, g) + t
         == ("{" + (g.beforeEdges + ("edges" + (g.afterEdges + ("{" + g.beforeNode)))))
            + (NodeText(x, g) + (g.afterNodeBlock + ("}" + (g.afterEdgesBlock + ("}" + t)))))
  {
    hide EdgesText;
    EdgesPieces(x, g, g.afterEdgesBlock + ("}" + t));
    assert BlockText(x, g) + t == "{" + (g.beforeEdges + (EdgesText(x, g) + (g.afterEdgesBlock + ("}" + t))));
  }

  /** A printed block gives its node body back, and the scan goes on right behind it. */
  lemma BlockIsFound(items: seq<Item>, g: BlockGaps, t: string)
    requires Printable(items) && IsBlockGaps(g)
    ensures var s := PrintBlock(items, g) + t;
            && NodeBody(Inside(s, '{', '}')) == g.beforeItems + Print(items) + g.afterItems
            && s != "" && s[0] == '{' && s[Past(s, '{', '}')..] == t
  {
    hide Depth, Print, NodeBody, Inside, Past, Braces, EdgesText;
    var x := Print(items);
    PrintIsBalanced(items);
    BlocksAreBalanced(x, g);
    BracesAreFound(g.beforeEdges, EdgesText(x, g), g.afterEdgesBlock, t);
    NodeWithin(x, g, g.afterEdgesBlock);
    assert g.beforeEdges + EdgesText(x, g) + g.afterEdgesBlock == g.beforeEdges + (EdgesText(x, g) + g.afterEdgesBlock);
  }

  // ---- Reading back ----

  /** Printed text begins with a word character and ends with one or with a brace. */
  lemma {:induction false} PrintEnds(items: seq<Item>)
    requires Printable(items) && items != []
    ensures Print(items) != "" && IsWordChar(Print(items)[0]) && !IsTrimmed(Print(items)[|Print(items)| - 1])
    decreases items
  {
    hide PrintBlock, PrintArgs;
    var item := items[0];
    match item {
      case Field(name, _) =>
      case Related(_, _, _, _, block, inner, _) => BlockEnds(inner, block);
    }
    AfterIsGap(items);
    if |items| > 1 {
      PrintEnds(items[1..]);
    } else {
      assert items[1..] == [];
    }
  }

  lemma BlockEnds(items: seq<Item>, g: BlockGaps)
    ensures PrintBlock(items, g) != "" && PrintBlock(items, g)[|PrintBlock(items, g)| - 1] == '}'
  {
    hide Print;
  }

  lemma PaddingIsTrimmed(before: string, x: string, after: string)
    requires IsGap(before) && IsGap(after) && x != "" && !IsTrimmed(x[0]) && !IsTrimmed(x[|x| - 1])
    ensures Trim(before + x + after) == x
  {
    var s := before + x + after;
    RunIs(IsTrimmed, s, |before|);
    assert s[|before|..] == x + after;
    EndIsTrimmed(x, after);
  }

  lemma {:induction false} EndIsTrimmed(x: string, after: string)
    requires IsGap(after) && x != "" && !IsTrimmed(x[|x| - 1])
    ensures TrimEnd(x + after) == x
  {
    if after == "" {
      assert x + after == x;
    } else {
      assert (x + after)[..|x + after| - 1] == x + after[..|after| - 1];
      EndIsTrimmed(x, after[..|after| - 1]);
    }
  }

  lemma BlanksAreTrimmed(gap: string)
    requires IsGap(gap)
    ensures Trim(gap) == ""
  {
    RunIs(IsTrimmed, gap, |gap|);
  }

  lemma WordsAreKept(c: char)
    requires IsWordChar(c)
    ensures !IsTrimmed(c)
  {
  }

  lemma BodyIsParsed(items: seq<Item>, before: string, after: string)
    requires Printable(items) && IsGap(before) && IsGap(after)
    ensures ParseNodeBody(before + Print(items) + after) == Parse(Print(items))
  {
    hide Parse, Trim, IsTrimmed, IsWordChar;
    if items == [] {
      assert before + Print(items) + after == before + after;
      BlanksAreTrimmed(before + after);
    } else {
      PrintEnds(items);
      WordsAreKept(Print(items)[0]);
      PaddingIsTrimmed(before, Print(items), after);
    }
  }

  /** Reading a head depends on what follows the name only. */
  lemma HeadAfterName(name: string, more: string)
    requires IsName(name) && (more == "" || !IsWordChar(more[0]))
    ensures Spaces(name + more) == 0 && WordLength(name + more) == |name| > 0
    ensures ReadHead(name + more) == HeadBehind(name, more)
  {
    NameLength(name, more);
    Behind(name, more, 0);
    hide HeadBehind, Spaces, WordLength, IsName;
  }

  lemma NameLength(name: string, more: string)
    requires IsName(name) && (more == "" || !IsWordChar(more[0]))
    ensures Spaces(name + more) == 0 && WordLength(name + more) == |name| > 0
  {
    hide Run;
    RunIs(IsSpace, name + more, 0);
    RunIs(IsWordChar, name + more, |name|);
  }

  lemma Behind(s: string, t: string, k: nat)
    requires k <= |t|
    ensures (s + t)[|s| + k..] == t[k..] && (s + t)[..|s|] == s && (k < |t| ==> (s + t)[|s| + k] == t[k])
  {
  }

  /** A gap is followed by something that is none, or by nothing. */
  predicate EndsGap(t: string) { t == "" || !IsSpace(t[0]) }

  lemma GapLength(gap: string, t: string)
    requires IsGap(gap) && EndsGap(t)
    ensures Spaces(gap + t) == |gap| && (gap + t)[|gap|..] == t
  {
    RunIs(IsSpace, gap + t, |gap|);
  }

  lemma FieldHead(name: string, gap: string, t: string)
    requires IsName(name) && IsGap(gap) && (t == "" || (IsWordChar(t[0]) && gap != ""))
    ensures var s := name + (gap + t);
            && Spaces(s) == 0 && WordLength(s) == |name| && ReadHead(s).word == name
            && s[ReadHead(s).end..] == t
  {
    hide ReadHead, Inside, Past, Run;
    HeadAfterName(name, gap + t);
    GapLength(gap, t);
  }

  lemma HeadWithoutArgs(name: string, gap: string, block: string)
    requires IsName(name) && IsGap(gap) && block != "" && block[0] == '{'
    ensures var s := name + (gap + block);
            && Spaces(s) == 0 && WordLength(s) == |name| > 0
            && ReadHead(s) == Head(name, "", "", |name| + |gap|) && s[|name| + |gap|..] == block
  {
    hide ReadHead, Inside, Past, SortArg, FilterArg, Run;
    HeadAfterName(name, gap + block);
    GapLength(gap, block);
  }

  lemma HeadWithArgs(name: string, sort: string, filter: string, g: HeadGaps, block: string)
    requires IsName(name) && IsSortArg(sort) && IsFilterArg(filter) && IsHeadGaps(g) && block != "" && block[0] == '{'
    requires HasArgs(sort, filter, g)
    ensures var s := name + (PrintArgs(sort, filter, g) + (g.behind + block));
            && Spaces(s) == 0 && WordLength(s) == |name| > 0
            && ReadHead(s) == Head(name, sort, filter, |s| - |block|) && s[|s| - |block|..] == block
  {
    hide ReadHead, Inside, Past, SortArg, FilterArg, ArgsText, Spaces, WordLength;
    var parens, t := "(" + ArgsText(sort, filter, g) + ")", g.behind + block;
    ArgsAreTaken(sort, filter, g, t);
    assert parens[0] == '(';
    assert PrintArgs(sort, filter, g) + t == g.before + (parens + t);
    hide PrintArgs, IsSortArg, IsFilterArg, IsName, IsGap;
    HeadBeforeBlock(name, sort, filter, g.before, parens, g.behind, block);
  }

  /** Reading a head whose parentheses are known. */
  lemma HeadBeforeBlock(name: string, sort: string, filter: string, before: string,
      parens: string, behind: string, block: string)
    requires IsName(name) && IsGap(before) && IsGap(behind) && block != "" && block[0] == '{'
    requires parens != "" && parens[0] == '('
    requires var s := parens + (behind + block);
             && SortArg(Inside(s, '(', ')')) == sort && FilterArg(Inside(s, '(', ')')) == filter &&
                 Past(s, '(', ')') == |parens|
    ensures var s := name + (before + (parens + (behind + block)));
            && Spaces(s) == 0 && WordLength(s) == |name| > 0
            && ReadHead(s) == Head(name, sort, filter, |s| - |block|) && s[|s| - |block|..] == block
  {
    hide ReadHead, Inside, Past, SortArg, FilterArg, Run, Spaces, WordLength, IsName, IsGap;
    var t := behind + block;
    var more := before + (parens + t);
    AroundParens(before, parens, behind, block);
    BeginsNoWord(before, parens + t);
    HeadAfterName(name, more);
    assert more[|more| - |block|..] == block;
  }

  /** Where the pieces behind a name begin. */
  lemma AroundParens(before: string, parens: string, behind: string, block: string)
    requires IsGap(before) && IsGap(behind) && block != "" && block[0] == '{' && parens != "" && parens[0] == '('
    ensures var t := behind + block;
            var more := before + (parens + t);
            && Spaces(more) == |before| < |more| && more[|before|] == '(' && more[|before|..] == parens + t
            && more[|before| + |parens|..] == t && Spaces(t) == |behind| && more[|more| - |block|..] == block
  {
    hide Run, IsGap;
    var t := behind + block;
    GapLength(before, parens + t);
    GapLength(behind, block);
    SkipTwo(before, parens, t);
    assert (before + (parens + t))[|before|] == (parens + t)[0];
  }

  lemma BeginsNoWord(gap: string, t: string)
    requires IsGap(gap) && t != "" && t[0] == '('
    ensures gap + t != "" && !IsWordChar((gap + t)[0])
  {
  }

  lemma SkipTwo(a: string, b: string, c: string)
    ensures (a + (b + c))[|a| + |b|..] == c && (a + (b + c))[|a|..] == b + c
  {
  }

  lemma RelatedHead(name: string, sort: string, filter: string, g: HeadGaps, block: string)
    requires IsName(name) && IsSortArg(sort) && IsFilterArg(filter) && IsHeadGaps(g) && block != "" && block[0] == '{'
    ensures var s := name + (PrintArgs(sort, filter, g) + (g.behind + block));
            && Spaces(s) == 0 && WordLength(s) == |name| > 0
            && ReadHead(s) == Head(name, sort, filter, |s| - |block|) && s[|s| - |block|..] == block
  {
    hide ReadHead, ArgsText, Run, IsName, IsSortArg, IsFilterArg;
    if !HasArgs(sort, filter, g) {
      HeadWithoutArgs(name, g.behind, block);
      assert PrintArgs(sort, filter, g) + (g.behind + block) == g.behind + block;
    } else {
      HeadWithArgs(name, sort, filter, g, block);
    }
  }

  lemma ArgsAreTaken(sort: string, filter: string, g: HeadGaps, t: string)
    requires IsSortArg(sort) && IsFilterArg(filter) && IsHeadGaps(g)
    ensures var parens := "(" + ArgsText(sort, filter, g) + ")";
            && SortArg(Inside(parens + t, '(', ')')) == sort && FilterArg(Inside(parens + t, '(', ')')) == filter
            && Past(parens + t, '(', ')') == |parens|
  {
    ArgsReadBack(sort, filter, g);
    ArgsAreFlat(sort, filter, g);
    hide Inside, Past, SortArg, FilterArg, ArgsText, Depth;
    var text := ArgsText(sort, filter, g);
    PlainTextKeepsDepth(text, 1, '(', ')');
    BracketsAreFound(text, t, '(', ')');
    assert "(" + text + ")" + t == ['('] + text + [')'] + t;
  }

  /** What is left after a gap reads the same without it. */
  lemma GapReads(gap: string, t: string)
    requires IsGap(gap) && EndsGap(t)
    ensures Parse(gap + t) == Parse(t)
  {
    hide Parse, Run;
    if gap == "" {
      assert gap + t == t;
    } else {
      GapLength(gap, t);
      ParseSpace(gap + t);
    }
  }

  lemma RelatedReads(item: Item, rest: seq<Item>)
    requires item.Related? && IsName(item.name) && IsRelated(item.sort, item.filter, item.head, item.block)
    requires HoldsSomething(item.items, item.block) && Printable(item.items) && Printable(rest) && IsGap(item.after)
    ensures var m := Parse(Print(item.items));
            var after := Parse(Print(rest));
            Parse(PrintItem(item) + (item.after + Print(rest)))
            == Selection(after.fields, [Rel(item.name, item.sort, item.filter, m.fields, m.rels)] + after.rels)
  {
    hide *;
    var t := item.after + Print(rest);
    ItemText(item, t);
    RelatedParts(item);
    BlockIsFound(item.items, item.block, t);
    var block := PrintBlock(item.items, item.block) + t;
    var s := item.name + (PrintArgs(item.sort, item.filter, item.head) + (item.head.behind + block));
    RelatedHead(item.name, item.sort, item.filter, item.head, block);
    var h := ReadHead(s);
    ParseWord(s, h, block);
    BodyIsParsed(item.items, item.block.beforeItems, item.block.afterItems);
    BodyIsSomething(item.items, item.block);
    BlockReads(h, block, item.block.beforeItems, Print(item.items), item.block.afterItems);
    RestEndsGap(rest);
    GapReads(item.after, Print(rest));
  }

  lemma RelatedParts(item: Item)
    requires item.Related? && IsRelated(item.sort, item.filter, item.head, item.block)
    ensures IsSortArg(item.sort) && IsFilterArg(item.filter) && IsHeadGaps(item.head) && IsBlockGaps(item.block)
    ensures IsGap(item.block.beforeItems) && IsGap(item.block.afterItems)
  {
  }

  lemma BodyIsSomething(items: seq<Item>, g: BlockGaps)
    requires Printable(items)
    ensures g.beforeItems + Print(items) + g.afterItems != "" <==> HoldsSomething(items, g)
  {
    if items != [] { PrintEnds(items); }
  }

  /** A relationship is read from its block exactly if the node's braces hold something; otherwise it is dropped. */
  lemma EmptyNodesAreDropped(h: Head, items: seq<Item>, g: BlockGaps, t: string)
    requires Printable(items) && IsBlockGaps(g)
    ensures PrintBlock(items, g) + t != "" &&
        (ReadRel(h, PrintBlock(items, g) + t) == [] <==> !HoldsSomething(items, g))
  {
    hide Print, PrintBlock, NodeBody, Inside, ParseNodeBody;
    BlockIsFound(items, g, t);
    BodyIsSomething(items, g);
  }

  lemma RestEndsGap(rest: seq<Item>)
    requires Printable(rest)
    ensures EndsGap(Print(rest)) && (rest == [] ==> Print(rest) == "")
    ensures rest != [] ==> Print(rest) != "" && IsWordChar(Print(rest)[0])
  {
    if rest != [] { PrintEnds(rest); }
  }

  lemma ItemText(item: Item, t: string)
    requires item.Related?
    ensures PrintItem(item) + t
         == item.name + (PrintArgs(item.sort, item.filter, item.head) +
             (item.head.behind + (PrintBlock(item.items, item.block) + t)))
  {
    hide PrintArgs, PrintBlock;
  }

  lemma BlockReads(h: Head, block: string, before: string, x: string, after: string)
    requires block != "" && NodeBody(Inside(block, '{', '}')) == before + x + after
    requires ParseNodeBody(before + x + after) == Parse(x)
    ensures before + x + after != "" ==>
        ReadRel(h, block) == [Rel(h.word, h.sort, h.filter, Parse(x).fields, Parse(x).rels)]
  {
    hide NodeBody, Inside, ParseNodeBody, Parse;
  }

  /** Reading printed text gives back its fields and nested relationships, with their sort and filter, in order. */
  lemma {:induction false} ReadingPrintedText(items: seq<Item>)
    requires Printable(items)
    ensures Parse(Print(items)) == Meaning(items)
    decreases items
  {
    hide Parse, PrintItem, IsRelated;
    if items == [] {
      ParseEnds("");
    } else {
      var item, rest := items[0], items[1..];
      AfterIsGap(items);
      ReadingPrintedText(rest);
      match item {
        case Field(name, after) => FieldReads(item, rest);
        case Related(name, sort, filter, head, block, inner, after) =>
          ReadingPrintedText(inner);
          RelatedReads(item, rest);
      }
    }
  }

  lemma FieldReads(item: Item, rest: seq<Item>)
    requires item.Field? && IsName(item.name) && IsGap(item.after) && Printable(rest) &&
        (rest != [] ==> item.after != "")
    ensures Parse(PrintItem(item) + (item.after + Print(rest)))
         == Selection([item.name] + Parse(Print(rest)).fields, Parse(Print(rest)).rels)
  {
    hide Parse, ReadHead, Print, Run;
    RestEndsGap(rest);
    var s := item.name + (item.after + Print(rest));
    FieldHead(item.name, item.after, Print(rest));
    ParseWord(s, ReadHead(s), Print(rest));
  }

  /** The round trip as the handler runs it: the whole text of a query's block, searched for its node and parsed. */
  lemma QueriesReadBack(items: seq<Item>, g: BlockGaps, after: string)
    requires Printable(items) && IsBlockGaps(g)
    ensures ParseNodeBody(NodeBody(PrintBlock(items, g) + after)) == Meaning(items)
  {
    hide Parse, ParseNodeBody, NodeBody, Print, Meaning, Depth, BlockText;
    PrintIsBalanced(items);
    ReadingPrintedText(items);
    BodyIsParsed(items, g.beforeItems, g.afterItems);
    NodeWithin(Print(items), g, after);
  }

  // ---- A carriage return behind the keyword ----

  /** The keyword as the search recognises it. */
  predicate IsNodeAt(s: string, k: nat) {
    k + 4 < |s| && s[k..k + 4] == "node" && s[k + 4] in {' ', '\t', '\n', '{'}
  }

  lemma {:induction false} NothingIsRead(s: string)
    requires forall k: nat :: !IsNodeAt(s, k)
    ensures NodeBody(s) == ""
    decreases |s|
  {
    hide Inside, IndexOf;
    if |s| >= 4 {
      var n := if s[..4] != "node" then 1 else 4;
      forall k: nat ensures !IsNodeAt(s[n..], k) {
        if k + 4 < |s[n..]| {
          assert s[n..][k..k + 4] == s[n + k..n + k + 4];
          assert !IsNodeAt(s, n + k);
        }
      }
      NothingIsRead(s[n..]);
      assert s[0..4] == s[..4];
      assert !IsNodeAt(s, 0);
    }
  }

  /** What follows the opening brace of the node and the white space behind it. */
  function BehindNode(items: seq<Item>, g: BlockGaps, after: string): string {
    Print(items) + (g.afterItems + ("}" + (g.afterNodeBlock + ("}" + (g.afterEdgesBlock + ("}" + after))))))
  }

  /** With a carriage return behind the keyword the search goes on among the items: it takes the node of a nested block,
      or a name or an argument that holds the word, for the one asked for. */
  lemma ReturnHidesTheNode(items: seq<Item>, g: BlockGaps, after: string)
    requires AreGaps(g) && g.afterNode != "" && g.afterNode[0] == '\r'
    ensures NodeBody(PrintBlock(items, g) + after) == NodeBody(BehindNode(items, g, after))
  {
    var x := Print(items);
    var pre := "{" + (g.beforeEdges + ("edges" + (g.afterEdges + ("{" + g.beforeNode))));
    var wide := g.afterNodeBlock + ("}" + (g.afterEdgesBlock + ("}" + after)));
    var behind := BehindNode(items, g, after);
    BlockPieces(x, g, after);
    PrefixHasNoN(g);
    NodeAndTail(items, g, after);
    BetweenHasNoN(g);
    hide Print, NodeBody, NodeText, BehindNode, BlockText, AreGaps, IsGap;
    NodeSearchSkips(pre, NodeText(x, g) + wide);
    NodeHidesBeforeReturn(g.afterNode, "{" + (g.beforeItems + behind));
    NodeSearchSkips(g.afterNode + ("{" + g.beforeItems), behind);
    ThreePieces(g.afterNode, g.beforeItems, behind);
  }

  lemma ThreePieces(gap: string, before: string, t: string)
    ensures gap + ("{" + (before + t)) == (gap + ("{" + before)) + t
  {
  }

  /** Where it finds neither, nothing at all is read, so that only an empty selection is read back. */
  lemma NothingIsReadBehindReturn(items: seq<Item>, g: BlockGaps, after: string)
    requires AreGaps(g) && g.afterNode != "" && g.afterNode[0] == '\r'
    requires forall k: nat :: !IsNodeAt(BehindNode(items, g, after), k)
    ensures ParseNodeBody(NodeBody(PrintBlock(items, g) + after)) == NOTHING
    ensures ParseNodeBody(NodeBody(PrintBlock(items, g) + after)) == Meaning(items) <==> items == []
  {
    hide NodeBody, PrintBlock, BehindNode, IsNodeAt;
    ReturnHidesTheNode(items, g, after);
    NothingIsRead(BehindNode(items, g, after));
    ParseEnds("");
    EmptyTrims();
    SomethingIsMeant(items);
  }

  lemma NodeAndTail(items: seq<Item>, g: BlockGaps, after: string)
    ensures NodeText(Print(items), g) + (g.afterNodeBlock + ("}" + (g.afterEdgesBlock + ("}" + after))))
         == "node" + (g.afterNode + ("{" + (g.beforeItems + BehindNode(items, g, after))))
  {
    hide Print;
  }

  lemma BetweenHasNoN(g: BlockGaps)
    requires AreGaps(g)
    ensures var pre := g.afterNode + ("{" + g.beforeItems); forall k :: 0 <= k < |pre| ==> pre[k] != 'n'
  {
  }

  lemma EmptyTrims()
    ensures Trim("") == ""
  {
  }

  lemma SomethingIsMeant(items: seq<Item>)
    ensures Meaning(items) == NOTHING <==> items == []
  {
    if items != [] {
      match items[0]
      case Field(name, _) => assert Meaning(items).fields != [];
      case Related(_, _, _, _, _, _, _) => assert Meaning(items).rels != [];
    }
  }

  /** So a query for one field, with lines that end in a carriage return and a newline, reads nothing. */
  lemma AFieldIsLost(g: BlockGaps, after: string)
    requires AreGaps(g) && g.afterNode != "" && g.afterNode[0] == '\r' && 'n' !in after
    ensures var items := [Field("id", "")];
            ParseNodeBody(NodeBody(PrintBlock(items, g) + after)) == NOTHING != Meaning(items)
  {
    var items := [Field("id", "")];
    var s := BehindNode(items, g, after);
    ThatFieldHasNoN(g, after);
    forall k: nat ensures !IsNodeAt(s, k) {
      if k + 4 < |s| {
        assert s[k..k + 4][0] == s[k] && s[k] in s && "node"[0] == 'n';
      }
    }
    hide NodeBody, PrintBlock, BehindNode, IsNodeAt;
    NothingIsReadBehindReturn(items, g, after);
  }

  lemma ThatFieldHasNoN(g: BlockGaps, after: string)
    requires AreGaps(g) && 'n' !in after
    ensures 'n' !in BehindNode([Field("id", "")], g, after)
  {
    var items := [Field("id", "")];
    assert items[1..] == [] && Print([]) == "";
    assert Print(items) == "id";
  }
}
