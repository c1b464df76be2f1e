/** A whole query: which keys, arguments and selection the handler reads for the root, and what it answers. The text
    looked at is the one behind the root type's name. */
module RootQuery {
  import opened Wrappers

  import QueryText
  import opened QueryRoundTrip
  import opened QuerySearch
  import opened QuotedArgs
  import opened PrintedPage
  import Fetching
  import Ints
  import Listings
  import Repository
  import Resolver

  /** What stands in the first parentheses, wherever they are. */
  function RootArgs(inner: string): string {
    var i := QueryText.IndexOf(inner, '(');
    if i == |inner| then "" else QueryText.Inside(inner[i..], '(', ')')
  }

  /** A printed listing query behind its root type's name. */
  datatype Query = Query(sort: string, filter: string, head: HeadGaps, block: BlockGaps,
      items: seq<Item>, after: string)

  predicate IsQuery(q: Query) {
    && IsRelated(q.sort, q.filter, q.head, q.block) && Printable(q.items)
    && '(' !in q.after && IsQuiet(q.after)
  }

  function RootText(q: Query): string {
    PrintArgs(q.sort, q.filter, q.head) + (q.head.behind + (PrintBlock(q.items, q.block) + q.after))
  }

  // ---- The root's arguments ----

  datatype Args = Args(sort: string, filter: string, gaps: HeadGaps)

  predicate IsArgs(a: Args) {
    IsSortArg(a.sort) && IsFilterArg(a.filter) && IsHeadGaps(a.gaps) && HasArgs(a.sort, a.filter, a.gaps)
  }

  /** The arguments of the first relationship, in the order of the text, that has any. */
  function FirstArgs(items: seq<Item>): Option<Args>
    decreases items
  {
    if items == [] then None
    else
      match items[0]
      case Field(_, _) => FirstArgs(items[1..])
      case Related(_, sort, filter, head, _, inner, _) =>
        if HasArgs(sort, filter, head) then Some(Args(sort, filter, head))
        else if FirstArgs(inner).Some? then FirstArgs(inner)
        else FirstArgs(items[1..])
  }

  function OwnArgs(sort: string, filter: string, head: HeadGaps): Option<Args> {
    if HasArgs(sort, filter, head) then Some(Args(sort, filter, head)) else None
  }

  function Parens(a: Args): string { "(" + ArgsText(a.sort, a.filter, a.gaps) + ")" }

  function FromParen(s: string): string { s[QueryText.IndexOf(s, '(')..] }

  /** Where the first parentheses of a text are a printed argument list, or there are none. */
  ghost predicate LeadsTo(s: string, args: Option<Args>) {
    match args
    case None => '(' !in s
    case Some(a) => exists post: string :: FromParen(s) == Parens(a) + post
  }

  lemma PlainLeadsNowhere(s: string)
    requires '(' !in s
    ensures LeadsTo(s, None) && QueryText.IndexOf(s, '(') == |s|
  {
    forall k | 0 <= k < |s| ensures s[k] != '(' {
      assert s[k] in s;
    }
    RunIs(x => x != '(', s, |s|);
  }

  lemma FirstOfBoth(s: string, t: string, a: Option<Args>, b: Option<Args>)
    requires LeadsTo(s, a) && LeadsTo(t, b)
    ensures LeadsTo(s + t, if a.Some? then a else b)
  {
    if a.Some? {
      var post :| FromParen(s) == Parens(a.value) + post;
      assert Parens(a.value) != "";
      hide Parens;
      ParenStays(s, t);
      assert FromParen(s + t) == Parens(a.value) + (post + t);
    } else if b.Some? {
      hide Parens;
      var post :| FromParen(t) == Parens(b.value) + post;
      PlainLeadsNowhere(s);
      SearchGoesOnTo(s, t);
      assert FromParen(s + t) == FromParen(t);
    }
  }

  lemma SearchGoesOnTo(s: string, t: string)
    requires '(' !in s
    ensures FromParen(s + t) == FromParen(t)
  {
    var n := QueryText.IndexOf(t, '(');
    forall k | 0 <= k < |s| + n ensures (s + t)[k] != '(' {
      if k < |s| {
        assert s[k] in s;
      } else {
        assert (s + t)[k] == t[k - |s|];
      }
    }
    RunIs(x => x != '(', s + t, |s| + n);
  }

  lemma ParenStays(s: string, t: string)
    requires QueryText.IndexOf(s, '(') < |s|
    ensures FromParen(s + t) == FromParen(s) + t
  {
    var n := QueryText.IndexOf(s, '(');
    forall k | 0 <= k <= n ensures (s + t)[k] == s[k] {}
    RunIs(x => x != '(', s + t, n);
  }

  lemma ParensLead(a: Args)
    ensures LeadsTo(Parens(a), Some(a))
  {
    hide ArgsText;
    var s := Parens(a);
    assert s[0] == '(';
    hide Parens;
    RunIs(x => x != '(', s, 0);
    assert FromParen(s) == s + "";
  }

  lemma ArgsLeadToThemselves(sort: string, filter: string, g: HeadGaps)
    requires IsHeadGaps(g)
    ensures LeadsTo(PrintArgs(sort, filter, g), OwnArgs(sort, filter, g))
  {
    hide ArgsText, LeadsTo;
    if HasArgs(sort, filter, g) {
      var a := Args(sort, filter, g);
      assert '(' !in g.before;
      hide IsHeadGaps;
      PlainLeadsNowhere(g.before);
      ParensLead(a);
      FirstOfBoth(g.before, Parens(a), None, Some(a));
    } else {
      PlainLeadsNowhere("");
    }
  }

  lemma {:induction false} PrintLeadsToFirstArgs(items: seq<Item>)
    requires Printable(items)
    ensures LeadsTo(Print(items), FirstArgs(items))
    decreases items, 0
  {
    hide LeadsTo, PrintItem, IsRelated;
    if items == [] {
      PlainLeadsNowhere("");
    } else {
      var item, tail := items[0], items[0].after + Print(items[1..]);
      AfterIsGap(items);
      ItemLeads(items);
      PrintLeadsToFirstArgs(items[1..]);
      PlainLeadsNowhere(item.after);
      FirstOfBoth(item.after, Print(items[1..]), None, FirstArgs(items[1..]));
      FirstOfBoth(PrintItem(item), tail, FirstArgs([item]), FirstArgs(items[1..]));
      assert [item][1..] == [];
    }
  }

  lemma {:induction false} ItemLeads(items: seq<Item>)
    requires items != [] && Printable(items)
    ensures LeadsTo(PrintItem(items[0]), FirstArgs([items[0]]))
    decreases items[0]
  {
    hide LeadsTo, Print, PrintArgs, PrintBlock;
    assert [items[0]][1..] == [];
    var name := items[0].name;
    assert '(' !in name;
    PlainLeadsNowhere(name);
    match items[0]
    case Field(_, _) =>
    case Related(_, sort, filter, head, block, inner, _) =>
      PrintLeadsToFirstArgs(inner);
      BlockLeads(inner, block);
      HeadLeads(sort, filter, head, PrintBlock(inner, block), FirstArgs(inner));
      var own := OwnArgs(sort, filter, head);
      FirstOfBoth(name, PrintArgs(sort, filter, head) + (head.behind + PrintBlock(inner, block)), None,
                  if own.Some? then own else FirstArgs(inner));
  }

  lemma HeadLeads(sort: string, filter: string, g: HeadGaps, t: string, args: Option<Args>)
    requires IsHeadGaps(g) && LeadsTo(t, args)
    ensures var own := OwnArgs(sort, filter, g);
            LeadsTo(PrintArgs(sort, filter, g) + (g.behind + t), if own.Some? then own else args)
  {
    hide LeadsTo, PrintArgs;
    ArgsLeadToThemselves(sort, filter, g);
    PlainLeadsNowhere(g.behind);
    FirstOfBoth(g.behind, t, None, args);
    FirstOfBoth(PrintArgs(sort, filter, g), g.behind + t, OwnArgs(sort, filter, g), args);
  }

  lemma BlockLeads(items: seq<Item>, g: BlockGaps)
    requires LeadsTo(Print(items), FirstArgs(items)) && IsBlockGaps(g)
    ensures LeadsTo(PrintBlock(items, g), FirstArgs(items))
  {
    var x := Print(items);
    BlockAround(x, g);
    NoParens(g);
    hide LeadsTo, Print, BlockText, BlockStart, BlockEnd;
    PlainLeadsNowhere(BlockStart(g));
    PlainLeadsNowhere(BlockEnd(g));
    FirstOfBoth(BlockStart(g), x, None, FirstArgs(items));
    FirstOfBoth(BlockStart(g) + x, BlockEnd(g), FirstArgs(items), None);
  }

  lemma NoParens(g: BlockGaps)
    requires IsBlockGaps(g)
    ensures '(' !in BlockStart(g) && '(' !in BlockEnd(g)
  {
  }

  lemma {:induction false} FirstArgsArePrintable(items: seq<Item>)
    requires Printable(items)
    ensures FirstArgs(items).Some? ==> IsArgs(FirstArgs(items).value)
    decreases items
  {
    hide IsName, IsGap, IsHeadGaps, IsBlockGaps, IsSortArg, IsFilterArg, HoldsSomething;
    if items != [] {
      AfterIsGap(items);
      FirstArgsArePrintable(items[1..]);
      if items[0].Related? {
        FirstArgsArePrintable(items[0].items);
      }
    }
  }

  // ---- What is asked ----

  /** What an argument list asks for. */
  datatype Asked = Asked(sort: string, filter: string, first: Option<int>, offset: Option<int>)

  const NOTHING := Asked("", "", None, None)

  function AskedIn(args: string): Asked {
    Asked(QueryText.SortArg(args), QueryText.FilterArg(args), FirstNumber("first", args), FirstNumber("offset", args))
  }

  /** What is read from a printed argument list: a number in the filter's text goes first. */
  function Read(a: Args): Asked {
    Asked(a.sort, a.filter, NumberOf("first", a.filter, a.gaps.rest), NumberOf("offset", a.filter, a.gaps.rest))
  }

  lemma NoArgs()
    ensures AskedIn("") == NOTHING && FirstNumber("first", "") == None && FirstNumber("offset", "") == None
  {
  }

  lemma PrintedArgsAreRead(a: Args, post: string)
    requires IsArgs(a)
    ensures QueryText.Inside(Parens(a) + post, '(', ')') == ArgsText(a.sort, a.filter, a.gaps)
    ensures AskedIn(ArgsText(a.sort, a.filter, a.gaps)) == Read(a) && '{' !in ArgsText(a.sort, a.filter, a.gaps)
  {
    ArgsReadBack(a.sort, a.filter, a.gaps);
    NumbersAreRead(a.sort, a.filter, a.gaps, "first");
    NumbersAreRead(a.sort, a.filter, a.gaps, "offset");
    ArgsAreFlat(a.sort, a.filter, a.gaps);
    hide ArgsText, QueryText.Inside, QueryText.SortArg, QueryText.FilterArg, FirstNumber, Depth;
    var text := ArgsText(a.sort, a.filter, a.gaps);
    PlainTextKeepsDepth(text, 1, '(', ')');
    BracketsAreFound(text, post, '(', ')');
    assert Parens(a) + post == ['('] + text + [')'] + post;
  }

  /** The first parentheses of a text that leads to printed arguments are read as these. */
  lemma LeadingArgsAreRead(s: string, args: Option<Args>)
    requires LeadsTo(s, args) && (args.Some? ==> IsArgs(args.value))
    ensures AskedIn(RootArgs(s)) == (if args.Some? then Read(args.value) else NOTHING) && '{' !in RootArgs(s)
  {
    hide Parens, ArgsText, AskedIn, Read, QueryText.Inside;
    if args.Some? {
      var post :| FromParen(s) == Parens(args.value) + post;
      PrintedArgsAreRead(args.value, post);
      ParensAreSomething(args.value);
      assert FromParen(s) != "";
    } else {
      PlainLeadsNowhere(s);
      NoArgs();
    }
  }

  lemma ParensAreSomething(a: Args)
    ensures Parens(a) != ""
  {
  }

  /** Whose arguments are read for the root: its own, or else those of the first relationship that has any. */
  function ReadFrom(q: Query): Option<Args> {
    if HasArgs(q.sort, q.filter, q.head) then Some(Args(q.sort, q.filter, q.head)) else FirstArgs(q.items)
  }

  lemma RootArgsAreTheFirstOnes(q: Query)
    requires IsQuery(q)
    ensures AskedIn(RootArgs(RootText(q))) == (if ReadFrom(q).Some? then Read(ReadFrom(q).value) else NOTHING)
    ensures '{' !in RootArgs(RootText(q))
  {
    hide LeadsTo, Print, PrintBlock, PrintArgs, AskedIn, FirstArgs, Printable, IsSortArg,
        IsFilterArg, IsHeadGaps, IsBlockGaps;
    PrintLeadsToFirstArgs(q.items);
    BlockLeads(q.items, q.block);
    PlainLeadsNowhere(q.after);
    FirstOfBoth(PrintBlock(q.items, q.block), q.after, FirstArgs(q.items), None);
    HeadLeads(q.sort, q.filter, q.head, PrintBlock(q.items, q.block) + q.after, FirstArgs(q.items));
    FirstArgsArePrintable(q.items);
    LeadingArgsAreRead(RootText(q), ReadFrom(q));
  }

  /** A filter's text leaves the page alone if its numbers, where it names any, select the same rows as those outside.
      An offset counts only where there is a size, and then in whole pages. */
  predicate LeavesPage(filter: string, rest: string) {
    var size := SizeOf(FirstNumber("first", rest));
    && FirstNumber("first", filter) in {None, Some(size)}
    && (size == 0 || FirstNumber("offset", filter).None?
        || WholePages(FirstNumber("offset", filter), size) == WholePages(FirstNumber("offset", rest), size))
  }

  /** The guard under which the root is listed by its own arguments. */
  predicate OwnArgsAreRead(q: Query) {
    if HasArgs(q.sort, q.filter, q.head) then LeavesPage(q.filter, q.head.rest)
    else
      match FirstArgs(q.items)
      case None => true
      case Some(a) => a.sort == "" && a.filter == "" && SizeOf(FirstNumber("first", a.gaps.rest)) == 0
  }

  /** The page a query means. */
  function PageMeant(q: Query): Paging {
    PageOf(FirstNumber("first", q.head.rest), FirstNumber("offset", q.head.rest))
  }

  /** A listing is sorted and filtered as its root asks, and takes the rows its root asks for, exactly if the root has
      arguments and its filter's text selects no other rows, or if it has none and the first relationship's arguments,
      which are applied to the root instead, neither sort nor filter nor limit anything. */
  lemma RootArgsReadBack(q: Query)
    requires IsQuery(q)
    ensures var args := RootArgs(RootText(q));
            && AskedIn(args).sort == q.sort && AskedIn(args).filter == q.filter
            && Span(PageRead(args)) == Span(PageMeant(q))
            <==> OwnArgsAreRead(q)
  {
    hide RootText, RootArgs, FirstArgs, QueryText.SortArg, QueryText.FilterArg, IsQuery, PageRead, Span, PageOf,
      FirstNumber, WholePages;
    RootArgsAreTheFirstOnes(q);
    PageWithoutBraces(RootArgs(RootText(q)));
    NoArgs();
    NumbersAreInRange(q.filter);
    NumbersAreInRange(q.head.rest);
    var m := PageMeant(q);
    SpanOfNumbers(FirstNumber("first", q.head.rest), FirstNumber("offset", q.head.rest));
    if ReadFrom(q).Some? {
      var a := ReadFrom(q).value;
      NumbersAreInRange(a.filter);
      NumbersAreInRange(a.gaps.rest);
      var r := Read(a);
      SpanOfNumbers(r.first, r.offset);
      if SizeOf(r.first) > 0 {
        PagesDiffer(SizeOf(r.first), r.offset, FirstNumber("offset", q.head.rest));
      }
    }
  }

  // ---- The root's selection ----

  /** The word `node` before white space. */
  predicate HasNodeWord(s: string) {
    exists k: nat :: k < |s| && IsNodeWordAt(s, k)
  }

  predicate IsNodeWordAt(s: string, k: nat) {
    k + 4 < |s| && s[k..k + 4] == "node" && s[k + 4] in {' ', '\t', '\n'}
  }

  lemma NodeWordFurtherOn(s: string, n: nat)
    requires n <= |s| && HasNodeWord(s[n..])
    ensures HasNodeWord(s)
  {
    var k: nat :| k < |s[n..]| && IsNodeWordAt(s[n..], k);
    assert s[n..][k..k + 4] == s[n + k..n + k + 4];
    assert IsNodeWordAt(s, n + k);
  }

  lemma NodeWordBehind(s: string, n: nat)
    requires n <= |s| && HasNodeWord(s) && forall k: nat :: k < n ==> !IsNodeWordAt(s, k)
    ensures HasNodeWord(s[n..])
  {
    var k: nat :| k < |s| && IsNodeWordAt(s, k);
    assert s[n..][k - n..k - n + 4] == s[k..k + 4];
    assert IsNodeWordAt(s[n..], k - n);
  }

  /** Text without the word, ending in a parenthesis, is passed over by the search for the node. */
  lemma {:induction false} SearchPassesOver(pre: string, t: string)
    requires |t| >= 4 && '{' !in pre && !HasNodeWord(pre) && (pre != "" ==> pre[|pre| - 1] == ')')
    ensures QueryText.NodeBody(pre + t) == QueryText.NodeBody(t)
    decreases |pre|
  {
    hide HasNodeWord, QueryText.Inside;
    var s := pre + t;
    if pre == "" {
      assert s == t;
    } else if s[..4] != "node" {
      assert s[1..] == pre[1..] + t;
      NothingFurtherOn(pre, 1);
      SearchPassesOver(pre[1..], t);
    } else {
      EndsBehindTheWord(pre, t);
      assert s[4..] == pre[4..] + t;
      NothingFurtherOn(pre, 4);
      SearchPassesOver(pre[4..], t);
    }
  }

  lemma NothingFurtherOn(pre: string, n: nat)
    requires n <= |pre| && !HasNodeWord(pre)
    ensures !HasNodeWord(pre[n..])
  {
    if HasNodeWord(pre[n..]) {
      NodeWordFurtherOn(pre, n);
    }
  }

  lemma EndsBehindTheWord(pre: string, t: string)
    requires pre != "" && pre[|pre| - 1] == ')' && '{' !in pre && |t| >= 4 &&
        (pre + t)[..4] == "node" && !HasNodeWord(pre)
    ensures |pre| > 4 && (pre + t)[4] == pre[4] && pre[4] !in {' ', '\t', '\n', '{'}
  {
    var s := pre + t;
    assert s[0] == 'n' && s[1] == 'o' && s[2] == 'd' && s[3] == 'e' by {
      assert s[..4][0] == 'n' && s[..4][1] == 'o' && s[..4][2] == 'd' && s[..4][3] == 'e';
    }
    assert |pre| > 4;
    assert pre[0..4] == s[..4];
    assert !IsNodeWordAt(pre, 0);
  }

  /** Once the word is there, the next brace is taken for the node's. */
  lemma {:induction false} SearchStopsAtTheWord(pre: string, gap: string, b: string)
    requires '{' !in pre && HasNodeWord(pre) && IsGap(gap) && b != "" && b[0] == '{'
    ensures QueryText.NodeBody(pre + (gap + b)) == QueryText.Inside(b, '{', '}')
    decreases |pre|
  {
    hide HasNodeWord, QueryText.Inside, IsGap;
    var t := gap + b;
    var s := pre + t;
    LongEnough(pre);
    if IsNodeWordAt(pre, 0) {
      assert s[..4] == pre[0..4] && s[4] == pre[4];
      NextBrace(pre, gap, b);
    } else if s[..4] != "node" {
      assert s[1..] == pre[1..] + t;
      NodeWordBehind(pre, 1);
      SearchStopsAtTheWord(pre[1..], gap, b);
    } else {
      assert s[..4] == pre[0..4] && s[4] == pre[4];
      assert pre[4] in pre;
      assert s[4..] == pre[4..] + t;
      OnceInFour(pre);
      NodeWordBehind(pre, 4);
      SearchStopsAtTheWord(pre[4..], gap, b);
    }
  }

  lemma LongEnough(pre: string)
    requires HasNodeWord(pre)
    ensures |pre| > 4
  {
  }

  lemma OnceInFour(s: string)
    requires |s| > 4 && s[0..4] == "node" && !IsNodeWordAt(s, 0)
    ensures forall k: nat :: k < 4 ==> !IsNodeWordAt(s, k)
  {
    forall k: nat | k < 4 ensures !IsNodeWordAt(s, k) {
      if 0 < k && k + 4 < |s| {
        assert s[0..4][k] == s[k] == s[k..k + 4][0];
        assert s[k] != 'n';
      }
    }
  }

  lemma NextBrace(pre: string, gap: string, b: string)
    requires |pre| > 4 && '{' !in pre && IsGap(gap) && b != "" && b[0] == '{'
    ensures var s := pre + (gap + b);
            var rest := s[4..];
            var n := QueryText.IndexOf(rest, '{');
            n < |rest| && s[4 + n..] == b
  {
    var s := pre + (gap + b);
    var rest := s[4..];
    var m := |pre| + |gap| - 4;
    forall k | 0 <= k < m ensures rest[k] != '{' {
      if k < |pre| - 4 {
        assert rest[k] == pre[k + 4] && pre[k + 4] in pre;
      } else {
        assert rest[k] == gap[k + 4 - |pre|];
      }
    }
    assert rest[m] == b[0];
    RunIs(x => x != '{', rest, m);
  }

  /** The block's own content as a node body: one relationship called `edges`, or nothing where the node is empty. */
  lemma ContentReads(items: seq<Item>, g: BlockGaps, after: string)
    requires Printable(items) && IsBlockGaps(g)
    ensures var m := Meaning(items);
            QueryText.ParseNodeBody(QueryText.Inside(PrintBlock(items, g) + after, '{', '}'))
            == QueryText.Selection([], if HoldsSomething(items, g)
                then [QueryText.Rel("edges", "", "", m.fields, m.rels)] else [])
  {
    hide *;
    var x := Print(items);
    GapsInBlock(g);
    PrintIsBalanced(items);
    ReadingPrintedText(items);
    BodyIsParsed(items, g.beforeItems, g.afterItems);
    BodyIsSomething(items, g);
    ContentText(x, g, after);
    EdgesRead(x, g);
    BlockIs(items, g);
  }

  lemma BlockIs(items: seq<Item>, g: BlockGaps)
    ensures PrintBlock(items, g) == BlockText(Print(items), g)
  {
    hide Print, BlockText;
  }

  lemma GapsInBlock(g: BlockGaps)
    requires IsBlockGaps(g)
    ensures IsGap(g.beforeEdges) && IsGap(g.afterEdges) && IsGap(g.beforeNode) &&
        IsGap(g.beforeItems) && IsGap(g.afterItems)
    ensures IsGap(g.afterNodeBlock) && IsGap(g.afterEdgesBlock)
  {
  }

  lemma ContentText(x: string, g: BlockGaps, after: string)
    requires IsBalanced(x) && IsBlockGaps(g)
    ensures QueryText.Inside(BlockText(x, g) + after, '{', '}') == g.beforeEdges + EdgesText(x, g) + g.afterEdgesBlock
  {
    hide QueryText.Inside, Depth, Braces, EdgesText;
    BlocksAreBalanced(x, g);
    BracesAreFound(g.beforeEdges, EdgesText(x, g), g.afterEdgesBlock, after);
  }

  lemma EdgesRead(x: string, g: BlockGaps)
    requires IsBalanced(x) && IsBlockGaps(g)
    requires QueryText.ParseNodeBody(g.beforeItems + x + g.afterItems) == QueryText.Parse(x)
    ensures QueryText.ParseNodeBody(g.beforeEdges + EdgesText(x, g) + g.afterEdgesBlock)
         == QueryText.Selection([], if g.beforeItems + x + g.afterItems == "" then []
                                    else [QueryText.Rel("edges", "", "",
                                        QueryText.Parse(x).fields, QueryText.Parse(x).rels)])
  {
    hide Depth, QueryText.Parse, QueryText.ParseNodeBody, QueryText.Inside, QueryText.NodeBody, QueryText.ReadHead,
      QueryText.Past, QueryText.Trim, QueryText.Run, NodeText, IsGap, IsName;
    var block := Braces(g.beforeNode, NodeText(x, g), g.afterNodeBlock);
    var s := EdgesText(x, g);
    EdgesAreTrimmed(x, g);
    hide Braces;
    Keywords();
    QueryText.ParseEnds(g.beforeEdges + s + g.afterEdgesBlock);
    HeadWithoutArgs("edges", g.afterEdges, block);
    var h := QueryText.ReadHead(s);
    QueryText.ParseWord(s, h, block);
    BlocksAreBalanced(x, g);
    BracesAreFound(g.beforeNode, NodeText(x, g), g.afterNodeBlock, "");
    assert block + "" == block;
    assert block[|block|..] == "";
    QueryText.ParseEnds("");
    NodeInEdges(x, g);
    if g.beforeItems + x + g.afterItems != "" {
      BlockReads(h, block, g.beforeItems, x, g.afterItems);
    }
  }

  lemma EdgesAreTrimmed(x: string, g: BlockGaps)
    requires IsBlockGaps(g)
    ensures QueryText.Trim(g.beforeEdges + EdgesText(x, g) + g.afterEdgesBlock) == EdgesText(x, g)
    ensures var block := Braces(g.beforeNode, NodeText(x, g), g.afterNodeBlock); block != "" && block[0] == '{'
    ensures EdgesText(x, g) != ""
  {
    hide NodeText, QueryText.Trim;
    var s := EdgesText(x, g);
    assert s[0] == 'e' && s[|s| - 1] == '}';
    PaddingIsTrimmed(g.beforeEdges, s, g.afterEdgesBlock);
  }

  lemma NodeInEdges(x: string, g: BlockGaps)
    requires IsBalanced(x) && IsBlockGaps(g)
    ensures QueryText.NodeBody(g.beforeNode + NodeText(x, g) + g.afterNodeBlock) == g.beforeItems + x + g.afterItems
  {
    hide Depth, QueryText.NodeBody, NodeText;
    NodeIsFound(x, g, g.afterNodeBlock);
    NodeTextIsLong(x, g);
    NodeSearchSkips(g.beforeNode, NodeText(x, g) + g.afterNodeBlock);
    assert g.beforeNode + NodeText(x, g) + g.afterNodeBlock == g.beforeNode + (NodeText(x, g) + g.afterNodeBlock);
  }

  lemma NodeTextIsLong(x: string, g: BlockGaps)
    ensures |NodeText(x, g)| >= 4
  {
  }

  /** The selection read for the root is the one printed exactly if no argument of the root holds the word `node` before
      white space, or the selection is empty: otherwise the handler takes `edges` itself for a relationship. */
  lemma RootSelectionReadsBack(q: Query)
    requires IsQuery(q)
    ensures QueryText.ParseNodeBody(QueryText.NodeBody(RootText(q))) == Meaning(q.items)
            <==> !HasNodeWord(PrintArgs(q.sort, q.filter, q.head)) || !HoldsSomething(q.items, q.block)
  {
    ArgsShape(q.sort, q.filter, q.head);
    SelectionBehind(PrintArgs(q.sort, q.filter, q.head), q.head.behind, q.items, q.block, q.after);
  }

  /** The same behind any argument list. */
  lemma SelectionBehind(pre: string, behind: string, items: seq<Item>, g: BlockGaps, after: string)
    requires '{' !in pre && (pre != "" ==> pre[|pre| - 1] == ')') && IsGap(behind) && Printable(items) && IsBlockGaps(g)
    ensures var s := pre + (behind + (PrintBlock(items, g) + after));
            QueryText.ParseNodeBody(QueryText.NodeBody(s)) == Meaning(items)
            <==> !HasNodeWord(pre) || !HoldsSomething(items, g)
  {
    hide Print, Printable, Meaning, QueryText.NodeBody, QueryText.ParseNodeBody, QueryText.Inside, HasNodeWord, Depth,
      HoldsSomething, IsBlockGaps;
    var b := PrintBlock(items, g) + after;
    BlockIsLong(items, g);
    assert b[0] == '{' && |b| >= 4;
    hide PrintBlock;
    if HasNodeWord(pre) {
      SearchStopsAtTheWord(pre, behind, b);
      ContentReads(items, g, after);
      NothingHoldsItself(Meaning(items));
      EmptyMeaning(items, g);
    } else {
      SearchPassesOver(pre, behind + b);
      NodeSearchSkips(behind, b);
      QueriesReadBack(items, g, after);
    }
  }

  lemma BlockIsLong(items: seq<Item>, g: BlockGaps)
    ensures |PrintBlock(items, g)| >= 4 && PrintBlock(items, g)[0] == '{'
  {
    hide Print;
  }

  lemma EmptyMeaning(items: seq<Item>, g: BlockGaps)
    ensures !HoldsSomething(items, g) ==> Meaning(items) == QueryText.Selection([], [])
  {
  }

  lemma ArgsShape(sort: string, filter: string, g: HeadGaps)
    requires IsSortArg(sort) && IsFilterArg(filter) && IsHeadGaps(g)
    ensures var pre := PrintArgs(sort, filter, g); '{' !in pre && (pre != "" ==> pre[|pre| - 1] == ')')
  {
    ArgsHaveNoBraces(sort, filter, g);
    hide ArgsText;
  }

  lemma NothingHoldsItself(m: QueryText.Selection)
    ensures m != QueryText.Selection([], [QueryText.Rel("edges", "", "", m.fields, m.rels)])
  {
    var r := QueryText.Rel("edges", "", "", m.fields, m.rels);
    assert [r][..0] == [];
    assert Resolver.Count([r]) == 1 + Resolver.Count(m.rels);
  }

  // ---- The root's keys ----

  /** All quoted values of a query in the order they are written. */
  function QuotedIn(q: Query): seq<string> { ArgValues(q.sort, q.filter) + ValuesIn(q.items) }

  /** A listing is taken for a query by keys exactly if its quoted values, anywhere in it, name some. */
  lemma RootKeysAreRead(q: Query)
    requires IsQuery(q)
    ensures IdsRead(RootText(q)) != [] <==> NamesKeys(QuotedIn(q))
  {
    hide NamesKeys, IdsRead, IsWoven, Text, Values, PrintArgs, PrintBlock, Print, IsSortArg, IsFilterArg, IsBlockGaps;
    hide IsHeadGaps, IsQuiet;
    var items := WeaveItems(q.items);
    var block := WeaveBlock(items, Print(q.items), q.block);
    BlockIs(q.items, q.block);
    var after := Quiet(q.after);
    var end := Glued(block, after);
    var w := WeaveHead(q.sort, q.filter, q.head, end);
    assert ValuesIn(q.items) + [] == ValuesIn(q.items);
    KeysAreRead(w);
  }

  /** Such a value: with this filter the code fetches the row with key 7 and leaves the filter out. */
  lemma AFilterCanNameKeys(more: seq<string>)
    ensures NamesKeys(["id:[7]"] + more)
  {
    ThatFilterOpensAList();
    hide OpenAt, Leftmost;
    RunIs(c => c != ']', "7]", 1);
    assert "7]"[..1] == "7" && '7' in "7" && "7]"[1] == ']';
    hide QueryText.IndexOf, Split, Key;
    assert FirstBracket(["id:[7]"] + more) == Within("7");
    SomethingIsKept("7", 0);
  }

  lemma ThatFilterOpensAList()
    ensures Leftmost(OpenAt, "id:[7]", true) == Some("7]")
  {
    var v := "id:[7]";
    assert "id" <= v && v[2] != 's';
    assert v[2..] == ":[7]" && ":[7]"[1..] == "[7]" && "[7]"[1..] == "7]";
    hide QueryText.Run;
    RunIs(QueryText.IsBlank, ":[7]", 0);
    RunIs(QueryText.IsBlank, "[7]", 0);
  }

  /** A key as it is written in a list. */
  datatype KeyText = KeyText(before: string, id: string, after: string)

  /** A printed query by keys behind its root type's name. */
  datatype KeyQuery = KeyQuery(
    word: string, before: string, open: string, colon: string, start: string, ids: seq<KeyText>, close: string,
    behind: string, block: BlockGaps, items: seq<Item>, after: string)

  predicate IsKeyText(k: KeyText) {
    && IsGap(k.before) && IsGap(k.after)
    && k.id != "" && k.id[0] != '\'' && k.id[|k.id| - 1] != '\''
    && forall i :: 0 <= i < |k.id| ==> k.id[i] !in {'"', ',', ']', '{'}
  }

  predicate IsKeyQuery(q: KeyQuery) {
    && q.word in {"id", "ids"} && IsGap(q.before) && IsGap(q.open) && IsGap(q.colon) && IsGap(q.start) && IsGap(q.close)
    && q.ids != [] && (forall i :: 0 <= i < |q.ids| ==> IsKeyText(q.ids[i]))
    && IsGap(q.behind) && IsBlockGaps(q.block) && Printable(q.items)
  }

  function PrintKey(k: KeyText): string { k.before + ("\"" + (k.id + "\"")) + k.after }

  function PrintKeys(ids: seq<KeyText>): string
    requires ids != []
  {
    if |ids| == 1 then PrintKey(ids[0]) else PrintKey(ids[0]) + ("," + PrintKeys(ids[1..]))
  }

  function KeyArg(q: KeyQuery): string
    requires q.ids != []
  {
    q.word + (q.colon + (":" + (q.start + ("[" + (PrintKeys(q.ids) + "]")))))
  }

  function KeyArgs(q: KeyQuery): string
    requires q.ids != []
  {
    (q.before + ("(" + q.open)) + (KeyArg(q) + (q.close + ")"))
  }

  function KeyQueryText(q: KeyQuery): string
    requires q.ids != []
  {
    KeyArgs(q) + (q.behind + (PrintBlock(q.items, q.block) + q.after))
  }

  function Wanted(ids: seq<KeyText>): seq<string> { seq(|ids|, i requires 0 <= i < |ids| => ids[i].id) }

  lemma {:induction false} SplitBehind(x: string, y: string)
    requires ',' !in x
    ensures Split(x + ("," + y)) == [x] + Split(y) && Split(x) == [x]
  {
    if x == "" {
      assert ("" + ("," + y))[1..] == y;
    } else {
      assert (x + ("," + y))[1..] == x[1..] + ("," + y);
      SplitBehind(x[1..], y);
      assert [x[0]] + x[1..] == x;
    }
  }

  lemma KeyReadsBack(k: KeyText)
    requires IsKeyText(k)
    ensures Key(PrintKey(k)) == k.id
  {
    var quoted := "\"" + (k.id + "\"");
    PaddingIsTrimmed(k.before, quoted, k.after);
    RunIs(IsQuote, quoted, 1);
    assert quoted[1..] == k.id + "\"";
    assert (k.id + "\"")[..|k.id|] == k.id;
    assert StripEnd(k.id) == k.id;
    assert StripEnd(k.id + "\"") == k.id;
    hide QueryText.Trim, StripEnd;
    assert PrintKey(k) == k.before + quoted + k.after;
  }

  lemma {:induction false} KeysReadBack(ids: seq<KeyText>)
    requires ids != [] && forall i :: 0 <= i < |ids| ==> IsKeyText(ids[i])
    ensures Keys(Split(PrintKeys(ids))) == Wanted(ids) && ']' !in PrintKeys(ids) && '{' !in PrintKeys(ids)
  {
    hide Key, PrintKey, Split;
    KeyReadsBack(ids[0]);
    NothingInKey(ids[0]);
    var x := PrintKey(ids[0]);
    if |ids| == 1 {
      SplitBehind(x, "");
      assert Wanted(ids) == [ids[0].id];
      assert [x][1..] == [];
    } else {
      KeysReadBack(ids[1..]);
      SplitBehind(x, PrintKeys(ids[1..]));
      assert ([x] + Split(PrintKeys(ids[1..])))[1..] == Split(PrintKeys(ids[1..]));
      assert Wanted(ids) == [ids[0].id] + Wanted(ids[1..]);
      assert ids[0].id != "";
    }
  }

  lemma NothingInKey(k: KeyText)
    requires IsKeyText(k)
    ensures ',' !in PrintKey(k) && ']' !in PrintKey(k) && '{' !in PrintKey(k) && k.id != ""
  {
  }

  lemma KeyArgIsFound(q: KeyQuery, list: string, t: string)
    requires IsKeyQuery(q) && ']' !in list
    ensures ListAt(q.word + (q.colon + (":" + (q.start + ("[" + (list + ("]" + t)))))), true) == Some(list)
  {
    hide BehindIds, QueryText.Run, PrintKeys, IsBlockGaps, Printable, IsKeyText;
    var open := "[" + (list + ("]" + t));
    var u := q.colon + (":" + (q.start + open));
    var s := q.word + u;
    assert open != "" && open[0] == '[' && open[1..] == list + ("]" + t);
    ListEnds(list, t);
    ColonRead(q.colon, q.start, open);
    assert u[0] != 's';
    WordRead(q.word, u);
  }

  lemma WordRead(word: string, u: string)
    requires word in {"id", "ids"} && u != "" && u[0] != 's'
    ensures BehindIds(word + u, true) == BehindColon(u)
  {
    hide BehindColon;
    var s := word + u;
    assert s[|word|..] == u;
    if word == "id" {
      assert s[2] == u[0] && "ids"[2] == 's';
    }
  }

  lemma ListEnds(list: string, t: string)
    requires ']' !in list
    ensures var s := list + ("]" + t);
            QueryText.IndexOf(s, ']') == |list| < |s| && s[..|list|] == list
  {
    var s := list + ("]" + t);
    forall k | 0 <= k < |list| ensures s[k] != ']' { assert s[k] in list; }
    RunIs(c => c != ']', s, |list|);
  }

  /** A single key is read where no list stands in the text. */
  lemma ASingleKeyIsRead(lead: string, word: string, colon: string, start: string, id: string, rest: string)
    requires word in {"id", "ids"} && IsGap(colon) && IsGap(start) && id != "" && '"' !in id
    requires 'i' !in lead && (lead != "" ==> lead[|lead| - 1] in {'(', ' ', '\t', '\n', '\r', ','})
    requires ']' !in lead && ']' !in id && ']' !in rest
    ensures IdsRead(lead + (word + (colon + (":" + (start + ("\"" + (id + ("\"" + rest)))))))) == [id]
  {
    hide BehindColon, QueryText.Run, Leftmost;
    var quoted := "\"" + (id + ("\"" + rest));
    var u := colon + (":" + (start + quoted));
    var t := word + u;
    ColonRead(colon, start, quoted);
    assert u[0] != 's';
    WordRead(word, u);
    QuotedValue(id, rest, '"');
    assert SingleAt(t, true) == Some(id);
    NothingCloses(lead, word, colon, start, id, rest);
    NoListWithout(lead + t, true);
    hide SingleAt;
    forall k, c | 0 <= k < |lead| ensures SingleAt((lead + t)[k..], c).None? {
      assert (lead + t)[k..][0] == lead[k] && lead[k] in lead;
      NoSingleWithoutI((lead + t)[k..], c);
    }
    SearchGoesOn(SingleAt, lead, t, true);
    FirstIsThere(SingleAt, t);
  }

  lemma FirstIsThere<T>(at: (string, bool) -> Option<T>, t: string)
    ensures at(t, true).Some? ==> Leftmost(at, t, true) == at(t, true)
  {
  }

  lemma NoSingleWithoutI(s: string, b: bool)
    requires s != "" && s[0] != 'i'
    ensures SingleAt(s, b).None?
  {
    hide BehindColon;
    assert "id"[0] != s[0];
  }

  lemma NothingCloses(lead: string, word: string, colon: string, start: string, id: string, rest: string)
    requires word in {"id", "ids"} && IsGap(colon) && IsGap(start)
    requires ']' !in lead && ']' !in id && ']' !in rest
    ensures ']' !in lead + (word + (colon + (":" + (start + ("\"" + (id + ("\"" + rest)))))))
  {
  }

  /** The keys a query by keys is written with are the keys read from it, in their order. */
  lemma KeyQueriesReadBack(q: KeyQuery)
    requires IsKeyQuery(q)
    ensures IdsRead(KeyQueryText(q)) == Wanted(q.ids)
  {
    KeysReadBack(q.ids);
    var list := PrintKeys(q.ids);
    var lead := q.before + ("(" + q.open);
    var tail := (q.close + ")") + (q.behind + (PrintBlock(q.items, q.block) + q.after));
    KeyArgIsFound(q, list, tail);
    LeadHasNoI(q);
    KeyTextParts(q, tail);
    hide PrintKeys, PrintBlock, ListAt, SingleAt, Keys, Split, KeyQueryText, IsKeyQuery;
    var t := q.word + (q.colon + (":" + (q.start + ("[" + (list + ("]" + tail))))));
    forall k, c | 0 <= k < |lead| ensures ListAt((lead + t)[k..], c).None? {
      NoIdWithoutI((lead + t)[k..], c, lead[k]);
    }
    SearchGoesOn(ListAt, lead, t, true);
  }

  lemma NoIdWithoutI(s: string, b: bool, c: char)
    requires s != "" && s[0] == c != 'i'
    ensures ListAt(s, b).None?
  {
    hide BehindColon;
    assert "id"[0] != s[0];
  }

  lemma LeadHasNoI(q: KeyQuery)
    requires IsKeyQuery(q)
    ensures var lead := q.before + ("(" + q.open);
            lead != "" && !QueryText.IsWordChar(lead[|lead| - 1]) && forall k :: 0 <= k < |lead| ==> lead[k] != 'i'
  {
  }

  lemma KeyTextParts(q: KeyQuery, tail: string)
    requires q.ids != [] && tail == (q.close + ")") + (q.behind + (PrintBlock(q.items, q.block) + q.after))
    ensures KeyQueryText(q)
         == (q.before + ("(" + q.open)) +
             (q.word + (q.colon + (":" + (q.start + ("[" + (PrintKeys(q.ids) + ("]" + tail)))))))
  {
    hide PrintKeys, PrintBlock;
    var end := q.behind + (PrintBlock(q.items, q.block) + q.after);
    KeyArgParts(q, tail);
    hide KeyArg;
    assert KeyArgs(q) + end == (q.before + ("(" + q.open)) + (KeyArg(q) + tail);
  }

  lemma KeyArgParts(q: KeyQuery, t: string)
    requires q.ids != []
    ensures KeyArg(q) + t == q.word + (q.colon + (":" + (q.start + ("[" + (PrintKeys(q.ids) + ("]" + t))))))
  {
    hide PrintKeys;
  }

  /** So is its selection, exactly if no key holds the word `node` before white space or the selection is empty. */
  lemma KeyQuerySelectionReadsBack(q: KeyQuery)
    requires IsKeyQuery(q)
    ensures QueryText.ParseNodeBody(QueryText.NodeBody(KeyQueryText(q))) == Meaning(q.items)
            <==> !HasNodeWord(KeyArgs(q)) || !HoldsSomething(q.items, q.block)
  {
    KeyArgsShape(q);
    hide PrintKeys, KeyArgs;
    SelectionBehind(KeyArgs(q), q.behind, q.items, q.block, q.after);
  }

  lemma KeyArgsShape(q: KeyQuery)
    requires IsKeyQuery(q)
    ensures var pre := KeyArgs(q); '{' !in pre && pre != "" && pre[|pre| - 1] == ')'
  {
    KeysReadBack(q.ids);
    hide PrintKeys, Printable, IsBlockGaps, IsKeyText, Split, Keys;
    var list := PrintKeys(q.ids);
    assert '{' !in KeyArg(q) by {
      assert KeyArg(q) == q.word + (q.colon + (":" + (q.start + ("[" + (list + "]")))));
    }
    hide KeyArg;
  }

  // ---- From the text to the answer ----

  /** What is read from the text behind the root type's name. */
  datatype Request = Request(
    ids: seq<string>, sort: string, filter: string, page: Paging, fields: seq<string>, rels: seq<QueryText.Rel>)

  function RequestOf(inner: string): Request {
    var asked := AskedIn(RootArgs(inner));
    var selection := QueryText.ParseNodeBody(QueryText.NodeBody(inner));
    Request(IdsRead(inner), asked.sort, asked.filter, PageRead(RootArgs(inner)), selection.fields, selection.rels)
  }

  method ReadRoot(inner: string) returns (r: Request)
    ensures r == RequestOf(inner)
  {
    hide QueryText.ParseNodeBody, QueryText.NodeBody, QueryText.SortArg, QueryText.FilterArg, QueryText.Inside,
      PageRead, IdsRead, FirstNumber;
    var ids := ReadIds(inner);
    var rootArgs := "";
    var i := QueryText.IndexOf(inner, '(');
    if i < |inner| {
      rootArgs := QueryText.ExtractContent(inner, i, '(', ')');
    }
    NoArgs();
    NoPage();
    var sort, filter, page := "", "", Paging(0, 0);
    if rootArgs != "" {
      sort := QueryText.SortArg(rootArgs);
      filter := QueryText.FilterArg(rootArgs);
      page := ReadPage(rootArgs);
    }
    var nodeBody := QueryText.FindNodeBody(inner);
    var fields, rels := QueryText.ParseBody(nodeBody);
    r := Request(ids, sort, filter, page, fields, rels);
  }

  lemma NoPage()
    ensures PageRead("") == Paging(0, 0)
  {
    PageWithoutBraces("");
    NoArgs();
  }

  function FiltersRead(db: Repository.Database, t: string, filter: string): Repository.Filters
    requires t in db.metas
  {
    if filter == "" then map[] else db.readFilter(filter, db.metas[t])
  }

  function ListingOf(db: Repository.Database, t: string, sort: string, filter: string,
      page: Paging): Repository.ListParams
    requires t in db.metas
  {
    Fetching.Listing(Fetching.Page(page.size, page.number, sort), FiltersRead(db, t, filter))
  }

  /** What a request is answered with: the rows of its keys, or else the rows of its listing, each resolved as if it had
      been looked up on its own. No answer stands for an error. */
  ghost predicate IsAnswer(db: Repository.Database, t: string, r: Request, nodes: Option<seq<Resolver.Node>>)
    requires Repository.WellFormed(db) && t in db.metas
  {
    if r.ids != [] then
      && nodes.Some?
      && Fetching.AreResolved(db, t, r.fields, r.rels, Fetching.FoundInOrder(db, t, r.ids), nodes.value)
    else
      var listed := Repository.Listed(db, t, ListingOf(db, t, r.sort, r.filter, r.page));
      && (nodes.Some? <==> listed.Some?)
      && (nodes.Some? ==> Fetching.AreResolved(db, t, r.fields, r.rels, listed.value, nodes.value))
  }

  /** Executing a query, whatever its text. */
  method Answer(repo: Repository.GenericRepository, t: string, inner: string)
      returns (nodes: Option<seq<Resolver.Node>>)
    requires Repository.WellFormed(repo.db)
    modifies repo`queries
    ensures t !in repo.db.metas ==> nodes.None? && repo.queries == old(repo.queries)
    ensures t in repo.db.metas ==>
              && IsAnswer(repo.db, t, RequestOf(inner), nodes)
              && repo.queries <= old(repo.queries) + 1 + Resolver.Count(RequestOf(inner).rels)
    // spelled out on the rows
    ensures t in repo.db.metas ==>
              var r := RequestOf(inner);
              if r.ids != [] then
                nodes.Some? && Fetching.IsByKeys(repo.db, t, r.ids, r.fields, r.rels, nodes.value)
              else
                var filters := if r.filter == "" then map[] else repo.db.readFilter(r.filter, repo.db.metas[t]);
                exists start :: Fetching.BeginsAt(Fetching.Page(r.page.size, r.page.number, r.sort), start)
                  && Fetching.IsPartOfList(repo.db, t, filters, r.sort, start, r.page.size, r.fields, r.rels, nodes)
  {
    hide RequestOf, Repository.WellFormed, Fetching.AreResolved, Fetching.FoundInOrder,
        Repository.Listed, Resolver.Count, Fetching.IsByKeys, Fetching.BeginsAt, Fetching.IsPartOfList;
    var r := ReadRoot(inner);
    if t !in repo.db.metas {
      return None;
    }
    var filters := FiltersRead(repo.db, t, r.filter);
    if |r.ids| > 0 {
      var found := Fetching.FetchByIDs(repo, t, r.ids, r.fields, r.rels);
      return Some(found);
    }
    nodes := Fetching.FetchAll(repo, t, r.fields, r.rels, Fetching.Page(r.page.size, r.page.number, r.sort), filters);
  }

  /** A listing is read as it is meant under these guards, each of them exact: on its own arguments, its quoted values
      and the word `node`. */
  lemma ListingsAreRead(q: Query)
    requires IsQuery(q) && OwnArgsAreRead(q) && !NamesKeys(QuotedIn(q))
    requires !HasNodeWord(PrintArgs(q.sort, q.filter, q.head)) || !HoldsSomething(q.items, q.block)
    ensures var r := RequestOf(RootText(q));
            && r.ids == [] && r.sort == q.sort && r.filter == q.filter && Span(r.page) == Span(PageMeant(q))
            && QueryText.Selection(r.fields, r.rels) == Meaning(q.items)
  {
    hide *;
    RootArgsReadBack(q);
    RootSelectionReadsBack(q);
    RootKeysAreRead(q);
    RequestIs(RootText(q));
  }

  lemma RequestIs(inner: string)
    ensures var asked := AskedIn(RootArgs(inner));
            var selection := QueryText.ParseNodeBody(QueryText.NodeBody(inner));
            RequestOf(inner)
            == Request(IdsRead(inner), asked.sort, asked.filter, PageRead(RootArgs(inner)),
                selection.fields, selection.rels)
  {
  }

  /** Only how many rows a page has and passes over counts for a listing. */
  lemma SpansDecide(db: Repository.Database, t: string, sort: string, filter: string, p: Paging, q: Paging)
    requires t in db.metas && Span(p) == Span(q)
    ensures ListingOf(db, t, sort, filter, p) == ListingOf(db, t, sort, filter, q)
  {
  }

  /** How many rows lie before a page: the largest multiple of its size that the offset reaches; none without a size,
      and none where 64 bits do not hold the page's number. */
  function RowsBefore(first: Option<int>, offset: Option<int>): int {
    if first.Some? && first.value > 0 && offset.Some? && offset.value / first.value < 0x7fff_ffff_ffff_ffff then
      offset.value / first.value * first.value
    else 0
  }

  lemma PageBeginsBehindThem(q: Query, r: Paging, sort: string, start: int)
    requires Span(r) == Span(PageMeant(q)) && Fetching.BeginsAt(Fetching.Page(r.size, r.number, sort), start)
    ensures start == RowsBefore(FirstNumber("first", q.head.rest), FirstNumber("offset", q.head.rest))
    ensures (if r.size > 0 then r.size else 0)
            == match FirstNumber("first", q.head.rest) case None => 0 case Some(size) => size
  {
    hide Ints.Wrap64, PageOf, FirstNumber;
    var first, offset := FirstNumber("first", q.head.rest), FirstNumber("offset", q.head.rest);
    NumbersAreInRange(q.head.rest);
    SpanOfNumbers(first, offset);
    hide WholePages, RowsBefore;
    assert RowsBefore(first, offset)
        == if SizeOf(first) == 0 then 0 else WholePages(offset, SizeOf(first)) * SizeOf(first)
      by { RowsBeforeAPage(first, offset); }
    if r.size > 0 && r.number > 1 {
      Fetching.OneNumberWraps((r.number - 1) * r.size, start);
    }
  }

  lemma RowsBeforeAPage(first: Option<int>, offset: Option<int>)
    requires IsNumber(first) && IsNumber(offset)
    ensures RowsBefore(first, offset)
            == if SizeOf(first) == 0 then 0 else WholePages(offset, SizeOf(first)) * SizeOf(first)
  {
  }

  lemma PartsOfNoSize(db: Repository.Database, t: string, filters: Repository.Filters, sort: string, start: int,
                      size: int, fields: seq<string>, rels: seq<QueryText.Rel>, nodes: Option<seq<Resolver.Node>>)
    requires Repository.WellFormed(db) && t in db.metas
    requires Fetching.IsPartOfList(db, t, filters, sort, start, size, fields, rels, nodes)
    ensures Fetching.IsPartOfList(db, t, filters, sort, start, if size > 0 then size else 0, fields, rels, nodes)
  {
    Resolver.HasTable(db, t);
    hide Repository.WellFormed, Listings.IsList, Fetching.AreShown, Listings.IsAskable;
    if nodes.Some? {
      var all :| Listings.IsList(db, t, None, filters, sort, all)
                 && Fetching.AreShown(db, t, Listings.Part(all, start, size), fields, rels, nodes.value);
      assert Listings.Part(all, start, if size > 0 then size else 0) == Listings.Part(all, start, size);
    }
  }

  /** A printed listing: every listed row comes back with exactly the fields and relationships printed. */
  method AnswerListing(repo: Repository.GenericRepository, t: string, inner: string, ghost q: Query)
    returns (nodes: Option<seq<Resolver.Node>>)
    requires Repository.WellFormed(repo.db) && t in repo.db.metas
    requires IsQuery(q) && inner == RootText(q) && OwnArgsAreRead(q) && !NamesKeys(QuotedIn(q))
    requires !HasNodeWord(PrintArgs(q.sort, q.filter, q.head)) || !HoldsSomething(q.items, q.block)
    modifies repo`queries
    ensures var listed := Repository.Listed(repo.db, t, ListingOf(repo.db, t, q.sort, q.filter, PageMeant(q)));
            && (nodes.Some? <==> listed.Some?)
            && (nodes.Some? ==>
                  Fetching.AreResolved(repo.db, t, Meaning(q.items).fields,
                      Meaning(q.items).rels, listed.value, nodes.value))
    ensures repo.queries <= old(repo.queries) + 1 + Resolver.Count(Meaning(q.items).rels)
    // spelled out on the rows
    ensures var filters := if q.filter == "" then map[] else repo.db.readFilter(q.filter, repo.db.metas[t]);
            var first, offset := FirstNumber("first", q.head.rest), FirstNumber("offset", q.head.rest);
            Fetching.IsPartOfList(repo.db, t, filters, q.sort, RowsBefore(first, offset),
                if first.Some? then first.value else 0, Meaning(q.items).fields, Meaning(q.items).rels, nodes)
  {
    hide RequestOf, Repository.WellFormed, Fetching.AreResolved, Fetching.FoundInOrder, Repository.Listed,
      Resolver.Count, IsQuery, OwnArgsAreRead, NamesKeys, HasNodeWord, RootText, HoldsSomething, Meaning, PageMeant,
      Span, ListingOf, Fetching.IsByKeys, Fetching.BeginsAt, Fetching.IsPartOfList, RowsBefore, FirstNumber;
    ListingsAreRead(q);
    ghost var r := RequestOf(inner);
    SpansDecide(repo.db, t, q.sort, q.filter, r.page, PageMeant(q));
    nodes := Answer(repo, t, inner);
    ghost var filters := if q.filter == "" then map[] else repo.db.readFilter(q.filter, repo.db.metas[t]);
    ghost var start :| Fetching.BeginsAt(Fetching.Page(r.page.size, r.page.number, q.sort), start)
      && Fetching.IsPartOfList(repo.db, t, filters, q.sort, start, r.page.size, r.fields, r.rels, nodes);
    PageBeginsBehindThem(q, r.page, q.sort, start);
    PartsOfNoSize(repo.db, t, filters, q.sort, start, r.page.size, r.fields, r.rels, nodes);
  }

  /** A printed query by keys: the rows found come back in the order of the keys, with exactly what is printed. */
  method AnswerKeys(repo: Repository.GenericRepository, t: string, inner: string, ghost q: KeyQuery)
    returns (nodes: Option<seq<Resolver.Node>>)
    requires Repository.WellFormed(repo.db) && t in repo.db.metas
    requires IsKeyQuery(q) && inner == KeyQueryText(q)
    requires !HasNodeWord(KeyArgs(q)) || !HoldsSomething(q.items, q.block)
    modifies repo`queries
    ensures nodes.Some?
    ensures Fetching.AreResolved(repo.db, t, Meaning(q.items).fields, Meaning(q.items).rels,
                                 Fetching.FoundInOrder(repo.db, t, Wanted(q.ids)), nodes.value)
    // spelled out on the rows
    ensures Fetching.IsByKeys(repo.db, t, seq(|q.ids|, i requires 0 <= i < |q.ids| => q.ids[i].id),
                              Meaning(q.items).fields, Meaning(q.items).rels, nodes.value)
    ensures repo.queries <= old(repo.queries) + 1 + Resolver.Count(Meaning(q.items).rels)
  {
    hide RequestOf, Repository.WellFormed, Fetching.AreResolved, Fetching.FoundInOrder, Repository.Listed,
      Resolver.Count, HasNodeWord, KeyQueryText, HoldsSomething, Meaning, IdsRead, QueryText.ParseNodeBody,
      QueryText.NodeBody, KeyArgs, Fetching.IsByKeys, Fetching.BeginsAt, Fetching.IsPartOfList;
    KeyQueriesReadBack(q);
    KeyQuerySelectionReadsBack(q);
    RequestIs(inner);
    assert |Wanted(q.ids)| == |q.ids| > 0;
    assert Wanted(q.ids) == seq(|q.ids|, i requires 0 <= i < |q.ids| => q.ids[i].id);
    nodes := Answer(repo, t, inner);
  }
}
