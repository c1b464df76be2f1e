/** The hand-written reader of GraphQL selections: a scan that matches braces and parentheses by counting. */
module QueryText {
  import opened Wrappers

  datatype Rel = Rel(name: string, sort: string, filter: string, fields: seq<string>, rels: seq<Rel>)

  datatype Selection = Selection(fields: seq<string>, rels: seq<Rel>)

  const NOTHING := Selection([], [])

  predicate IsSpace(c: char) {
    c == ' ' || c == '\t' || c == '\n' || c == '\r'
  }

  /** White space in the sense of `\s` in an argument pattern. */
  predicate IsBlank(c: char) {
    IsSpace(c) || c == '\U{c}'
  }

  /** White space in the sense of trimming. */
  predicate IsTrimmed(c: char) {
    IsBlank(c) || '\U{2000}' <= c <= '\U{200a}'
    || c == '\U{b}' || c == '\U{85}' || c == '\U{a0}' || c == '\U{1680}'
    || c == '\U{2028}' || c == '\U{2029}' || c == '\U{202f}' || c == '\U{205f}' || c == '\U{3000}'
  }

  predicate IsWordChar(c: char) {
    'a' <= c <= 'z' || 'A' <= c <= 'Z' || '0' <= c <= '9' || c == '_'
  }

  /** How many characters at the start of `s` satisfy `p`. */
  function Run(p: char -> bool, s: string): (n: nat)
    ensures n <= |s|
    ensures forall k :: 0 <= k < n ==> p(s[k])
    ensures n < |s| ==> !p(s[n])
  {
    if s == "" || !p(s[0]) then 0 else 1 + Run(p, s[1..])
  }

  function Spaces(s: string): nat { Run(IsSpace, s) }

  function WordLength(s: string): nat { Run(IsWordChar, s) }

  function IndexOf(s: string, c: char): nat { Run(x => x != c, s) }

  function TrimStart(s: string): string { s[Run(IsTrimmed, s)..] }

  function TrimEnd(s: string): string {
    if s != "" && IsTrimmed(s[|s| - 1]) then TrimEnd(s[..|s| - 1]) else s
  }

  function Trim(s: string): (r: string)
    ensures |r| <= |s|
  {
    TrimEndShortens(TrimStart(s));
    TrimEnd(TrimStart(s))
  }

  lemma {:induction false} TrimEndShortens(s: string)
    ensures |TrimEnd(s)| <= |s|
  {
    if s != "" {
      TrimEndShortens(s[..|s| - 1]);
    }
  }

  // ---- Matching brackets ----

  /** The position of the bracket that closes the one at depth `d`, or the length of `s`. */
  function Close(s: string, d: int, open: char, close: char): (r: nat)
    ensures r <= |s|
  {
    if s == "" then 0
    else if s[0] == open then 1 + Close(s[1..], d + 1, open, close)
    else if s[0] == close then (if d == 1 then 0 else 1 + Close(s[1..], d - 1, open, close))
    else 1 + Close(s[1..], d, open, close)
  }

  /** What stands between the bracket `s` begins with and the one that closes it; empty when none does. */
  function Inside(s: string, open: char, close: char): (r: string)
    ensures s != "" ==> |r| < |s|
  {
    var end := Close(s, 0, open, close);
    if end == |s| || end == 0 then "" else s[1..end]
  }

  /** Where the scan goes on after that bracket. */
  function Past(s: string, open: char, close: char): (n: nat)
    ensures n <= |s|
    ensures s != "" ==> n > 0
  {
    var end := Close(s, 0, open, close);
    if end == |s| then |s| else end + 1
  }

  // ---- Arguments ----

  /** `key\s*:\s*"([^"]*)"` at the start of `s`, with `[^"]+` when `nonEmpty`. */
  function MatchAt(s: string, key: string, quote: char, nonEmpty: bool): Option<string> {
    if !(key <= s) then None
    else
      var a := s[|key|..];
      var b := a[Run(IsBlank, a)..];
      if b == "" || b[0] != ':' then None
      else
        var c := b[1..];
        var d := c[Run(IsBlank, c)..];
        if d == "" || d[0] != quote then None
        else
          var n := IndexOf(d[1..], quote);
          if n == |d[1..]| || (nonEmpty && n == 0) then None else Some(d[1..][..n])
  }

  /** The leftmost match. */
  function FirstMatch(s: string, key: string, quote: char, nonEmpty: bool): Option<string> {
    if MatchAt(s, key, quote, nonEmpty).Some? then MatchAt(s, key, quote, nonEmpty)
    else if s == "" then None
    else FirstMatch(s[1..], key, quote, nonEmpty)
  }

  function SortArg(args: string): string {
    var m := FirstMatch(args, "sort", '"', true);
    if m.Some? then m.value else ""
  }

  function FilterArg(args: string): string {
    var m := FirstMatch(args, "filter", '"', false);
    if m.Some? then m.value
    else
      var n := FirstMatch(args, "filter", '\'', false);
      if n.Some? then n.value else ""
  }

  // ---- Node bodies ----

  /** The content of the first `node { … }`. */
  function NodeBody(s: string): (r: string)
    ensures |r| <= |s|
  {
    if |s| < 4 then ""
    else if s[..4] != "node" then NodeBody(s[1..])
    else if |s| > 4 && (s[4] == ' ' || s[4] == '\t' || s[4] == '\n' || s[4] == '{') then
      var b := IndexOf(s[4..], '{');
      if b == |s[4..]| then "" else Inside(s[4 + b..], '{', '}')
    else NodeBody(s[4..])
  }

  /** A word with its arguments, as the scan reads it from the start of `s`: what it is and where it ends. */
  datatype Head = Head(word: string, sort: string, filter: string, end: nat)

  function ReadHead(s: string): (h: Head)
    ensures h.end <= |s|
    ensures WordLength(s) > 0 ==> h.end > 0
  {
    var w := WordLength(s);
    HeadBehind(s[..w], s[w..])
  }

  /** The rest of a head, by what stands behind its word. */
  function HeadBehind(word: string, more: string): (h: Head)
    ensures |word| <= h.end <= |word| + |more|
  {
    var n := Spaces(more);
    if n < |more| && more[n] == '(' then
      var args := Inside(more[n..], '(', ')');
      var k := n + Past(more[n..], '(', ')');
      Head(word, SortArg(args), FilterArg(args), |word| + k + Spaces(more[k..]))
    else
      Head(word, "", "", |word| + n)
  }

  function ParseNodeBody(body: string): Selection
    decreases |body|, 1
  {
    Parse(Trim(body))
  }

  function Parse(s: string): Selection
    decreases |s|, 0
  {
    if s == "" then NOTHING
    else if Spaces(s) > 0 then Parse(s[Spaces(s)..])
    else if WordLength(s) == 0 then Parse(s[1..])
    else
      var h := ReadHead(s);
      var t := s[h.end..];
      if t != "" && t[0] == '{' then
        var body := NodeBody(Inside(t, '{', '}'));
        var rest := Parse(t[Past(t, '{', '}')..]);
        if body == "" then rest
        else
          var inner := ParseNodeBody(body);
          Selection(rest.fields, [Rel(h.word, h.sort, h.filter, inner.fields, inner.rels)] + rest.rels)
      else
        var rest := Parse(t);
        Selection([h.word] + rest.fields, rest.rels)
  }

  /** The relationship a word with a block stands for; none when the block holds no node. */
  function ReadRel(h: Head, block: string): seq<Rel>
    requires block != ""
  {
    var body := NodeBody(Inside(block, '{', '}'));
    if body == "" then []
    else
      var inner := ParseNodeBody(body);
      [Rel(h.word, h.sort, h.filter, inner.fields, inner.rels)]
  }

  lemma ParseWord(s: string, h: Head, t: string)
    requires s != "" && Spaces(s) == 0 && WordLength(s) > 0 && h == ReadHead(s) && t == s[h.end..]
    ensures t != "" && t[0] == '{' ==>
              var rest := Parse(t[Past(t, '{', '}')..]);
              Parse(s) == Selection(rest.fields, ReadRel(h, t) + rest.rels)
    ensures t == "" || t[0] != '{' ==> Parse(s) == Selection([h.word] + Parse(t).fields, Parse(t).rels)
  {
    hide Inside, Past, NodeBody, ReadHead, Run;
  }

  lemma ParseEnds(text: string)
    ensures ParseNodeBody(text) == Parse(Trim(text)) && Parse("") == NOTHING
  {
  }

  lemma ParseSpace(s: string)
    requires s != ""
    ensures Spaces(s) > 0 ==> Parse(s) == Parse(s[Spaces(s)..])
    ensures Spaces(s) == 0 && WordLength(s) == 0 ==> Parse(s) == Parse(s[1..])
  {
    hide Inside, Past, NodeBody, ReadHead, Run;
  }

  lemma Regroup<T>(a: seq<T>, b: seq<T>, c: seq<T>)
    ensures a + (b + c) == (a + b) + c
  {
  }

  // ---- The loops ----

  method SkipWhile(s: string, from: nat, p: char -> bool) returns (i: nat)
    requires from <= |s|
    ensures i == from + Run(p, s[from..])
  {
    i := from;
    while i < |s| && p(s[i])
      invariant from <= i <= |s|
      invariant from + Run(p, s[from..]) == i + Run(p, s[i..])
    {
      assert s[i..][1..] == s[i + 1..];
      i := i + 1;
    }
  }

  /** Counting depth from the opening bracket on; `end` is the length of `s` when it is never closed. */
  method FindClose(s: string, openPos: nat, open: char, close: char) returns (end: nat)
    requires openPos <= |s|
    ensures end == openPos + Close(s[openPos..], 0, open, close)
  {
    var depth := 0;
    end := openPos;
    while end < |s|
      invariant openPos <= end <= |s|
      invariant openPos + Close(s[openPos..], 0, open, close) == end + Close(s[end..], depth, open, close)
    {
      assert s[end..][1..] == s[end + 1..];
      if s[end] == open {
        depth := depth + 1;
      } else if s[end] == close {
        depth := depth - 1;
        if depth == 0 { return; }
      }
      end := end + 1;
    }
  }

  method ExtractContent(s: string, openPos: nat, open: char, close: char) returns (content: string)
    requires openPos < |s| && s[openPos] == open && open != close
    ensures content == Inside(s[openPos..], open, close)
  {
    var end := FindClose(s, openPos, open, close);
    if end == |s| { return ""; }
    assert s[openPos..][1..end - openPos] == s[openPos + 1..end];
    return s[openPos + 1..end];
  }

  method SkipPast(s: string, openPos: nat, open: char, close: char) returns (i: nat)
    requires openPos < |s|
    ensures i == openPos + Past(s[openPos..], open, close)
  {
    var end := FindClose(s, openPos, open, close);
    return if end == |s| then end else end + 1;
  }

  lemma DropDrop(s: string, i: nat, j: nat)
    requires i + j <= |s|
    ensures s[i..][j..] == s[i + j..]
  {
  }

  method FindNodeBody(s: string) returns (body: string)
    ensures body == NodeBody(s)
  {
    hide Inside, Run;
    var idx := 0;
    while idx + 4 <= |s|
      invariant idx <= |s|
      invariant NodeBody(s) == NodeBody(s[idx..])
    {
      assert s[idx..][..4] == s[idx..idx + 4];
      DropDrop(s, idx, 1);
      DropDrop(s, idx, 4);
      if s[idx..idx + 4] != "node" {
        idx := idx + 1;
        continue;
      }
      var after := idx + 4;
      if after < |s| && (s[after] == ' ' || s[after] == '\t' || s[after] == '\n' || s[after] == '{') {
        var brace := SkipWhile(s, after, x => x != '{');
        assert brace - after == IndexOf(s[after..], '{');
        if brace == |s| { return ""; }
        DropDrop(s, idx, brace - idx);
        body := ExtractContent(s, brace, '{', '}');
        return;
      }
      idx := after;
    }
    return "";
  }

  /** The scan over one node body, with the recursion into nested bodies. */
  method ParseBody(text: string) returns (fields: seq<string>, rels: seq<Rel>)
    ensures Selection(fields, rels) == ParseNodeBody(text)
    decreases |text|, 1
  {
    hide Parse, ParseNodeBody, Trim, Run;
    ParseEnds(text);
    var body := Trim(text);
    var i := 0;
    fields, rels := [], [];
    assert body[0..] == body;
    while i < |body|
      invariant i <= |body|
      invariant Selection(fields + Parse(body[i..]).fields, rels + Parse(body[i..]).rels) == Parse(body)
    {
      var start := SkipWhile(body, i, IsSpace);
      DropDrop(body, i, start - i);
      ParseSpace(body[i..]);
      if start > i {
        i := start;
        continue;
      }
      var wordEnd := SkipWhile(body, i, IsWordChar);
      DropDrop(body, i, 1);
      if wordEnd == i {
        i := i + 1;
        continue;
      }
      i, fields, rels := ParseItem(body, i, wordEnd, fields, rels);
    }
    assert body[|body|..] == "";
    assert fields + [] == fields && rels + [] == rels;
  }

  /** One word of the body: a field, or a relationship when a block follows. */
  method ParseItem(body: string, i: nat, wordEnd: nat, fields: seq<string>, rels: seq<Rel>)
    returns (next: nat, fields': seq<string>, rels': seq<Rel>)
    requires i < wordEnd <= |body| && wordEnd == i + WordLength(body[i..]) && Spaces(body[i..]) == 0
    ensures i < next <= |body|
    ensures Selection(fields' + Parse(body[next..]).fields, rels' + Parse(body[next..]).rels)
            == Selection(fields + Parse(body[i..]).fields, rels + Parse(body[i..]).rels)
    decreases |body|, 0
  {
    hide Parse, ParseNodeBody, NodeBody, ReadHead, Inside, Past, Run;
    var word, sort, filter;
    word, sort, filter, next := ReadWord(body, i, wordEnd);
    DropDrop(body, i, next - i);
    ghost var h := Head(word, sort, filter, next - i);
    ghost var block := body[next..];
    ParseWord(body[i..], h, block);
    fields', rels' := fields, rels;
    if next < |body| && body[next] == '{' {
      var content := ExtractContent(body, next, '{', '}');
      var past := SkipPast(body, next, '{', '}');
      DropDrop(body, next, past - next);
      var relBody := FindNodeBody(content);
      Regroup(rels, ReadRel(h, block), Parse(body[past..]).rels);
      if relBody != "" {
        var relFields, subRels := ParseBody(relBody);
        rels' := rels + [Rel(word, sort, filter, relFields, subRels)];
      }
      next := past;
    } else {
      Regroup(fields, [word], Parse(block).fields);
      fields' := fields + [word];
    }
  }

  lemma HeadInBody(body: string, from: nat, word: string)
    requires from <= |body|
    ensures var n := from + Spaces(body[from..]);
            if n < |body| && body[n] == '(' then
              var args := Inside(body[n..], '(', ')');
              var k := n + Past(body[n..], '(', ')');
              HeadBehind(word, body[from..]) ==
                  Head(word, SortArg(args), FilterArg(args), |word| + k - from + Spaces(body[k..]))
            else HeadBehind(word, body[from..]) == Head(word, "", "", |word| + n - from)
  {
    hide Inside, Past, SortArg, FilterArg, Run;
    var more := body[from..];
    var n := Spaces(more);
    DropDrop(body, from, n);
    if n < |more| && more[n] == '(' {
      DropDrop(body, from, n + Past(more[n..], '(', ')'));
    }
  }

  method ReadWord(body: string, i: nat, wordEnd: nat) returns (word: string, sort: string, filter: string, next: nat)
    requires i < wordEnd <= |body| && wordEnd == i + WordLength(body[i..])
    ensures i < next <= |body| && Head(word, sort, filter, next - i) == ReadHead(body[i..])
  {
    hide Inside, Past, SortArg, FilterArg, Run, HeadBehind;
    word, sort, filter := body[i..wordEnd], "", "";
    assert word == body[i..][..wordEnd - i];
    DropDrop(body, i, wordEnd - i);
    HeadInBody(body, wordEnd, word);
    next := SkipWhile(body, wordEnd, IsSpace);
    if next < |body| && body[next] == '(' {
      var args := ExtractContent(body, next, '(', ')');
      sort, filter := SortArg(args), FilterArg(args);
      var past := SkipPast(body, next, '(', ')');
      next := SkipWhile(body, past, IsSpace);
    }
  }
}
