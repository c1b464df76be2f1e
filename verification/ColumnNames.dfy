/** The two spellings of a column's name: `terraform_version` in the tables, `terraformVersion` in queries. */
module ColumnNames {

  predicate IsUpper(c: char) { 'A' <= c <= 'Z' }

  predicate IsLower(c: char) { 'a' <= c <= 'z' }

  function ToLower(c: char): char { if IsUpper(c) then (c as int + 32) as char else c }

  function ToUpper(c: char): char { if IsLower(c) then (c as int - 32) as char else c }

  /** Whether a name may be put into a query's text as it stands. */
  predicate IsSafe(s: string) {
    s != "" && forall k :: 0 <= k < |s| ==> IsLower(s[k]) || '0' <= s[k] <= '9' || s[k] == '_'
  }

  /** Every capital becomes an underscore and a small letter. */
  function SnakeTail(s: string): string {
    if s == "" then ""
    else (if IsUpper(s[0]) then ['_', ToLower(s[0])] else [s[0]]) + SnakeTail(s[1..])
  }

  /** As `SnakeTail`, but no underscore at the very start. */
  function Snake(s: string): string {
    if s == "" then "" else [ToLower(s[0])] + SnakeTail(s[1..])
  }

  /** Underscores go, and what follows one is capitalised. */
  function Camel(s: string): string {
    if s == "" then ""
    else if s[0] != '_' then [s[0]] + Camel(s[1..])
    else if |s| > 1 && s[1] != '_' then [ToUpper(s[1])] + Camel(s[2..])
    else Camel(s[1..])
  }

  method CamelToSnake(s: string) returns (result: string)
    ensures result == Snake(s)
  {
    result := "";
    for i := 0 to |s|
      invariant i == 0 ==> result == ""
      invariant i > 0 ==> result + SnakeTail(s[i..]) == Snake(s)
    {
      var r := s[i];
      ghost var before := result;
      if IsUpper(r) {
        if i > 0 {
          result := result + ['_'];
        }
        result := result + [ToLower(r)];
      } else {
        result := result + [r];
      }
      assert s[i..][1..] == s[i + 1..];
      if i > 0 {
        var piece := if IsUpper(r) then ['_', ToLower(r)] else [r];
        assert result == before + piece;
        assert before + (piece + SnakeTail(s[i + 1..])) == result + SnakeTail(s[i + 1..]);
      }
    }
  }

  function Capitalised(s: string): string {
    if s == "" then "" else [ToUpper(s[0])] + s[1..]
  }

  function Split(s: string): (parts: seq<string>)
    ensures |parts| > 0
  {
    if s == "" then [""]
    else
      var rest := Split(s[1..]);
      if s[0] == '_' then [""] + rest else [[s[0]] + rest[0]] + rest[1..]
  }

  function Concat(parts: seq<string>): string {
    if parts == [] then "" else parts[0] + Concat(parts[1..])
  }

  function Capitalise(parts: seq<string>): seq<string> {
    if parts == [] then [] else [Capitalised(parts[0])] + Capitalise(parts[1..])
  }

  /** Both halves of what joining the capitalised parts gives: behind the first part, and behind an underscore. */
  lemma {:induction false} JoinedParts(s: string)
    ensures var p := Split(s); p[0] + Concat(Capitalise(p[1..])) == Camel(s)
    ensures Concat(Capitalise(Split(s))) == Camel("_" + s)
  {
    var p := Split(s);
    if s != "" {
      JoinedParts(s[1..]);
      var rest := Split(s[1..]);
      if s[0] == '_' {
        assert p[1..] == rest && "_" + s[1..] == s;
        assert Capitalise(p)[1..] == Capitalise(rest);
      } else {
        assert p[1..] == rest[1..];
        assert [s[0]] + (rest[0] + Concat(Capitalise(rest[1..]))) == p[0] + Concat(Capitalise(p[1..]));
        assert Capitalise(p)[1..] == Capitalise(rest[1..]) && Capitalised(p[0]) == [ToUpper(s[0])] + rest[0];
        assert ("_" + s)[2..] == s[1..];
        assert [ToUpper(s[0])] + (rest[0] + Concat(Capitalise(rest[1..]))) ==
            Capitalised(p[0]) + Concat(Capitalise(rest[1..]));
      }
      assert ("_" + s)[1..] == s;
    } else {
      assert ("_" + s)[1..] == s;
    }
  }

  lemma {:induction false} CapitaliseEach(parts: seq<string>)
    ensures |Capitalise(parts)| == |parts|
    ensures forall k :: 0 <= k < |parts| ==> Capitalise(parts)[k] == Capitalised(parts[k])
  {
    if parts != [] {
      CapitaliseEach(parts[1..]);
    }
  }

  method SnakeToCamel(s: string) returns (result: string)
    ensures result == Camel(s)
  {
    hide Camel, Split, Capitalised;
    var parts := Split(s);
    ghost var split := parts;
    JoinedParts(s);
    if |parts| <= 1 {
      assert parts[1..] == [] && Concat(Capitalise([])) == "";
      SplitOne(s);
      return s;
    }
    for i := 1 to |parts|
      invariant |parts| == |split|
      invariant parts[0] == split[0]
      invariant forall k :: 1 <= k < i ==> parts[k] == Capitalised(split[k])
      invariant forall k :: i <= k < |parts| ==> parts[k] == split[k]
    {
      parts := parts[i := Capitalised(parts[i])];
    }
    hide Capitalise;
    CapitaliseEach(split[1..]);
    assert parts[1..] == Capitalise(split[1..]);
    result := Concat(parts);
  }

  lemma {:induction false} SplitOne(s: string)
    requires |Split(s)| == 1
    ensures Split(s)[0] == s
  {
    if s != "" {
      SplitOne(s[1..]);
    }
  }

  /** No capitals, and a small letter behind every underscore. */
  predicate PlainTail(s: string) {
    s == ""
    || (&& !IsUpper(s[0])
        && (s[0] == '_' ==> |s| > 1 && IsLower(s[1]))
        && PlainTail(s[1..]))
  }

  /** As `PlainTail`, and no underscore at the very start. */
  predicate Plain(s: string) {
    PlainTail(s) && (s != "" ==> s[0] != '_')
  }

  lemma {:induction false} SnakeIsPlain(s: string)
    requires '_' !in s
    ensures PlainTail(SnakeTail(s)) && Plain(Snake(s))
  {
    if s != "" {
      SnakeIsPlain(s[1..]);
      var rest := SnakeTail(s[1..]);
      if IsUpper(s[0]) {
        assert SnakeTail(s)[1..] == [ToLower(s[0])] + rest;
        assert SnakeTail(s)[1..][1..] == rest;
      } else {
        assert SnakeTail(s)[1..] == rest;
      }
      assert Snake(s)[1..] == rest;
    }
  }

  lemma {:induction false} CamelDropsUnderscores(s: string)
    ensures '_' !in Camel(s)
    decreases |s|
  {
    if s != "" {
      if s[0] != '_' || |s| == 1 || s[1] == '_' {
        CamelDropsUnderscores(s[1..]);
      } else {
        CamelDropsUnderscores(s[2..]);
      }
    }
  }

  /** An underscore before a small letter becomes its capital, and what has no underscore stays as it is. */
  lemma {:induction false} CamelCapitalises(a: string, c: char, b: string)
    requires '_' !in a && 'a' <= c <= 'z'
    ensures Camel(a) == a
    ensures Camel(a + ("_" + ([c] + b))) == a + ([(c as int - 32) as char] + Camel(b))
  {
    var s := a + ("_" + ([c] + b));
    if a == "" {
      assert s[1] == c && s[2..] == b;
    } else {
      assert s[1..] == a[1..] + ("_" + ([c] + b));
      CamelCapitalises(a[1..], c, b);
      assert [a[0]] + a[1..] == a;
    }
  }

  lemma {:induction false} SnakeTailUndoesCamel(s: string)
    requires PlainTail(s)
    ensures SnakeTail(Camel(s)) == s
    decreases |s|
  {
    if s != "" {
      if s[0] != '_' {
        SnakeTailUndoesCamel(s[1..]);
      } else {
        assert IsLower(s[1]);
        SnakeTailUndoesCamel(s[2..]);
        assert Camel(s)[1..] == Camel(s[2..]);
        assert s == ['_', s[1]] + s[2..];
      }
    }
  }

  /** Exactly which column names survive the way to a query's spelling and back. */
  lemma SnakeUndoesCamel(s: string)
    ensures Snake(Camel(s)) == s <==> Plain(s)
  {
    CamelDropsUnderscores(s);
    SnakeIsPlain(Camel(s));
    if Plain(s) && s != "" {
      SnakeTailUndoesCamel(s[1..]);
      assert Camel(s) == [s[0]] + Camel(s[1..]);
    }
  }

  /** Two columns never share a query spelling, so no value of a row is lost when its keys are rewritten. */
  lemma CamelTellsColumnsApart(a: string, b: string)
    requires Plain(a) && Plain(b) && Camel(a) == Camel(b)
    ensures a == b
  {
    SnakeUndoesCamel(a);
    SnakeUndoesCamel(b);
  }
}
