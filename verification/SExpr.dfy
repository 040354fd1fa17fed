/**
 KiCad's s-expressions: the reader and printer of hardware/gen/gen_pcb.py (parse, emit) and the
 quote-stripping reader of tools/check_schematic.py (parse_sexp).  A tree's tokens are the middle
 ground: printing and reading back meet there.
 */
module SExpr {
  import opened Wrappers

  datatype SExp = Atom(text: string) | List(items: seq<SExp>)

  datatype Result = Ok(tree: SExp) | IndexError

  // ----- tokens --------------------------------------------------------------------------------

  /** What the pattern's \s matches. */
  predicate IsSpace(c: char) {
    || '\t' <= c <= '\r' || '\U{001C}' <= c <= ' ' || c == '\U{0085}' || c == '\U{00A0}' || c == '\U{1680}'
    || '\U{2000}' <= c <= '\U{200A}' || c == '\U{2028}' || c == '\U{2029}' || c == '\U{202F}'
    || c == '\U{205F}' || c == '\U{3000}'
  }

  predicate IsParen(c: char) { c == '(' || c == ')' }

  /** A character no bare word runs past. */
  predicate Boundary(c: char) { IsSpace(c) || IsParen(c) }

  /** Where a quoted string whose body starts at `at` ends; a backslash takes any character but a
      line feed with it. */
  function QuoteEnd(s: string, at: nat): (r: Option<nat>)
    ensures r.Some? ==> at < r.value <= |s|
    decreases |s| - at
  {
    if at >= |s| then None
    else if s[at] == '"' then Some(at + 1)
    else if s[at] == '\\' then (if at + 1 < |s| && s[at + 1] != '\n' then QuoteEnd(s, at + 2) else None)
    else QuoteEnd(s, at + 1)
  }

  function WordEnd(s: string): (n: nat)
    ensures n <= |s|
    ensures forall k :: 0 <= k < n ==> !Boundary(s[k])
    ensures n < |s| ==> Boundary(s[n])
  {
    if s == [] || Boundary(s[0]) then 0 else 1 + WordEnd(s[1..])
  }

  /** Where the token at the front of `s` ends. */
  function TokenEnd(s: string): (n: nat)
    requires s != [] && !IsSpace(s[0])
    ensures 0 < n <= |s|
  {
    if IsParen(s[0]) then 1
    else if s[0] == '"' && QuoteEnd(s, 1).Some? then QuoteEnd(s, 1).value
    else WordEnd(s)
  }

  /** findall with the pattern both readers use: a bracket, a quoted string, or a bare word. */
  function Tokens(s: string): seq<string>
    decreases |s|
  {
    if s == [] then []
    else if IsSpace(s[0]) then Tokens(s[1..])
    else [s[..TokenEnd(s)]] + Tokens(s[TokenEnd(s)..])
  }

  predicate IsQuoted(t: string) {
    |t| > 1 && t[0] == '"' && QuoteEnd(t, 1) == Some(|t|)
  }

  predicate IsWord(t: string) {
    t != [] && t[0] != '"' && forall k :: 0 <= k < |t| ==> !Boundary(t[k])
  }

  /** A text the pattern takes as one token wherever it stands. */
  predicate IsToken(t: string) { IsQuoted(t) || IsWord(t) }

  /** An opening quote that nothing closes, which the pattern falls back to reading as a word. */
  predicate IsStray(t: string) {
    t != [] && t[0] == '"' && forall k :: 0 <= k < |t| ==> !Boundary(t[k])
  }

  lemma {:induction false} QuoteEndExtends(s: string, r: string, at: nat)
    requires QuoteEnd(s, at).Some?
    ensures QuoteEnd(s + r, at) == QuoteEnd(s, at)
    decreases |s| - at
  {
    if s[at] != '"' {
      QuoteEndExtends(s, r, if s[at] == '\\' then at + 2 else at + 1);
    }
  }

  lemma {:induction false} QuoteEndCut(s: string, at: nat)
    requires QuoteEnd(s, at).Some?
    ensures QuoteEnd(s[..QuoteEnd(s, at).value], at) == QuoteEnd(s, at)
    decreases |s| - at
  {
    if s[at] != '"' {
      QuoteEndCut(s, if s[at] == '\\' then at + 2 else at + 1);
    }
  }

  lemma {:induction false} WordEndIs(s: string, n: nat)
    requires n <= |s| && (forall k :: 0 <= k < n ==> !Boundary(s[k])) && (n < |s| ==> Boundary(s[n]))
    ensures WordEnd(s) == n
    decreases n
  {
    if n > 0 { WordEndIs(s[1..], n - 1); }
  }

  lemma TokenThen(t: string, rest: string)
    requires IsToken(t) && (rest == [] || Boundary(rest[0]))
    ensures Tokens(t + rest) == [t] + Tokens(rest)
  {
    var s := t + rest;
    if IsQuoted(t) {
      QuoteEndExtends(t, rest, 1);
    } else {
      WordEndIs(s, |t|);
    }
    assert s[..|t|] == t && s[|t|..] == rest;
  }

  lemma ParenThen(c: char, rest: string)
    requires IsParen(c)
    ensures Tokens([c] + rest) == [[c]] + Tokens(rest)
  {
    var s := [c] + rest;
    assert s[..1] == [c] && s[1..] == rest;
  }

  lemma {:induction false} SpacesThen(sp: string, rest: string)
    requires forall k :: 0 <= k < |sp| ==> IsSpace(sp[k])
    ensures Tokens(sp + rest) == Tokens(rest)
    decreases |sp|
  {
    if sp == [] {
      assert sp + rest == rest;
    } else {
      assert (sp + rest)[1..] == sp[1..] + rest;
      SpacesThen(sp[1..], rest);
    }
  }

  /** Every token is a bracket, a token that stands on its own, or a stray quote. */
  lemma {:induction false} TokenKinds(s: string)
    ensures forall t :: t in Tokens(s) ==> t == "(" || t == ")" || IsToken(t) || IsStray(t)
    decreases |s|
  {
    if s != [] {
      if IsSpace(s[0]) {
        TokenKinds(s[1..]);
      } else {
        var n := TokenEnd(s);
        TokenKinds(s[n..]);
        if s[0] == '"' && QuoteEnd(s, 1).Some? { QuoteEndCut(s, 1); }
      }
    }
  }

  // ----- the pattern, as a grammar --------------------------------------------------------------

  /** What may stand between two quotes: any character but a quote or a backslash, or a backslash and
      any character but a line feed. */
  predicate IsBody(t: string) {
    || t == []
    || (t[0] != '"' && t[0] != '\\' && IsBody(t[1..]))
    || (|t| > 1 && t[0] == '\\' && t[1] != '\n' && IsBody(t[2..]))
  }

  lemma {:induction false} QuoteEndIs(s: string, at: nat, n: nat)
    ensures QuoteEnd(s, at) == Some(n) <==> at < n <= |s| && s[n - 1] == '"' && IsBody(s[at..n - 1])
    decreases |s| - at
  {
    if at < |s| && at < n <= |s| {
      var t := s[at..n - 1];
      if s[at] == '\\' {
        if at + 1 < |s| {
          QuoteEndIs(s, at + 2, n);
          if |t| > 1 { assert t[1] == s[at + 1] && t[2..] == s[at + 2..n - 1]; }
        }
      } else if s[at] != '"' {
        QuoteEndIs(s, at + 1, n);
        if t != [] { assert t[1..] == s[at + 1..n - 1]; }
      }
    }
  }

  /** The pattern's three ways to match at a place, the later ones only where the earlier fail: a
      bracket, a quoted string, a word as long as it goes. */
  ghost predicate Matches(s: string, n: nat) {
    if s != [] && IsParen(s[0]) then n == 1
    else if exists m: nat :: Quotes(s, m) then Quotes(s, n)
    else
      && 0 < n <= |s|
      && (forall k :: 0 <= k < n ==> !IsSpace(s[k]) && !IsParen(s[k]))
      && (n < |s| ==> IsSpace(s[n]) || IsParen(s[n]))
  }

  predicate Quotes(s: string, n: nat) {
    1 < n <= |s| && s[0] == '"' && s[n - 1] == '"' && IsBody(s[1..n - 1])
  }

  lemma MatchIs(s: string, n: nat)
    requires s != [] && !IsSpace(s[0])
    ensures TokenEnd(s) == n <==> Matches(s, n)
  {
    hide IsSpace;
    if s[0] == '"' {
      forall m: nat ensures QuoteEnd(s, 1) == Some(m) <==> Quotes(s, m) { QuoteEndIs(s, 1, m); }
      if QuoteEnd(s, 1).Some? { assert Quotes(s, QuoteEnd(s, 1).value); }
    }
    if 0 < n <= |s| && (forall k :: 0 <= k < n ==> !Boundary(s[k])) && (n < |s| ==> Boundary(s[n])) { WordEndIs(s, n); }
  }

  /** findall: nothing in white space, and otherwise the match at the first other character and what
      is found after it. */
  lemma {:induction false} FoundAll(sp: string, s: string, n: nat)
    requires forall k :: 0 <= k < |sp| ==> IsSpace(sp[k])
    requires s != [] ==> !IsSpace(s[0]) && Matches(s, n) && n <= |s|
    ensures Tokens(sp + s) == if s == [] then [] else [s[..n]] + Tokens(s[n..])
  {
    SpacesThen(sp, s);
    if s != [] { MatchIs(s, n); }
  }

  /** The atoms that stand on their own: a quoted string whole, or a word that opens with no quote. */
  lemma TokenIs(t: string)
    ensures IsToken(t) <==>
      || Quotes(t, |t|)
      || (t != [] && t[0] != '"' && forall k :: 0 <= k < |t| ==> !IsSpace(t[k]) && !IsParen(t[k]))
  {
    hide IsSpace;
    if |t| > 1 { QuoteEndIs(t, 1, |t|); }
  }

  /** Stripping takes the two quotes of a quoted string and nothing else of it, leaves a word alone,
      and takes the last character of a stray quote with it. */
  lemma UnquoteIs(t: string)
    ensures IsQuoted(t) ==> t == "\"" + Unquote(t) + "\""
    ensures IsWord(t) || t == "(" || t == ")" ==> Unquote(t) == t
    ensures IsStray(t) && |t| > 1 ==> t == "\"" + Unquote(t) + [t[|t| - 1]]
    ensures IsStray(t) && |t| == 1 ==> Unquote(t) == ""
  {
    if IsQuoted(t) { QuoteEndIs(t, 1, |t|); }
  }

  // ----- trees and their tokens ------------------------------------------------------------------

  function Flat(t: SExp): seq<string> {
    match t
    case Atom(text) => [text]
    case List(items) => ["("] + FlatAll(items) + [")"]
  }

  function FlatAll(items: seq<SExp>): seq<string> {
    if items == [] then [] else Flat(items[0]) + FlatAll(items[1..])
  }

  lemma {:induction false} FlatAllSplit(xs: seq<SExp>, ys: seq<SExp>)
    ensures FlatAll(xs + ys) == FlatAll(xs) + FlatAll(ys)
    decreases |xs|
  {
    if xs == [] {
      assert xs + ys == ys;
    } else {
      assert (xs + ys)[1..] == xs[1..] + ys;
      FlatAllSplit(xs[1..], ys);
    }
  }

  predicate GoodAtoms(t: SExp) {
    match t
    case Atom(text) => IsToken(text)
    case List(items) => GoodAll(items)
  }

  predicate GoodAll(items: seq<SExp>) {
    items == [] || (GoodAtoms(items[0]) && GoodAll(items[1..]))
  }

  // ----- the readers -------------------------------------------------------------------------------

  /** One token taken by a reader that keeps atoms as `keep` says; None is the IndexError of a
      bracket too many. */
  function Take(stack: seq<seq<SExp>>, token: string, strip: bool): (r: Option<seq<seq<SExp>>>)
    requires stack != []
    ensures r.Some? ==> r.value != []
  {
    var n := |stack|;
    if token == "(" then Some(stack + [[]])
    else if token == ")" then
      if n < 2 then None else Some(stack[..n - 2] + [stack[n - 2] + [List(stack[n - 1])]])
    else Some(stack[..n - 1] + [stack[n - 1] + [Atom(if strip then Unquote(token) else token)]])
  }

  /** Python's t[1:-1] for a token that opens with a quote, and the token itself otherwise. */
  function Unquote(t: string): string {
    if t == [] || t[0] != '"' then t else if |t| < 2 then [] else t[1..|t| - 1]
  }

  function Read(tokens: seq<string>, stack: seq<seq<SExp>>, strip: bool): Result
    requires stack != []
    decreases |tokens|
  {
    if tokens == [] then (if stack[0] == [] then IndexError else Ok(stack[0][0]))
    else
      var next := Take(stack, tokens[0], strip);
      if next.None? then IndexError else Read(tokens[1..], next.value, strip)
  }

  /** parse, or with `strip` parse_sexp. */
  method Parse(text: string, strip: bool) returns (r: Result)
    ensures r == Read(Tokens(text), [[]], strip)
  {
    var tokens := Tokens(text);
    var stack: seq<seq<SExp>> := [[]];
    for k := 0 to |tokens|
      invariant stack != []
      invariant Read(tokens[k..], stack, strip) == Read(tokens, [[]], strip)
    {
      assert tokens[k..][1..] == tokens[k + 1..];
      var token := tokens[k];
      if token == "(" {
        stack := stack + [[]];
      } else if token == ")" {
        if |stack| < 2 { return IndexError; }
        var last := |stack| - 1;
        stack := stack[..last - 1] + [stack[last - 1] + [List(stack[last])]];
      } else {
        var last := |stack| - 1;
        stack := stack[..last] + [stack[last] + [Atom(if strip then Unquote(token) else token)]];
      }
    }
    return if stack[0] == [] then IndexError else Ok(stack[0][0]);
  }

  /** Reading the tokens of a tree adds that tree to the list being read. */
  lemma {:induction false} ReadTree(t: SExp, stack: seq<seq<SExp>>, rest: seq<string>)
    requires stack != [] && GoodAtoms(t)
    ensures Read(Flat(t) + rest, stack, false)
         == Read(rest, stack[..|stack| - 1] + [stack[|stack| - 1] + [t]], false)
    decreases t, 0
  {
    match t
    case Atom(text) =>
      assert (Flat(t) + rest)[1..] == rest;
    case List(items) =>
      var open := stack + [[]];
      assert (Flat(t) + rest)[1..] == FlatAll(items) + ([")"] + rest);
      ReadTrees(items, open, [")"] + rest);
      var full := open[..|stack|] + [open[|stack|] + items];
      assert open[|stack|] + items == items;
      assert ([")"] + rest)[1..] == rest;
      assert full[..|full| - 2] == stack[..|stack| - 1];
  }

  lemma {:induction false} ReadTrees(items: seq<SExp>, stack: seq<seq<SExp>>, rest: seq<string>)
    requires stack != [] && GoodAll(items)
    ensures Read(FlatAll(items) + rest, stack, false)
         == Read(rest, stack[..|stack| - 1] + [stack[|stack| - 1] + items], false)
    decreases items, 1
  {
    var last := |stack| - 1;
    if items == [] {
      assert stack[last] + items == stack[last];
      assert stack[..last] + [stack[last]] == stack;
      assert FlatAll(items) + rest == rest;
    } else {
      assert FlatAll(items) + rest == Flat(items[0]) + (FlatAll(items[1..]) + rest);
      ReadTree(items[0], stack, FlatAll(items[1..]) + rest);
      var next := stack[..last] + [stack[last] + [items[0]]];
      ReadTrees(items[1..], next, rest);
      assert next[..last] == stack[..last];
      assert next[last] + items[1..] == stack[last] + items;
    }
  }

  // ----- the printer -------------------------------------------------------------------------------

  predicate IsFlat(items: seq<SExp>) {
    forall k :: 0 <= k < |items| ==> items[k].Atom?
  }

  function Tabs(depth: nat): string { seq(depth, _ => '\t') }

  function SpaceJoin(items: seq<SExp>): string
    requires IsFlat(items)
  {
    if items == [] then "" else if |items| == 1 then items[0].text
    else items[0].text + " " + SpaceJoin(items[1..])
  }

  function LineJoin(lines: seq<string>): string {
    if lines == [] then "" else if |lines| == 1 then lines[0]
    else lines[0] + "\n" + LineJoin(lines[1..])
  }

  function Head(items: seq<SExp>): string {
    if items != [] && items[0].Atom? then items[0].text else ""
  }

  /** emit */
  function Emit(t: SExp, depth: nat): string
    decreases t, 2
  {
    match t
    case Atom(text) => text
    case List(items) =>
      if IsFlat(items) then Tabs(depth) + "(" + SpaceJoin(items) + ")"
      else LineJoin([Tabs(depth) + "(" + Head(items)] + Lines(items[1..], depth) + [Tabs(depth) + ")"])
  }

  function Lines(items: seq<SExp>, depth: nat): (lines: seq<string>)
    ensures |lines| == |items|
    decreases items, 1
  {
    if items == [] then []
    else [Line(items[0], depth)] + Lines(items[1..], depth)
  }

  /** The line, or lines, one item of a list of several lines takes. */
  function Line(item: SExp, depth: nat): string
    decreases item, 3
  {
    if item.Atom? then Tabs(depth) + "\t" + item.text else Emit(item, depth + 1)
  }

  /** What emit writes down of a tree: a list of several lines that opens with a list loses it. */
  function Written(t: SExp): SExp {
    match t
    case Atom(_) => t
    case List(items) =>
      if IsFlat(items) then t
      else if items[0].Atom? then List([items[0]] + WrittenAll(items[1..]))
      else List(WrittenAll(items[1..]))
  }

  function WrittenAll(items: seq<SExp>): (r: seq<SExp>)
    ensures |r| == |items|
  {
    if items == [] then [] else [Written(items[0])] + WrittenAll(items[1..])
  }

  /** Every list of several lines opens with an atom, all the way down. */
  predicate OpensWithAtom(t: SExp) {
    match t
    case Atom(_) => true
    case List(items) => IsFlat(items) || (items[0].Atom? && OpensAll(items[1..]))
  }

  predicate OpensAll(items: seq<SExp>) {
    items == [] || (OpensWithAtom(items[0]) && OpensAll(items[1..]))
  }

  lemma {:induction false} WrittenWhole(t: SExp)
    ensures Written(t) == t <==> OpensWithAtom(t)
    decreases t, 0
  {
    if t.List? && !IsFlat(t.items) {
      var items := t.items;
      WrittenWholeAll(items[1..]);
      if items[0].Atom? {
        assert items == [items[0]] + items[1..];
        assert ([items[0]] + WrittenAll(items[1..]))[1..] == WrittenAll(items[1..]);
      } else {
        assert |WrittenAll(items[1..])| == |items| - 1;
      }
    }
  }

  lemma {:induction false} WrittenWholeAll(items: seq<SExp>)
    ensures WrittenAll(items) == items <==> OpensAll(items)
    decreases items, 1
  {
    if items != [] {
      WrittenWhole(items[0]);
      WrittenWholeAll(items[1..]);
      assert items == [items[0]] + items[1..];
      assert WrittenAll(items)[0] == Written(items[0]) && WrittenAll(items)[1..] == WrittenAll(items[1..]);
    }
  }

  lemma {:induction false} WrittenGood(t: SExp)
    requires GoodAtoms(t)
    ensures GoodAtoms(Written(t))
    decreases t, 0
  {
    if t.List? && !IsFlat(t.items) {
      var items := t.items;
      WrittenGoodAll(items[1..]);
      assert ([items[0]] + WrittenAll(items[1..]))[1..] == WrittenAll(items[1..]);
    }
  }

  lemma {:induction false} WrittenGoodAll(items: seq<SExp>)
    requires GoodAll(items)
    ensures GoodAll(WrittenAll(items))
    decreases items, 1
  {
    if items != [] {
      WrittenGood(items[0]);
      WrittenGoodAll(items[1..]);
      assert WrittenAll(items)[1..] == WrittenAll(items[1..]);
    }
  }

  // ----- the tokens of what is printed -------------------------------------------------------------

  lemma AtomTokens(sp: string, text: string, rest: string)
    requires forall k :: 0 <= k < |sp| ==> IsSpace(sp[k])
    requires IsToken(text) && rest != [] && Boundary(rest[0])
    ensures Tokens(sp + text + rest) == [text] + Tokens(rest)
  {
    assert sp + text + rest == sp + (text + rest);
    SpacesThen(sp, text + rest);
    TokenThen(text, rest);
  }

  lemma BracketTokens(sp: string, c: char, rest: string)
    requires IsParen(c) && forall k :: 0 <= k < |sp| ==> IsSpace(sp[k])
    ensures Tokens(sp + [c] + rest) == [[c]] + Tokens(rest)
  {
    assert sp + [c] + rest == sp + ([c] + rest);
    SpacesThen(sp, [c] + rest);
    ParenThen(c, rest);
  }

  lemma {:induction false} FlatTokens(items: seq<SExp>, rest: string)
    requires IsFlat(items) && GoodAll(items) && rest != [] && Boundary(rest[0])
    ensures Tokens(SpaceJoin(items) + rest) == FlatAll(items) + Tokens(rest)
    decreases |items|
  {
    hide Tokens, IsToken, Boundary;
    if items == [] {
      assert SpaceJoin(items) + rest == rest;
    } else {
      assert GoodAtoms(items[0]);
      if |items| == 1 {
        TokenThen(items[0].text, rest);
        assert FlatAll(items) == Flat(items[0]) + FlatAll(items[1..]) == Flat(items[0]);
      } else {
        var more := SpaceJoin(items[1..]) + rest;
        assert SpaceJoin(items) + rest == items[0].text + (" " + more);
        TabsAreSpaces(0);
        TokenThen(items[0].text, " " + more);
        SpacesThen(" ", more);
        FlatTokens(items[1..], rest);
      }
    }
  }

  lemma ShortListTokens(items: seq<SExp>, depth: nat, rest: string)
    requires IsFlat(items) && GoodAll(items)
    ensures Tokens(Emit(List(items), depth) + rest) == Flat(List(items)) + Tokens(rest)
  {
    hide Tokens, GoodAll, IsSpace;
    var tail := ")" + rest;
    assert Emit(List(items), depth) + rest == Tabs(depth) + "(" + (SpaceJoin(items) + tail);
    TabsAreSpaces(depth);
    BracketTokens(Tabs(depth), '(', SpaceJoin(items) + tail);
    FlatTokens(items, tail);
    ParenThen(')', rest);
  }

  lemma TabsAreSpaces(depth: nat)
    ensures forall k :: 0 <= k < |Tabs(depth)| ==> IsSpace(Tabs(depth)[k])
    ensures forall k :: 0 <= k < |Tabs(depth) + "\t"| ==> IsSpace((Tabs(depth) + "\t")[k])
    ensures IsSpace('\n') && Boundary('\n') && IsSpace(' ') && Boundary(' ')
  {
  }

  /** What a list of several lines prints after its opening bracket. */
  function Below(items: seq<SExp>, depth: nat): string {
    LineJoin(Lines(items, depth) + [Tabs(depth) + ")"])
  }

  lemma TallListText(items: seq<SExp>, depth: nat, rest: string)
    requires items != [] && !IsFlat(items)
    ensures Emit(List(items), depth) + rest
         == Tabs(depth) + "(" + (Head(items) + ("\n" + (Below(items[1..], depth) + rest)))
  {
    var all := [Tabs(depth) + "(" + Head(items)] + Lines(items[1..], depth) + [Tabs(depth) + ")"];
    assert all[1..] == Lines(items[1..], depth) + [Tabs(depth) + ")"];
  }

  lemma LineJoinMore(line: string, lines: seq<string>)
    requires lines != []
    ensures LineJoin([line] + lines) == line + "\n" + LineJoin(lines)
  {
    assert ([line] + lines)[1..] == lines;
  }

  lemma BelowText(items: seq<SExp>, depth: nat, rest: string)
    requires items != []
    ensures Below(items, depth) + rest == Line(items[0], depth) + ("\n" + (Below(items[1..], depth) + rest))
  {
    hide Emit, LineJoin;
    var more := Lines(items[1..], depth) + [Tabs(depth) + ")"];
    assert Lines(items, depth) + [Tabs(depth) + ")"] == [Line(items[0], depth)] + more;
    LineJoinMore(Line(items[0], depth), more);
  }

  /** Printing a tree writes exactly the tokens of what it writes down of it. */
  lemma {:induction false} EmitTokens(t: SExp, depth: nat, rest: string)
    requires t.List? && GoodAtoms(t)
    ensures Tokens(Emit(t, depth) + rest) == Flat(Written(t)) + Tokens(rest)
    decreases t, 0
  {
    hide Tokens, Emit, Below, IsToken, IsSpace;
    var items := t.items;
    assert GoodAll(items);
    if IsFlat(items) {
      ShortListTokens(items, depth, rest);
    } else {
      var below := "\n" + (Below(items[1..], depth) + rest);
      var written := WrittenAll(items[1..]);
      TallListText(items, depth, rest);
      TabsAreSpaces(depth);
      BracketTokens(Tabs(depth), '(', Head(items) + below);
      SpacesThen("\n", Below(items[1..], depth) + rest);
      BelowTokens(items[1..], depth, rest);
      assert GoodAtoms(items[0]);
      if items[0].Atom? {
        TokenThen(items[0].text, below);
        assert ([items[0]] + written)[1..] == written;
        assert FlatAll([items[0]] + written) == [items[0].text] + FlatAll(written);
      } else {
        assert Head(items) + below == below;
      }
    }
  }

  lemma {:induction false} BelowTokens(items: seq<SExp>, depth: nat, rest: string)
    requires GoodAll(items)
    ensures Tokens(Below(items, depth) + rest) == FlatAll(WrittenAll(items)) + ([")"] + Tokens(rest))
    decreases items, 1
  {
    hide Tokens, Emit, IsToken, IsSpace, Boundary, Below, Written, Flat;
    TabsAreSpaces(depth);
    if items == [] {
      BelowNothing(depth);
      BracketTokens(Tabs(depth), ')', rest);
    } else {
      var below := "\n" + (Below(items[1..], depth) + rest);
      BelowText(items, depth, rest);
      BelowTokens(items[1..], depth, rest);
      SpacesThen("\n", Below(items[1..], depth) + rest);
      FirstIsGood(items);
      assert Tokens(Line(items[0], depth) + below) == Flat(Written(items[0])) + Tokens(below) by {
        if items[0].Atom? {
          AtomTokens(Tabs(depth) + "\t", items[0].text, below);
          AtomIsWritten(items[0].text);
        } else {
          EmitTokens(items[0], depth + 1, below);
        }
      }
      assert WrittenAll(items)[1..] == WrittenAll(items[1..]);
    }
  }

  lemma BelowNothing(depth: nat)
    ensures Below([], depth) == Tabs(depth) + ")"
  {
    assert Lines([], depth) + [Tabs(depth) + ")"] == [Tabs(depth) + ")"];
  }

  lemma FirstIsGood(items: seq<SExp>)
    requires items != [] && GoodAll(items)
    ensures GoodAtoms(items[0]) && (items[0].Atom? ==> IsToken(items[0].text))
  {
  }

  lemma AtomIsWritten(text: string)
    ensures Flat(Written(Atom(text))) == [text]
  {
  }

  // ----- main results ------------------------------------------------------------------------------

  /** Reading back what was printed gives what emit wrote down of the tree, at any depth. */
  lemma ParseEmit(t: SExp, depth: nat)
    requires GoodAtoms(t)
    ensures Read(Tokens(Emit(t, depth)), [[]], false) == Ok(Written(t))
  {
    var text := Emit(t, depth);
    assert text + [] == text;
    if t.Atom? {
      TokenThen(t.text, []);
    } else {
      EmitTokens(t, depth, []);
    }
    WrittenGood(t);
    assert Tokens(text) == Flat(Written(t)) + [];
    ReadTree(Written(t), [[]], []);
    var top: seq<SExp> := [];
    assert top + [Written(t)] == [Written(t)] && [top][..0] + [[Written(t)]] == [[Written(t)]];
  }

  /** The round trip holds exactly for the trees whose lists of several lines open with an atom. */
  lemma RoundTrip(t: SExp, depth: nat)
    requires GoodAtoms(t)
    ensures Read(Tokens(Emit(t, depth)), [[]], false) == Ok(t) <==> OpensWithAtom(t)
  {
    ParseEmit(t, depth);
    WrittenWhole(t);
  }

  /** A tree that breaks it: ((a)) comes back as (). */
  lemma NestedHeadIsLost()
    ensures var t := List([List([Atom("a")])]);
            GoodAtoms(t) && Read(Tokens(Emit(t, 0)), [[]], false) == Ok(List([]))
  {
    var t := List([List([Atom("a")])]);
    assert !IsFlat(t.items) by { assert !t.items[0].Atom?; }
    assert IsWord("a");
    assert GoodAtoms(t.items[0]) by { assert GoodAll([Atom("a")]); }
    ParseEmit(t, 0);
    assert t.items[1..] == [];
  }

  // ----- parse_sexp is parse with the quotes stripped ------------------------------------------------

  function Stripped(t: SExp): SExp {
    match t
    case Atom(text) => Atom(Unquote(text))
    case List(items) => List(StrippedAll(items))
  }

  function StrippedAll(items: seq<SExp>): (r: seq<SExp>)
    ensures |r| == |items|
  {
    if items == [] then [] else [Stripped(items[0])] + StrippedAll(items[1..])
  }

  function StrippedStack(stack: seq<seq<SExp>>): (r: seq<seq<SExp>>)
    ensures |r| == |stack|
    ensures forall k :: 0 <= k < |stack| ==> r[k] == StrippedAll(stack[k])
  {
    seq(|stack|, k requires 0 <= k < |stack| => StrippedAll(stack[k]))
  }

  function StrippedResult(r: Result): Result {
    match r
    case Ok(t) => Ok(Stripped(t))
    case IndexError => IndexError
  }

  lemma {:induction false} StrippedAdd(items: seq<SExp>, t: SExp)
    ensures StrippedAll(items + [t]) == StrippedAll(items) + [Stripped(t)]
    decreases |items|
  {
    if items == [] {
      assert items + [t] == [t];
      assert [t][1..] == [];
    } else {
      assert (items + [t])[1..] == items[1..] + [t];
      StrippedAdd(items[1..], t);
    }
  }

  lemma {:induction false} ReadStripped(tokens: seq<string>, stack: seq<seq<SExp>>)
    requires stack != []
    ensures Read(tokens, StrippedStack(stack), true) == StrippedResult(Read(tokens, stack, false))
    decreases |tokens|
  {
    if tokens != [] {
      var next := Take(stack, tokens[0], false);
      var other := Take(StrippedStack(stack), tokens[0], true);
      var n := |stack|;
      if tokens[0] == "(" {
        assert other.value == StrippedStack(next.value);
      } else if tokens[0] == ")" {
        if n >= 2 {
          StrippedAdd(stack[n - 2], List(stack[n - 1]));
          assert other.value == StrippedStack(next.value);
        }
      } else {
        StrippedAdd(stack[n - 1], Atom(tokens[0]));
        assert other.value == StrippedStack(next.value);
      }
      if next.Some? { ReadStripped(tokens[1..], next.value); }
    }
  }

  /** On any text, the schematic checker reads the tree the generator reads, quotes stripped. */
  lemma SameTreeStripped(text: string)
    ensures Read(Tokens(text), [[]], true) == StrippedResult(Read(Tokens(text), [[]], false))
  {
    assert StrippedStack([[]]) == [[]];
    ReadStripped(Tokens(text), [[]]);
  }

  // ----- reading any text and printing it again ---------------------------------------------------

  predicate GoodStack(stack: seq<seq<SExp>>) {
    forall k :: 0 <= k < |stack| ==> GoodAll(stack[k])
  }

  lemma {:induction false} GoodAdd(items: seq<SExp>, t: SExp)
    requires GoodAll(items) && GoodAtoms(t)
    ensures GoodAll(items + [t])
    decreases |items|
  {
    if items == [] {
      assert items + [t] == [t];
    } else {
      assert (items + [t])[1..] == items[1..] + [t];
      GoodAdd(items[1..], t);
    }
  }

  lemma {:induction false} ReadKeepsTokens(tokens: seq<string>, stack: seq<seq<SExp>>)
    requires stack != [] && GoodStack(stack)
    requires forall t :: t in tokens ==> t == "(" || t == ")" || IsToken(t)
    ensures Read(tokens, stack, false).Ok? ==> GoodAtoms(Read(tokens, stack, false).tree)
    decreases |tokens|
  {
    if tokens != [] {
      var next := Take(stack, tokens[0], false);
      var n := |stack|;
      if tokens[0] == ")" {
        if n >= 2 { GoodAdd(stack[n - 2], List(stack[n - 1])); }
      } else if tokens[0] != "(" {
        GoodAdd(stack[n - 1], Atom(tokens[0]));
      }
      if next.Some? { ReadKeepsTokens(tokens[1..], next.value); }
    }
  }

  /** Any text without a stray quote that reads as a tree is re-emitted without loss exactly when
      no list of several lines in it opens with a list. */
  lemma ReemitText(text: string, depth: nat)
    requires forall t :: t in Tokens(text) ==> !IsStray(t)
    requires Read(Tokens(text), [[]], false).Ok?
    ensures var t := Read(Tokens(text), [[]], false).tree;
            Read(Tokens(Emit(t, depth)), [[]], false) == Ok(t) <==> OpensWithAtom(t)
  {
    TokenKinds(text);
    ReadKeepsTokens(Tokens(text), [[]]);
    RoundTrip(Read(Tokens(text), [[]], false).tree, depth);
  }

  // ----- nothing a text says is lost --------------------------------------------------------------

  /** The tokens a stack of half-read lists stands for, up to its innermost open bracket. */
  function Opened(stack: seq<seq<SExp>>): seq<string> {
    if stack == [] then []
    else Opened(stack[..|stack| - 1]) + FlatAll(stack[|stack| - 1]) + ["("]
  }

  function StackTokens(stack: seq<seq<SExp>>): seq<string>
    requires stack != []
  {
    Opened(stack[..|stack| - 1]) + FlatAll(stack[|stack| - 1])
  }

  lemma FlatOne(t: SExp)
    ensures FlatAll([t]) == Flat(t)
  {
    assert FlatAll([t]) == Flat(t) + FlatAll([]);
  }

  lemma OpenedMore(base: seq<seq<SExp>>, items: seq<SExp>)
    ensures Opened(base + [items]) == Opened(base) + FlatAll(items) + ["("]
    ensures StackTokens(base + [items]) == Opened(base) + FlatAll(items)
  {
    assert (base + [items])[..|base|] == base;
  }

  lemma TakeKeepsTokens(stack: seq<seq<SExp>>, token: string)
    requires stack != [] && Take(stack, token, false).Some?
    ensures StackTokens(Take(stack, token, false).value) == StackTokens(stack) + [token]
  {
    hide FlatAll, Opened, StackTokens, Flat;
    var base, top := stack[..|stack| - 1], stack[|stack| - 1];
    assert stack == base + [top];
    OpenedMore(base, top);
    if token == "(" {
      OpenedMore(stack, []);
      FlatNone();
    } else if token == ")" {
      var outer, under := base[..|base| - 1], base[|base| - 1];
      assert base == outer + [under] && outer == stack[..|stack| - 2];
      OpenedMore(outer, under);
      OpenedMore(outer, under + [List(top)]);
      FlatAllSplit(under, [List(top)]);
      FlatOne(List(top));
      ListTokens(top);
    } else {
      OpenedMore(base, top + [Atom(token)]);
      FlatAllSplit(top, [Atom(token)]);
      FlatOne(Atom(token));
      ListTokens([]);
    }
  }

  lemma ListTokens(items: seq<SExp>)
    ensures Flat(List(items)) == ["("] + FlatAll(items) + [")"]
    ensures forall token :: Flat(Atom(token)) == [token]
  {
  }

  lemma FlatNone()
    ensures FlatAll([]) == []
  {
  }

  /** The stack after every token of a list is taken. */
  function ReadStack(tokens: seq<string>, stack: seq<seq<SExp>>): Option<seq<seq<SExp>>>
    requires stack != []
    decreases |tokens|
  {
    if tokens == [] then Some(stack)
    else
      var next := Take(stack, tokens[0], false);
      if next.None? then None else ReadStack(tokens[1..], next.value)
  }

  lemma {:induction false} ReadStackTokens(tokens: seq<string>, stack: seq<seq<SExp>>)
    requires stack != [] && ReadStack(tokens, stack).Some?
    ensures ReadStack(tokens, stack).value != []
    ensures StackTokens(ReadStack(tokens, stack).value) == StackTokens(stack) + tokens
    ensures Read(tokens, stack, false)
         == if ReadStack(tokens, stack).value[0] == [] then IndexError else Ok(ReadStack(tokens, stack).value[0][0])
    decreases |tokens|
  {
    if tokens == [] {
      assert StackTokens(stack) + tokens == StackTokens(stack);
    } else {
      var next := Take(stack, tokens[0], false).value;
      TakeKeepsTokens(stack, tokens[0]);
      ReadStackTokens(tokens[1..], next);
      assert StackTokens(stack) + [tokens[0]] + tokens[1..] == StackTokens(stack) + tokens;
    }
  }

  /** A text that is one balanced tree reads as a tree with exactly its tokens. */
  lemma ReadLosesNothing(text: string)
    requires ReadStack(Tokens(text), [[]]).Some?
    requires |ReadStack(Tokens(text), [[]]).value| == 1 && |ReadStack(Tokens(text), [[]]).value[0]| == 1
    ensures Read(Tokens(text), [[]], false).Ok?
    ensures Flat(Read(Tokens(text), [[]], false).tree) == Tokens(text)
  {
    ReadStackTokens(Tokens(text), [[]]);
    var items := ReadStack(Tokens(text), [[]]).value[0];
    assert FlatAll(items) == Flat(items[0]) + FlatAll(items[1..]) == Flat(items[0]);
    assert StackTokens([[]]) + Tokens(text) == Tokens(text);
  }

  // ----- when a text reads as a tree, and which --------------------------------------------------

  /** Brackets opened less brackets closed. */
  function Depth(tokens: seq<string>): int {
    if tokens == [] then 0
    else
      var n := |tokens| - 1;
      Depth(tokens[..n]) + (if tokens[n] == "(" then 1 else if tokens[n] == ")" then -1 else 0)
  }

  predicate NeverBelow(tokens: seq<string>) {
    forall k :: 0 <= k <= |tokens| ==> Depth(tokens[..k]) >= 0
  }

  predicate Balanced(tokens: seq<string>, k: nat) {
    0 < k <= |tokens| && Depth(tokens[..k]) == 0
  }

  /** The shortest balanced front of the tokens. */
  predicate FirstBalanced(tokens: seq<string>, k: nat) {
    Balanced(tokens, k) && forall j: nat :: j < k ==> !Balanced(tokens, j)
  }

  lemma {:induction false} ReadStackLast(tokens: seq<string>, token: string, stack: seq<seq<SExp>>)
    requires stack != []
    ensures ReadStack(tokens, stack).Some? ==> ReadStack(tokens, stack).value != []
    ensures ReadStack(tokens + [token], stack)
         == if ReadStack(tokens, stack).Some? then Take(ReadStack(tokens, stack).value, token, false) else None
    decreases |tokens|
  {
    if tokens == [] {
      assert tokens + [token] == [token] && [token][1..] == [];
    } else {
      assert (tokens + [token])[1..] == tokens[1..] + [token];
      var next := Take(stack, tokens[0], false);
      if next.Some? { ReadStackLast(tokens[1..], token, next.value); }
    }
  }

  lemma {:induction false} ReadFails(tokens: seq<string>, stack: seq<seq<SExp>>)
    requires stack != [] && ReadStack(tokens, stack).None?
    ensures Read(tokens, stack, false) == IndexError
    decreases |tokens|
  {
    if tokens != [] {
      var next := Take(stack, tokens[0], false);
      if next.Some? { ReadFails(tokens[1..], next.value); }
    }
  }

  /** The stack after `tokens`: as deep as the brackets left open, its bottom empty until the tokens
      first balance, and from then on opening with the tree they spell. */
  ghost predicate StackSays(tokens: seq<string>, stack: seq<seq<SExp>>) {
    && |stack| == Depth(tokens) + 1
    && (stack != [] && stack[0] != [] <==> exists k: nat :: Balanced(tokens, k))
    && (stack != [] && stack[0] != [] ==> forall k: nat :: FirstBalanced(tokens, k) ==> Flat(stack[0][0]) == tokens[..k])
  }

  lemma BalancedMore(tokens: seq<string>, token: string, k: nat)
    ensures k <= |tokens| ==> (Balanced(tokens + [token], k) <==> Balanced(tokens, k))
    ensures Balanced(tokens + [token], |tokens| + 1) <==> Depth(tokens + [token]) == 0
    ensures Depth(tokens + [token]) == Depth(tokens) + (if token == "(" then 1 else if token == ")" then -1 else 0)
  {
    var more := tokens + [token];
    assert more[..|tokens|] == tokens && more[..|tokens| + 1] == more;
    if k <= |tokens| { assert more[..k] == tokens[..k]; }
  }

  lemma TakeShape(stack: seq<seq<SExp>>, token: string)
    requires stack != [] && Take(stack, token, false).Some?
    ensures var next := Take(stack, token, false).value;
            && next != []
            && |next| == |stack| + (if token == "(" then 1 else if token == ")" then -1 else 0)
            && (stack[0] != [] ==> next[0] != [] && next[0][0] == stack[0][0])
            && (stack[0] == [] ==> (next[0] == [] <==> |next| > 1))
            && (stack[0] == [] && |next| == 1 ==> |next[0]| == 1)
  {
  }

  lemma BalanceCarries(tokens: seq<string>, token: string)
    ensures (exists k: nat :: Balanced(tokens + [token], k)) <==>
      (exists k: nat :: Balanced(tokens, k)) || Depth(tokens + [token]) == 0
    ensures forall j: nat :: FirstBalanced(tokens + [token], j) ==>
      if exists k: nat :: Balanced(tokens, k) then FirstBalanced(tokens, j) && (tokens + [token])[..j] == tokens[..j]
      else j == |tokens| + 1
  {
    hide Depth, Balanced;
    var more := tokens + [token];
    forall k: nat ensures k <= |tokens| ==> (Balanced(more, k) <==> Balanced(tokens, k)) { BalancedMore(tokens, token, k); }
    BalancedMore(tokens, token, 0);
    forall k: nat ensures Balanced(more, k) ==> 0 < k <= |more| { if Balanced(more, k) { BalancedBounds(more, k); } }
    forall k: nat ensures Balanced(tokens, k) ==> 0 < k <= |tokens| { if Balanced(tokens, k) { BalancedBounds(tokens, k); } }
    if k: nat :| Balanced(tokens, k) {
      assert Balanced(more, k);
      forall j: nat | FirstBalanced(more, j) ensures FirstBalanced(tokens, j) && more[..j] == tokens[..j] {
        assert j <= k;
      }
    }
  }

  lemma StackStep(tokens: seq<string>, token: string, stack: seq<seq<SExp>>)
    requires stack != [] && StackSays(tokens, stack) && StackTokens(stack) == tokens
    requires Take(stack, token, false).Some?
    ensures StackSays(tokens + [token], Take(stack, token, false).value)
  {
    hide Depth, Balanced, FirstBalanced, Opened, Flat, FlatAll, Take, StackTokens;
    var more, next := tokens + [token], Take(stack, token, false).value;
    TakeKeepsTokens(stack, token);
    TakeShape(stack, token);
    BalancedMore(tokens, token, 0);
    BalanceCarries(tokens, token);
    if stack[0] == [] && |next| == 1 {
      var items: seq<SExp> := next[0];
      var none: seq<seq<SExp>> := [];
      FlatOne(items[0]);
      assert items == [items[0]] && next == none + [items];
      OpenedMore(none, items);
      OpenedNone();
      assert Flat(items[0]) == more;
      assert more[..|more|] == more;
    }
  }

  lemma BalancedBounds(tokens: seq<string>, k: nat)
    requires Balanced(tokens, k)
    ensures 0 < k <= |tokens|
  {
  }

  lemma OpenedNone()
    ensures Opened([]) == []
  {
  }

  lemma StackOfNone()
    ensures StackTokens([[]]) == []
  {
  }

  lemma {:induction false} StackIs(tokens: seq<string>)
    ensures ReadStack(tokens, [[]]).Some? <==> NeverBelow(tokens)
    ensures ReadStack(tokens, [[]]).Some? ==> StackSays(tokens, ReadStack(tokens, [[]]).value)
    decreases |tokens|
  {
    if tokens == [] {
      assert tokens[..0] == [];
    } else {
      var front, token := tokens[..|tokens| - 1], tokens[|tokens| - 1];
      assert tokens == front + [token];
      StackIs(front);
      ReadStackLast(front, token, [[]]);
      NeverBelowMore(front, token);
      if ReadStack(front, [[]]).Some? {
        var stack := ReadStack(front, [[]]).value;
        ReadStackTokens(front, [[]]);
        assert StackTokens(stack) == front by { StackOfNone(); }
        if Take(stack, token, false).Some? { StackStep(front, token, stack); }
      }
    }
  }

  lemma NeverBelowMore(tokens: seq<string>, token: string)
    ensures NeverBelow(tokens + [token]) <==> NeverBelow(tokens) && Depth(tokens + [token]) >= 0
    ensures Depth(tokens + [token]) == Depth(tokens) + (if token == "(" then 1 else if token == ")" then -1 else 0)
  {
    var more := tokens + [token];
    BalancedMore(tokens, token, 0);
    assert more[..|more|] == more;
    forall k | 0 <= k <= |tokens| ensures more[..k] == tokens[..k] {}
    if NeverBelow(more) {
      forall k | 0 <= k <= |tokens| ensures Depth(tokens[..k]) >= 0 { assert Depth(more[..k]) >= 0; }
    }
  }

  /** Any text at all: it reads as a tree if and only if no bracket closes too many and some front of
      its tokens balances; the tree is the one whose tokens are the shortest such front. */
  lemma ReadIsFirst(text: string)
    ensures Read(Tokens(text), [[]], false).Ok? <==> NeverBelow(Tokens(text)) && exists k: nat :: Balanced(Tokens(text), k)
    ensures Read(Tokens(text), [[]], false).Ok? ==>
      forall k: nat :: FirstBalanced(Tokens(text), k) ==> Flat(Read(Tokens(text), [[]], false).tree) == Tokens(text)[..k]
  {
    var tokens := Tokens(text);
    StackIs(tokens);
    if ReadStack(tokens, [[]]).Some? { ReadStackTokens(tokens, [[]]); } else { ReadFails(tokens, [[]]); }
  }

  // ----- where the lines of a printed tree start ---------------------------------------------------

  /** A text with one more tab before each of its lines. */
  function Indented(s: string): string { "\t" + After(s) }

  function After(s: string): string {
    if s == [] then [] else (if s[0] == '\n' then "\n\t" else [s[0]]) + After(s[1..])
  }

  predicate OneLine(s: string) { '\n' !in s }

  predicate OneLineAtoms(t: SExp) {
    match t
    case Atom(text) => OneLine(text)
    case List(items) => OneLineAll(items)
  }

  predicate OneLineAll(items: seq<SExp>) {
    items == [] || (OneLineAtoms(items[0]) && OneLineAll(items[1..]))
  }

  lemma {:induction false} AfterSplit(a: string, b: string)
    ensures After(a + b) == After(a) + After(b)
    decreases |a|
  {
    if a == [] {
      assert a + b == b;
    } else {
      assert (a + b)[1..] == a[1..] + b;
      AfterSplit(a[1..], b);
    }
  }

  lemma {:induction false} AfterOneLine(s: string)
    requires OneLine(s)
    ensures After(s) == s
    decreases |s|
  {
    if s != [] {
      AfterOneLine(s[1..]);
      assert s == [s[0]] + s[1..];
    }
  }

  lemma {:induction false} JoinOneLine(items: seq<SExp>)
    requires IsFlat(items) && OneLineAll(items)
    ensures OneLine(SpaceJoin(items))
    decreases |items|
  {
    if |items| > 1 { JoinOneLine(items[1..]); }
  }

  /** Lines joined and then indented are the lines indented and then joined. */
  lemma {:induction false} IndentLines(lines: seq<string>, deeper: seq<string>)
    requires |lines| == |deeper| > 0 && forall k :: 0 <= k < |lines| ==> deeper[k] == Indented(lines[k])
    ensures LineJoin(deeper) == Indented(LineJoin(lines))
    decreases |lines|
  {
    if |lines| > 1 {
      var rest := LineJoin(lines[1..]);
      IndentLines(lines[1..], deeper[1..]);
      AfterSplit(lines[0] + "\n", rest);
      AfterSplit(lines[0], "\n");
      assert After("\n") == "\n\t" + After("") == "\n\t";
    }
  }

  lemma IndentTabs(depth: nat, text: string)
    requires OneLine(text)
    ensures Tabs(depth + 1) + text == Indented(Tabs(depth) + text)
  {
    AfterOneLine(Tabs(depth) + text);
  }

  /** A list printed one level deeper is the same lines, each behind one more tab. */
  lemma {:induction false} EmitDeeper(t: SExp, depth: nat)
    requires t.List? && OneLineAtoms(t)
    ensures Emit(t, depth + 1) == Indented(Emit(t, depth))
    decreases t, 0
  {
    hide After, Tabs;
    var items := t.items;
    if IsFlat(items) {
      JoinOneLine(items);
      IndentTabs(depth, "(" + SpaceJoin(items) + ")");
      assert Tabs(depth) + "(" + SpaceJoin(items) + ")" == Tabs(depth) + ("(" + SpaceJoin(items) + ")");
      assert Tabs(depth + 1) + "(" + SpaceJoin(items) + ")" == Tabs(depth + 1) + ("(" + SpaceJoin(items) + ")");
    } else {
      var lines := [Tabs(depth) + "(" + Head(items)] + Lines(items[1..], depth) + [Tabs(depth) + ")"];
      var deeper := [Tabs(depth + 1) + "(" + Head(items)] + Lines(items[1..], depth + 1) + [Tabs(depth + 1) + ")"];
      assert OneLineAtoms(items[0]) && OneLine(Head(items));
      IndentTabs(depth, "(" + Head(items));
      IndentTabs(depth, ")");
      assert Tabs(depth) + "(" + Head(items) == Tabs(depth) + ("(" + Head(items));
      assert Tabs(depth + 1) + "(" + Head(items) == Tabs(depth + 1) + ("(" + Head(items));
      LinesDeeper(items[1..], depth);
      IndentLines(lines, deeper);
    }
  }

  lemma {:induction false} LinesDeeper(items: seq<SExp>, depth: nat)
    requires OneLineAll(items)
    ensures forall k :: 0 <= k < |items| ==> Lines(items, depth + 1)[k] == Indented(Lines(items, depth)[k])
    decreases items, 1
  {
    hide After, Tabs, Emit;
    if items != [] {
      LinesDeeper(items[1..], depth);
      if items[0].Atom? {
        IndentTabs(depth, "\t" + items[0].text);
        assert Tabs(depth) + "\t" + items[0].text == Tabs(depth) + ("\t" + items[0].text);
        assert Tabs(depth + 1) + "\t" + items[0].text == Tabs(depth + 1) + ("\t" + items[0].text);
      } else {
        EmitDeeper(items[0], depth + 1);
      }
    }
  }
}
