/** The hand-written tokenizer of guard expressions. */
module Tokenizer {
  import opened Text

  datatype Token =
    | TNum(s: string) | TStr(s: string) | TIdent(s: string) | TOp(s: string)
    | TLParen | TRParen | TComma | TEOF

  predicate IsBlank(c: char) {
    c == ' ' || c == '\t' || c == '\n'
  }

  predicate IsQuote(c: char) {
    c == '\'' || c == '"'
  }

  predicate IsOpChar(c: char) {
    c in "=!<>&|+-*/"
  }

  predicate IsDigit(c: char) {
    '0' <= c <= '9'
  }

  predicate IsNumChar(c: char) {
    c == '.' || IsDigit(c)
  }

  predicate IsIdentChar(c: char) {
    c == '_' || c == '.' || 'a' <= c <= 'z' || 'A' <= c <= 'Z' || IsDigit(c)
  }

  predicate IsTwoCharOp(s: string) {
    s == "==" || s == "!=" || s == "<=" || s == ">=" || s == "&&" || s == "||"
  }

  /** The length of the longest prefix whose characters satisfy `p`. */
  function Span(s: string, p: char -> bool): (n: nat)
    ensures n <= |s|
    ensures forall i :: 0 <= i < n ==> p(s[i])
    ensures n < |s| ==> !p(s[n])
  {
    if s == "" || !p(s[0]) then 0 else 1 + Span(s[1..], p)
  }

  /** The first token of a non-empty text, if its first character starts one, and
      how many characters are consumed. */
  function First(s: string): (r: (seq<Token>, nat))
    requires s != ""
    ensures 0 < r.1 <= |s|
  {
    var c := s[0];
    if IsBlank(c) then ([], 1)
    else if c == '(' then ([TLParen], 1)
    else if c == ')' then ([TRParen], 1)
    else if c == ',' then ([TComma], 1)
    else if IsQuote(c) then
      var n := Span(s[1..], x => x != c);
      ([TStr(s[1..1 + n])], if 1 + n < |s| then n + 2 else n + 1)
    else if IsOpChar(c) then
      if 1 < |s| && IsTwoCharOp(s[..2]) then ([TOp(s[..2])], 2) else ([TOp([c])], 1)
    else if IsDigit(c) then
      var n := Span(s, IsNumChar);
      ([TNum(s[..n])], n)
    else
      var n := Span(s, IsIdentChar);
      if n == 0 then ([], 1) else ([TIdent(s[..n])], n)
  }

  function Lex(s: string): seq<Token>
    decreases |s|
  {
    if s == "" then [TEOF]
    else
      var (t, n) := First(s);
      t + Lex(s[n..])
  }

  lemma {:induction false} LexEndsWithEOF(s: string)
    ensures |Lex(s)| > 0 && Lex(s)[|Lex(s)| - 1] == TEOF
    decreases |s|
  {
    if s != "" {
      LexEndsWithEOF(s[First(s).1..]);
    }
  }

  /** The index after the longest stretch from `i` that satisfies `p`. */
  method Scan(s: string, i: nat, p: char -> bool) returns (j: nat)
    requires i <= |s|
    ensures i <= j <= |s| && j - i == Span(s[i..], p)
  {
    j := i;
    while j < |s| && p(s[j])
      invariant i <= j <= |s|
      invariant Span(s[i..], p) == (j - i) + Span(s[j..], p)
    {
      assert s[j..][1..] == s[j + 1..];
      j := j + 1;
    }
  }

  /** One turn of the tokenizer's switch at index `i`: the tokens appended (none
      or one) and the next index. */
  method ScanToken(s: string, i: nat) returns (t: seq<Token>, j: nat)
    requires i < |s|
    ensures i < j <= |s| && (t, j - i) == First(s[i..])
  {
    var c := s[i];
    if IsQuote(c) {
      t, j := ScanString(s, i);
    } else if IsBlank(c) || c == '(' || c == ')' || c == ',' || IsOpChar(c) {
      t, j := ScanPunct(s, i);
    } else if IsDigit(c) {
      j := Scan(s, i, IsNumChar);
      assert s[i..][..j - i] == s[i..j];
      t := [TNum(s[i..j])];
    } else {
      j := Scan(s, i, IsIdentChar);
      assert s[i..][..j - i] == s[i..j];
      if j == i {
        t, j := [], i + 1;
      } else {
        t := [TIdent(s[i..j])];
      }
    }
  }

  method ScanPunct(s: string, i: nat) returns (t: seq<Token>, j: nat)
    requires i < |s|
    requires IsBlank(s[i]) || s[i] == '(' || s[i] == ')' || s[i] == ',' || IsOpChar(s[i])
    ensures i < j <= |s| && (t, j - i) == First(s[i..])
  {
    var c := s[i];
    if IsBlank(c) {
      t, j := [], i + 1;
    } else if c == '(' {
      t, j := [TLParen], i + 1;
    } else if c == ')' {
      t, j := [TRParen], i + 1;
    } else if c == ',' {
      t, j := [TComma], i + 1;
    } else {
      assert i + 1 < |s| ==> s[i..][..2] == s[i..i + 2];
      if i + 1 < |s| && IsTwoCharOp(s[i..i + 2]) {
        t, j := [TOp(s[i..i + 2])], i + 2;
      } else {
        t, j := [TOp([c])], i + 1;
      }
    }
  }

  /** A quoted string ends at the same quote or at the end of the text. */
  method ScanString(s: string, i: nat) returns (t: seq<Token>, j: nat)
    requires i < |s| && IsQuote(s[i])
    ensures i < j <= |s| && (t, j - i) == First(s[i..])
  {
    var q := s[i];
    j := i + 1;
    while j < |s| && s[j] != q
      invariant i + 1 <= j <= |s|
      invariant Span(s[i + 1..], x => x != q) == (j - (i + 1)) + Span(s[j..], x => x != q)
    {
      assert s[j..][1..] == s[j + 1..];
      j := j + 1;
    }
    assert s[i..][1..] == s[i + 1..];
    assert s[i..][1..1 + (j - (i + 1))] == s[i + 1..j];
    t := [TStr(s[i + 1..j])];
    if j < |s| {
      j := j + 1;
    }
  }

  lemma LexUnfold(s: string, out: seq<Token>, t: seq<Token>, n: nat)
    requires s != "" && First(s) == (t, n)
    ensures n <= |s| && out + Lex(s) == (out + t) + Lex(s[n..])
  {
    hide First;
    SeqAssoc(out, t, Lex(s[n..]));
  }

  lemma SeqAssoc(a: seq<Token>, b: seq<Token>, c: seq<Token>)
    ensures a + (b + c) == (a + b) + c
  {
  }

  /** tokenize: one pass over the text, appending tokens. */
  method Tokenize(s: string) returns (out: seq<Token>)
    ensures out == Lex(s)
  {
    out := [];
    var i := 0;
    while i < |s|
      invariant 0 <= i <= |s|
      invariant out + Lex(s[i..]) == Lex(s)
    {
      var t, j := ScanToken(s, i);
      LexUnfold(s[i..], out, t, j - i);
      assert s[i..][j - i..] == s[j..];
      out, i := out + t, j;
    }
    assert s[i..] == "";
    out := out + [TEOF];
  }

  // --- Printing tokens ----------------------------------------------------

  predicate AllChars(s: string, p: char -> bool) {
    forall i :: 0 <= i < |s| ==> p(s[i])
  }

  /** Tokens that some text denotes. */
  predicate Writable(t: Token) {
    match t
    case TNum(s) => s != "" && IsDigit(s[0]) && AllChars(s, IsNumChar)
    case TStr(s) => '\'' !in s || '"' !in s
    case TIdent(s) => s != "" && !IsDigit(s[0]) && AllChars(s, IsIdentChar)
    case TOp(s) => (|s| == 1 && IsOpChar(s[0])) || IsTwoCharOp(s)
    case TEOF => false
    case _ => true
  }

  function Write(t: Token): string {
    match t
    case TNum(s) => s
    case TStr(s) => if '\'' !in s then "'" + s + "'" else "\"" + s + "\""
    case TIdent(s) => s
    case TOp(s) => s
    case TLParen => "("
    case TRParen => ")"
    case TComma => ","
    case TEOF => ""
  }

  function WriteAll(ts: seq<Token>): string {
    if ts == [] then "" else Write(ts[0]) + " " + WriteAll(ts[1..])
  }

  lemma {:induction false} SpanAll(s: string, p: char -> bool, rest: string)
    requires AllChars(s, p) && (rest == "" || !p(rest[0]))
    ensures Span(s + rest, p) == |s|
  {
    if s != "" {
      assert (s + rest)[1..] == s[1..] + rest;
      SpanAll(s[1..], p, rest);
    } else {
      assert s + rest == rest;
    }
  }

  lemma FirstOfNumber(n: string, rest: string)
    requires Writable(TNum(n))
    ensures First(n + (" " + rest)) == ([TNum(n)], |n|)
  {
    var s := n + (" " + rest);
    assert s[0] == n[0];
    SpanAll(n, IsNumChar, " " + rest);
    assert s[..|n|] == n;
  }

  lemma FirstOfIdent(n: string, rest: string)
    requires Writable(TIdent(n))
    ensures First(n + (" " + rest)) == ([TIdent(n)], |n|)
  {
    var s := n + (" " + rest);
    assert s[0] == n[0] && IsIdentChar(n[0]);
    SpanAll(n, IsIdentChar, " " + rest);
    assert s[..|n|] == n;
  }

  lemma FirstOfString(n: string, q: char, rest: string)
    requires IsQuote(q) && q !in n
    ensures First(([q] + n + [q]) + (" " + rest)) == ([TStr(n)], |n| + 2)
  {
    var s := ([q] + n + [q]) + (" " + rest);
    assert s[0] == q;
    assert s[1..] == n + ([q] + " " + rest);
    SpanAll(n, x => x != q, [q] + " " + rest);
    assert s[1..1 + |n|] == n;
  }

  lemma OpStarts(o: string)
    requires Writable(TOp(o))
    ensures var c := o[0]; IsOpChar(c) && !IsBlank(c) && c != '(' && c != ')' && c != ',' && !IsQuote(c)
    ensures |o| == 1 || (|o| == 2 && IsTwoCharOp(o))
  {
  }

  lemma BlankIsNoOp(s: string)
    requires |s| == 2 && s[1] == ' '
    ensures !IsTwoCharOp(s)
  {
  }

  lemma FirstOfOp(o: string, rest: string)
    requires Writable(TOp(o))
    ensures First(o + (" " + rest)) == ([TOp(o)], |o|)
  {
    OpStarts(o);
    hide Span, AllChars, IsBlank, IsQuote, IsOpChar, IsDigit, IsTwoCharOp;
    var s := o + (" " + rest);
    assert s[0] == o[0];
    if |o| == 1 {
      assert s[..2] == [o[0], ' '] && !IsTwoCharOp(s[..2]) by { BlankIsNoOp(s[..2]); }
      assert o == [o[0]];
    } else {
      assert s[..2] == o;
    }
  }

  lemma FirstOfWritten(t: Token, rest: string)
    requires Writable(t)
    ensures First(Write(t) + (" " + rest)) == ([t], |Write(t)|)
  {
    match t {
      case TNum(n) => FirstOfNumber(n, rest);
      case TIdent(n) => FirstOfIdent(n, rest);
      case TStr(n) => FirstOfString(n, if '\'' !in n then '\'' else '"', rest);
      case TOp(o) => FirstOfOp(o, rest);
      case _ =>
    }
  }

  /** Written tokens read back as themselves. */
  lemma {:induction false} LexOfWritten(ts: seq<Token>)
    requires forall i :: 0 <= i < |ts| ==> Writable(ts[i])
    ensures Lex(WriteAll(ts)) == ts + [TEOF]
  {
    if ts == [] {
    } else {
      var w, rest := Write(ts[0]), WriteAll(ts[1..]);
      var s := w + (" " + rest);
      assert WriteAll(ts) == s;
      FirstOfWritten(ts[0], rest);
      assert s[|w|..] == " " + rest;
      assert First(" " + rest) == ([], 1);
      assert (" " + rest)[1..] == rest;
      LexOfWritten(ts[1..]);
      assert Lex(" " + rest) == Lex(rest);
      assert Lex(s) == [ts[0]] + Lex(s[|w|..]);
      assert [ts[0]] + ts[1..] == ts;
    }
  }

  // --- Texts that no tokens are written as ------------------------------------------

  lemma {:induction false} SpanWhole(s: string, p: char -> bool)
    requires forall i :: 0 <= i < |s| ==> p(s[i])
    ensures Span(s, p) == |s|
  {
    if s != "" { SpanWhole(s[1..], p); }
  }

  lemma {:induction false} SpanUpTo(a: string, c: char, b: string, p: char -> bool)
    requires (forall i :: 0 <= i < |a| ==> p(a[i])) && !p(c)
    ensures Span(a + [c] + b, p) == |a|
  {
    var s := a + [c] + b;
    if a != "" {
      SpanUpTo(a[1..], c, b, p);
      assert s[1..] == a[1..] + [c] + b;
    }
  }

  /** A text in quotes of one kind may hold those of the other; ... */
  lemma QuotedText(q: char, s: string, rest: string)
    requires (q == '\'' || q == '"') && q !in s
    ensures Lex([q] + s + [q] + rest) == [TStr(s)] + Lex(rest)
  {
    var b := [q] + s + [q] + rest;
    SpanUpTo(s, q, rest, x => x != q);
    assert b[0] == q && b[1..] == s + [q] + rest && b[1..1 + |s|] == s;
    assert First(b) == ([TStr(s)], |s| + 2) && b[|s| + 2..] == rest;
  }

  /** ... without a closing quote it goes on to the end. */
  lemma UnclosedText(q: char, s: string)
    requires (q == '\'' || q == '"') && q !in s
    ensures Lex([q] + s) == [TStr(s), TEOF]
  {
    var a := [q] + s;
    SpanWhole(s, x => x != q);
    assert a[0] == q && a[1..] == s && a[1..1 + |s|] == s;
    assert First(a) == ([TStr(s)], |a|) && a[|a|..] == "";
  }

  /** White space, and a character that starts no token, are passed over. */
  lemma PassedOver(c: char, rest: string)
    requires c in " \t\n" || !(c in "(),'\"" || c in "=!<>&|+-*/" || IsIdentChar(c))
    ensures Lex([c] + rest) == Lex(rest)
  {
    var s := [c] + rest;
    assert s[1..] == rest;
    assert First(s) == ([], 1);
  }
}
