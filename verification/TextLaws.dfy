/** What trimming, splitting and joining do to a text. */
module TextLaws {
  import opened Text

  ghost predicate AllSpace(s: string) {
    forall i :: 0 <= i < |s| ==> IsSpace(s[i])
  }

  /** `t` is `s` without white space around it. */
  ghost predicate Bare(s: string, t: string) {
    && (t != "" ==> !IsSpace(t[0]) && !IsSpace(t[|t| - 1]))
    && exists a: string, b: string :: AllSpace(a) && AllSpace(b) && s == a + t + b
  }

  lemma {:induction false} LeftExactly(s: string) returns (a: string)
    ensures AllSpace(a) && s == a + TrimLeft(s)
    ensures TrimLeft(s) != "" ==> !IsSpace(TrimLeft(s)[0])
  {
    a := "";
    if s != "" && IsSpace(s[0]) {
      var rest := LeftExactly(s[1..]);
      a := [s[0]] + rest;
    }
  }

  lemma {:induction false} RightExactly(s: string) returns (b: string)
    ensures AllSpace(b) && s == TrimRight(s) + b
    ensures TrimRight(s) != "" ==> !IsSpace(TrimRight(s)[|TrimRight(s)| - 1])
    ensures TrimRight(s) != "" ==> TrimRight(s)[0] == s[0]
  {
    b := "";
    if s != "" && IsSpace(s[|s| - 1]) {
      var rest := RightExactly(s[..|s| - 1]);
      b := rest + [s[|s| - 1]];
      assert s == s[..|s| - 1] + [s[|s| - 1]];
    }
  }

  /** Trimming takes white space from both ends, all of it and nothing else. */
  lemma TrimExactly(s: string)
    ensures Bare(s, Trim(s))
  {
    var a := LeftExactly(s);
    var b := RightExactly(TrimLeft(s));
    assert s == a + Trim(s) + b;
  }

  /** White space among the first characters: the blank and five control characters. */
  lemma PlainSpaces(c: char)
    requires c < '\U{0080}'
    ensures IsSpace(c) <==> c == ' ' || c == '\t' || c == '\n' || c == '\U{000B}' || c == '\U{000C}' || c == '\r'
  {
  }

  /** The parts hold no separator, and joined with it they are the text again. */
  lemma {:induction false} SplitJoins(s: string, c: char)
    ensures Join(Split(s, c), [c]) == s
    ensures forall p :: p in Split(s, c) ==> c !in p
  {
    if s != "" {
      SplitJoins(s[1..], c);
      var rest := Split(s[1..], c);
      if s[0] == c {
        assert Join([""] + rest, [c]) == "" + [c] + Join(rest, [c]) by { assert ([""] + rest)[1..] == rest; }
      } else {
        JoinHead(s[0], rest, [c]);
      }
      assert s == [s[0]] + s[1..];
    }
  }

  lemma JoinHead(x: char, parts: seq<string>, sep: string)
    requires parts != []
    ensures Join([[x] + parts[0]] + parts[1..], sep) == [x] + Join(parts, sep)
  {
    var more := [[x] + parts[0]] + parts[1..];
    assert more[1..] == parts[1..];
    if |parts| == 1 {
      assert Join(more, sep) == [x] + parts[0];
    } else {
      assert ([x] + parts[0]) + sep + Join(parts[1..], sep) == [x] + (parts[0] + sep + Join(parts[1..], sep));
    }
  }
}
