/** The string operations the HTTP module builds on: lines, trimming, and splitting into words. */
module HttpText {
  import opened Sequences

  /** Characters with the Unicode property White_Space. */
  predicate White(c: char) {
    || '\t' <= c <= '\r'
    || c == ' '
    || c == '\U{0085}' || c == '\U{00A0}' || c == '\U{1680}'
    || '\U{2000}' <= c <= '\U{200A}'
    || c == '\U{2028}' || c == '\U{2029}' || c == '\U{202F}' || c == '\U{205F}' || c == '\U{3000}'
  }

  /** The first position of `c`, or the length. */
  function IndexOf(s: string, c: char): (k: nat)
    ensures k <= |s| && c !in s[..k] && (k < |s| ==> s[k] == c)
  {
    if s == [] || s[0] == c then 0
    else
      var k := 1 + IndexOf(s[1..], c);
      assert s[..k] == [s[0]] + s[1..][..k - 1];
      k
  }

  function TrimStart(s: string): (r: string)
    ensures r == [] || !White(r[0])
  {
    if s != [] && White(s[0]) then TrimStart(s[1..]) else s
  }

  function TrimEnd(s: string): (r: string)
    ensures r <= s && (r == [] || !White(r[|r| - 1]))
  {
    if s != [] && White(s[|s| - 1]) then TrimEnd(s[..|s| - 1]) else s
  }

  function Trim(s: string): (r: string) {
    TrimEnd(TrimStart(s))
  }

  function StripCr(s: string): (r: string) {
    if s != [] && s[|s| - 1] == '\r' then s[..|s| - 1] else s
  }

  /** Lines end in LF or CR LF; the last one may be unterminated, and then keeps a final CR. */
  function Lines(s: string): (r: seq<string>) {
    if s == [] then []
    else
      var k := IndexOf(s, '\n');
      if k == |s| then [s] else [StripCr(s[..k])] + Lines(s[k + 1..])
  }

  /** The lines with LF between them. */
  function Join(ls: seq<string>): (r: string) {
    if ls == [] then ""
    else if |ls| == 1 then ls[0]
    else ls[0] + "\n" + Join(ls[1..])
  }

  /** The length of the word a string begins with. */
  function WordEnd(s: string): (k: nat)
    ensures k <= |s| && (forall i :: 0 <= i < k ==> !White(s[i])) && (k < |s| ==> White(s[k]))
  {
    if s == [] || White(s[0]) then 0 else 1 + WordEnd(s[1..])
  }

  lemma {:induction false} TrimStartShorter(s: string)
    ensures |TrimStart(s)| <= |s|
  {
    if s != [] && White(s[0]) { TrimStartShorter(s[1..]); }
  }

  function Words(s: string): (r: seq<string>)
    decreases |s|
  {
    var t := TrimStart(s);
    TrimStartShorter(s);
    if t == [] then []
    else
      var k := WordEnd(t);
      [t[..k]] + Words(t[k..])
  }

  predicate IsWord(s: string) {
    s != [] && forall i :: 0 <= i < |s| ==> !White(s[i])
  }

  // ----- Trimming -----

  predicate AllWhite(s: string) {
    forall i :: 0 <= i < |s| ==> White(s[i])
  }

  lemma {:induction false} TrimStartCuts(s: string) returns (i: nat)
    ensures i <= |s| && TrimStart(s) == s[i..] && AllWhite(s[..i])
  {
    if s != [] && White(s[0]) {
      var k := TrimStartCuts(s[1..]);
      i := k + 1;
      assert s[..i] == [s[0]] + s[1..][..k];
    } else {
      i := 0;
    }
  }

  lemma {:induction false} TrimEndCuts(s: string) returns (j: nat)
    ensures j <= |s| && TrimEnd(s) == s[..j] && AllWhite(s[j..])
  {
    j := |s|;
    if s != [] && White(s[|s| - 1]) {
      var front := s[..|s| - 1];
      j := TrimEndCuts(front);
      assert s[j..] == front[j..] + [s[|s| - 1]];
    }
  }

  /** Trimming cuts off all white space at both ends, and nothing else. */
  lemma TrimCuts(s: string) returns (i: nat, j: nat)
    ensures i <= j <= |s| && Trim(s) == s[i..j] && AllWhite(s[..i]) && AllWhite(s[j..])
    ensures Trim(s) != [] ==> !White(s[i]) && !White(s[j - 1])
  {
    i := TrimStartCuts(s);
    var k := TrimEndCuts(s[i..]);
    j := i + k;
    assert s[i..][k..] == s[j..] && s[i..][..k] == s[i..j];
    var front, t := TrimStart(s), Trim(s);
    assert t != [] ==> t[0] == front[0] == s[i] && t[|t| - 1] == s[j - 1];
  }

  // ----- Lines -----

  lemma {:induction false} IndexOfPrefix(a: string, b: string, c: char)
    requires c !in a
    ensures IndexOf(a + b, c) == |a| + IndexOf(b, c)
  {
    if a == [] {
      assert a + b == b;
    } else {
      IndexOfPrefix(a[1..], b, c);
      assert (a + b)[1..] == a[1..] + b;
    }
  }

  /** A terminated line in front. */
  lemma LinesCons(line: string, rest: string)
    requires '\n' !in line
    ensures Lines(line + "\r\n" + rest) == [line] + Lines(rest)
  {
    var s, first := line + "\r\n" + rest, line + "\r";
    assert s == first + ("\n" + rest);
    IndexOfPrefix(first, "\n" + rest, '\n');
    assert s[..|first|] == first && s[|first| + 1..] == rest;
  }

  lemma {:induction false} LinesHaveNoLf(s: string, i: nat)
    requires i < |Lines(s)|
    ensures '\n' !in Lines(s)[i]
  {
    var k := IndexOf(s, '\n');
    if k == |s| {
      assert s[..k] == s;
    } else if i > 0 {
      LinesHaveNoLf(s[k + 1..], i - 1);
    }
  }

  // ----- The body -----

  /** What survives being split into lines and joined again. */
  predicate LineStable(s: string) {
    && (forall i :: 0 <= i < |s| - 1 ==> !(s[i] == '\r' && s[i + 1] == '\n'))
    && (s == [] || s[|s| - 1] != '\n')
  }

  lemma {:induction false} JoinedLength(s: string)
    ensures |Join(Lines(s))| <= |s|
    ensures s != [] && s[|s| - 1] == '\n' ==> |Join(Lines(s))| < |s|
  {
    if s != [] {
      var k := IndexOf(s, '\n');
      if k < |s| {
        var rest := s[k + 1..];
        JoinedLength(rest);
        JoinCons(StripCr(s[..k]), Lines(rest));
      } else {
        assert s[..k] == s;
      }
    }
  }

  lemma JoinCons(l: string, ls: seq<string>)
    ensures Join([l] + ls) == if ls == [] then l else l + "\n" + Join(ls)
  {
    assert ([l] + ls)[1..] == ls;
  }

  lemma SameTail(a: string, b: string, c: string)
    ensures a + "\n" + b == a + "\n" + c <==> b == c
  {
    assert (a + "\n" + b)[|a| + 1..] == b && (a + "\n" + c)[|a| + 1..] == c;
  }

  lemma JoinStep(s: string, k: nat)
    requires k < |s| && k == IndexOf(s, '\n')
    ensures var head, rest := s[..k], s[k + 1..];
            Join(Lines(s)) == s <==> StripCr(head) == head && rest != [] && Join(Lines(rest)) == rest
  {
    var head, rest := s[..k], s[k + 1..];
    assert s == head + "\n" + rest;
    JoinedLength(rest);
    JoinCons(StripCr(head), Lines(rest));
    SameTail(head, Join(Lines(rest)), rest);
  }

  /** Splitting into lines and joining with LF gives a text back exactly if it has no CR LF and does
      not end in LF. */
  lemma {:induction false} JoinLinesIff(s: string)
    ensures Join(Lines(s)) == s <==> LineStable(s)
  {
    if s != [] {
      var k := IndexOf(s, '\n');
      if k < |s| {
        JoinLinesIff(s[k + 1..]);
        JoinStep(s, k);
        StableTail(s, k);
      } else {
        assert s[..k] == s;
      }
    }
  }

  lemma StableTail(s: string, k: nat)
    requires k < |s| && k == IndexOf(s, '\n')
    ensures var head, rest := s[..k], s[k + 1..];
            LineStable(s) <==> StripCr(head) == head && rest != [] && LineStable(rest)
  {
    var head, rest := s[..k], s[k + 1..];
    assert forall i :: 0 <= i < |rest| ==> rest[i] == s[k + 1 + i];
    assert forall i :: 0 <= i < k ==> s[i] != '\n' by {
      assert forall i :: 0 <= i < k ==> head[i] == s[i] && head[i] in head;
    }
  }

  // ----- Lines of a text in front of another -----

  lemma LineThen(line: string, rest: string)
    requires '\n' !in line
    ensures Lines(line + ("\n" + rest)) == [StripCr(line)] + Lines(rest)
  {
    var s := line + ("\n" + rest);
    IndexOfPrefix(line, "\n" + rest, '\n');
    assert s[..|line|] == line && s[|line| + 1..] == rest;
  }

  /** A text that does not end in LF, in front of CR LF. */
  lemma {:induction false} LinesThen(s: string, rest: string)
    requires s != [] && s[|s| - 1] != '\n'
    ensures Lines(s + ("\r\n" + rest)) == Lines(s) + Lines(rest)
  {
    var k := IndexOf(s, '\n');
    if k < |s| {
      LinesThen(s[k + 1..], rest);
      LineBefore(s[..k], s[k + 1..], "\r\n" + rest, Lines(rest));
      CutAtLf(s, k);
    } else {
      OneLineThen(s, rest);
    }
  }

  lemma CutAtLf(s: string, k: nat)
    requires k < |s| && s[k] == '\n'
    ensures s == s[..k] + ("\n" + s[k + 1..])
  {
  }

  lemma OneLineThen(s: string, rest: string)
    requires s != [] && IndexOf(s, '\n') == |s|
    ensures Lines(s + ("\r\n" + rest)) == Lines(s) + Lines(rest)
  {
    assert s[..|s|] == s;
    Associate(s, "\r\n", rest);
    LinesCons(s, rest);
  }

  lemma LineBefore(line: string, tail: string, more: string, ls: seq<string>)
    requires '\n' !in line && Lines(tail + more) == Lines(tail) + ls
    ensures Lines((line + ("\n" + tail)) + more) == Lines(line + ("\n" + tail)) + ls
  {
    LineThen(line, tail);
    LineThen(line, tail + more);
    Associate(line, "\n" + tail, more);
    Associate("\n", tail, more);
    Associate([StripCr(line)], Lines(tail), ls);
  }

  /** A text that ends in LF, in front of any other. */
  lemma {:induction false} LinesAfterBreak(s: string, rest: string)
    requires s != [] && s[|s| - 1] == '\n'
    ensures Lines(s + rest) == Lines(s) + Lines(rest)
  {
    var k := IndexOf(s, '\n');
    assert k < |s| by { assert '\n' in s && s[..|s|] == s; }
    var tail := s[k + 1..];
    if tail == [] {
      assert tail + rest == rest;
    } else {
      LinesAfterBreak(tail, rest);
    }
    LineBefore(s[..k], tail, rest, Lines(rest));
    CutAtLf(s, k);
  }

  lemma {:induction false} LastLine(s: string)
    requires s != [] && s[|s| - 1] != '\n'
    ensures Lines(s) != [] && Lines(s)[|Lines(s)| - 1] != ""
  {
    var k := IndexOf(s, '\n');
    if k < |s| {
      LastLine(s[k + 1..]);
      LastOfCons(StripCr(s[..k]), Lines(s[k + 1..]));
    }
  }

  lemma LastOfCons(line: string, ls: seq<string>)
    requires ls != [] && ls[|ls| - 1] != ""
    ensures ([line] + ls)[|ls|] != "" && |[line] + ls| == |ls| + 1
  {
  }

  // ----- Counting lines -----

  function Breaks(s: string): (n: nat) {
    if s == [] then 0 else (if s[0] == '\n' then 1 else 0) + Breaks(s[1..])
  }

  lemma {:induction false} BreaksAppend(a: string, b: string)
    ensures Breaks(a + b) == Breaks(a) + Breaks(b)
  {
    if a == [] {
      assert a + b == b;
    } else {
      BreaksAppend(a[1..], b);
      assert (a + b)[1..] == a[1..] + b;
    }
  }

  lemma {:induction false} NoBreaks(s: string)
    requires '\n' !in s
    ensures Breaks(s) == 0
  {
    if s != [] { NoBreaks(s[1..]); }
  }

  lemma BreakAfter(line: string, rest: string)
    ensures Breaks(line + ("\n" + rest)) == Breaks(line) + 1 + Breaks(rest)
  {
    BreaksAppend(line, "\n" + rest);
    assert ("\n" + rest)[1..] == rest;
  }

  /** A text has as many lines as breaks, or one more. */
  lemma {:induction false} BreaksOfLines(s: string)
    ensures Breaks(s) <= |Lines(s)| <= Breaks(s) + 1
  {
    if s != [] {
      var k := IndexOf(s, '\n');
      NoBreaks(s[..k]);
      if k < |s| {
        BreaksOfLines(s[k + 1..]);
        BreaksBehind(s[..k], s[k + 1..]);
        CutAtLf(s, k);
      } else {
        assert s[..k] == s;
      }
    }
  }

  lemma BreaksBehind(line: string, rest: string)
    requires '\n' !in line && Breaks(line) == 0
    ensures Breaks(line + ("\n" + rest)) == 1 + Breaks(rest)
    ensures |Lines(line + ("\n" + rest))| == 1 + |Lines(rest)|
  {
    BreakAfter(line, rest);
    LineThen(line, rest);
  }

  lemma {:induction false} BreaksOfJoin(ls: seq<string>)
    requires forall i :: 0 <= i < |ls| ==> '\n' !in ls[i]
    ensures Breaks(Join(ls)) == if ls == [] then 0 else |ls| - 1
  {
    if ls != [] {
      NoBreaks(ls[0]);
      if |ls| > 1 {
        BreaksOfJoin(ls[1..]);
        Associate(ls[0], "\n", Join(ls[1..]));
        BreakAfter(ls[0], Join(ls[1..]));
      }
    }
  }

  /** Joining more lines than a text has, and one more, never gives that text. */
  lemma TooManyLines(ls: seq<string>, s: string)
    requires |ls| >= |Lines(s)| + 2 && forall i :: 0 <= i < |ls| ==> '\n' !in ls[i]
    ensures Join(ls) != s
  {
    BreaksOfJoin(ls);
    BreaksOfLines(s);
  }

  // ----- Words -----

  lemma {:induction false} WordEndOf(w: string, s: string)
    requires IsWord(w) && (s == [] || White(s[0]))
    ensures WordEnd(w + s) == |w|
  {
    if |w| == 1 {
      assert (w + s)[1..] == s;
    } else {
      WordEndOf(w[1..], s);
      assert (w + s)[1..] == w[1..] + s;
    }
  }

  lemma WordsCons(w: string, s: string)
    requires IsWord(w) && (s == [] || White(s[0]))
    ensures Words(w + s) == [w] + Words(s)
  {
    WordEndOf(w, s);
    assert (w + s)[..|w|] == w && (w + s)[|w|..] == s;
  }

  lemma WordsOfWhite(c: char, s: string)
    requires White(c)
    ensures Words([c] + s) == Words(s)
  {
    assert ([c] + s)[1..] == s;
  }

  lemma OneWord(s: string)
    requires IsWord(s)
    ensures Words(s) == [s]
  {
    assert s == s + "";
    WordsCons(s, "");
  }

  lemma WordsSplitWhite(c: char, a: string, b: string)
    requires White(c) && Words(a + (" " + b)) == Words(a) + Words(b)
    ensures Words(([c] + a) + (" " + b)) == Words([c] + a) + Words(b)
  {
    WordsOfWhite(c, a);
    WordsOfWhite(c, a + (" " + b));
    Associate([c], a, " " + b);
  }

  lemma WordsSplitWord(w: string, a: string, b: string)
    requires IsWord(w) && (a == [] || White(a[0])) && Words(a + (" " + b)) == Words(a) + Words(b)
    ensures Words((w + a) + (" " + b)) == Words(w + a) + Words(b)
  {
    WordsCons(w, a);
    WordsCons(w, a + (" " + b));
    Associate(w, a, " " + b);
    Associate([w], Words(a), Words(b));
  }

  /** Texts with a space between them have the words of both. */
  lemma {:induction false} WordsSplit(a: string, b: string)
    ensures Words(a + (" " + b)) == Words(a) + Words(b)
    decreases |a|
  {
    if a == [] {
      assert a + (" " + b) == [' '] + b;
      WordsOfWhite(' ', b);
    } else if White(a[0]) {
      WordsSplit(a[1..], b);
      assert a == [a[0]] + a[1..];
      WordsSplitWhite(a[0], a[1..], b);
    } else {
      var k := WordEnd(a);
      WordsSplit(a[k..], b);
      assert a == a[..k] + a[k..];
      WordsSplitWord(a[..k], a[k..], b);
    }
  }
}
