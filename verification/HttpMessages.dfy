/** Whole messages: exactly what `parse` makes of a printed response. */
module HttpMessages {
  import opened Sequences
  import opened HttpText
  import opened Http
  import opened HttpProofs

  // ----- The status line -----

  /** The number a sequence of digits stands for. */
  function NumberOf(s: string): (n: int) {
    if s == [] then 0 else NumberOf(s[..|s| - 1]) * 10 + (s[|s| - 1] as int - '0' as int)
  }

  lemma {:induction false} DecimalRoundTrip(n: nat)
    ensures NumberOf(Decimal(n)) == n
  {
    var digit := ['0' + (n % 10) as char];
    if n >= 10 {
      DecimalRoundTrip(n / 10);
      assert Decimal(n)[..|Decimal(n)| - 1] == Decimal(n / 10);
    } else {
      assert Decimal(n) == digit && digit[..0] == [];
    }
  }

  /** How many words a reason phrase has. */
  function ReasonLength(code: nat): (n: nat) {
    if code == 400 || code == 404 then 2 else if code == 500 then 3 else 1
  }

  /** A text with a space at `k`, behind a word. */
  lemma WordsAt(s: string, k: nat)
    requires k < |s| && s[k] == ' ' && IsWord(s[..k])
    ensures |Words(s)| == 1 + |Words(s[k + 1..])|
  {
    assert s == s[..k] + (" " + s[k + 1..]);
    WordsSplit(s[..k], s[k + 1..]);
    OneWord(s[..k]);
  }

  lemma ShortReason(code: nat)
    requires ReasonLength(code) == 1
    ensures IsWord(Reason(code))
  {
  }

  lemma TwoPartReason(code: nat)
    requires ReasonLength(code) == 2
    ensures |Reason(code)| > 4 && Reason(code)[3] == ' ' && IsWord(Reason(code)[..3]) && IsWord(Reason(code)[4..])
  {
  }

  lemma ThreePartReason(s: string)
    requires s == Reason(500)
    ensures |s| > 16 && s[8] == ' ' && s[15] == ' ' && IsWord(s[..8]) && IsWord(s[9..][..6]) && IsWord(s[16..])
  {
  }

  lemma LongReasonWords(s: string)
    requires |s| > 16 && s[8] == ' ' && s[15] == ' ' && IsWord(s[..8]) && IsWord(s[9..][..6]) && IsWord(s[16..])
    ensures |Words(s)| == 3
  {
    WordsAt(s, 8);
    WordsAt(s[9..], 6);
    assert s[9..][7..] == s[16..];
    OneWord(s[16..]);
  }

  lemma ReasonWords(code: nat)
    ensures |Words(Reason(code))| == ReasonLength(code)
    ensures ReasonLength(code) == 1 ==> Words(Reason(code)) == [Reason(code)]
  {
    if ReasonLength(code) == 1 {
      ShortReason(code);
      OneWord(Reason(code));
    } else if ReasonLength(code) == 2 {
      TwoPartReason(code);
      WordsAt(Reason(code), 3);
      OneWord(Reason(code)[4..]);
    } else {
      ThreePartReason(Reason(code));
      LongReasonWords(Reason(code));
    }
  }

  /** The words of a printed status line are those of its version, its code, and those of its reason. */
  lemma StatusLineWords(r: Response)
    ensures Words(StatusLine(r)) == Words(r.version) + [Decimal(r.code)] + Words(Reason(r.code))
    ensures |Words(StatusLine(r))| == 3 <==> |Words(r.version)| + ReasonLength(r.code) == 2
  {
    var code, reason := Decimal(r.code), Reason(r.code);
    assert StatusLine(r) == r.version + (" " + (code + (" " + reason)));
    WordsSplit(r.version, code + (" " + reason));
    WordsSplit(code, reason);
    OneWord(code);
    ReasonWords(r.code);
  }

  lemma StatusLineEnds(r: Response)
    ensures StatusLine(r) != [] && StatusLine(r)[|StatusLine(r)| - 1] != '\n'
  {
  }

  // ----- Reading it -----

  function Rest(r: Response): (s: string) {
    PrintHeaders(r.order) + "\r\n" + r.body
  }

  lemma PrintedLines(r: Response)
    ensures Lines(Printed(r)) == Lines(StatusLine(r)) + Lines(Rest(r)) && Lines(StatusLine(r)) != []
  {
    StatusLineEnds(r);
    LinesThen(StatusLine(r), Rest(r));
    LastLine(StatusLine(r));
    assert Printed(r) == StatusLine(r) + ("\r\n" + Rest(r));
  }

  /** What lines in front do to the loop: an empty one among them ends the headers, or it goes on behind. */
  function Continued(lower: string -> string, p: (Headers, nat), n: nat, b: seq<string>): (r: (Headers, nat)) {
    if p.1 < n then p else (HeaderLoop(lower, b, p.0).0, p.1 + HeaderLoop(lower, b, p.0).1)
  }

  lemma ConsContinued(lower: string -> string, line: string, a: seq<string>, b: seq<string>, h: Headers)
    requires line != ""
    requires var h1 := WithLine(lower, h, line);
             HeaderLoop(lower, a + b, h1) == Continued(lower, HeaderLoop(lower, a, h1), |a|, b)
    ensures HeaderLoop(lower, [line] + (a + b), h) == Continued(lower, HeaderLoop(lower, [line] + a, h), |a| + 1, b)
  {
    LoopStep(lower, line, a, h);
    LoopStep(lower, line, a + b, h);
  }

  lemma {:induction false} LoopAppend(lower: string -> string, a: seq<string>, b: seq<string>, h: Headers)
    ensures HeaderLoop(lower, a + b, h) == Continued(lower, HeaderLoop(lower, a, h), |a|, b)
    decreases a
  {
    if a == [] {
      assert a + b == b;
    } else if a[0] != "" {
      LoopAppend(lower, a[1..], b, WithLine(lower, h, a[0]));
      ConsContinued(lower, a[0], a[1..], b, h);
      Associate([a[0]], a[1..], b);
      assert a == [a[0]] + a[1..];
    }
  }

  /** The headers that the lines behind the first of `pre` make, and where an empty one of them ends the
      headers. In a printed response `pre` is the status line: more than one line only if the version
      holds an LF. */
  function Front(lower: string -> string, pre: seq<string>): (p: (Headers, nat)) {
    if pre == [] then (map[], 0) else HeaderLoop(lower, pre[1..], map[])
  }

  /** No line behind the first is empty. */
  predicate Passes(pre: seq<string>) {
    forall i :: 0 < i < |pre| ==> pre[i] != ""
  }

  /** The first empty one of some lines, or their number. */
  function FirstEmpty(ls: seq<string>): (k: nat)
    ensures k <= |ls| && (forall i :: 0 <= i < k ==> ls[i] != "") && (k < |ls| ==> ls[k] == "")
  {
    if ls == [] || ls[0] == "" then 0 else 1 + FirstEmpty(ls[1..])
  }

  /** The header loop stops there, whatever the lines in front say. */
  lemma {:induction false} LoopStops(lower: string -> string, ls: seq<string>, h: Headers)
    ensures HeaderLoop(lower, ls, h).1 == FirstEmpty(ls)
    decreases ls
  {
    if ls != [] && ls[0] != "" { LoopStops(lower, ls[1..], WithLine(lower, h, ls[0])); }
  }

  /** So it gets past all lines exactly if none behind the first is empty. */
  lemma PassesIff(lower: string -> string, pre: seq<string>)
    requires pre != []
    ensures Passes(pre) <==> Front(lower, pre).1 + 1 == |pre|
  {
    var ls := pre[1..];
    LoopStops(lower, ls, map[]);
    assert forall i :: 0 < i < |pre| ==> pre[i] == ls[i - 1];
    assert FirstEmpty(ls) < |ls| ==> pre[FirstEmpty(ls) + 1] == "";
  }

  ghost predicate IsLines(ls: seq<string>) {
    forall i :: 0 <= i < |ls| ==> '\n' !in ls[i]
  }

  lemma LinesAreLines(s: string)
    ensures IsLines(Lines(s))
  {
    forall i | 0 <= i < |Lines(s)| ensures '\n' !in Lines(s)[i] { LinesHaveNoLf(s, i); }
  }

  lemma FrontGood(lower: string -> string, pre: seq<string>)
    requires CaseMapping(lower) && IsLines(pre)
    ensures AllGood(lower, Front(lower, pre).0)
  {
    if pre != [] { ParsedGood(lower, pre[1..], map[]); }
  }

  /** What `parse` makes of lines that begin with `pre`. */
  lemma ParsedFrom(lower: string -> string, upper: string -> string, pre: seq<string>, rest: seq<string>)
    requires pre != []
    ensures var p := Continued(lower, Front(lower, pre), |pre| - 1, rest);
            ParseLines(lower, upper, pre + rest) == Assembled(upper, Words(pre[0]), p.0, BodyFrom(pre + rest, p.1))
  {
    assert (pre + rest)[1..] == pre[1..] + rest;
    LoopAppend(lower, pre[1..], rest, map[]);
  }

  /** Whether the headers come back behind such lines. */
  lemma HeadersBehind(lower: string -> string, pre: seq<string>, order: seq<(string, string)>, h: Headers, body: string)
    requires CaseMapping(lower) && Lists(order, h) && pre != [] && IsLines(pre)
    ensures var rest := Lines(PrintHeaders(order) + "\r\n" + body);
            Continued(lower, Front(lower, pre), |pre| - 1, rest).0 == h <==>
            if Passes(pre) then AllGood(lower, h) && Front(lower, pre).0.Keys <= h.Keys
            else Front(lower, pre).0 == h
  {
    FrontGood(lower, pre);
    PassesIff(lower, pre);
    HeadersRoundTripFrom(lower, order, h, body, Front(lower, pre).0);
  }

  /** `parse` accepts a printed response if and only if its first line has three words, and returns them in
      their places; and it returns the headers if and only if they are all good and cover those made by
      the version, or if the version ends the headers and has made just these. */
  lemma ResponseRoundTripIff(lower: string -> string, upper: string -> string, r: Response, h: Headers)
    requires CaseMapping(lower) && Lists(r.order, h)
    ensures Lines(StatusLine(r)) != []
    ensures var q, pre := ParseText(lower, upper, Valid(Printed(r))), Lines(StatusLine(r));
            var ws := Words(pre[0]);
            && (q.Ok? <==> |ws| == 3)
            && (q.Ok? ==>
                && q.value.method_ == MethodOf(upper, ws[0]) && q.value.path == ws[1] && q.value.version == ws[2]
                && (q.value.headers == h <==>
                    if Passes(pre) then AllGood(lower, h) && Front(lower, pre).0.Keys <= h.Keys
                    else Front(lower, pre).0 == h))
  {
    var pre := Lines(StatusLine(r));
    PrintedLines(r);
    LinesAreLines(StatusLine(r));
    ParsedFrom(lower, upper, pre, Lines(Rest(r)));
    HeadersBehind(lower, pre, r.order, h, r.body);
  }

  /** For a version without LF: accepted exactly if version and reason have two words together, one each
      unless the version is blank; and all headers come back exactly if they are good. */
  lemma OneLineVersion(lower: string -> string, upper: string -> string, r: Response, h: Headers)
    requires CaseMapping(lower) && Lists(r.order, h) && '\n' !in r.version
    ensures var q := ParseText(lower, upper, Valid(Printed(r)));
            && (q.Ok? <==> |Words(r.version)| + ReasonLength(r.code) == 2)
            && (q.Ok? ==> (q.value.headers == h <==> AllGood(lower, h)))
            && (q.Ok? && IsWord(r.version) ==>
                && q.value.method_ == MethodOf(upper, r.version)
                && NumberOf(q.value.path) == r.code && q.value.version == Reason(r.code))
  {
    OneStatusLine(r);
    assert [StatusLine(r)][1..] == [];
    ResponseRoundTripIff(lower, upper, r, h);
    StatusLineWords(r);
    DecimalRoundTrip(r.code);
    ReasonWords(r.code);
    if IsWord(r.version) { OneWord(r.version); }
  }

  lemma NoLfInCode(r: Response)
    ensures '\n' !in Decimal(r.code) && '\n' !in Reason(r.code)
  {
  }

  lemma OneStatusLine(r: Response)
    requires '\n' !in r.version
    ensures Lines(StatusLine(r)) == [StatusLine(r)]
  {
    NoLfInCode(r);
    var s := StatusLine(r);
    assert '\n' !in s;
    assert s[..IndexOf(s, '\n')] == s;
  }
}
