/** Exactly which bodies come back when a printed response is parsed. */
module HttpBodies {
  import opened HttpText
  import opened Http
  import opened HttpProofs
  import opened HttpMessages

  /** All that is printed before the empty line in front of the body. */
  function Head(r: Response): (s: string) {
    StatusLine(r) + "\r\n" + PrintHeaders(r.order)
  }

  lemma {:induction false} HeadersEnd(es: seq<(string, string)>)
    requires es != []
    ensures PrintHeaders(es) != [] && PrintHeaders(es)[|PrintHeaders(es)| - 1] == '\n'
  {
    if |es| > 1 { HeadersEnd(es[1..]); }
  }

  lemma HeadEnds(r: Response)
    ensures Head(r) != [] && Head(r)[|Head(r)| - 1] == '\n'
  {
    if r.order != [] { HeadersEnd(r.order); }
  }

  lemma {:induction false} LinesOfText(s: string)
    requires s != []
    ensures Lines(s) != []
  {
  }

  /** The lines of the message: those of its head, an empty one, and those of the body. */
  lemma HeadLines(r: Response)
    ensures Lines(Head(r)) != [] && Lines(Printed(r)) == Lines(Head(r)) + ([""] + Lines(r.body))
  {
    HeadEnds(r);
    LinesOfText(Head(r));
    LinesAfterBreak(Head(r), "" + "\r\n" + r.body);
    LinesCons("", r.body);
    PrintedIsHead(r);
  }

  lemma PrintedIsHead(r: Response)
    ensures Printed(r) == Head(r) + ("" + "\r\n" + r.body)
  {
  }

  // ----- What is returned -----

  /** Where the header loop stops, if the lines of the head are `pre`. */
  function StopOf(pre: seq<string>): (k: nat)
    ensures k <= |pre|
  {
    if pre == [] then 0 else FirstEmpty(pre[1..])
  }

  lemma StopIs(lower: string -> string, pre: seq<string>, rest: seq<string>)
    requires pre != []
    ensures Continued(lower, Front(lower, pre), |pre| - 1, [""] + rest).1 == StopOf(pre)
  {
    LoopStops(lower, pre[1..], map[]);
  }

  lemma ParsedBody(lower: string -> string, upper: string -> string, r: Response)
    ensures var q, pre := ParseText(lower, upper, Valid(Printed(r))), Lines(Head(r));
            q.Ok? ==> q.value.body == BodyFrom(pre + ([""] + Lines(r.body)), StopOf(pre))
  {
    HeadLines(r);
    ParsedFrom(lower, upper, Lines(Head(r)), [""] + Lines(r.body));
    StopIs(lower, Lines(Head(r)), Lines(r.body));
  }

  // ----- No empty line in the head -----

  lemma DropPrefix(a: seq<string>, b: seq<string>, n: nat)
    requires n <= |b|
    ensures (a + b)[|a| + n..] == b[n..]
  {
  }

  lemma PassedBody(pre: seq<string>, body: string)
    requires pre != [] && StopOf(pre) + 1 == |pre|
    ensures BodyFrom(pre + ([""] + Lines(body)), StopOf(pre)) == body <==> LineStable(body)
  {
    DropPrefix(pre, [""] + Lines(body), 1);
    assert ([""] + Lines(body))[1..] == Lines(body);
    JoinLinesIff(body);
  }

  // ----- One at its end -----

  /** Nothing but LF. */
  predicate OnlyBreaks(s: string) {
    forall i :: 0 <= i < |s| ==> s[i] == '\n'
  }

  lemma LinesOfBreak(tail: string)
    ensures Lines("\n" + tail) == [""] + Lines(tail)
  {
    LineThen("", tail);
    assert "" + ("\n" + tail) == "\n" + tail;
  }

  /** The lines of a text behind one more empty line give it back exactly if it is nothing but LF. */
  lemma {:induction false} ShiftedLinesIff(s: string)
    ensures Join([""] + Lines(s)) == s <==> OnlyBreaks(s)
  {
    JoinCons("", Lines(s));
    if s != [] {
      LinesOfText(s);
      var tail := s[1..];
      if s[0] == '\n' {
        assert s == "\n" + tail;
        LinesOfBreak(tail);
        ShiftedLinesIff(tail);
        BreakFirst(Join(Lines(s)), tail);
      } else {
        assert ("" + "\n" + Join(Lines(s)))[0] == '\n';
      }
    }
  }

  lemma BreakFirst(a: string, b: string)
    ensures "" + "\n" + a == "\n" + b <==> a == b
    ensures OnlyBreaks("\n" + b) <==> OnlyBreaks(b)
  {
    assert ("" + "\n" + a)[1..] == a && ("\n" + b)[1..] == b;
    assert forall i :: 0 <= i < |b| ==> ("\n" + b)[i + 1] == b[i];
  }

  lemma ShiftedBody(pre: seq<string>, body: string)
    requires pre != [] && StopOf(pre) + 2 == |pre|
    ensures BodyFrom(pre + ([""] + Lines(body)), StopOf(pre)) == body <==> OnlyBreaks(body)
  {
    DropPrefix(pre, [""] + Lines(body), 0);
    ShiftedLinesIff(body);
  }

  // ----- One further in front -----

  lemma BehindBlank(pre: seq<string>, rest: seq<string>, k: nat)
    requires k + 2 < |pre| && IsLines(pre) && IsLines(rest)
    ensures IsLines((pre + rest)[k + 2..]) && |(pre + rest)[k + 2..]| > |rest|
  {
  }

  lemma ManyLines(ls: seq<string>, body: string)
    requires IsLines(ls) && |ls| >= |Lines(body)| + 2
    ensures Join(ls) != body
  {
    TooManyLines(ls, body);
  }

  lemma LostBody(pre: seq<string>, body: string)
    requires pre != [] && StopOf(pre) + 2 < |pre| && IsLines(pre)
    ensures BodyFrom(pre + ([""] + Lines(body)), StopOf(pre)) != body
  {
    LinesAreLines(body);
    BehindBlank(pre, [""] + Lines(body), StopOf(pre));
    ManyLines((pre + ([""] + Lines(body)))[StopOf(pre) + 2..], body);
  }

  // ----- All responses -----

  predicate Returned(pre: seq<string>, body: string)
    requires pre != []
  {
    if Passes(pre) then LineStable(body) else Passes(pre[..|pre| - 1]) && OnlyBreaks(body)
  }

  /** For every response that is accepted: if no line of its head behind the first is empty, the body comes
      back if and only if it has no CR LF and does not end in LF; if only the last one is, if and only if
      it is nothing but LF; and otherwise it does not. */
  lemma BodyRoundTripIff(lower: string -> string, upper: string -> string, r: Response)
    ensures var q, pre := ParseText(lower, upper, Valid(Printed(r))), Lines(Head(r));
            && pre != []
            && (q.Ok? ==> (q.value.body == r.body <==> Returned(pre, r.body)))
  {
    HeadLines(r);
    LinesAreLines(Head(r));
    ParsedBody(lower, upper, r);
    BodyIff(Lines(Head(r)), r.body);
  }

  lemma BodyIff(pre: seq<string>, body: string)
    requires pre != [] && IsLines(pre)
    ensures BodyFrom(pre + ([""] + Lines(body)), StopOf(pre)) == body <==> Returned(pre, body)
  {
    StopsIff(pre);
    if StopOf(pre) + 1 == |pre| {
      PassedBody(pre, body);
    } else if StopOf(pre) + 2 == |pre| {
      ShiftedBody(pre, body);
    } else {
      LostBody(pre, body);
    }
  }

  lemma StopsIff(pre: seq<string>)
    requires pre != []
    ensures StopOf(pre) + 1 <= |pre|
    ensures StopOf(pre) + 1 == |pre| <==> Passes(pre)
    ensures StopOf(pre) + 2 == |pre| <==> !Passes(pre) && Passes(pre[..|pre| - 1])
  {
    var ls, k := pre[1..], StopOf(pre);
    assert forall i :: 0 < i < |pre| ==> pre[i] == ls[i - 1];
    if k < |ls| { assert pre[k + 1] == ""; }
    if k + 2 < |pre| { assert pre[..|pre| - 1][k + 1] == ""; }
  }

  /** For a version without LF and good headers no line of the head is empty, so the first case holds. */
  lemma GoodHeadPasses(lower: string -> string, r: Response)
    requires '\n' !in r.version && forall i :: 0 <= i < |r.order| ==> GoodHeader(lower, r.order[i])
    ensures Passes(Lines(Head(r)))
  {
    StatusLineHasNoLf(r);
    LinesCons(StatusLine(r), PrintHeaders(r.order));
    GoodLines(lower, r.order);
  }

  lemma StatusLineHasNoLf(r: Response)
    requires '\n' !in r.version
    ensures '\n' !in StatusLine(r)
  {
    NoLfInCode(r);
  }

  lemma {:induction false} GoodLines(lower: string -> string, es: seq<(string, string)>)
    requires forall i :: 0 <= i < |es| ==> GoodHeader(lower, es[i])
    ensures forall i :: 0 <= i < |Lines(PrintHeaders(es))| ==> Lines(PrintHeaders(es))[i] != ""
    decreases es
  {
    if es != [] {
      GoodLine(lower, es[0]);
      LinesCons(HeaderLine(es[0]), PrintHeaders(es[1..]));
      GoodLines(lower, es[1..]);
    }
  }
}
