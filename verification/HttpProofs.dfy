/** Printing and parsing HTTP messages: exactly which headers, bodies and statuses survive. */
module HttpProofs {
  import opened HttpText
  import opened Http

  // ----- Trimming -----

  lemma {:induction false} TrimStartIsSuffix(s: string)
    ensures |TrimStart(s)| <= |s| && TrimStart(s) == s[|s| - |TrimStart(s)|..]
  {
    if s != [] && White(s[0]) { TrimStartIsSuffix(s[1..]); }
  }

  lemma TrimMembers(s: string, c: char)
    requires c in Trim(s)
    ensures c in s
  {
    TrimStartIsSuffix(s);
    assert c in TrimStart(s);
  }

  /** A trimmed text stays as it is, and so it has no white space at its ends. */
  lemma TrimTwice(s: string)
    ensures Trim(Trim(s)) == Trim(s)
  {
    var t := Trim(s);
    if t != [] {
      assert t[0] == TrimStart(s)[0];
    }
  }

  lemma TrimSpace(v: string)
    requires Trim(v) == v
    ensures Trim(" " + v) == v
  {
    assert (" " + v)[1..] == v;
    assert TrimStart(" " + v) == TrimStart(v);
  }

  // ----- Headers -----

  predicate Plain(s: string) {
    ':' !in s && '\n' !in s
  }

  /** What every case mapping of Unicode does: it is idempotent, makes no colon or LF, and leaves the
      ends of a trimmed text without white space. */
  ghost predicate CaseMapping(lower: string -> string) {
    && (forall s :: lower(lower(s)) == lower(s))
    && (forall s :: Plain(s) ==> Plain(lower(s)))
    && (forall s :: Trim(s) == s ==> Trim(lower(s)) == lower(s))
  }

  predicate GoodName(lower: string -> string, n: string) {
    Plain(n) && Trim(n) == n && lower(n) == n
  }

  predicate GoodValue(v: string) {
    '\n' !in v && Trim(v) == v
  }

  predicate GoodHeader(lower: string -> string, e: (string, string)) {
    GoodName(lower, e.0) && GoodValue(e.1)
  }

  predicate AllGood(lower: string -> string, h: Headers) {
    forall n :: n in h ==> GoodName(lower, n) && GoodValue(h[n])
  }

  /** Whatever is parsed is good. */
  lemma ParsedLineGood(lower: string -> string, h: Headers, line: string)
    requires CaseMapping(lower) && AllGood(lower, h) && '\n' !in line
    ensures AllGood(lower, WithLine(lower, h, line))
  {
    var k := IndexOf(line, ':');
    if k < |line| {
      var name, value := line[..k], line[k + 1..];
      forall c | c in Trim(name) ensures c in name { TrimMembers(name, c); }
      forall c | c in Trim(value) ensures c in value { TrimMembers(value, c); }
      assert forall c :: c in name || c in value ==> c in line;
      TrimTwice(name);
      TrimTwice(value);
      assert Plain(Trim(name));
    }
  }

  lemma {:induction false} ParsedGood(lower: string -> string, ls: seq<string>, h: Headers)
    requires CaseMapping(lower) && AllGood(lower, h)
    requires forall i :: 0 <= i < |ls| ==> '\n' !in ls[i]
    ensures AllGood(lower, HeaderLoop(lower, ls, h).0)
    decreases ls
  {
    if ls != [] && ls[0] != "" {
      ParsedLineGood(lower, h, ls[0]);
      ParsedGood(lower, ls[1..], WithLine(lower, h, ls[0]));
    }
  }

  /** Where a printed header is cut. */
  lemma HeaderCut(e: (string, string))
    requires ':' !in e.0
    ensures var line := HeaderLine(e);
            IndexOf(line, ':') == |e.0| < |line| && line[..|e.0|] == e.0 && line[|e.0| + 1..] == " " + e.1
  {
    assert HeaderLine(e) == e.0 + (": " + e.1);
    IndexOfPrefix(e.0, ": " + e.1, ':');
  }

  /** A printed good header is read back as it was. */
  lemma LineRoundTrip(lower: string -> string, h: Headers, e: (string, string))
    requires GoodHeader(lower, e)
    ensures WithLine(lower, h, HeaderLine(e)) == h[e.0 := e.1]
  {
    HeaderCut(e);
    TrimSpace(e.1);
  }

  lemma Regroup(a: string, b: string, c: string, d: string, e: string)
    ensures a + b + c + d + e == a + b + (c + d + e)
  {
  }

  function Collected(h: Headers, es: seq<(string, string)>): (r: Headers)
    decreases es
  {
    if es == [] then h else Collected(h[es[0].0 := es[0].1], es[1..])
  }

  /** The text behind the first header. */
  lemma NextHeader(es: seq<(string, string)>, body: string)
    requires es != [] && '\n' !in HeaderLine(es[0])
    ensures Lines(PrintHeaders(es) + "\r\n" + body)
         == [HeaderLine(es[0])] + Lines(PrintHeaders(es[1..]) + "\r\n" + body)
  {
    var rest := PrintHeaders(es[1..]) + "\r\n" + body;
    LinesCons(HeaderLine(es[0]), rest);
    Regroup(HeaderLine(es[0]), "\r\n", PrintHeaders(es[1..]), "\r\n", body);
  }

  lemma NoHeader(body: string)
    ensures Lines(PrintHeaders([]) + "\r\n" + body) == [""] + Lines(body)
  {
    LinesCons("", body);
    assert PrintHeaders([]) + "\r\n" + body == "" + "\r\n" + body;
  }

  lemma GoodLine(lower: string -> string, e: (string, string))
    requires GoodHeader(lower, e)
    ensures '\n' !in HeaderLine(e) && HeaderLine(e) != ""
  {
  }

  lemma LoopStep(lower: string -> string, line: string, rest: seq<string>, h: Headers)
    requires line != ""
    ensures var r := HeaderLoop(lower, rest, WithLine(lower, h, line));
            HeaderLoop(lower, [line] + rest, h) == (r.0, r.1 + 1)
  {
    assert ([line] + rest)[1..] == rest;
  }

  /** Good headers are all read back, and the loop stops at the empty line behind them. */
  lemma {:induction false} HeadersRoundTrip(lower: string -> string, es: seq<(string, string)>,
                                            body: string, h: Headers)
    requires forall i :: 0 <= i < |es| ==> GoodHeader(lower, es[i])
    ensures HeaderLoop(lower, Lines(PrintHeaders(es) + "\r\n" + body), h) == (Collected(h, es), |es|)
    decreases es
  {
    if es == [] {
      NoHeader(body);
    } else {
      HeadersRoundTrip(lower, es[1..], body, h[es[0].0 := es[0].1]);
      GoodLine(lower, es[0]);
      NextHeader(es, body);
      LineRoundTrip(lower, h, es[0]);
      LoopStep(lower, HeaderLine(es[0]), Lines(PrintHeaders(es[1..]) + "\r\n" + body), h);
    }
  }

  /** `order` lists the header map, each header once. */
  ghost predicate Lists(order: seq<(string, string)>, h: Headers) {
    && (forall i, j :: 0 <= i < j < |order| ==> order[i].0 != order[j].0)
    && (forall n :: n in h <==> exists i :: 0 <= i < |order| && order[i].0 == n)
    && (forall i :: 0 <= i < |order| ==> order[i].0 in h && h[order[i].0] == order[i].1)
  }

  lemma {:induction false} CollectedAt(h: Headers, es: seq<(string, string)>, n: string)
    requires forall i, j :: 0 <= i < j < |es| ==> es[i].0 != es[j].0
    ensures (forall i :: 0 <= i < |es| ==> es[i].0 != n) ==>
            (n in Collected(h, es) <==> n in h) && (n in h ==> Collected(h, es)[n] == h[n])
    ensures forall i :: 0 <= i < |es| && es[i].0 == n ==>
            n in Collected(h, es) && Collected(h, es)[n] == es[i].1
    decreases es
  {
    if es != [] {
      CollectedAt(h[es[0].0 := es[0].1], es[1..], n);
      assert forall i :: 0 < i < |es| ==> es[i] == es[1..][i - 1];
      assert forall i :: 0 <= i < |es| - 1 ==> es[1..][i] == es[i + 1];
    }
  }

  /** Good headers collected on top of `h0` give the listed map exactly if it covers `h0`. */
  lemma CollectedIsMapIff(h0: Headers, es: seq<(string, string)>, h: Headers)
    requires Lists(es, h)
    ensures Collected(h0, es) == h <==> h0.Keys <= h.Keys
  {
    var c := Collected(h0, es);
    forall n ensures n in h ==> n in c && c[n] == h[n]
             ensures n !in h ==> (n in c <==> n in h0) {
      CollectedAt(h0, es, n);
    }
    if h0.Keys <= h.Keys {
      assert forall n :: n in c <==> n in h;
    } else {
      var n :| n in h0 && n !in h;
      assert n in c;
    }
  }

  /** The printed headers, read on top of good ones, give their own map, in every iteration order, if and
      only if they are all good and cover those that were there. */
  lemma HeadersRoundTripFrom(lower: string -> string, order: seq<(string, string)>, h: Headers, body: string,
                             h0: Headers)
    requires CaseMapping(lower) && Lists(order, h) && AllGood(lower, h0)
    ensures HeaderLoop(lower, Lines(PrintHeaders(order) + "\r\n" + body), h0).0 == h
            <==> AllGood(lower, h) && h0.Keys <= h.Keys
  {
    var ls := Lines(PrintHeaders(order) + "\r\n" + body);
    if AllGood(lower, h) {
      HeadersRoundTrip(lower, order, body, h0);
      CollectedIsMapIff(h0, order, h);
    } else {
      forall i | 0 <= i < |ls| ensures '\n' !in ls[i] {
        LinesHaveNoLf(PrintHeaders(order) + "\r\n" + body, i);
      }
      ParsedGood(lower, ls, h0);
    }
  }

  /** The headers of a message in print are read back as the same map, in every iteration order, if
      and only if every name is lower-case, trimmed and free of colons and LF, and every value is
      trimmed and free of LF. */
  lemma HeadersRoundTripIff(lower: string -> string, order: seq<(string, string)>, h: Headers, body: string)
    requires CaseMapping(lower) && Lists(order, h)
    ensures HeaderLoop(lower, Lines(PrintHeaders(order) + "\r\n" + body), map[]).0 == h
            <==> AllGood(lower, h)
  {
    HeadersRoundTripFrom(lower, order, h, body, map[]);
  }

  /** A method is printed and read back as it was exactly if it is one of the known ones, or its name
      is none of theirs in any case. */
  lemma MethodRoundTripIff(upper: string -> string, m: Method)
    requires forall k: Method :: !k.Other? ==> upper(Show(k)) == Show(k)
    ensures MethodOf(upper, Show(m)) == m <==>
            (m.Other? ==> upper(m.name) !in {"GET", "POST", "PUT", "DELETE", "HEAD", "OPTIONS", "PATCH"})
  {
    assert upper(Show(GET)) == "GET" && upper(Show(POST)) == "POST" && upper(Show(PUT)) == "PUT";
  }
}
