/** What a parsed request holds, read off its lines: the three words of the first one, and for every header the
    last line that names it. */
module HttpRequests {
  import opened HttpText
  import opened Http
  import opened HttpMessages

  // ----- The first line -----

  /** When parsing fails, and with which error; otherwise the first line is the method, the path and the
      version. */
  lemma ParsedFirstLine(lower: string -> string, upper: string -> string, t: Text)
    ensures match ParseText(lower, upper, t)
            case Err(InvalidUtf8) => t.Invalid?
            case Err(EmptyRequest) => t == Valid("")
            case Err(InvalidRequestLine) => t.Valid? && Lines(t.text) != [] && |Words(Lines(t.text)[0])| != 3
            case Ok(q) =>
              && t.Valid? && Lines(t.text) != []
              && exists m :: Words(Lines(t.text)[0]) == [m, q.path, q.version] && q.method_ == MethodOf(upper, m)
  {
    match ParseText(lower, upper, t)
    case Ok(q) =>
      var ws := Words(Lines(t.text)[0]);
      assert ws == [ws[0], q.path, q.version];
    case _ =>
  }

  // ----- The headers -----

  /** The first colon of a line is at `k`. */
  predicate CutAt(line: string, k: nat) {
    k < |line| && line[k] == ':' && ':' !in line[..k]
  }

  predicate NamesAt(lower: string -> string, line: string, n: string, k: nat) {
    CutAt(line, k) && lower(Trim(line[..k])) == n
  }

  /** The line names header `n`. */
  ghost predicate Names(lower: string -> string, line: string, n: string) {
    exists k: nat :: NamesAt(lower, line, n, k)
  }

  /** It names `n` and gives it the value `v`. */
  ghost predicate Defines(lower: string -> string, line: string, n: string, v: string) {
    exists k: nat :: NamesAt(lower, line, n, k) && Trim(line[k + 1..]) == v
  }

  lemma CutIsFirst(line: string, k: nat)
    ensures CutAt(line, k) <==> k == IndexOf(line, ':') < |line|
  {
    var f := IndexOf(line, ':');
    if CutAt(line, k) {
      assert forall i :: 0 <= i < k ==> line[i] in line[..k];
      assert forall i :: 0 <= i < f ==> line[i] in line[..f];
    }
  }

  predicate Holds(h: Headers, n: string, v: string) {
    n in h && h[n] == v
  }

  lemma NamesByFirst(lower: string -> string, line: string, n: string)
    ensures var f := IndexOf(line, ':');
            Names(lower, line, n) <==> f < |line| && lower(Trim(line[..f])) == n
  {
    hide Trim, IndexOf;
    var f := IndexOf(line, ':');
    CutIsFirst(line, f);
    if k: nat :| NamesAt(lower, line, n, k) { CutIsFirst(line, k); }
    assert NamesAt(lower, line, n, f) <==> f < |line| && lower(Trim(line[..f])) == n;
  }

  lemma DefinesByFirst(lower: string -> string, line: string, n: string, v: string)
    ensures var f := IndexOf(line, ':');
            Defines(lower, line, n, v) <==>
            f < |line| && lower(Trim(line[..f])) == n && Trim(line[f + 1..]) == v
  {
    hide Trim, IndexOf;
    var f := IndexOf(line, ':');
    CutIsFirst(line, f);
    if k: nat :| NamesAt(lower, line, n, k) && Trim(line[k + 1..]) == v { CutIsFirst(line, k); }
    assert NamesAt(lower, line, n, f) <==> f < |line| && lower(Trim(line[..f])) == n;
  }

  lemma LineDefines(lower: string -> string, h: Headers, line: string, n: string, v: string)
    ensures Holds(WithLine(lower, h, line), n, v) <==>
            Defines(lower, line, n, v) || (Holds(h, n, v) && !Names(lower, line, n))
  {
    hide Names, Defines;
    NamesByFirst(lower, line, n);
    DefinesByFirst(lower, line, n, v);
  }

  /** Line `i` gives `n` the value `v`, and no later one in front of line `k` names it. */
  ghost predicate LastToDefine(lower: string -> string, ls: seq<string>, k: nat, i: nat, n: string, v: string) {
    && i < k <= |ls| && Defines(lower, ls[i], n, v)
    && forall j :: i < j < k ==> !Names(lower, ls[j], n)
  }

  ghost predicate Unnamed(lower: string -> string, ls: seq<string>, k: nat, n: string) {
    k <= |ls| && forall j :: 0 <= j < k ==> !Names(lower, ls[j], n)
  }

  lemma LastLater(lower: string -> string, ls: seq<string>, k: nat, i: nat, n: string, v: string)
    requires ls != [] && k < |ls|
    ensures LastToDefine(lower, ls, k + 1, i + 1, n, v) <==> LastToDefine(lower, ls[1..], k, i, n, v)
  {
    assert forall j :: 0 <= j < |ls| - 1 ==> ls[1..][j] == ls[j + 1];
    if LastToDefine(lower, ls[1..], k, i, n, v) {
      forall j | i + 1 < j < k + 1 ensures !Names(lower, ls[j], n) { assert ls[j] == ls[1..][j - 1]; }
    }
  }

  lemma UnnamedLater(lower: string -> string, ls: seq<string>, k: nat, n: string)
    requires ls != [] && k < |ls|
    ensures Unnamed(lower, ls, k + 1, n) <==> !Names(lower, ls[0], n) && Unnamed(lower, ls[1..], k, n)
  {
    assert forall j :: 0 <= j < |ls| - 1 ==> ls[1..][j] == ls[j + 1];
    if !Names(lower, ls[0], n) && Unnamed(lower, ls[1..], k, n) {
      forall j | 0 <= j < k + 1 ensures !Names(lower, ls[j], n) {
        if j > 0 { assert ls[j] == ls[1..][j - 1]; }
      }
    }
  }

  ghost predicate DefinedIn(lower: string -> string, ls: seq<string>, k: nat, n: string, v: string) {
    exists i :: LastToDefine(lower, ls, k, i, n, v)
  }

  lemma DefinedLater(lower: string -> string, ls: seq<string>, k: nat, n: string, v: string)
    requires ls != [] && k < |ls|
    ensures DefinedIn(lower, ls, k + 1, n, v) <==>
            || DefinedIn(lower, ls[1..], k, n, v)
            || (Defines(lower, ls[0], n, v) && Unnamed(lower, ls[1..], k, n))
  {
    assert forall j :: 0 <= j < |ls| - 1 ==> ls[1..][j] == ls[j + 1];
    if DefinedIn(lower, ls, k + 1, n, v) {
      var i: nat :| LastToDefine(lower, ls, k + 1, i, n, v);
      if i > 0 { LastLater(lower, ls, k, i - 1, n, v); }
    }
    if DefinedIn(lower, ls[1..], k, n, v) {
      var i: nat :| LastToDefine(lower, ls[1..], k, i, n, v);
      LastLater(lower, ls, k, i, n, v);
    }
    if Defines(lower, ls[0], n, v) && Unnamed(lower, ls[1..], k, n) {
      forall j | 0 < j < k + 1 ensures !Names(lower, ls[j], n) { assert ls[j] == ls[1..][j - 1]; }
      assert LastToDefine(lower, ls, k + 1, 0, n, v);
    }
  }

  lemma NothingBefore(lower: string -> string, ls: seq<string>, n: string, v: string)
    ensures !DefinedIn(lower, ls, 0, n, v) && Unnamed(lower, ls, 0, n)
  {
  }

  lemma {:induction false} LoopDefines(lower: string -> string, ls: seq<string>, h: Headers, n: string, v: string)
    ensures var k := FirstEmpty(ls);
            Holds(HeaderLoop(lower, ls, h).0, n, v) <==>
            DefinedIn(lower, ls, k, n, v) || (Holds(h, n, v) && Unnamed(lower, ls, k, n))
    decreases ls
  {
    hide DefinedIn, Unnamed, Defines, Names, WithLine;
    if ls == [] || ls[0] == "" {
      NothingBefore(lower, ls, n, v);
    } else {
      var k := FirstEmpty(ls[1..]);
      LoopDefines(lower, ls[1..], WithLine(lower, h, ls[0]), n, v);
      LineDefines(lower, h, ls[0], n, v);
      DefinedLater(lower, ls, k, n, v);
      UnnamedLater(lower, ls, k, n);
    }
  }

  /** The headers of a request are exactly those its lines up to the first empty one give: each has the value
      of the last line that names it, and a line without a colon gives none. */
  lemma HeadersAreDefined(lower: string -> string, upper: string -> string, t: Text, n: string, v: string)
    requires t.Valid? && ParseText(lower, upper, t).Ok?
    ensures var ls := Lines(t.text);
            && ls != []
            && (Holds(ParseText(lower, upper, t).value.headers, n, v) <==>
                DefinedIn(lower, ls[1..], FirstEmpty(ls[1..]), n, v))
  {
    LoopDefines(lower, Lines(t.text)[1..], map[], n, v);
  }

  // ----- Names and phrases -----

  /** The named methods are read by their names, in any case that the mapping folds; all others are kept. */
  lemma MethodNames(upper: string -> string, s: string)
    ensures var m := MethodOf(upper, s);
            if upper(s) in {"GET", "POST", "PUT", "DELETE", "HEAD", "OPTIONS", "PATCH"}
            then !m.Other? && Show(m) == upper(s) else m == Other(s)
  {
  }

  lemma Digits(code: nat, s: string)
    requires 100 <= code < 1000 && |s| == 3 && s[0] == '0' + (code / 100) as char
    requires s[1] == '0' + (code / 10 % 10) as char && s[2] == '0' + (code % 10) as char
    ensures Decimal(code) == s
  {
    assert Decimal(code / 100) == [s[0]];
    assert Decimal(code / 10) == [s[0], s[1]];
  }

  /** What a status line says of a code: the codes with a phrase (section 15 of RFC 9110), and all others. */
  lemma StatusPhrases(r: Response)
    ensures StatusLine(r) ==
            match r.code
            case 200 => r.version + " " + "200" + " " + "OK"
            case 400 => r.version + " " + "400" + " " + "Bad Request"
            case 404 => r.version + " " + "404" + " " + "Not Found"
            case 500 => r.version + " " + "500" + " " + "Internal Server Error"
            case _ => r.version + " " + Decimal(r.code) + " " + "Unknown"
  {
    hide Decimal;
    match r.code
    case 200 => Digits(r.code, "200");
    case 400 => Digits(r.code, "400");
    case 404 => Digits(r.code, "404");
    case 500 => Digits(r.code, "500");
    case _ =>
  }
}
