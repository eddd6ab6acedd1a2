/** Requests and responses, and how one is parsed and the other printed (`src/http.rs`). Texts are
    decoded UTF-8; the Unicode case mappings are parameters. */
module Http {
  import opened HttpText
  import opened Options

  datatype Method = GET | POST | PUT | DELETE | HEAD | OPTIONS | PATCH | Other(name: string)

  type Headers = map<string, string>

  datatype Request = Request(method_: Method, path: string, version: string, headers: Headers, body: string)

  /** `order` is the headers in the order the hash map iterates over them. */
  datatype Response = Response(code: nat, version: string, order: seq<(string, string)>, body: string)

  datatype Error = InvalidUtf8 | EmptyRequest | InvalidRequestLine

  datatype Result<+T> = Ok(value: T) | Err(error: Error)

  datatype Text = Valid(text: string) | Invalid

  /** `Display` for a method. */
  function Show(m: Method): (s: string) {
    match m
    case GET => "GET"
    case POST => "POST"
    case PUT => "PUT"
    case DELETE => "DELETE"
    case HEAD => "HEAD"
    case OPTIONS => "OPTIONS"
    case PATCH => "PATCH"
    case Other(name) => name
  }

  function MethodOf(upper: string -> string, s: string): (m: Method) {
    var u := upper(s);
    if u == "GET" then GET
    else if u == "POST" then POST
    else if u == "PUT" then PUT
    else if u == "DELETE" then DELETE
    else if u == "HEAD" then HEAD
    else if u == "OPTIONS" then OPTIONS
    else if u == "PATCH" then PATCH
    else Other(s)
  }

  /** One header line; a line without a colon is skipped. */
  function WithLine(lower: string -> string, h: Headers, line: string): (r: Headers) {
    var k := IndexOf(line, ':');
    if k == |line| then h else h[lower(Trim(line[..k])) := Trim(line[k + 1..])]
  }

  /** The headers up to the first empty line, and where that line is, or the number of lines. */
  function HeaderLoop(lower: string -> string, ls: seq<string>, h: Headers): (r: (Headers, nat))
    ensures r.1 <= |ls| && (r.1 < |ls| ==> ls[r.1] == "")
    decreases ls
  {
    if ls == [] || ls[0] == "" then (h, 0)
    else
      var (all, k) := HeaderLoop(lower, ls[1..], WithLine(lower, h, ls[0]));
      (all, k + 1)
  }

  /** The body, behind the empty line number `k` of the lines behind the first. */
  function BodyFrom(ls: seq<string>, k: nat): (body: string) {
    if k + 1 < |ls| then Join(ls[k + 2..]) else ""
  }

  function Assembled(upper: string -> string, ws: seq<string>, headers: Headers, body: string): (r: Result<Request>) {
    if |ws| != 3 then Err(InvalidRequestLine)
    else Ok(Request(MethodOf(upper, ws[0]), ws[1], ws[2], headers, body))
  }

  function ParseLines(lower: string -> string, upper: string -> string, ls: seq<string>): (r: Result<Request>) {
    if ls == [] then Err(EmptyRequest)
    else
      var (headers, k) := HeaderLoop(lower, ls[1..], map[]);
      Assembled(upper, Words(ls[0]), headers, BodyFrom(ls, k))
  }

  function ParseText(lower: string -> string, upper: string -> string, t: Text): (r: Result<Request>) {
    if t.Invalid? then Err(InvalidUtf8) else ParseLines(lower, upper, Lines(t.text))
  }

  function Decimal(n: nat): (s: string)
    ensures s != [] && forall i :: 0 <= i < |s| ==> '0' <= s[i] <= '9'
  {
    var digit := ['0' + (n % 10) as char];
    if n < 10 then digit else Decimal(n / 10) + digit
  }

  function Reason(code: nat): (s: string) {
    if code == 200 then "OK"
    else if code == 400 then "Bad Request"
    else if code == 404 then "Not Found"
    else if code == 500 then "Internal Server Error"
    else "Unknown"
  }

  function StatusLine(r: Response): (s: string) {
    r.version + " " + Decimal(r.code) + " " + Reason(r.code)
  }

  function HeaderLine(e: (string, string)): (s: string) {
    e.0 + ": " + e.1
  }

  function PrintHeaders(es: seq<(string, string)>): (s: string) {
    if es == [] then "" else HeaderLine(es[0]) + "\r\n" + PrintHeaders(es[1..])
  }

  function Printed(r: Response): (s: string) {
    StatusLine(r) + "\r\n" + (PrintHeaders(r.order) + "\r\n" + r.body)
  }

  lemma {:induction false} PrintAppend(es: seq<(string, string)>, e: (string, string))
    ensures PrintHeaders(es + [e]) == PrintHeaders(es) + HeaderLine(e) + "\r\n"
  {
    if es == [] {
      assert [e][1..] == [];
    } else {
      PrintAppend(es[1..], e);
      assert (es + [e])[1..] == es[1..] + [e];
    }
  }

  // ----- The loops of `parse` and `to_bytes` -----

  /** One header line in the loop. */
  method AddLine(lower: string -> string, headers: Headers, line: string) returns (r: Headers)
    ensures r == WithLine(lower, headers, line)
  {
    r := headers;
    var k := IndexOf(line, ':');
    if k < |line| {
      r := r[lower(Trim(line[..k])) := Trim(line[k + 1..])];
    }
  }

  /** The loop over the header lines; `bodyStart` counts from the first line of the message. */
  method ReadHeaders(lower: string -> string, lines: seq<string>) returns (headers: Headers, bodyStart: Option<nat>)
    ensures headers == HeaderLoop(lower, lines, map[]).0
    ensures var k := HeaderLoop(lower, lines, map[]).1; bodyStart == if k < |lines| then Some(k + 2) else None
  {
    headers, bodyStart := map[], None;
    var left, i := lines, 0;
    while left != [] && bodyStart.None?
      invariant i + |left| == |lines|
      invariant HeaderLoop(lower, left, headers).0 == HeaderLoop(lower, lines, map[]).0
      invariant HeaderLoop(lower, left, headers).1 + i == HeaderLoop(lower, lines, map[]).1
      invariant bodyStart.Some? ==> bodyStart.value == i + 2 && left != [] && left[0] == ""
      decreases left, bodyStart.None?
    {
      var line := left[0];
      if line == "" {
        bodyStart := Some(i + 2);
      } else {
        headers := AddLine(lower, headers, line);
        left, i := left[1..], i + 1;
      }
    }
  }

  method Parse(lower: string -> string, upper: string -> string, t: Text) returns (r: Result<Request>)
    ensures r == ParseText(lower, upper, t)
  {
    if t.Invalid? { return Err(InvalidUtf8); }
    var ls := Lines(t.text);
    if ls == [] { return Err(EmptyRequest); }
    var parts := Words(ls[0]);
    if |parts| != 3 { return Err(InvalidRequestLine); }
    var method_, path, version := MethodOf(upper, parts[0]), parts[1], parts[2];
    var headers, bodyStart := ReadHeaders(lower, ls[1..]);
    var body := if bodyStart.Some? then Join(ls[bodyStart.value..]) else "";
    r := Ok(Request(method_, path, version, headers, body));
  }

  method ToBytes(r: Response) returns (text: string)
    ensures text == Printed(r)
  {
    text := StatusLine(r) + "\r\n";
    for i := 0 to |r.order|
      invariant text == StatusLine(r) + "\r\n" + PrintHeaders(r.order[..i])
    {
      PrintAppend(r.order[..i], r.order[i]);
      assert r.order[..i + 1] == r.order[..i] + [r.order[i]];
      text := text + HeaderLine(r.order[i]) + "\r\n";
    }
    assert r.order[..|r.order|] == r.order;
    text := text + "\r\n";
    text := text + r.body;
  }
}
