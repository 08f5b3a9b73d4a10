/** The incremental request parser of linux_advance_server/8/8-3httpparser.cpp. */
module HttpParser {

  const BUFFER_SIZE := 4096

  datatype CheckState = RequestLineState | HeaderState | ContentState
  datatype HttpCode = NoRequest | GetRequest | BadRequest | InternalError

  // ----- Lines -----

  /** Where the search for the end of a line stops: at the end of the input, behind CR LF, or at a stray CR or LF. */
  datatype LineStatus = Open(at: nat) | Ok(at: nat) | Bad(at: nat)

  function Line(t: string, i: nat): (r: LineStatus)
    ensures i <= r.at && (i <= |t| ==> r.at <= |t|) && (r.Ok? ==> i + 2 <= r.at <= |t|)
    decreases |t| - i
  {
    if i >= |t| then Open(i)
    else if t[i] == '\r' then
      if i + 1 == |t| then Open(i) else if t[i + 1] == '\n' then Ok(i + 2) else Bad(i)
    else if t[i] == '\n' then Bad(i)
    else Line(t, i + 1)
  }

  /** No CR or LF from i to j. */
  ghost predicate Plain(t: string, i: nat, j: nat) {
    i <= j <= |t| && forall k :: i <= k < j ==> t[k] != '\r' && t[k] != '\n'
  }

  /** The end of a line is its first CR LF, and nothing before it is a CR or an LF. */
  lemma {:induction false} LineMeaning(t: string, i: nat)
    requires i <= |t|
    ensures match Line(t, i)
      case Open(j) => Plain(t, i, j) && (j == |t| || (j + 1 == |t| && t[j] == '\r'))
      case Ok(j) => i + 2 <= j <= |t| && Plain(t, i, j - 2) && t[j - 2] == '\r' && t[j - 1] == '\n'
      case Bad(j) => Plain(t, i, j) && j < |t| && (t[j] == '\n' || (t[j] == '\r' && j + 1 < |t| && t[j + 1] != '\n'))
    decreases |t| - i
  {
    if i < |t| && t[i] != '\r' && t[i] != '\n' { LineMeaning(t, i + 1); }
  }

  /** More input changes nothing before the place where the search stopped; a CR at the end is looked at again. */
  lemma {:induction false} LineExtends(t: string, u: string, i: nat)
    requires i <= |t|
    ensures match Line(t, i)
      case Open(j) => Line(t + u, i) == Line(t + u, j)
      case _ => Line(t + u, i) == Line(t, i)
    decreases |t| - i
  {
    if i < |t| {
      assert (t + u)[i] == t[i];
      if t[i] != '\r' && t[i] != '\n' { LineExtends(t, u, i + 1); }
      else if i + 1 < |t| { assert (t + u)[i + 1] == t[i + 1]; }
    }
  }

  // ----- C strings -----

  /** The first place from i on with a character of the kind wanted; the end if there is none. */
  function Find(s: string, i: nat, wanted: char -> bool): (k: nat)
    requires i <= |s|
    ensures i <= k <= |s|
    decreases |s| - i
  {
    if i == |s| || wanted(s[i]) then i else Find(s, i + 1, wanted)
  }

  /** The first place is the only one with such a character and none before it. */
  lemma {:induction false} FindIs(s: string, i: nat, wanted: char -> bool, k: nat)
    requires i <= k <= |s| && forall j :: i <= j < k ==> !wanted(s[j])
    ensures Find(s, i, wanted) >= k && (k == |s| || wanted(s[k]) ==> Find(s, i, wanted) == k)
    decreases |s| - i
  {
    if i < |s| && !wanted(s[i]) { FindIs(s, i + 1, wanted, if k == i then i + 1 else k); }
  }

  lemma {:induction false} Found(s: string, i: nat, wanted: char -> bool)
    requires i <= |s|
    ensures forall j :: i <= j < Find(s, i, wanted) ==> !wanted(s[j])
    ensures Find(s, i, wanted) < |s| ==> wanted(s[Find(s, i, wanted)])
    decreases |s| - i
  {
    if i < |s| && !wanted(s[i]) { Found(s, i + 1, wanted); }
  }

  predicate Nul(c: char) {
    c == '\0'
  }

  predicate Blank(c: char) {
    c == ' ' || c == '\t'
  }

  predicate NotBlank(c: char) {
    !Blank(c)
  }

  predicate Slash(c: char) {
    c == '/'
  }

  /** The characters before the first NUL. */
  function CString(s: string): string {
    s[..Find(s, 0, Nul)]
  }

  /** strpbrk(s, " \t") as an index; |s| if there is no blank. */
  function FirstBlank(s: string): nat {
    Find(s, 0, Blank)
  }

  /** strspn(s, " \t"). */
  function Blanks(s: string): nat {
    Find(s, 0, NotBlank)
  }

  function Lower(c: char): char {
    if 'A' <= c <= 'Z' then c - 'A' + 'a' else c
  }

  /** strcasecmp(s, t) == 0. */
  predicate SameText(s: string, t: string) {
    |s| == |t| && forall i :: 0 <= i < |s| ==> Lower(s[i]) == Lower(t[i])
  }

  /** strncasecmp(s, t, |t|) == 0. */
  predicate StartsWith(s: string, t: string) {
    |t| <= |s| && SameText(s[..|t|], t)
  }

  // ----- The request line -----

  /** The target test at the end of parse_requestline. */
  predicate TargetOk(url: string) {
    var path := if StartsWith(url, "http://") then url[Find(url, 7, Slash)..] else url;
    path != "" && path[0] == '/'
  }

  /** Whether parse_requestline accepts a line. */
  predicate RequestLineOk(s: string) {
    HasBlank(s) && SameText(FirstWord(s), "GET") &&
    HasBlank(Rest(s)) && SameText(Rest(Rest(s)), "HTTP/1.1") && TargetOk(FirstWord(Rest(s)))
  }

  predicate HasBlank(s: string) {
    FirstBlank(s) < |s|
  }

  function FirstWord(s: string): string {
    s[..FirstBlank(s)]
  }

  /** What follows the blanks after the first word. */
  function Rest(s: string): string
    requires HasBlank(s)
  {
    var r := s[FirstBlank(s) + 1..];
    r[Blanks(r)..]
  }

  ghost predicate AllBlank(s: string) {
    s != "" && forall i :: 0 <= i < |s| ==> s[i] == ' ' || s[i] == '\t'
  }

  ghost predicate NoBlank(s: string) {
    forall i :: 0 <= i < |s| ==> s[i] != ' ' && s[i] != '\t'
  }

  /** Equal, or the two cases of one letter. */
  ghost predicate SameLetter(c: char, d: char) {
    c == d || ('A' <= c <= 'Z' && d as int == c as int + 32) || ('A' <= d <= 'Z' && c as int == d as int + 32)
  }

  ghost predicate Alike(s: string, t: string) {
    |s| == |t| && forall i :: 0 <= i < |s| ==> SameLetter(s[i], t[i])
  }

  lemma {:induction false} SameTextMeaning(s: string, t: string)
    ensures SameText(s, t) <==> Alike(s, t)
  {
    forall i | 0 <= i < |s| && i < |t| ensures Lower(s[i]) == Lower(t[i]) <==> SameLetter(s[i], t[i]) {}
  }

  /** The target is a path, or a path behind a scheme and a host. */
  ghost predicate Target(url: string) {
    (url != "" && url[0] == '/') || exists scheme, host, path :: Absolute(url, scheme, host, path)
  }

  ghost predicate Absolute(url: string, scheme: string, host: string, path: string) {
    url == scheme + host + path && Alike(scheme, "http://") && (forall i :: 0 <= i < |host| ==> host[i] != '/') &&
    path != "" && path[0] == '/'
  }

  lemma {:induction false} TargetMeaning(url: string)
    ensures TargetOk(url) <==> Target(url)
  {
    if scheme, host, path :| Absolute(url, scheme, host, path) {
      SchemeInFront(url, scheme, host, path);
      PathAfterHost(url, scheme, host, path);
    }
    if StartsWith(url, "http://") {
      SchemeFirst(url);
      if TargetOk(url) { AbsoluteParts(url, Find(url, 7, Slash)); }
    }
  }

  lemma {:induction false} SchemeInFront(url: string, scheme: string, host: string, path: string)
    requires Absolute(url, scheme, host, path)
    ensures StartsWith(url, "http://")
  {
    SameTextMeaning(scheme, "http://");
    assert url[..7] == scheme;
  }

  lemma {:induction false} SchemeFirst(url: string)
    requires StartsWith(url, "http://")
    ensures url[0] != '/'
  {
    SameTextMeaning(url[..7], "http://");
    assert SameLetter(url[..7][0], 'h');
  }

  lemma {:induction false} AbsoluteParts(url: string, k: nat)
    requires StartsWith(url, "http://") && k == Find(url, 7, Slash) && TargetOk(url)
    ensures Absolute(url, url[..7], url[7..k], url[k..])
  {
    SameTextMeaning(url[..7], "http://");
    Found(url, 7, Slash);
    assert url == url[..7] + url[7..k] + url[k..];
    assert k < |url|;
  }

  lemma {:induction false} PathAfterHost(url: string, scheme: string, host: string, path: string)
    requires StartsWith(url, "http://") && Absolute(url, scheme, host, path)
    ensures TargetOk(url)
  {
    var k := 7 + |host|;
    forall j | 7 <= j < k ensures !Slash(url[j]) { assert url[j] == host[j - 7]; }
    assert url[k] == path[0];
    FindIs(url, 7, Slash, k);
  }

  /** The form of a request line: method, blanks, target, blanks, version. */
  ghost predicate Form(s: string, m: string, b: string, url: string, c: string, version: string) {
    s == m + b + url + c + version && Alike(m, "GET") && AllBlank(b) && NoBlank(url) && AllBlank(c) &&
    Alike(version, "HTTP/1.1") && Target(url)
  }

  lemma AlikeNoBlank(s: string, t: string)
    requires Alike(s, t) && NoBlank(t)
    ensures NoBlank(s)
  {
    forall i | 0 <= i < |s| ensures s[i] != ' ' && s[i] != '\t' { assert SameLetter(s[i], t[i]); }
  }

  /** A string is cut at its first blanks in one way. */
  lemma {:induction false} Cut(s: string) returns (b: string)
    requires HasBlank(s)
    ensures s == FirstWord(s) + b + Rest(s) && NoBlank(FirstWord(s)) && AllBlank(b) &&
      (Rest(s) == "" || !Blank(Rest(s)[0]))
  {
    var u := FirstBlank(s);
    Found(s, 0, Blank);
    var n := CutBlanks(s[u + 1..]);
    b := s[u..u + 1 + n];
    forall i | 0 <= i < |b| ensures Blank(b[i]) { assert i > 0 ==> b[i] == s[u + 1..][i - 1]; }
  }

  lemma {:induction false} CutBlanks(r: string) returns (n: nat)
    ensures n == Blanks(r) <= |r| && (forall i :: 0 <= i < n ==> Blank(r[i])) && (r[n..] == "" || !Blank(r[n..][0]))
  {
    n := Blanks(r);
    Found(r, 0, NotBlank);
  }

  lemma {:induction false} CutOnce(w: string, b: string, r: string)
    requires NoBlank(w) && AllBlank(b) && (r == "" || !Blank(r[0]))
    ensures HasBlank(w + b + r) && FirstWord(w + b + r) == w && Rest(w + b + r) == r
  {
    var s := w + b + r;
    assert s[|w|] == b[0] && forall i :: 0 <= i < |w| ==> s[i] == w[i];
    FindIs(s, 0, Blank, |w|);
    var t := s[|w| + 1..];
    assert t == b[1..] + r;
    assert forall i :: 0 <= i < |b| - 1 ==> t[i] == b[i + 1];
    assert |r| > 0 ==> t[|b| - 1] == r[0];
    FindIs(t, 0, NotBlank, |b| - 1);
  }

  /** parse_requestline accepts exactly the lines of that form. */
  lemma {:induction false} RequestLineForm(s: string)
    ensures RequestLineOk(s) <==> exists m, b, url, c, version :: Form(s, m, b, url, c, version)
  {
    if RequestLineOk(s) {
      var m, b, url, c, version := Parts(s);
    }
    if exists m, b, url, c, version :: Form(s, m, b, url, c, version) {
      var m, b, url, c, version :| Form(s, m, b, url, c, version);
      FormAccepted(s, m, b, url, c, version);
    }
  }

  lemma {:induction false} Parts(s: string) returns (m: string, b: string, url: string, c: string, version: string)
    requires RequestLineOk(s)
    ensures Form(s, m, b, url, c, version)
  {
    m, url, version := FirstWord(s), FirstWord(Rest(s)), Rest(Rest(s));
    b := Cut(s);
    c := Cut(Rest(s));
    SameTextMeaning(m, "GET");
    SameTextMeaning(version, "HTTP/1.1");
    TargetMeaning(url);
    Regroup(m, b, url, c, version);
  }

  lemma Regroup(m: string, b: string, url: string, c: string, version: string)
    ensures m + b + (url + c + version) == m + b + url + c + version
  {
  }

  lemma {:induction false} FormAccepted(s: string, m: string, b: string, url: string, c: string, version: string)
    requires Form(s, m, b, url, c, version)
    ensures RequestLineOk(s)
  {
    SameTextMeaning(m, "GET");
    SameTextMeaning(version, "HTTP/1.1");
    AlikeNoBlank(m, "GET");
    AlikeNoBlank(version, "HTTP/1.1");
    TargetMeaning(url);
    assert url != "";
    CutOnce(url, c, version);
    CutOnce(m, b, url + c + version);
    Regroup(m, b, url, c, version);
  }

  // ----- The whole input -----

  datatype Progress = Progress(checkState: CheckState, start: nat, checked: nat)

  datatype Outcome = Outcome(code: HttpCode, progress: Progress)

  datatype Verdict = Go(next: CheckState) | Stop(code: HttpCode)

  /** What a complete line leads to. */
  type Judge = (CheckState, string) -> Verdict

  /** A judge that stops gives a result. */
  ghost predicate Decides(judge: Judge) {
    forall state, line :: judge(state, line) != Stop(NoRequest)
  }

  function JudgeLine(state: CheckState, line: string): Verdict {
    match state
    case RequestLineState => if RequestLineOk(CString(line)) then Go(HeaderState) else Stop(BadRequest)
    case HeaderState => if CString(line) == "" then Stop(GetRequest) else Go(HeaderState)
    case ContentState => Stop(InternalError)
  }

  /** What parse_content makes of the input t from the given progress, with a judge for complete lines. */
  function Content(judge: Judge, t: string, p: Progress): (o: Outcome)
    requires p.start <= p.checked <= |t|
    ensures o.progress.start <= o.progress.checked <= |t|
    decreases |t| - p.checked
  {
    match Line(t, p.checked)
    case Open(j) => Outcome(NoRequest, p.(checked := j))
    case Bad(j) => Outcome(BadRequest, p.(checked := j))
    case Ok(j) =>
      match judge(p.checkState, t[p.start..j - 2])
      case Go(next) => Content(judge, t, Progress(next, j, j))
      case Stop(code) => Outcome(code, Progress(p.checkState, j, j))
  }

  /** More input continues from the progress made, or changes nothing once there is a result. */
  lemma {:induction false} ContentExtends(judge: Judge, t: string, u: string, p: Progress)
    requires p.start <= p.checked <= |t| && Decides(judge)
    ensures var o := Content(judge, t, p);
      Content(judge, t + u, p) == if o.code == NoRequest then Content(judge, t + u, o.progress) else o
    decreases |t| - p.checked
  {
    LineExtends(t, u, p.checked);
    match Line(t, p.checked)
    case Open(j) =>
    case Bad(j) =>
    case Ok(j) =>
      var line := t[p.start..j - 2];
      SamePart(t, u, p.start, j - 2);
      match judge(p.checkState, line)
      case Go(next) => ContentExtends(judge, t, u, Progress(next, j, j));
      case Stop(code) =>
  }

  lemma SamePart(t: string, u: string, i: nat, j: nat)
    requires i <= j <= |t|
    ensures (t + u)[i..j] == t[i..j]
  {
  }

  function Concat(chunks: seq<string>): string {
    if chunks == [] then "" else chunks[0] + Concat(chunks[1..])
  }

  /** The loop of main: after each chunk parse_content runs on everything received, until there is a result. */
  function Feed(judge: Judge, t: string, p: Progress, chunks: seq<string>): Outcome
    requires p.start <= p.checked <= |t|
    decreases |chunks|
  {
    if chunks == [] then Outcome(NoRequest, p)
    else
      var o := Content(judge, t + chunks[0], p);
      if o.code == NoRequest then Feed(judge, t + chunks[0], o.progress, chunks[1..]) else o
  }

  /** However the input is split into chunks, the result and the progress are those of the whole input. */
  lemma {:induction false} ChunksDoNotMatter(judge: Judge, t: string, p: Progress, chunks: seq<string>)
    requires p.start <= p.checked <= |t| && Decides(judge) && Content(judge, t, p) == Outcome(NoRequest, p)
    ensures Feed(judge, t, p, chunks) == Content(judge, t + Concat(chunks), p)
    decreases |chunks|
  {
    if chunks == [] {
      assert t + "" == t;
    } else {
      var t', rest := t + chunks[0], Concat(chunks[1..]);
      var o := Content(judge, t', p);
      assert t + Concat(chunks) == t' + rest;
      ContentExtends(judge, t', rest, p);
      ContentExtends(judge, t', "", p);
      assert t' + "" == t';
      if o.code == NoRequest { ChunksDoNotMatter(judge, t', o.progress, chunks[1..]); }
    }
  }

  const BEGIN := Progress(RequestLineState, 0, 0)

  lemma {:induction false} AnyChunks(chunks: seq<string>)
    ensures Feed(JudgeLine, "", BEGIN, chunks) == Content(JudgeLine, Concat(chunks), BEGIN)
  {
    LinesDecide();
    ChunksDoNotMatter(JudgeLine, "", BEGIN, chunks);
    assert "" + Concat(chunks) == Concat(chunks);
  }

  /** A CR at the end of a chunk waits for the next one, which then ends the line once. */
  lemma {:induction false} SplitAtCr(t: string, u: string, i: nat)
    requires i < |t| && Plain(t, i, |t| - 1) && t[|t| - 1] == '\r' && u != ""
    ensures Line(t, i) == Open(|t| - 1)
    ensures Line(t + u, |t| - 1) == Line(t + u, i) == if u[0] == '\n' then Ok(|t| + 1) else Bad(|t| - 1)
  {
    SearchPlain(t, i, |t| - 1);
    LineExtends(t, u, i);
    assert (t + u)[|t| - 1] == t[|t| - 1] && (t + u)[|t|] == u[0];
  }

  lemma {:induction false} SearchPlain(t: string, i: nat, j: nat)
    requires Plain(t, i, j)
    ensures Line(t, i) == Line(t, j)
    decreases j - i
  {
    if i < j { SearchPlain(t, i + 1, j); }
  }

  // ----- The whole request -----

  /** A line, complete with its end, and what follows. */
  ghost predicate NoBreak(line: string) {
    forall i :: 0 <= i < |line| ==> line[i] != '\r' && line[i] != '\n'
  }

  ghost predicate EmptyLine(line: string) {
    NoBreak(line) && (line == "" || line[0] == '\0')
  }

  ghost predicate HeaderLine(line: string) {
    NoBreak(line) && line != "" && line[0] != '\0'
  }

  ghost function Lines(lines: seq<string>): string {
    if lines == [] then "" else lines[0] + "\r\n" + Lines(lines[1..])
  }

  /** Header lines, an empty line, and anything. */
  ghost predicate Headers(t: string, headers: seq<string>, last: string, rest: string) {
    t == Lines(headers) + last + "\r\n" + rest && EmptyLine(last) && forall i :: 0 <= i < |headers| ==>
      HeaderLine(headers[i])
  }

  /** A line at k ends where it should. */
  lemma {:induction false} LineHere(t: string, k: nat, line: string, rest: string)
    requires k <= |t| && t[k..] == line + "\r\n" + rest && NoBreak(line)
    ensures Line(t, k) == Ok(k + |line| + 2) && k + |line| + 2 <= |t|
    ensures t[k..k + |line|] == line && t[k + |line| + 2..] == rest
  {
    var s, n := t[k..], |line|;
    forall i | k <= i < k + n ensures t[i] != '\r' && t[i] != '\n' { assert t[i] == s[i - k] == line[i - k]; }
    assert t[k + n] == s[n] == '\r' && t[k + n + 1] == s[n + 1] == '\n';
    SearchPlain(t, k, k + n);
    assert s[..n] == line && s[n + 2..] == rest;
  }

  lemma {:induction false} LineThere(t: string, k: nat) returns (line: string, rest: string)
    requires k <= |t| && Line(t, k).Ok?
    ensures line == t[k..Line(t, k).at - 2] && rest == t[Line(t, k).at..] && NoBreak(line)
    ensures t[k..] == line + "\r\n" + rest
  {
    LineMeaning(t, k);
    var j := Line(t, k).at;
    line, rest := t[k..j - 2], t[j..];
    assert t[k..] == t[k..j - 2] + [t[j - 2], t[j - 1]] + t[j..];
  }

  lemma {:induction false} EmptyCString(line: string)
    requires NoBreak(line)
    ensures CString(line) == "" <==> EmptyLine(line)
    ensures CString(line) != "" <==> HeaderLine(line)
  {
  }

  /** Once in the headers, the parser answers exactly when the empty line comes. */
  lemma {:induction false} HeadersEnd(t: string, k: nat)
    requires k <= |t|
    ensures Content(JudgeLine, t, Progress(HeaderState, k, k)).code == GetRequest <==>
      exists headers, last, rest :: Headers(t[k..], headers, last, rest)
    decreases |t| - k
  {
    if Line(t, k).Ok? {
      var j := Line(t, k).at;
      var line, rest := LineThere(t, k);
      EmptyCString(line);
      if EmptyLine(line) {
        assert Lines([]) + line == line;
        assert Headers(t[k..], [], line, rest);
      } else {
        HeadersEnd(t, j);
        if hs, last, end :| Headers(t[j..], hs, last, end) { HeaderAdded(t[k..], line, hs, last, end, t[j..]); }
        if hs, last, end :| Headers(t[k..], hs, last, end) { HeaderTaken(t, k, hs, last, end); }
      }
    } else {
      if hs, last, end :| Headers(t[k..], hs, last, end) { HeaderTaken(t, k, hs, last, end); }
    }
  }

  lemma {:induction false} HeaderAdded(t: string, line: string, hs: seq<string>, last: string, end: string,
      rest: string)
    requires t == line + "\r\n" + rest && HeaderLine(line) && Headers(rest, hs, last, end)
    ensures Headers(t, [line] + hs, last, end)
  {
    var all := [line] + hs;
    assert all[1..] == hs;
    assert line + "\r\n" + (Lines(hs) + last + "\r\n" + end) == line + "\r\n" + Lines(hs) + last + "\r\n" + end;
  }

  /** The first line of headers that end. */
  lemma {:induction false} HeaderTaken(t: string, k: nat, hs: seq<string>, last: string, end: string)
    requires k <= |t| && Headers(t[k..], hs, last, end)
    ensures Line(t, k).Ok? && var line := if hs == [] then last else hs[0];
      t[k..Line(t, k).at - 2] == line &&
      (hs != [] ==> HeaderLine(line) && Headers(t[Line(t, k).at..], hs[1..], last, end)) &&
        (hs == [] ==> EmptyLine(line))
  {
    if hs == [] {
      assert t[k..] == last + "\r\n" + end;
      LineHere(t, k, last, end);
    } else {
      var rest := Lines(hs[1..]) + last + "\r\n" + end;
      assert t[k..] == hs[0] + "\r\n" + rest;
      LineHere(t, k, hs[0], rest);
    }
  }

  /** A complete request: a request line, header lines and an empty line, and anything behind it. */
  ghost predicate Request(t: string, first: string, headers: seq<string>, last: string, rest: string) {
    t == first + "\r\n" + Lines(headers) + last + "\r\n" + rest && NoBreak(first) && EmptyLine(last) &&
    (forall i :: 0 <= i < |headers| ==> HeaderLine(headers[i])) &&
    exists m, b, url, c, version :: Form(CString(first), m, b, url, c, version)
  }

  /** parse_content answers GET_REQUEST exactly for input that begins with a complete request. */
  lemma {:induction false} RequestMeaning(t: string)
    ensures Content(JudgeLine, t, BEGIN).code == GetRequest <==>
      exists first, headers, last, rest :: Request(t, first, headers, last, rest)
  {
    if Content(JudgeLine, t, BEGIN).code == GetRequest { RequestFound(t); }
    if first, hs, last, end :| Request(t, first, hs, last, end) { RequestSplit(t, first, hs, last, end); }
  }

  /** What the first line decides. */
  lemma {:induction false} FirstLine(t: string)
    ensures var l := Line(t, 0);
      Content(JudgeLine, t, BEGIN).code == GetRequest <==>
      l.Ok? && RequestLineOk(CString(t[..l.at - 2])) &&
      Content(JudgeLine, t, Progress(HeaderState, l.at, l.at)).code == GetRequest
  {
    if Line(t, 0).Ok? { assert t[0..Line(t, 0).at - 2] == t[..Line(t, 0).at - 2]; }
  }

  lemma {:induction false} RequestFound(t: string)
    requires Content(JudgeLine, t, BEGIN).code == GetRequest
    ensures exists first, headers, last, rest :: Request(t, first, headers, last, rest)
  {
    FirstLine(t);
    var j := Line(t, 0).at;
    var first, rest := LineThere(t, 0);
    RequestLineForm(CString(first));
    HeadersEnd(t, j);
    var hs, last, end :| Headers(t[j..], hs, last, end);
    RequestJoined(t, first, hs, last, end);
  }

  lemma {:induction false} RequestJoined(t: string, first: string, hs: seq<string>, last: string, end: string)
    requires t[0..] == first + "\r\n" + (Lines(hs) + last + "\r\n" + end) && NoBreak(first) && EmptyLine(last)
    requires forall i :: 0 <= i < |hs| ==> HeaderLine(hs[i])
    requires exists m, b, url, c, version :: Form(CString(first), m, b, url, c, version)
    ensures Request(t, first, hs, last, end)
  {
    var lines := Lines(hs);
    assert t[0..] == t;
    assert first + "\r\n" + (lines + last + "\r\n" + end) == first + "\r\n" + lines + last + "\r\n" + end;
  }

  lemma {:induction false} RequestSplit(t: string, first: string, hs: seq<string>, last: string, end: string)
    requires Request(t, first, hs, last, end)
    ensures Content(JudgeLine, t, BEGIN).code == GetRequest
  {
    var rest, n := Lines(hs) + last + "\r\n" + end, |first| + 2;
    RequestParted(t, first, Lines(hs), last, end);
    LineHere(t, 0, first, rest);
    assert t[0..|first|] == t[..n - 2] == first;
    RequestLineForm(CString(first));
    assert Headers(t[n..], hs, last, end);
    HeadersEnd(t, n);
    FirstLine(t);
  }

  lemma {:induction false} RequestParted(t: string, first: string, lines: string, last: string, end: string)
    requires t == first + "\r\n" + lines + last + "\r\n" + end
    ensures t[0..] == first + "\r\n" + (lines + last + "\r\n" + end)
  {
  }

  // ----- The parser on its buffer -----

  /** The C string at address i is s. */
  ghost predicate Points(b: seq<char>, i: nat, s: string) {
    i + |s| < |b| && b[i + |s|] == '\0' && forall k :: 0 <= k < |s| ==> b[i + k] == s[k] && s[k] != '\0'
  }

  lemma {:induction false} PointsToString(b: seq<char>, i: nat, s: string)
    requires Points(b, i, s)
    ensures CString(b[i..]) == s
  {
    assert forall k :: 0 <= k < |s| ==> b[i..][k] == b[i + k] == s[k];
    FindIs(b[i..], 0, Nul, |s|);
    assert b[i..][..|s|] == s;
  }

  /** A NUL written at position k cuts the C string in two. */
  lemma CutString(b: seq<char>, i: nat, s: string, k: nat)
    requires Points(b, i, s) && k < |s|
    ensures Points(b[i + k := '\0'], i, s[..k]) && Points(b[i + k := '\0'], i + k + 1, s[k + 1..])
  {
  }

  lemma SkipString(b: seq<char>, i: nat, s: string, k: nat)
    requires Points(b, i, s) && k <= |s|
    ensures Points(b, i + k, s[k..])
  {
  }

  lemma {:induction false} WordTaken(b: seq<char>, at: nat, s: string, k: nat)
    requires Points(b, at, s) && HasBlank(s) && k == FirstBlank(s)
    ensures Points(b[at + k := '\0'], at, FirstWord(s)) && CString(b[at + k := '\0'][at + k + 1..]) == s[k + 1..]
    ensures Points(b[at + k := '\0'], at + k + 1 + Blanks(s[k + 1..]), Rest(s))
    ensures k + 1 + Blanks(s[k + 1..]) + |Rest(s)| == |s|
  {
    CutString(b, at, s, k);
    var c, r := b[at + k := '\0'], s[k + 1..];
    PointsToString(c, at + k + 1, r);
    SkipString(c, at + k + 1, r, Blanks(r));
  }

  /** Ends the word at the given address with a NUL over the blank behind it, and finds the next word. */
  method TakeWord(buffer: array<char>, at: nat, ghost s: string) returns (found: bool, next: nat)
    requires Points(buffer[..], at, s)
    modifies buffer
    ensures found <==> HasBlank(s)
    ensures found ==> Points(buffer[..], at, FirstWord(s)) && Points(buffer[..], next, Rest(s))
    ensures found ==> at < next && next + |Rest(s)| == at + |s|
    ensures forall i :: 0 <= i < buffer.Length && !(at <= i < at + |s|) ==> buffer[i] == old(buffer[i])
  {
    ghost var b := buffer[..];
    PointsToString(b, at, s);
    var word := CString(buffer[..][at..]);
    var k := FirstBlank(word);
    next := at + k + 1;
    found := k < |word|;
    if found {
      buffer[at + k] := '\0';
      ghost var c := b[at + k := '\0'];
      assert buffer[..] == c;
      WordTaken(b, at, s, k);
      assert CString(buffer[..][next..]) == s[k + 1..];
      next := next + Blanks(CString(buffer[..][next..]));
      assert Points(c, next, Rest(s));
    }
  }

  /** parse_requestline on the C string at szTemp, which it cuts up in place. */
  method ParseRequestline(buffer: array<char>, szTemp: nat, checkState: CheckState, ghost s: string)
      returns (code: HttpCode, checkState': CheckState)
    requires Points(buffer[..], szTemp, s)
    modifies buffer
    ensures code == if RequestLineOk(s) then NoRequest else BadRequest
    ensures checkState' == if code == NoRequest then HeaderState else checkState
    ensures forall i :: 0 <= i < buffer.Length && !(szTemp <= i < szTemp + |s|) ==> buffer[i] == old(buffer[i])
  {
    var found, szURL := TakeWord(buffer, szTemp, s);
    if !found {
      return BadRequest, checkState;
    }
    PointsToString(buffer[..], szTemp, FirstWord(s));
    if !SameText(CString(buffer[..][szTemp..]), "GET") {
      return BadRequest, checkState;
    }
    var more, szVersion := TakeWord(buffer, szURL, Rest(s));
    if !more {
      return BadRequest, checkState;
    }
    PointsToString(buffer[..], szURL, FirstWord(Rest(s)));
    PointsToString(buffer[..], szVersion, Rest(Rest(s)));
    if !SameText(CString(buffer[..][szVersion..]), "HTTP/1.1") || !TargetOk(CString(buffer[..][szURL..])) {
      return BadRequest, checkState;
    }
    return NoRequest, HeaderState;
  }

  /** parse_headers: an empty line ends the request; the other header lines are only printed. */
  method ParseHeaders(buffer: array<char>, szTemp: nat, ghost s: string) returns (code: HttpCode)
    requires Points(buffer[..], szTemp, s)
    ensures code == if s == "" then GetRequest else NoRequest
  {
    assert s != "" ==> buffer[szTemp + 0] == s[0];
    if buffer[szTemp] == '\0' {
      return GetRequest;
    }
    return NoRequest;
  }

  /** The buffer holds the input from start on; before it there is a NUL, and no CR or LF has been passed. */
  ghost predicate Holds(b: seq<char>, t: string, p: Progress) {
    p.start <= p.checked <= |t| <= |b| && Plain(t, p.start, p.checked) &&
    (forall i :: p.start <= i < |t| ==> b[i] == t[i]) && (p.start > 0 ==> b[p.start - 1] == '\0')
  }

  /** parse_line: the second case for CR LF, an LF found behind a CR, never arises. */
  method ParseLine(buffer: array<char>, checked0: nat, read: nat, ghost t: string, ghost p: Progress)
      returns (status: LineStatus, checked: nat)
    requires Holds(buffer[..], t, p) && checked0 == p.checked && read == |t|
    modifies buffer
    ensures status == Line(t, p.checked) && checked == status.at
    ensures status.Ok? ==> buffer[..] == old(buffer[..])[checked - 2 := '\0'][checked - 1 := '\0']
    ensures !status.Ok? ==> buffer[..] == old(buffer[..]) && Holds(buffer[..], t, p.(checked := checked))
  {
    checked := checked0;
    while checked < read
      invariant p.checked <= checked <= read && Plain(t, p.start, checked) && Line(t, checked) == Line(t, p.checked)
      invariant buffer[..] == old(buffer[..])
    {
      if buffer[checked] == '\r' {
        if checked + 1 == read {
          return Open(checked), checked;
        } else if buffer[checked + 1] == '\n' {
          buffer[checked] := '\0';
          buffer[checked + 1] := '\0';
          checked := checked + 2;
          return Ok(checked), checked;
        }
        return Bad(checked), checked;
      } else if buffer[checked] == '\n' {
        if checked > 1 && buffer[checked - 1] == '\r' {
          assert false;
        }
        return Bad(checked), checked;
      }
      checked := checked + 1;
    }
    return Open(checked), checked;
  }

  lemma {:induction false} LineInBuffer(b: seq<char>, t: string, p: Progress, j: nat)
    requires Holds(b, t, p) && Line(t, p.checked) == Ok(j)
    ensures var c := b[j - 2 := '\0'][j - 1 := '\0'];
      Points(c, p.start, CString(t[p.start..j - 2]))
  {
    LineMeaning(t, p.checked);
    Found(t[p.start..j - 2], 0, Nul);
  }

  lemma {:induction false} HoldsNext(b: seq<char>, c: seq<char>, t: string, p: Progress, j: nat, next: CheckState)
    requires Holds(b, t, p) && Line(t, p.checked) == Ok(j) && |c| == |b|
    requires c[j - 1] == '\0' && forall i :: j <= i < |b| ==> c[i] == b[i]
    ensures Holds(c, t, Progress(next, j, j))
  {
  }

  /** The code returned and the new state follow a verdict. */
  ghost predicate Obeyed(v: Verdict, was: CheckState, code: HttpCode, now: CheckState) {
    match v
    case Go(next) => code == NoRequest && now == next
    case Stop(c) => code == c && now == was
  }

  /** One line of Content. */
  lemma {:induction false} LineJudged(judge: Judge, t: string, p: Progress, j: nat, line: string, v: Verdict,
      code: HttpCode, now: CheckState)
    requires p.start <= p.checked <= |t| && Line(t, p.checked) == Ok(j) && Decides(judge)
    requires line == t[p.start..j - 2] && v == judge(p.checkState, line) && Obeyed(v, p.checkState, code, now)
    ensures Content(judge, t, p) ==
            if code == NoRequest then Content(judge, t, Progress(now, j, j)) else Outcome(code, Progress(now, j, j))
  {
  }

  lemma {:induction false} LinesDecide()
    ensures Decides(JudgeLine)
  {
  }

  lemma {:induction false} NoLine(t: string, p: Progress)
    requires p.start <= p.checked <= |t| && !Line(t, p.checked).Ok?
    ensures Content(JudgeLine, t, p) ==
            Outcome(if Line(t, p.checked).Open? then NoRequest else BadRequest, p.(checked := Line(t, p.checked).at))
  {
  }

  class Parser {
    const buffer: array<char>
    var readIndex: nat
    var checkedIndex: nat
    var startLine: nat
    var checkState: CheckState
    ghost var input: string

    ghost function Now(): Progress
      reads this
    {
      Progress(checkState, startLine, checkedIndex)
    }

    ghost predicate Valid()
      reads this, buffer
    {
      buffer.Length == BUFFER_SIZE && readIndex == |input| && Holds(buffer[..], input, Now())
    }

    constructor ()
      ensures Valid() && fresh(buffer) && input == "" && Now() == BEGIN
    {
      buffer := new char[BUFFER_SIZE](i => '\0');
      readIndex, checkedIndex, startLine, checkState, input := 0, 0, 0, RequestLineState, "";
    }

    /** recv: a chunk that fits is added to the buffer. */
    method Receive(chunk: string)
      requires Valid() && readIndex + |chunk| <= BUFFER_SIZE
      modifies this, buffer
      ensures Valid() && input == old(input) + chunk && Now() == old(Now())
    {
      for i := 0 to |chunk|
        invariant forall j :: 0 <= j < readIndex ==> buffer[j] == old(buffer[j])
        invariant forall j :: 0 <= j < i ==> buffer[readIndex + j] == chunk[j]
        modifies buffer
      {
        buffer[readIndex + i] := chunk[i];
      }
      readIndex, input := readIndex + |chunk|, input + chunk;
    }

    /** What happens to a complete line. */
    method ParseOne(szTemp: nat, ghost line: string, ghost v: Verdict) returns (code: HttpCode)
      requires Points(buffer[..], szTemp, CString(line)) && v == JudgeLine(checkState, line)
      modifies this`checkState, buffer
      ensures Obeyed(v, old(checkState), code, checkState)
      ensures forall i :: 0 <= i < buffer.Length && !(szTemp <= i < szTemp + |line|) ==> buffer[i] == old(buffer[i])
    {
      match checkState {
        case RequestLineState =>
          code, checkState := ParseRequestline(buffer, szTemp, checkState, CString(line));
        case HeaderState =>
          code := ParseHeaders(buffer, szTemp, CString(line));
        case ContentState =>
          code := InternalError;
      }
    }

    /** One round of the loop of parse_content. */
    method Round() returns (status: LineStatus, code: HttpCode, ghost line: string, ghost v: Verdict)
      requires Valid()
      modifies this, buffer
      ensures Valid() && input == old(input) && readIndex == old(readIndex) && status == Line(input, old(checkedIndex))
      ensures status.Ok? ==> line == input[old(startLine)..status.at - 2] && v == JudgeLine(old(checkState), line)
      ensures status.Ok? ==> Obeyed(v, old(checkState), code, checkState) && startLine == checkedIndex == status.at
      ensures !status.Ok? ==> Now() == old(Now()).(checked := status.at) && code == if status.Open? then NoRequest
        else BadRequest
    {
      ghost var p := Now();
      status, checkedIndex := ParseLine(buffer, checkedIndex, readIndex, input, p);
      line, v := "", Stop(NoRequest);
      if !status.Ok? {
        code := if status.Open? then NoRequest else BadRequest;
      } else {
        var szTemp := startLine;
        line := input[szTemp..checkedIndex - 2];
        v := JudgeLine(checkState, line);
        startLine := checkedIndex;
        code := NextLine(szTemp, old(buffer[..]), p, line, v);
      }
    }

    /** The body of the loop, for a line that has been found. */
    method NextLine(szTemp: nat, ghost b: seq<char>, ghost p: Progress, ghost line: string, ghost v: Verdict)
        returns (code: HttpCode)
      requires checkedIndex >= 2 && checkedIndex <= |input| && szTemp <= checkedIndex - 2
      requires line == input[szTemp..checkedIndex - 2] && v == JudgeLine(checkState, line)
      requires buffer.Length == BUFFER_SIZE && readIndex == |input| && Holds(b, input, p) &&
        p == Progress(checkState, szTemp, p.checked)
      requires Line(input, p.checked) == Ok(checkedIndex) && startLine == checkedIndex && |b| == BUFFER_SIZE
      requires buffer[..] == b[checkedIndex - 2 := '\0'][checkedIndex - 1 := '\0']
      modifies this`checkState, buffer
      ensures Valid()
      ensures Obeyed(v, old(checkState), code, checkState)
    {
      LineInBuffer(b, input, p, checkedIndex);
      LineMeaning(input, p.checked);
      ghost var c := buffer[..];
      code := ParseOne(szTemp, line, v);
      assert forall i :: checkedIndex - 1 <= i < BUFFER_SIZE ==> buffer[i] == c[i];
      HoldsNext(b, buffer[..], input, p, checkedIndex, checkState);
    }

    /** parse_content is Content of the input. */
    method ParseContent() returns (code: HttpCode)
      requires Valid()
      modifies this, buffer
      ensures Valid() && input == old(input)
      ensures Outcome(code, Now()) == Content(JudgeLine, input, old(Now()))
    {
      var status := Ok(0);
      code := NoRequest;
      LinesDecide();
      while status.Ok? && code == NoRequest
        invariant Valid() && input == old(input)
        invariant status.Ok? && code == NoRequest ==>
          Content(JudgeLine, input, Now()) == Content(JudgeLine, input, old(Now()))
        invariant !(status.Ok? && code == NoRequest) ==> Outcome(code, Now()) == Content(JudgeLine, input, old(Now()))
        decreases status.Ok? && code == NoRequest, readIndex - checkedIndex
      {
        ghost var p, line, v := Now(), "", Go(checkState);
        status, code, line, v := Round();
        if status.Ok? {
          LineJudged(JudgeLine, input, p, status.at, line, v, code, checkState);
        } else {
          NoLine(input, p);
        }
      }
    }

    /** The loop in main over the chunks that recv returns, until there is a result or the client closes. The result and
        the state are those of one call on everything sent, however it was split. */
    method Serve(chunks: seq<string>) returns (code: HttpCode)
      requires Valid() && input == "" && Now() == BEGIN && |Concat(chunks)| <= BUFFER_SIZE
      modifies this, buffer
      ensures Outcome(code, Now()) == Content(JudgeLine, Concat(chunks), BEGIN)
    {
      code := NoRequest;
      var n := 0;
      assert chunks[0..] == chunks && input + Concat(chunks) == Concat(chunks);
      while n < |chunks| && code == NoRequest
        invariant n <= |chunks| && Valid() && |input + Concat(chunks[n..])| <= BUFFER_SIZE
        invariant Feed(JudgeLine, "", BEGIN, chunks) == Ahead(code, Now(), input, chunks[n..])
      {
        assert chunks[n..][1..] == chunks[n + 1..];
        code := Take(chunks[n], chunks[n..]);
        n := n + 1;
      }
      AnyChunks(chunks);
    }

    /** One round of the loop. */
    method Take(chunk: string, ghost chunks: seq<string>) returns (code: HttpCode)
      requires Valid() && chunks != [] && chunk == chunks[0] && |input + Concat(chunks)| <= BUFFER_SIZE
      modifies this, buffer
      ensures Valid() && |input + Concat(chunks[1..])| <= BUFFER_SIZE
      ensures Feed(JudgeLine, old(input), old(Now()), chunks) == Ahead(code, Now(), input, chunks[1..])
    {
      assert input + Concat(chunks) == input + chunk + Concat(chunks[1..]);
      Receive(chunk);
      code := ParseContent();
    }
  }

  /** What is still to come once a call has given a code. */
  ghost function Ahead(code: HttpCode, p: Progress, t: string, chunks: seq<string>): Outcome
    requires p.start <= p.checked <= |t|
  {
    if code == NoRequest then Feed(JudgeLine, t, p, chunks) else Outcome(code, p)
  }
}
