/** The request `HttpHeadCreate` builds, and a reader of such messages after section 3 of RFC 7230. */
module RequestMessage {
  import opened Wrappers
  import opened TextSearch
  import opened CText
  import opened HttpRequest

  const CRLF := "\r\n"
  const ACCEPT := "Accept: */*"
  const LANGUAGE := "Accept-Language: en-us,en;q=0.5"
  const AGENT := "User-Agent: Mozilla/4.0"
  const HOST := "Host: "
  const CACHE := "Cache-Control: no-cache"
  const CONNECTION := "Connection: Keep-Alive"
  const CONTENT_TYPE := "Content-Type: text/html"
  const CONTENT_LENGTH := "Content-Length: "

  function EveryHead(strMethod: string, param: string, host: string): seq<string> {
    [strMethod + " /" + param + " HTTP/1.1", ACCEPT, LANGUAGE, AGENT, HOST + host, CACHE, CONNECTION]
  }

  /** Request line and header fields, before the empty line. */
  function HeadLines(strMethod: string, param: string, host: string, data: Option<string>): seq<string> {
    EveryHead(strMethod, param, host) +
    if data.Some? then [CONTENT_TYPE, CONTENT_LENGTH + Decimal(|data.value|)] else []
  }

  function Lines(ls: seq<string>): string {
    if ls == [] then "" else Lines(ls[..|ls| - 1]) + ls[|ls| - 1] + CRLF
  }

  /** The whole message. Only a POST carries its data; two line ends follow in either case. */
  function Message(strMethod: string, param: string, host: string, strData: Option<string>): string {
    var data := if strMethod == "POST" then strData else None;
    Lines(HeadLines(strMethod, param, host, data)) +
    (if data.Some? then CRLF + data.value else "") + CRLF + CRLF
  }

  lemma LinesStep(ls: seq<string>, k: nat)
    requires k < |ls|
    ensures Lines(ls[..k + 1]) == Lines(ls[..k]) + ls[k] + CRLF
  {
    assert ls[..k + 1][..k] == ls[..k];
  }

  function Size(ls: seq<string>): nat {
    if ls == [] then 0 else Size(ls[..|ls| - 1]) + |ls[|ls| - 1]| + 2
  }

  lemma {:induction false} SizeIsLength(ls: seq<string>)
    ensures |Lines(ls)| == Size(ls)
  {
    if ls == [] {
    } else {
      SizeIsLength(ls[..|ls| - 1]);
    }
  }

  lemma {:induction false} SizeGrows(ls: seq<string>, k: nat)
    requires k <= |ls|
    ensures Size(ls[..k]) <= Size(ls)
    ensures k < |ls| ==> Size(ls[..k]) + |ls[k]| + 2 <= Size(ls)
  {
    if k == |ls| {
      assert ls[..k] == ls;
    } else {
      assert ls[..k] == ls[..|ls| - 1][..k];
      SizeGrows(ls[..|ls| - 1], k);
    }
  }

  /** Appends the next line of a list of lines, given in two pieces. */
  method CatLine(dest: array<char>, ghost ls: seq<string>, ghost k: nat, key: string, value: string)
    requires k < |ls| && ls[k] == key + value && IsCString(key) && IsCString(value)
    requires Text(dest) == Lines(ls[..k]) && |Lines(ls)| < dest.Length
    modifies dest
    ensures Text(dest) == Lines(ls[..k + 1])
  {
    SizeIsLength(ls);
    SizeIsLength(ls[..k]);
    SizeGrows(ls, k);
    Strcat(dest, key);
    Strcat(dest, value);
    Strcat(dest, CRLF);
    LinesStep(ls, k);
    assert Text(dest) == Lines(ls[..k]) + key + value + CRLF;
  }

  method HttpHeadCreate(strMethod: string, strUrl: string, strData: Option<string>) returns (strHttpHead: array<char>)
    requires IsCString(strMethod) && IsCString(strUrl) && |strUrl| < URLSIZE
    requires strMethod == "POST" ==> strData.Some?
    requires strData.Some? ==> IsCString(strData.value)
    requires var addr := AfterScheme(strUrl); |Message(strMethod, Param(addr), Host(addr), strData)| < BUFSIZE
    ensures fresh(strHttpHead)
    ensures var addr := AfterScheme(strUrl); Text(strHttpHead) == Message(strMethod, Param(addr), Host(addr), strData)
  {
    var hostBuf := GetHostAddrFromUrl(strUrl);
    var paramBuf := GetParamFromUrl(strUrl);
    strHttpHead := Build(strMethod, UpToNul(paramBuf[..]), UpToNul(hostBuf[..]), strData);
  }

  method Build(strMethod: string, strParam: string, strHost: string, strData: Option<string>)
      returns (strHttpHead: array<char>)
    requires IsCString(strMethod) && IsCString(strParam) && IsCString(strHost)
    requires strMethod == "POST" ==> strData.Some?
    requires strData.Some? ==> IsCString(strData.value)
    requires |Message(strMethod, strParam, strHost, strData)| < BUFSIZE
    ensures fresh(strHttpHead) && Text(strHttpHead) == Message(strMethod, strParam, strHost, strData)
  {
    ghost var data := if strMethod == "POST" then strData else None;
    ghost var ls := HeadLines(strMethod, strParam, strHost, data);
    strHttpHead := Zeroed(BUFSIZE);
    UpToNulIs(strHttpHead[..], 0);
    HeadLinesAreCommon(strMethod, strParam, strHost, data);
    CatHead(strHttpHead, strMethod, strParam, strHost, ls);
    if strMethod == "POST" {
      CatContent(strHttpHead, ls, strData.value);
    } else {
      assert ls[..7] == ls;
    }
    Strcat(strHttpHead, "\r\n\r\n");
    assert CRLF + CRLF == "\r\n\r\n";
  }

  /** What only a POST has. */
  method CatContent(dest: array<char>, ghost ls: seq<string>, strData: string)
    requires |ls| == 9 && ls[7] == CONTENT_TYPE + "" && ls[8] == CONTENT_LENGTH + Decimal(|strData|)
    requires IsCString(strData) && |Lines(ls)| + 2 + |strData| < dest.Length
    requires Text(dest) == Lines(ls[..7])
    modifies dest
    ensures Text(dest) == Lines(ls) + CRLF + strData
  {
    ConstantsAreText();
    CatLine(dest, ls, 7, CONTENT_TYPE, "");
    CatLine(dest, ls, 8, CONTENT_LENGTH, Decimal(|strData|));
    assert ls[..9] == ls;
    Strcat(dest, CRLF);
    Strcat(dest, strData);
  }

  /** The lines every request has. */
  method CatHead(dest: array<char>, strMethod: string, strParam: string, strHost: string, ghost ls: seq<string>)
    requires IsCString(strMethod) && IsCString(strParam) && IsCString(strHost)
    requires |ls| >= 7 && |Lines(ls)| < dest.Length
    requires CommonLines(ls, strMethod, strParam, strHost)
    requires Text(dest) == ""
    modifies dest
    ensures Text(dest) == Lines(ls[..7])
  {
    ConstantsAreText();
    CatLine(dest, ls, 0, strMethod + " /", strParam + " HTTP/1.1");
    CatFixed(dest, ls);
    CatMore(dest, strHost, ls);
  }

  method CatFixed(dest: array<char>, ghost ls: seq<string>)
    requires |ls| >= 7 && |Lines(ls)| < dest.Length
    requires ls[1] == ACCEPT + "" && ls[2] == LANGUAGE + "" && ls[3] == AGENT + ""
    requires Text(dest) == Lines(ls[..1])
    modifies dest
    ensures Text(dest) == Lines(ls[..4])
  {
    ConstantsAreText();
    CatLine(dest, ls, 1, ACCEPT, "");
    CatLine(dest, ls, 2, LANGUAGE, "");
    CatLine(dest, ls, 3, AGENT, "");
  }

  method CatMore(dest: array<char>, strHost: string, ghost ls: seq<string>)
    requires IsCString(strHost) && |ls| >= 7 && |Lines(ls)| < dest.Length
    requires ls[4] == HOST + strHost && ls[5] == CACHE + "" && ls[6] == CONNECTION + ""
    requires Text(dest) == Lines(ls[..4])
    modifies dest
    ensures Text(dest) == Lines(ls[..7])
  {
    ConstantsAreText();
    CatLine(dest, ls, 4, HOST, strHost);
    CatLine(dest, ls, 5, CACHE, "");
    CatLine(dest, ls, 6, CONNECTION, "");
  }

  lemma ConstantsAreText()
    ensures IsCString(ACCEPT) && IsCString(LANGUAGE) && IsCString(AGENT) && IsCString(HOST)
    ensures IsCString(CACHE) && IsCString(CONNECTION) && IsCString(CONTENT_TYPE) && IsCString(CONTENT_LENGTH)
    ensures IsCString("") && IsCString(CRLF)
  {
  }

  ghost predicate CommonLines(ls: seq<string>, strMethod: string, strParam: string, strHost: string)
    requires |ls| >= 7
  {
    && ls[0] == (strMethod + " /") + (strParam + " HTTP/1.1")
    && ls[1] == ACCEPT + "" && ls[2] == LANGUAGE + "" && ls[3] == AGENT + ""
    && ls[4] == HOST + strHost && ls[5] == CACHE + "" && ls[6] == CONNECTION + ""
  }

  lemma HeadLinesAreCommon(strMethod: string, strParam: string, strHost: string, data: Option<string>)
    ensures var ls := HeadLines(strMethod, strParam, strHost, data);
            && |ls| == (if data.Some? then 9 else 7)
            && CommonLines(ls, strMethod, strParam, strHost)
            && (data.Some? ==> ls[7] == CONTENT_TYPE + "" && ls[8] == CONTENT_LENGTH + Decimal(|data.value|))
  {
  }

  lemma LinesOfMore(ls: seq<string>, a: string, b: string)
    ensures Lines(ls + [a]) == Lines(ls) + a + CRLF
    ensures Lines(ls + [a, b]) == Lines(ls) + a + CRLF + b + CRLF
  {
    assert (ls + [a])[..|ls|] == ls;
    assert (ls + [a, b])[..|ls| + 1] == ls + [a];
  }

  /** The head that every request has, letter by letter. */
  lemma HeadText(strMethod: string, param: string, host: string)
    ensures Lines(HeadLines(strMethod, param, host, None)) ==
            strMethod + " /" + param + " HTTP/1.1" + CRLF + "Accept: */*" + CRLF +
            "Accept-Language: en-us,en;q=0.5" + CRLF + "User-Agent: Mozilla/4.0" + CRLF +
            ("Host: " + host) + CRLF + "Cache-Control: no-cache" + CRLF + "Connection: Keep-Alive" + CRLF
  {
    var first := strMethod + " /" + param + " HTTP/1.1";
    var ls := HeadLines(strMethod, param, host, None);
    assert ls == [] + [first] + [ACCEPT, LANGUAGE] + [AGENT, HOST + host] + [CACHE, CONNECTION];
    LinesOfMore([], first, "");
    LinesOfMore([] + [first], ACCEPT, LANGUAGE);
    LinesOfMore([] + [first] + [ACCEPT, LANGUAGE], AGENT, HOST + host);
    LinesOfMore([] + [first] + [ACCEPT, LANGUAGE] + [AGENT, HOST + host], CACHE, CONNECTION);
    assert "" + first == first;
  }

  lemma PostLines(param: string, host: string, data: string)
    ensures Lines(HeadLines("POST", param, host, Some(data))) ==
            Lines(HeadLines("POST", param, host, None)) + "Content-Type: text/html" + CRLF +
            ("Content-Length: " + Decimal(|data|)) + CRLF
  {
    LinesOfMore(HeadLines("POST", param, host, None), CONTENT_TYPE, CONTENT_LENGTH + Decimal(|data|));
    ContentLines("POST", param, host, data);
  }

  lemma ContentLines(strMethod: string, param: string, host: string, data: string)
    ensures HeadLines(strMethod, param, host, Some(data)) ==
            HeadLines(strMethod, param, host, None) + [CONTENT_TYPE, CONTENT_LENGTH + Decimal(|data|)]
  {
    NothingMore(EveryHead(strMethod, param, host));
  }

  lemma NothingMore(ls: seq<string>)
    ensures ls + [] == ls
  {
  }

  /** A POST adds the type and length of its data, and the data; any other request ends with two line ends. */
  lemma MessageText(strMethod: string, param: string, host: string, data: string, strData: Option<string>)
    ensures Message("POST", param, host, Some(data)) ==
            Lines(HeadLines("POST", param, host, None)) + "Content-Type: text/html" + CRLF +
            ("Content-Length: " + Decimal(|data|)) + CRLF + (CRLF + data) + CRLF + CRLF
    ensures strMethod != "POST" ==>
              Message(strMethod, param, host, strData) ==
              Lines(HeadLines(strMethod, param, host, None)) + "" + CRLF + CRLF
  {
    PostLines(param, host, data);
  }

  // ----- how long a request is

  lemma SizeStep(ls: seq<string>, k: nat)
    requires k < |ls|
    ensures Size(ls[..k + 1]) == Size(ls[..k]) + |ls[k]| + 2
  {
    assert ls[..k + 1][..k] == ls[..k];
  }

  /** A POST is 194 characters longer than its path, host, data and the digits of the data's length. The buffer has
      room for it up to BUFSIZE - 1 characters in all, so the data is not unlimited. */
  lemma PostLength(param: string, host: string, data: string)
    ensures |Message("POST", param, host, Some(data))| == |param| + |host| + |Decimal(|data|)| + |data| + 194
  {
    var ls := HeadLines("POST", param, host, Some(data));
    HeadLinesAreCommon("POST", param, host, Some(data));
    SizeIsLength(ls);
    assert ls[..9] == ls;
    SizeStep(ls, 8);
    SizeStep(ls, 7);
    SizeStep(ls, 6);
    SizeStep(ls, 5);
    SizeStep(ls, 4);
    SizeStep(ls, 3);
    SizeStep(ls, 2);
    SizeStep(ls, 1);
    SizeStep(ls, 0);
  }

  lemma {:induction false} Pow10Grows(m: nat, n: nat)
    requires m <= n
    ensures Pow10(m) <= Pow10(n)
  {
    if m == n {
    } else {
      Pow10Grows(m, n - 1);
    }
  }

  /** The server the agent posts to; its URL is "http://" and this. */
  const SERVER := "172.24.83.25:8080"

  lemma SlashlessUrl(addr: string)
    requires '/' !in addr
    ensures Param(AfterScheme("http://" + addr)) == "" && Host(AfterScheme("http://" + addr)) == addr
  {
  }

  lemma ServerIsHost()
    ensures '/' !in SERVER && |SERVER| == 17
  {
  }

  /** To that server the buffer holds the message of up to 40783 characters of data, and of no more. */
  lemma AgentPostFitsIff(data: string)
    ensures var addr := AfterScheme("http://" + SERVER);
            |Message("POST", Param(addr), Host(addr), Some(data))| < BUFSIZE <==> |data| <= 40783
  {
    ServerIsHost();
    SlashlessUrl(SERVER);
    PostFitsIff("", SERVER, data);
  }

  lemma PostFitsIff(param: string, host: string, data: string)
    requires |param| == 0 && |host| == 17
    ensures |Message("POST", param, host, Some(data))| < BUFSIZE <==> |data| <= 40783
  {
    PostLength(param, host, data);
    FiveDigits(|data|);
  }

  lemma FiveDigits(n: nat)
    ensures n + |Decimal(n)| < 40789 <==> n <= 40783
  {
    DecimalLength(n);
    assert Pow10(4) == 10000 && Pow10(5) == 100000;
    if |Decimal(n)| > 5 {
      Pow10Grows(5, |Decimal(n)| - 1);
    } else {
      Pow10Grows(|Decimal(n)|, 5);
      if |Decimal(n)| < 5 {
        Pow10Grows(|Decimal(n)|, 4);
      }
    }
  }

  // ----- reading a message back: lines up to an empty one, then as much as Content-Length says

  datatype Head = Head(lines: seq<string>, rest: string)

  /** The line up to the first CRLF. */
  function ReadLine(s: string): Option<(string, string)> {
    match Find(s, CRLF)
    case None => None
    case Some(i) => Some((s[..i], s[i + 2..]))
  }

  function ReadHead(s: string): (head: Option<Head>)
    ensures head.Some? ==> |head.value.rest| < |s|
    decreases |s|
  {
    match ReadLine(s)
    case None => None
    case Some((line, rest)) =>
      if line == "" then Some(Head([], rest))
      else
        match ReadHead(rest)
        case None => None
        case Some(head) => Some(Head([line] + head.lines, head.rest))
  }

  function LengthField(lines: seq<string>): Option<nat> {
    if lines == [] then None
    else if CONTENT_LENGTH <= lines[0] then Some(ReadDigits(lines[0][|CONTENT_LENGTH|..], 0))
    else LengthField(lines[1..])
  }

  datatype Received = Received(body: string, after: string)

  function Receive(s: string): (received: Option<Received>)
    ensures received.Some? ==> |received.value.after| < |s|
  {
    match ReadHead(s)
    case None => None
    case Some(head) =>
      match LengthField(head.lines)
      case None => Some(Received("", head.rest))
      case Some(n) => if n <= |head.rest| then Some(Received(head.rest[..n], head.rest[n..])) else None
  }

  /** A line a reader can tell apart: not empty, and without a carriage return. */
  predicate CleanLine(line: string) {
    line != "" && '\r' !in line
  }

  lemma ReadLineBack(line: string, rest: string)
    requires '\r' !in line
    ensures ReadLine(line + CRLF + rest) == Some((line, rest))
  {
    var s := line + CRLF + rest;
    assert OccursAt(s, CRLF, |line|);
    forall j: nat | j < |line| ensures !OccursAt(s, CRLF, j) {
      assert s[j] == line[j];
    }
    FindIsFirst(s, CRLF, |line|);
    assert s[..|line|] == line && s[|line| + 2..] == rest;
  }

  lemma ReadOneLine(line: string, s: string, later: seq<string>, rest: string)
    requires CleanLine(line) && ReadHead(s) == Some(Head(later, rest))
    ensures ReadHead(line + CRLF + s) == Some(Head([line] + later, rest))
  {
    ReadLineBack(line, s);
  }

  lemma ReadNoLines(rest: string)
    ensures ReadHead(CRLF + rest) == Some(Head([], rest))
  {
    ReadLineBack("", rest);
    assert "" + CRLF + rest == CRLF + rest;
  }

  lemma ReadHeadBack(ls: seq<string>, rest: string)
    requires forall i :: 0 <= i < |ls| ==> CleanLine(ls[i])
    ensures ReadHead(Lines(ls) + CRLF + rest) == Some(Head(ls, rest))
  {
    ReadNoLines(rest);
    ReadPrefix(ls, CRLF + rest, [], rest);
    assert Lines(ls) + CRLF + rest == Lines(ls) + (CRLF + rest);
    assert ls + [] == ls;
  }

  /** Complete lines in front of a readable text are read before it. */
  lemma {:induction false} ReadPrefix(ls: seq<string>, s: string, later: seq<string>, rest: string)
    requires forall i :: 0 <= i < |ls| ==> CleanLine(ls[i])
    requires ReadHead(s) == Some(Head(later, rest))
    ensures ReadHead(Lines(ls) + s) == Some(Head(ls + later, rest))
  {
    if ls == [] {
      assert Lines(ls) + s == s && ls + later == later;
    } else {
      var front, last := ls[..|ls| - 1], ls[|ls| - 1];
      ReadOneLine(last, s, later, rest);
      ReadPrefix(front, last + CRLF + s, [last] + later, rest);
      LinesSplit(front, last, ls, s, later);
    }
  }

  lemma LinesSplit(front: seq<string>, last: string, ls: seq<string>, s: string, later: seq<string>)
    requires ls == front + [last]
    ensures Lines(ls) + s == Lines(front) + (last + CRLF + s)
    ensures ls + later == front + ([last] + later)
  {
  }

  lemma {:induction false} LengthFieldAt(ls: seq<string>, k: nat)
    requires k < |ls| && CONTENT_LENGTH <= ls[k]
    requires forall j :: 0 <= j < k ==> !(CONTENT_LENGTH <= ls[j])
    ensures LengthField(ls) == Some(ReadDigits(ls[k][|CONTENT_LENGTH|..], 0))
  {
    if k == 0 {
    } else {
      LengthFieldAt(ls[1..], k - 1);
    }
  }

  lemma OtherLinesDiffer(line: string)
    requires CONTENT_LENGTH <= line
    ensures |line| > 8 && line[0] == 'C' && line[1] == 'o' && line[3] == 't' && line[8] == 'L'
  {
  }

  lemma LengthFieldFound(ls: seq<string>, param: string, host: string, data: string)
    requires ls == HeadLines("POST", param, host, Some(data))
    ensures LengthField(ls) == Some(|data|)
  {
    HeadLinesAreCommon("POST", param, host, Some(data));
    forall j | 0 <= j < 8 ensures !(CONTENT_LENGTH <= ls[j]) {
      if CONTENT_LENGTH <= ls[j] {
        OtherLinesDiffer(ls[j]);
      }
    }
    LengthFieldAt(ls, 8);
    assert ls[8][|CONTENT_LENGTH|..] == Decimal(|data|) + "";
    ReadDecimal(|data|, "");
  }

  lemma ReceiveParsed(s: string, ls: seq<string>, data: string, after: string)
    requires ReadHead(s) == Some(Head(ls, data + after)) && LengthField(ls) == Some(|data|)
    ensures Receive(s) == Some(Received(data, after))
  {
  }

  lemma ConstantsAreClean()
    ensures CleanLine(ACCEPT) && CleanLine(LANGUAGE) && CleanLine(AGENT) && '\r' !in HOST
  {
  }

  lemma MoreConstantsAreClean()
    ensures CleanLine(CACHE) && CleanLine(CONNECTION) && CleanLine(CONTENT_TYPE) && '\r' !in CONTENT_LENGTH
  {
  }

  lemma PostLinesAreClean(param: string, host: string, data: string)
    requires '\r' !in param && '\r' !in host
    ensures var ls := HeadLines("POST", param, host, Some(data));
            forall i :: 0 <= i < |ls| ==> CleanLine(ls[i])
  {
    HeadLinesAreCommon("POST", param, host, Some(data));
    ConstantsAreClean();
    MoreConstantsAreClean();
  }

  lemma MessageFromParts(a: string, b: string, c: string, d: string, e: string)
    ensures a + (b + c) + d + d + e == a + b + (c + (d + d + e))
  {
  }

  /** A reader of any clean lines that announce the length of the data gets exactly the data back. */
  lemma FramingOfLines(ls: seq<string>, data: string, later: string)
    requires LengthField(ls) == Some(|data|) && forall i :: 0 <= i < |ls| ==> CleanLine(ls[i])
    ensures var s := Lines(ls) + (CRLF + data) + CRLF + CRLF + later;
            && ReadHead(s) == Some(Head(ls, data + (CRLF + CRLF + later)))
            && Receive(s) == Some(Received(data, CRLF + CRLF + later))
  {
    ReadHeadBack(ls, data + (CRLF + CRLF + later));
    MessageFromParts(Lines(ls), CRLF, data, CRLF, later);
    ReceiveParsed(Lines(ls) + (CRLF + data) + CRLF + CRLF + later, ls, data, CRLF + CRLF + later);
  }

  /** For any data, and path and host free of carriage returns, a reader of the message gets exactly the data back
      and then finds the two line ends that follow it, and whatever comes behind them. */
  lemma FramingInStream(param: string, host: string, data: string, later: string)
    requires '\r' !in param && '\r' !in host
    ensures Receive(Message("POST", param, host, Some(data)) + later) == Some(Received(data, CRLF + CRLF + later))
  {
    var ls := HeadLines("POST", param, host, Some(data));
    PostLinesAreClean(param, host, data);
    LengthFieldFound(ls, param, host, data);
    FramingOfLines(ls, data, later);
  }

  lemma FramingRoundTrip(param: string, host: string, data: string)
    requires '\r' !in param && '\r' !in host
    ensures Receive(Message("POST", param, host, Some(data))) == Some(Received(data, CRLF + CRLF))
  {
    FramingInStream(param, host, data, "");
    assert Message("POST", param, host, Some(data)) + "" == Message("POST", param, host, Some(data));
    assert CRLF + CRLF + "" == CRLF + CRLF;
  }

  /** The same for the message of any URL free of carriage returns, wherever its scheme stands. */
  lemma RequestRoundTrip(url: string, data: string)
    requires '\r' !in url
    ensures var addr := AfterScheme(url);
            Receive(Message("POST", Param(addr), Host(addr), Some(data))) == Some(Received(data, CRLF + CRLF))
  {
    var addr := AfterScheme(url);
    forall c | c in Param(addr) || c in Host(addr) ensures c in url {
      assert c in addr;
    }
    FramingRoundTrip(Param(addr), Host(addr), data);
  }

  // ----- a connection that is used again: messages one behind the other

  datatype PostOf = PostOf(param: string, host: string, data: string)

  /** `HttpDataTransmit` sends the terminating NUL of its buffer along with the message. */
  function Sent(p: PostOf): string {
    Message("POST", p.param, p.host, Some(p.data)) + "\0"
  }

  function Wire(posts: seq<PostOf>): string {
    if posts == [] then "" else Sent(posts[0]) + Wire(posts[1..])
  }

  function Bodies(posts: seq<PostOf>): seq<string> {
    if posts == [] then [] else [posts[0].data] + Bodies(posts[1..])
  }

  ghost predicate CleanPosts(posts: seq<PostOf>) {
    forall i :: 0 <= i < |posts| ==> '\r' !in posts[i].param && '\r' !in posts[i].host
  }

  /** What a reader ignores in front of a message: empty lines (section 3.5 of RFC 7230), and NULs only if it is laxer
      than that. */
  function SkipFiller(s: string, nuls: bool): (rest: string)
    ensures |rest| <= |s|
  {
    if CRLF <= s then SkipFiller(s[2..], nuls)
    else if nuls && s != "" && s[0] == '\0' then SkipFiller(s[1..], nuls)
    else s
  }

  /** The bodies of all messages up to the end of the connection. */
  function ReceiveAll(s: string, nuls: bool): Option<seq<string>>
    decreases |s|
  {
    var rest := SkipFiller(s, nuls);
    if rest == "" then Some([])
    else
      match Receive(rest)
      case None => None
      case Some(received) =>
        match ReceiveAll(received.after, nuls)
        case None => None
        case Some(bodies) => Some([received.body] + bodies)
  }

  lemma FillerIsSkipped(s: string, nuls: bool)
    ensures SkipFiller(CRLF + CRLF + s, nuls) == SkipFiller(s, nuls)
    ensures nuls ==> SkipFiller("\0" + s, nuls) == SkipFiller(s, nuls)
  {
    assert (CRLF + CRLF + s)[2..] == CRLF + s && (CRLF + s)[2..] == s;
    assert ("\0" + s)[1..] == s;
  }

  lemma NextMessage(s: string, data: string, later: string, nuls: bool)
    requires s != "" && s[0] != '\r' && !(nuls && s[0] == '\0')
    requires Receive(s) == Some(Received(data, CRLF + CRLF + later))
    ensures ReceiveAll(s, nuls) == match ReceiveAll(later, nuls)
                                   case None => None
                                   case Some(bodies) => Some([data] + bodies)
  {
    FillerIsSkipped(later, nuls);
  }

  lemma {:induction false} LinesInFront(x: string, ls: seq<string>)
    requires ls != []
    ensures Lines([x + ls[0]] + ls[1..]) == x + Lines(ls)
  {
    var longer := [x + ls[0]] + ls[1..];
    if |ls| == 1 {
      assert longer == [x + ls[0]] && longer[..0] == [] && ls[..0] == [];
      assert "" + (x + ls[0]) + CRLF == x + ("" + ls[0] + CRLF);
    } else {
      var n := |ls| - 1;
      LinesInFront(x, ls[..n]);
      assert longer[..n] == [x + ls[..n][0]] + ls[..n][1..];
      assert x + Lines(ls[..n]) + ls[n] + CRLF == x + (Lines(ls[..n]) + ls[n] + CRLF);
    }
  }

  lemma FirstLine(ls: seq<string>, p: PostOf)
    requires ls == HeadLines("POST", p.param, p.host, Some(p.data))
    ensures ls != [] && ls[0] == "POST" + " /" + p.param + " HTTP/1.1"
    ensures !(CONTENT_LENGTH <= ls[0]) && !(CONTENT_LENGTH <= "\0" + ls[0])
  {
    assert ls[0][0] == 'P' && ("\0" + ls[0])[0] == '\0' && CONTENT_LENGTH[0] == 'C';
  }

  lemma FrontFromParts(x: string, a: string, b: string, c: string, d: string)
    ensures x + a + b + c + c + d == x + (a + b + c + c + d)
  {
  }

  /** A NUL in front of a message becomes part of its request line; the rest is read as if it were not there. */
  lemma NulJoinsRequestLine(p: PostOf, later: string)
    requires '\r' !in p.param && '\r' !in p.host
    ensures var s := "\0" + (Message("POST", p.param, p.host, Some(p.data)) + later);
            && ReadHead(s).Some? && ReadHead(s).value.lines != []
            && ReadHead(s).value.lines[0] == "\0" + ("POST" + " /" + p.param + " HTTP/1.1")
            && Receive(s) == Some(Received(p.data, CRLF + CRLF + later))
  {
    var ls := HeadLines("POST", p.param, p.host, Some(p.data));
    var longer := ["\0" + ls[0]] + ls[1..];
    PostLinesAreClean(p.param, p.host, p.data);
    LengthFieldFound(ls, p.param, p.host, p.data);
    FirstLine(ls, p);
    assert longer[1..] == ls[1..];
    forall i | 0 <= i < |longer| ensures CleanLine(longer[i]) {
      assert CleanLine(ls[i]);
    }
    FramingOfLines(longer, p.data, later);
    LinesInFront("\0", ls);
    FrontFromParts("\0", Lines(ls), CRLF + p.data, CRLF, later);
  }

  lemma MessageStarts(p: PostOf, later: string)
    ensures var s := Message("POST", p.param, p.host, Some(p.data)) + later; s != "" && s[0] == 'P'
  {
    var ls := HeadLines("POST", p.param, p.host, Some(p.data));
    HeadLinesAreCommon("POST", p.param, p.host, Some(p.data));
    FirstOfLines(ls);
  }

  lemma {:induction false} FirstOfLines(ls: seq<string>)
    requires ls != [] && ls[0] != ""
    ensures Lines(ls) != "" && Lines(ls)[0] == ls[0][0]
  {
    if |ls| == 1 {
    } else {
      FirstOfLines(ls[..|ls| - 1]);
    }
  }

  lemma NulAlone()
    ensures ReceiveAll("\0", false) == None
  {
    FindFromIsFirst("\0", CRLF, 0);
  }

  lemma WireStep(posts: seq<PostOf>)
    requires posts != []
    ensures var p := posts[0];
            Wire(posts) == Message("POST", p.param, p.host, Some(p.data)) + ("\0" + Wire(posts[1..]))
  {
    var p := posts[0];
    NulJoinsRest(Message("POST", p.param, p.host, Some(p.data)), Wire(posts[1..]));
  }

  lemma NulJoinsRest(message: string, rest: string)
    ensures message + "\0" + rest == message + ("\0" + rest)
  {
  }

  /** With a NUL left in front a reader that does not ignore it fails, however many messages follow. */
  lemma {:induction false} StrayNul(posts: seq<PostOf>)
    requires CleanPosts(posts)
    ensures ReceiveAll("\0" + Wire(posts), false) == None
  {
    if posts == [] {
      assert "\0" + Wire(posts) == "\0";
      NulAlone();
    } else {
      var later := "\0" + Wire(posts[1..]);
      StrayNul(posts[1..]);
      WireStep(posts);
      NulJoinsRequestLine(posts[0], later);
      NextMessage("\0" + Wire(posts), posts[0].data, later, false);
    }
  }

  lemma {:induction false} LaxReaderRecovers(posts: seq<PostOf>)
    requires CleanPosts(posts)
    ensures ReceiveAll(Wire(posts), true) == Some(Bodies(posts))
  {
    if posts == [] {
    } else {
      var p, later := posts[0], "\0" + Wire(posts[1..]);
      LaxReaderRecovers(posts[1..]);
      WireStep(posts);
      FramingInStream(p.param, p.host, p.data, later);
      MessageStarts(p, later);
      NextMessage(Wire(posts), p.data, later, true);
      FillerIsSkipped(Wire(posts[1..]), true);
    }
  }

  /** The posts sent over one connection are recovered, in order, by a reader that ignores NULs between them. A reader
      that ignores empty lines only recovers them when there are none, and otherwise fails. */
  lemma WireRoundTripIff(posts: seq<PostOf>, nuls: bool)
    requires CleanPosts(posts)
    ensures ReceiveAll(Wire(posts), nuls) == Some(Bodies(posts)) <==> nuls || posts == []
    ensures !nuls && posts != [] ==> ReceiveAll(Wire(posts), nuls) == None
  {
    if nuls {
      LaxReaderRecovers(posts);
    } else if posts != [] {
      var p, later := posts[0], "\0" + Wire(posts[1..]);
      WireStep(posts);
      FramingInStream(p.param, p.host, p.data, later);
      MessageStarts(p, later);
      NextMessage(Wire(posts), p.data, later, false);
      StrayNul(posts[1..]);
    }
  }
}
