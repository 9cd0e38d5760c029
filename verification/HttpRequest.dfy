/** Cutting a URL into host, port, address and path, and building the request message. */
module HttpRequest {
  import opened TextSearch
  import opened CText

  const BUFSIZE := 41000
  const URLSIZE := 1024

  // ----- URLs

  /** The text after the first "http://" wherever it stands, else after the first "https://", else all of it. */
  function AfterScheme(url: string): string {
    match Find(url, "http://")
    case Some(i) => url[i + 7..]
    case None =>
      match Find(url, "https://")
      case Some(i) => url[i + 8..]
      case None => url
  }

  function IndexOf(s: string, c: char): (n: nat)
    ensures n <= |s| && (n < |s| ==> s[n] == c)
    ensures forall i :: 0 <= i < n ==> s[i] != c
  {
    if s == [] || s[0] == c then 0 else 1 + IndexOf(s[1..], c)
  }

  function Host(addr: string): string {
    addr[..IndexOf(addr, '/')]
  }

  function Param(addr: string): string {
    var n := IndexOf(addr, '/');
    if n < |addr| then addr[n + 1..] else []
  }

  function Port(host: string): int {
    var n := IndexOf(host, ':');
    if n < |host| then Atoi(host[n + 1..]) else 80
  }

  function Dots(s: string): nat {
    if s == [] then 0 else Dots(s[..|s| - 1]) + if s[|s| - 1] == '.' then 1 else 0
  }

  lemma {:induction false} DotsAreCounted(s: string)
    ensures Dots(s) == multiset(s)['.']
  {
    if s == [] {
    } else {
      DotsAreCounted(s[..|s| - 1]);
      assert s == s[..|s| - 1] + [s[|s| - 1]];
    }
  }

  /** Four parts with a dot between any two. */
  ghost predicate IsDottedQuad(text: string) {
    exists a: string, b: string, c: string, d: string ::
      '.' !in a && '.' !in b && '.' !in c && '.' !in d && text == Quad(a, b, c, d)
  }

  ghost function Quad(a: string, b: string, c: string, d: string): string {
    a + "." + b + "." + c + "." + d
  }

  lemma QuadHasThreeDots(a: string, b: string, c: string, d: string)
    requires '.' !in a && '.' !in b && '.' !in c && '.' !in d
    ensures Dots(Quad(a, b, c, d)) == 3
  {
    DotsAreCounted(Quad(a, b, c, d));
    assert multiset(Quad(a, b, c, d)) ==
           multiset(a) + multiset{'.'} + multiset(b) + multiset{'.'} + multiset(c) + multiset{'.'} + multiset(d);
  }

  lemma {:induction false} CutAtDot(text: string) returns (a: string, rest: string)
    requires Dots(text) > 0
    ensures '.' !in a && text == a + "." + rest && Dots(rest) == Dots(text) - 1
  {
    DotsFromFront(text);
    if text[0] == '.' {
      a, rest := "", text[1..];
      assert text == a + "." + rest;
    } else {
      var front;
      front, rest := CutAtDot(text[1..]);
      a := [text[0]] + front;
      assert text == [text[0]] + (front + "." + rest);
    }
  }

  lemma DotsFromFront(s: string)
    ensures s != "" ==> Dots(s) == Dots(s[1..]) + if s[0] == '.' then 1 else 0
    ensures s == "" ==> Dots(s) == 0
  {
    if s != "" {
      DotsAreCounted(s);
      DotsAreCounted(s[1..]);
      assert s == [s[0]] + s[1..];
    }
  }

  lemma NoDots(s: string)
    requires Dots(s) == 0
    ensures '.' !in s
  {
    DotsAreCounted(s);
  }

  lemma QuadWitness(text: string)
    requires Dots(text) == 3
    ensures IsDottedQuad(text)
  {
    var a, x := CutAtDot(text);
    var b, y := CutAtDot(x);
    var c, d := CutAtDot(y);
    NoDots(d);
    JoinQuad(a, b, c, d);
  }

  lemma JoinQuad(a: string, b: string, c: string, d: string)
    ensures a + "." + (b + "." + (c + "." + d)) == Quad(a, b, c, d)
  {
  }

  lemma QuadDots(text: string)
    requires IsDottedQuad(text)
    ensures Dots(text) == 3 && |text| >= 3
  {
    var a: string, b: string, c: string, d: string :|
      '.' !in a && '.' !in b && '.' !in c && '.' !in d && text == Quad(a, b, c, d);
    QuadHasThreeDots(a, b, c, d);
  }

  /** The texts with three dots are those of four dot-free parts. */
  lemma ThreeDotsIff(text: string)
    ensures Dots(text) == 3 <==> IsDottedQuad(text)
    ensures IsDottedQuad(text) ==> |text| >= 3
  {
    if Dots(text) == 3 {
      QuadWitness(text);
    }
    if IsDottedQuad(text) {
      QuadDots(text);
    }
  }

  /** What the scan decides: no address, the text itself as an address, or a name to look up. */
  datatype Address = NoAddress | Numeric(text: string) | Name(text: string)

  function AddressOf(host: string): Address {
    var text := host[..IndexOf(host, ':')];
    if |text| <= 1 then NoAddress else if Dots(text) == 3 then Numeric(text) else Name(text)
  }

  /** A buffer of the URL's size class, filled as `calloc` would. */
  method Zeroed(n: nat) returns (buf: array<char>)
    ensures fresh(buf) && buf.Length == n && forall i :: 0 <= i < n ==> buf[i] == '\0'
  {
    buf := new char[n](_ => '\0');
  }

  method GetHostAddrFromUrl(strUrl: string) returns (strHostAddr: array<char>)
    requires IsCString(strUrl) && |strUrl| < URLSIZE
    ensures fresh(strHostAddr) && Text(strHostAddr) == Host(AfterScheme(strUrl))
  {
    var strAddr := AfterScheme(strUrl);
    var iLen := |strAddr|;
    ghost var n := IndexOf(strAddr, '/');
    strHostAddr := Zeroed(iLen + 1);
    var i := 0;
    while i < iLen + 1
      invariant 0 <= i <= iLen + 1 && strHostAddr.Length == iLen + 1 && fresh(strHostAddr)
      invariant i <= n || (n == iLen && i == iLen + 1)
      invariant forall j :: 0 <= j < iLen + 1 ==> strHostAddr[j] == if j < i && j < iLen then strAddr[j] else '\0'
    {
      if i < iLen && strAddr[i] == '/' {
        break;
      }
      strHostAddr[i] := if i < iLen then strAddr[i] else '\0';
      i := i + 1;
    }
    assert strHostAddr[..][..n] == strAddr[..n];
    UpToNulIs(strHostAddr[..], n);
  }

  lemma ParamAt(addr: string, i: nat)
    requires IsCString(addr) && i < |addr| && addr[i] == '/' && forall j :: 0 <= j < i ==> addr[j] != '/'
    ensures Param(addr) == addr[i + 1..] && IsCString(addr[i + 1..])
  {
    assert IndexOf(addr, '/') == i;
  }

  method GetParamFromUrl(strUrl: string) returns (strParam: array<char>)
    requires IsCString(strUrl) && |strUrl| < URLSIZE
    ensures fresh(strParam) && Text(strParam) == Param(AfterScheme(strUrl))
  {
    var strAddr := AfterScheme(strUrl);
    var iLen := |strAddr|;
    strParam := Zeroed(iLen + 1);
    UpToNulIs(strParam[..], 0);
    var iPos := -1;
    var i := 0;
    while i < iLen + 1
      invariant 0 <= i <= iLen + 1
      invariant iPos == -1 && forall j :: 0 <= j < i && j < iLen ==> strAddr[j] != '/'
    {
      if i < iLen && strAddr[i] == '/' {
        iPos := i;
        break;
      }
      i := i + 1;
    }
    if iPos != -1 {
      ParamAt(strAddr, iPos);
      Strcat(strParam, strAddr[iPos + 1..]);
    }
  }

  method GetPortFromUrl(strUrl: string) returns (iPort: int)
    requires IsCString(strUrl) && |strUrl| < URLSIZE
    ensures iPort == Port(Host(AfterScheme(strUrl)))
  {
    var strHostAddr := GetHostAddrFromUrl(strUrl);
    var strAddr := UpToNul(strHostAddr[..]);
    var n := IndexOf(strAddr, ':');
    if n == |strAddr| {
      iPort := 80;
    } else {
      iPort := Atoi(strAddr[n + 1..]);
    }
  }

  lemma NulIsNoDot(host: string)
    ensures Dots(host + ['\0']) == Dots(host)
  {
    assert (host + ['\0'])[..|host|] == host;
  }

  lemma Scanned(host: string, s: string, buf: string, i: nat, n: nat)
    requires IsCString(host) && s == host + ['\0'] && |buf| == |s| && n <= |host|
    requires i == n || (n == |host| && i == |s|)
    requires forall j :: 0 <= j < |s| ==> buf[j] == if j < i then s[j] else '\0'
    ensures UpToNul(buf) == host[..n] && Dots(s[..i]) == Dots(host[..n])
  {
    assert s[..n] == host[..n] == buf[..n];
    UpToNulIs(buf, n);
    if i == |s| {
      NulIsNoDot(host);
      assert s[..i] == s && host[..n] == host;
    }
  }

  /** The scanning loop of `GetIPFromUrl`: copies up to the colon and counts dots. Its digit test holds of every
      character, so the flag stays 0. */
  method ScanHost(host: string) returns (strAddr: array<char>, iCount: nat, iFlag: int)
    requires IsCString(host)
    ensures fresh(strAddr) && Text(strAddr) == host[..IndexOf(host, ':')]
    ensures iCount == multiset(host[..IndexOf(host, ':')])['.'] && iFlag == 0
  {
    DotsAreCounted(host[..IndexOf(host, ':')]);
    var s, n := host + ['\0'], IndexOf(host, ':');
    assert forall j :: 0 <= j < |host| ==> s[j] == host[j];
    strAddr := Zeroed(|s|);
    iCount, iFlag := 0, 0;
    var i := 0;
    while i < |s|
      invariant 0 <= i <= |s| && iFlag == 0 && iCount == Dots(s[..i])
      invariant i <= n || (n == |host| && i == |s|)
      invariant forall j :: 0 <= j < |s| ==> strAddr[j] == if j < i then s[j] else '\0'
    {
      if s[i] == ':' {
        break;
      }
      strAddr[i] := s[i];
      assert s[..i + 1][..i] == s[..i];
      if s[i] == '.' {
        iCount := iCount + 1;
      } else if iFlag != 1 {
        iFlag := if s[i] >= '0' || s[i] <= '9' then 0 else 1;
      }
      i := i + 1;
    }
    Scanned(host, s, strAddr[..], i, n);
  }

  /** What a name resolves to is not part of the model. */
  method GetIPFromUrl(strUrl: string) returns (ip: Address)
    requires IsCString(strUrl) && |strUrl| < URLSIZE
    ensures ip == AddressOf(Host(AfterScheme(strUrl)))
    ensures var host := Host(AfterScheme(strUrl));
            var text := host[..IndexOf(host, ':')];
            ip == if |text| <= 1 then NoAddress else if IsDottedQuad(text) then Numeric(text) else Name(text)
  {
    AddressIs(Host(AfterScheme(strUrl)));
    ghost var whole := Host(AfterScheme(strUrl));
    DotsAreCounted(whole[..IndexOf(whole, ':')]);
    var strHostAddr := GetHostAddrFromUrl(strUrl);
    var strAddr, iCount, iFlag := ScanHost(UpToNul(strHostAddr[..]));
    var text := UpToNul(strAddr[..]);
    if |text| <= 1 {
      ip := NoAddress;
    } else if iCount == 3 && iFlag == 0 {
      ip := Numeric(text);
    } else {
      ip := Name(text);
    }
  }

  /** The text in front of the colon: too short, or taken as an address exactly when it consists of four parts set
      apart by dots, or a name. */
  lemma AddressIs(host: string)
    ensures var text := host[..IndexOf(host, ':')];
            AddressOf(host) ==
            if |text| <= 1 then NoAddress else if IsDottedQuad(text) then Numeric(text) else Name(text)
  {
    ThreeDotsIff(host[..IndexOf(host, ':')]);
  }

  /** Four parts free of dots, slashes and colons make a URL whose address is the text itself. */
  lemma NumericUrl(a: string, b: string, c: string, d: string, p: nat, path: string)
    requires forall x :: x in [a, b, c, d] ==> '.' !in x && '/' !in x && ':' !in x
    ensures var url := "http://" + (a + "." + b + "." + c + "." + d) + ":" + Decimal(p) + "/" + path;
            AddressOf(Host(AfterScheme(url))) == Numeric(a + "." + b + "." + c + "." + d)
  {
    var h := a + "." + b + "." + c + "." + d;
    assert a in [a, b, c, d] && b in [a, b, c, d] && c in [a, b, c, d] && d in [a, b, c, d];
    assert h == Quad(a, b, c, d);
    ThreeDotsIff(h);
    UrlRoundTrip(h, p, path);
  }

  /** The scheme is found wherever it first stands, and everything up to its end is dropped. */
  lemma SchemeAnywhere(url: string, i: nat)
    ensures FirstAt(url, "http://", i) ==> url == url[..i] + "http://" + AfterScheme(url)
    ensures !Contains(url, "http://") && FirstAt(url, "https://", i) ==> url == url[..i] + "https://" + AfterScheme(url)
    ensures !Contains(url, "http://") && !Contains(url, "https://") ==> AfterScheme(url) == url
  {
    FindIsFirst(url, "http://", i);
    FindIsFirst(url, "https://", i);
    if FirstAt(url, "http://", i) {
      CutOut(url, "http://", i);
    } else if FirstAt(url, "https://", i) {
      CutOut(url, "https://", i);
    }
  }

  lemma CutOut(s: string, pat: string, i: nat)
    requires OccursAt(s, pat, i)
    ensures s == s[..i] + pat + s[i + |pat|..]
  {
  }

  /** For every URL, host and path rebuild the text after the scheme, and the host ends at its first slash. */
  lemma HostAndParamRebuild(url: string)
    ensures var addr := AfterScheme(url);
            && addr == Host(addr) + (if '/' in addr then "/" + Param(addr) else "")
            && '/' !in Host(addr)
            && ('/' !in addr ==> Param(addr) == "")
  {
  }

  lemma {:induction false} IndexOfFirst(a: string, c: char, b: string)
    requires c !in a
    ensures IndexOf(a + [c] + b, c) == |a|
  {
    if a == [] {
      assert (a + [c] + b)[0] == c;
    } else {
      assert (a + [c] + b)[1..] == a[1..] + [c] + b;
      IndexOfFirst(a[1..], c, b);
    }
  }

  /** A URL put together from host, port and path comes apart again. */
  lemma UrlRoundTrip(h: string, p: nat, path: string)
    requires h != "" && '/' !in h && ':' !in h
    ensures var addr := AfterScheme("http://" + h + ":" + Decimal(p) + "/" + path);
            && Host(addr) == h + ":" + Decimal(p)
            && Param(addr) == path
            && Port(Host(addr)) == p
            && (|h| >= 2 <==> AddressOf(Host(addr)) != NoAddress)
            && (|h| >= 2 ==> AddressOf(Host(addr)).text == h)
            && (AddressOf(Host(addr)).Numeric? <==> IsDottedQuad(h))
  {
    ThreeDotsIff(h);
    var host := h + ":" + Decimal(p);
    UrlFromParts("http://", h, ":", Decimal(p), "/", path);
    AfterLeadingScheme(host + "/" + path);
    NoSlash(h, Decimal(p));
    CutAtSlash(host, path);
    CutAtColon(h, p);
  }

  /** So does a URL without a port, which stands for port 80. */
  lemma PlainUrlRoundTrip(h: string, path: string)
    requires '/' !in h && ':' !in h
    ensures var addr := AfterScheme("http://" + h + "/" + path);
            Host(addr) == h && Param(addr) == path && Port(Host(addr)) == 80
  {
    assert "http://" + h + "/" + path == "http://" + (h + "/" + path);
    AfterLeadingScheme(h + "/" + path);
    CutAtSlash(h, path);
  }

  lemma UrlFromParts(a: string, b: string, c: string, d: string, e: string, f: string)
    ensures a + b + c + d + e + f == a + (b + c + d + e + f)
  {
  }

  lemma NoSlash(h: string, digits: string)
    requires '/' !in h && forall i :: 0 <= i < |digits| ==> IsDigit(digits[i])
    ensures '/' !in h + ":" + digits
  {
  }

  lemma AfterLeadingScheme(addr: string)
    ensures AfterScheme("http://" + addr) == addr
  {
  }

  lemma CutAtSlash(host: string, path: string)
    requires '/' !in host
    ensures Host(host + "/" + path) == host && Param(host + "/" + path) == path
  {
    IndexOfFirst(host, '/', path);
  }

  lemma CutAtColon(h: string, p: nat)
    requires ':' !in h
    ensures var host := h + ":" + Decimal(p);
            && host[..IndexOf(host, ':')] == h
            && Port(host) == p
  {
    var host := h + ":" + Decimal(p);
    IndexOfFirst(h, ':', Decimal(p));
    assert host[|h| + 1..] == Decimal(p);
    AtoiDecimal(p);
  }
}
