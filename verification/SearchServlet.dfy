/** The servlet: which docker directive a machine is given, and the reply that carries it. */
module SearchServlet {
  import opened Wrappers
  import opened JsonReport
  import opened ReportStore

  /** One entry of "docker response info". */
  datatype DockerEntry = DockerEntry(response: int, serverId: real, address: string)

  function Directive(entries: seq<DockerEntry>, macId: real): string {
    if entries == [] then "null"
    else if entries[0].serverId == macId && entries[0].response == 1 then entries[0].address
    else Directive(entries[1..], macId)
  }

  /** The entry at i is the first one that grants the machine an image: its id, and response 1. */
  ghost predicate FirstGrant(entries: seq<DockerEntry>, macId: real, i: nat) {
    && i < |entries| && entries[i].serverId == macId && entries[i].response == 1
    && forall j: nat :: j < i ==> entries[j].serverId != macId || entries[j].response != 1
  }

  /** The address of the first granting entry, and "null" without one. */
  ghost predicate IsDirective(entries: seq<DockerEntry>, macId: real, directive: string) {
    && (forall i: nat :: FirstGrant(entries, macId, i) ==> directive == entries[i].address)
    && ((forall i :: 0 <= i < |entries| ==> entries[i].serverId != macId || entries[i].response != 1) ==>
          directive == "null")
  }

  /** The directive is the address of the first granting entry, and "null" without one. */
  lemma {:induction false} DirectiveIsFirstGrant(entries: seq<DockerEntry>, macId: real)
    ensures IsDirective(entries, macId, Directive(entries, macId))
    ensures Directive(entries, macId) != "null" ==> exists i: nat :: FirstGrant(entries, macId, i)
  {
    if entries == [] {
    } else if entries[0].serverId == macId && entries[0].response == 1 {
      assert FirstGrant(entries, macId, 0);
    } else {
      var rest := entries[1..];
      DirectiveIsFirstGrant(rest, macId);
      forall i: nat | FirstGrant(entries, macId, i)
        ensures Directive(entries, macId) == entries[i].address
      {
        assert FirstGrant(rest, macId, i - 1);
      }
      if Directive(entries, macId) != "null" {
        var i: nat :| FirstGrant(rest, macId, i);
        forall j: nat | j < i + 1 ensures entries[j].serverId != macId || entries[j].response != 1 {
          assert j > 0 ==> entries[j] == rest[j - 1];
        }
        assert FirstGrant(entries, macId, i + 1);
      }
    }
  }

  /** `file` is what the directive file holds, None if it cannot be read or parsed; no result is an exception. */
  method GetDockerResponse(file: Option<seq<DockerEntry>>, macId: real) returns (response: Option<string>)
    ensures response == if file.Some? then Some(Directive(file.value, macId)) else None
    ensures file.Some? ==> IsDirective(file.value, macId, response.value)
  {
    if file.None? {
      return None;
    }
    var result, entries := "null", file.value;
    var i := 0;
    while i < |entries|
      invariant 0 <= i <= |entries| && result == "null"
      invariant Directive(entries, macId) == Directive(entries[i..], macId)
    {
      var response, serverId := entries[i].response, entries[i].serverId;
      if serverId == macId && response == 1 {
        result := entries[i].address;
        break;
      }
      assert entries[i..][1..] == entries[i + 1..];
      i := i + 1;
    }
    DirectiveIsFirstGrant(entries, macId);
    return Some(result);
  }

  const WELCOME := "welcome to my server. It's a POST request."

  /** `trim().equals("")`: no character above the space. */
  predicate Blank(s: string) {
    forall i :: 0 <= i < |s| ==> s[i] <= ' '
  }

  function TrimFront(s: string): string {
    if s != "" && s[0] <= ' ' then TrimFront(s[1..]) else s
  }

  function TrimBack(s: string): string {
    if s != "" && s[|s| - 1] <= ' ' then TrimBack(s[..|s| - 1]) else s
  }

  lemma {:induction false} TrimmedFront(s: string)
    ensures Blank(s) <==> TrimFront(s) == ""
    ensures TrimFront(s) != "" ==> TrimFront(s)[0] > ' '
  {
    if s == "" || s[0] > ' ' {
    } else {
      TrimmedFront(s[1..]);
      assert s == [s[0]] + s[1..];
    }
  }

  lemma {:induction false} TrimmedBack(s: string)
    ensures TrimBack(s) == "" ==> Blank(s)
  {
    if s == "" || s[|s| - 1] > ' ' {
    } else {
      TrimmedBack(s[..|s| - 1]);
      assert s == s[..|s| - 1] + [s[|s| - 1]];
    }
  }

  /** The texts without a visible character are those that trimming empties. */
  lemma BlankIffTrimmedEmpty(s: string)
    ensures Blank(s) <==> TrimBack(TrimFront(s)) == ""
  {
    TrimmedFront(s);
    if TrimFront(s) != "" {
      TrimmedBack(TrimFront(s));
    }
  }

  /** The reply's text in front of the directive, with and without a query. */
  lemma GreetingText(query: string)
    ensures Greeting(None) == "welcome to my server. It's a POST request.\n"
    ensures Greeting(Some(query)) ==
            if TrimBack(TrimFront(query)) == "" then "welcome to my server. It's a POST request.\n"
            else query + ", " + "welcome to my server. It's a POST request." + "\n"
  {
    BlankIffTrimmedEmpty(query);
  }

  /** The part of the reply in front of the directive. */
  function Greeting(query: Option<string>): string {
    (if query.Some? && !Blank(query.value) then query.value + ", " else "") + WELCOME + "\n"
  }

  /** `doPost`; no reply is written when an exception escapes from storing or from reading the directives. */
  method DoPost(query: Option<string>, body: Body, failing: Option<nat>, db: Database, file: Option<seq<DockerEntry>>)
      returns (reply: Option<string>)
    modifies db
    ensures db.Contents() == Run(Executed(body, failing), old(db.Contents()))
    ensures reply == match OutcomeWith(body, failing)
                     case Raised => None
                     case Returned(macId) =>
                       if file.None? then None else Some(Greeting(query) + Directive(file.value, macId))
    ensures body.SyntaxError? ==>
              && db.Contents() == old(db.Contents())
              && reply == if file.None? then None else Some(Greeting(query) + Directive(file.value, 0.0))
  {
    var result := WELCOME;
    var outcome := db.InsertData(body, failing);
    if outcome.Raised? {
      return None;
    }
    var response := GetDockerResponse(file, outcome.macId);
    if response.None? {
      return None;
    }
    result := result + "\n" + response.value;
    if query.Some? && !Blank(query.value) {
      result := query.value + ", " + result;
    }
    ReplyText(query, response.value);
    reply := Some(result);
  }

  lemma ReplyText(query: Option<string>, directive: string)
    ensures Greeting(query) + directive ==
            if query.Some? && !Blank(query.value) then query.value + ", " + (WELCOME + "\n" + directive)
            else WELCOME + "\n" + directive
  {
    assert "" + WELCOME + "\n" + directive == WELCOME + "\n" + directive;
  }
}
