# Resource monitor: agents, report store, and the vendored helpers they build on

C++ agents sample a machine and POST a JSON report. A Java servlet replaces that machine's rows in three SQL tables
and answers with a docker directive, which the agent cuts out of the reply. This project models those two programs
and the MySQL header routines vendored with the agent, and proves what the tables hold, what the agent does, and what
is lost on the way.

| part | modules |
|---|---|
| report store and concurrent reports | `JsonReport`, `ReportStore`, `StoreHistory`, `ConcurrentReports`, `SharedMachines` |
| sample assembly | `Tokens`, `HashCode`, `AddressLines`, `SampleAssembly` |
| agent loop and servlet reply | `SearchServlet`, `AgentLoop`, `Freshness`, `WholeSystem` |
| URL parsing and request framing | `TextSearch`, `CText`, `HttpRequest`, `RequestMessage` |
| byte-level routines | `Bits`, `ByteOrder`, `SkipTrailingSpace`, `Rounding` |

Code that works step by step is an imperative method proved against a specification function; what the program is
for is then proved about those functions. `Database`, `Agent` and `StrTok` are classes because their originals are
state that calls update in place.

## Main results

* **Concurrent reports.** Servlet threads interleave statement by statement. A list of reports ends in the result of
  some serial order in every interleaving exactly when any two of them that name one machine insert at most one row
  between them (`SerializableIffCompatible`, over all reports, empty ones included). At every moment of every run the
  rows of a machine named once are what its own report alone would have left so far.
* **History.** The last report of a machine decides its rows in all three tables; a report cut off after any statement,
  by a failing insert for instance, leaves old rows, no rows, or a prefix of its own rows, never a mix. A returned id
  means a report stored whole exactly when the body is JSON and no insert fails (`ReturnedMeansStoredIff`).
* **Whole system.** For every stream of samples, healthy or not, and every choice of failing inserts: after each agent
  iteration the machine's `serverinfo` row shows the disk and memory of its latest sample, even a skipped one, exactly
  when the last posted sample had every section the servlet reads and its first insert succeeded. `dockerinfo` lists the
  latest sample's containers exactly when they are those that arrived of the last posted sample: without failing
  inserts, when the latest sample lists none, or the posted one had every section and the same containers. `cpuinfo`
  and the remaining columns of `serverinfo` have like conditions (`CpuInfoCurrentIff`, `ServerInfoCurrentIff`).
* **Machine ids.** Two address lines have one id exactly when their base-7 values are equal or are neighbours that the
  two roundings merge, a condition on the value alone (`LineIdsEqualIff`). Over a range of character codes the lines'
  ids separate addresses exactly when it is a single code, or has at most 7 codes, none above 66 (`LinesSeparateIff`).
* **Replies.** The agent reads the servlet's directive back exactly when the marker does not occur in front of the
  greeting, whatever the directive contains.
* **Requests.** A reader after section 3 of RFC 7230 recovers the data of one message exactly, whatever the data. Of the
  posts on a connection a reader recovers the data exactly when it ignores NULs between messages or nothing was posted
  (`WireRoundTripIff`). URLs put together from host, port and path come apart again.
* **Bytes.** The word-at-a-time scan equals the byte loop and reads only aligned words inside the text; loads and
  stores are inverse on their whole ranges.

## Where the code falls short of its promise

* Ids do not identify machines. The unicast addresses starting `0c` and `72` with equal continuations have one id
  (`MacAddressesCollide`), and so have the consecutive addresses `fa:16:3e:1c:00:01` and `fa:16:3e:1c:00:02`
  (`NeighboursCollide`): the line the agent hashes is always beyond the exact integers of a double
  (`AddressLineIsRounded`), and rounding merges neighbours. `LineIdsEqualIff` is the exact condition,
  `CollidingAgentsMix` gives an interleaving of two such machines' reports that no serial order explains, and
  `NeighbouringAgentsMix` gives it for the two consecutive addresses.
* A sample without a cpu or without a network card makes the servlet delete the machine's rows, store nothing and
  fail (`SampleStored`). Later samples that list containers and have the same disk and memory are then skipped, healthy
  or not, so nothing comes back (`WipedAndSkipped`, and `HealthyCanRepeat` that there always is a healthy one); a
  sample without containers is never skipped.
* The first of the four branches of the change filter is covered by the second: a change of containers alone is not
  posted as long as some are still listed (`Consider`). Every reading can be followed by one, and `dockerinfo` then
  shows the old containers (`ContainersGoStale`, `ContainersCanChange`; `DockerInfoCurrentIff` is the exact condition).
* A skipped sample's cpus, rates, location and time are not stored either: with a time of its own in every sample, the
  `serverinfo` row is wholly the latest sample's exactly when that one was posted (`SkippedIsNeverStored`).
* Even a report that inserts nothing takes rows away from another of its machine: run after that one's first insert it
  deletes exactly the inserted row (`EmptyReportCuts`).
* A failing insert leaves the machine with the first rows of its report, and the servlet still returns the id, so the
  agent gets the usual reply (`FailedInsert`). The agent remembers the sample as posted, and the rows stay incomplete
  while samples repeat it (`PartialRowsStay`). A body that is no JSON stores nothing and is answered as machine 0.0.
  Otherwise a returned id does mean a stored report (`ReturnedMeansStoredIff`).
* The repository's README (line 29) calls the posted length unlimited. The message buffer holds it up to 40783
  characters for the agent's server and no further (`AgentPostFitsIff`).
* Every message is sent with the NUL that ends its buffer (client/HttpRequest.h:226). On a connection that is used
  again, which is what the agent prefers, the NUL joins the next request line (`NulJoinsRequestLine`), and a reader that
  ignores empty lines only fails on every non-empty stream (`WireRoundTripIff`).
* A response without the marker is not recognised as such: its text from position 13 on is taken for an image, and a
  response shorter than 13 characters ends the loop with an exception (`ExtractCases`). So a sample without a cpu or a
  card, on which the servlet fails, starts an image that nobody granted and the error page spells (`ErrorPageStarts`);
  `DeployIff` says exactly which image any posted sample starts.
* A one-character host yields no address (`UrlRoundTrip`).
* The fallback `rint` leaves ties next to odd integers above 2^53 - 1 unrounded to even; no double is such a value
  (`Rint`).

## Assumptions

Ids compare exactly, deletes succeed, and each SQL statement is atomic. Any insert of any post may fail; such a report
is the one with the rows in front of that insert (`ExecutedIsProgram`), so the theorems on histories and concurrent
runs cover it. Tables are rows in insertion order, compared as bags. Numbers of readings and columns are exact reals;
machine ids are the integers the double computation yields, with its rounding. `send` passes on all it is given, a post
reaches the servlet, where the server ignores NULs between messages, and its whole reply arrives before the next sample.
The agent's search for the marker starts at 0: the source passes the variable it is just initialising. Characters in
buffers are never NUL except as terminators. `atof` is a parameter; so are, for each iteration, the head of the HTTP
response, error pages included, the failing insert and the directive file, which may be unreadable or malformed. The
byte routines are those of the x86_64 build.

## Model

| member | source | states |
|---|---|---|
| ReportStore.Database.DeleteTable | server/src/JsonDataToMysql.java:139-148 | one delete removes the id's rows from the named table and nothing else |
| ReportStore.Database.ExecuteInsert | server/src/JsonDataToMysql.java:85-86 | one insert adds its row to the table the row belongs to |
| ReportStore.Database.InsertServerInfo | server/src/JsonDataToMysql.java:53-87 | the inserts done before the loop ends, an array runs out or an insert fails, and which of the three it was |
| ReportStore.Database.InsertCpuInfo | server/src/JsonDataToMysql.java:91-104 | one cpuinfo insert per cpu record, in order, up to one that fails |
| ReportStore.Database.InsertDockerInfo | server/src/JsonDataToMysql.java:107-126 | one dockerinfo insert per container record, in order, up to one that fails |
| ReportStore.Database.InsertSections | server/src/JsonDataToMysql.java:53-126 | the three loops do a prefix of the report's inserts: all of them, or those in front of a short array or a failing insert |
| ReportStore.Database.InsertData | server/src/JsonDataToMysql.java:28-137 | for every body, malformed ones included, and every failing insert: the statements run on the tables, and whether an id is returned or an exception escapes |
| ReportStore.AverageRates | server/src/JsonDataToMysql.java:69-80 | both averages are sums over all cards divided by their number, and not a number without cards |
| ReportStore.AverageIs | server/src/JsonDataToMysql.java:79-80 | the average times the count is the sum, and it is not a number exactly without elements |
| ReportStore.ServerCountIs | server/src/JsonDataToMysql.java:53-57 | a serverinfo row is inserted exactly where all four arrays reach |
| ReportStore.MachineIsFirstAddress | server/src/JsonDataToMysql.java:29-42 | the first address names the machine and its rows go first from serverinfo, then dockerinfo, then cpuinfo; a syntax error is answered with machine 0.0, a body without an address with an exception |
| JsonReport.TruncateIs | server/src/JsonDataToMysql.java:99 | truncation goes toward zero by less than one |
| JsonReport.SumIs | client/linuxCommand.h:98-104 | sums are additive and that of one number is the number |
| ReportStore.RunStatements | server/src/JsonDataToMysql.java:40-126 | a report's statement list is its deletes, then its sections, stopping where a section is missing or short |
| StoreHistory.Locality | server/src/JsonDataToMysql.java:40-124 | in any run of statements, a machine's rows depend only on the statements that carry its id |
| StoreHistory.CutOffReport | server/src/JsonDataToMysql.java:40-126 | what every machine's rows are after any prefix of a report's statements |
| StoreHistory.CutOffNeverMixes | server/src/JsonDataToMysql.java:40-126 | a cut-off report leaves old rows or none before its third delete, and a prefix of its final rows after it |
| ReportStore.ExecutedIsProgram | server/src/JsonDataToMysql.java:40-134 | the statements that succeed before a failing insert are the program of the report with the rows in front of it |
| StoreHistory.FailedInsert | server/src/JsonDataToMysql.java:85-134 | for every body and failing insert: the machine has a prefix of the report's rows, every other machine what it had, and after a failure the id is returned all the same |
| StoreHistory.ReturnedMeansStoredIff | server/src/JsonDataToMysql.java:28-137 | a returned id means that all three tables hold the whole report if and only if the body is JSON and no insert fails |
| StoreHistory.WholeReport | server/src/JsonDataToMysql.java:28-137 | a report replaces exactly the rows of the machine it names |
| StoreHistory.RowsPerTable | server/src/JsonDataToMysql.java:53-126 | which rows a report leaves in each of the three tables, for complete and incomplete reports |
| StoreHistory.RowsPerTableWith | server/src/JsonDataToMysql.java:53-134 | the same when an insert fails: each table holds a prefix, whole before the failure and empty behind it |
| StoreHistory.LastWriterWins | server/src/JsonDataToMysql.java:28-137 | after any sequence of reports a machine's rows in each table are those of its last report, or as before without one |
| StoreHistory.RepeatIsNoOp | server/src/JsonDataToMysql.java:28-137 | repeating a machine's last report changes no table, whatever ran since for other machines |
| ConcurrentReports.EveryMoment | server/src/JsonDataToMysql.java:40-126 | at every moment of every interleaving a machine's rows are what its report alone would have left so far |
| ConcurrentReports.OthersUntouched | server/src/JsonDataToMysql.java:139-143 | machines no running report names keep their rows at every moment |
| ConcurrentReports.InterleavingIsSerial | server/src/JsonDataToMysql.java:40-126 | interleavings of reports from distinct machines end in the tables of every serial order |
| SharedMachines.DeletesFirstJoins | server/src/JsonDataToMysql.java:40-42 | for any reports, running all deletes before all inserts leaves a machine the rows of every report that names it |
| SharedMachines.EmptyReportCuts | server/src/JsonDataToMysql.java:40-126 | reports of the machine that insert nothing, run after the first insert of one that does, take exactly its first row away |
| SharedMachines.SharedMachineMixes | server/src/JsonDataToMysql.java:40-126 | when two reports of one machine insert two or more rows between them, some interleaving ends in tables of no serial order |
| SharedMachines.CompatibleIsSerial | server/src/JsonDataToMysql.java:40-126 | otherwise every interleaving ends in the tables of some serial order, also where machines are named several times |
| SharedMachines.SerializableIffCompatible | server/src/JsonDataToMysql.java:40-126 | for any list of reports, every interleaving is serializable if and only if any two naming one machine insert at most one row between them |
| SampleAssembly.DataToJson | client/linuxCommand.h:53-145 | the vectors become the report's sections, a section existing only if something was appended to it |
| SampleAssembly.DiskTotals | client/linuxCommand.h:98-104 | disk total and available are the sums over all file systems |
| SampleAssembly.NetworkInfo | client/linuxCommand.h:113-122 | the section exists exactly with counters; card c has number c, uploads from counter 2c and downloads from 2c+1 |
| SampleAssembly.AssembledIs | client/linuxCommand.h:90-122 | cards are numbered from 0 without gaps; disk and memory are the readings, used as far as they are not available |
| SampleAssembly.SumOfDifferences | client/linuxCommand.h:117-119 | the cards' rates add up to the difference of the counter sums over 1024 |
| SampleAssembly.AveragesOfCards | server/src/JsonDataToMysql.java:69-80 | the stored averages are the counter differences divided by 1024 times the number of cards |
| SampleAssembly.SampleStored | client/linuxCommand.h:53-145 | through both programs a sample becomes one serverinfo row and one row per cpu and container, in terms of the readings; without a cpu or a card it becomes nothing |
| SampleAssembly.WholeCoresStored | server/src/JsonDataToMysql.java:91-104 | a reading of n whole cores is stored as n |
| SampleAssembly.DiskUsedIsFraction | client/linuxCommand.h:99-110 | the used fraction lies between 0 and 1 |
| SampleAssembly.ReadDockerLine | client/linuxCommand.h:293-308 | one container record from the columns of a line; both sizes times 1024 for MiB, times 1048576 for GiB, otherwise unscaled |
| SampleAssembly.ReadDockerLines | client/linuxCommand.h:292-311 | the five vectors have one entry per line, so they can be assembled, and yield each line's record |
| SampleAssembly.DockerLineColumns | client/linuxCommand.h:293-308 | a line rendered from columns with any gaps is read back column by column |
| SampleAssembly.DockerLineSizes | client/linuxCommand.h:297-306 | the same for rendered lines, by unit name, in both size columns |
| Tokens.StrTok.Next | client/linuxCommand.h:204-208 | one `strtok` call returns the next token and keeps the text after its delimiter (section 7.24.5.8 of ISO C11) |
| Tokens.SplitText | client/linuxCommand.h:194-212 | the loop collects the tokens of the whole text |
| Tokens.SplitIsClean | client/linuxCommand.h:194-212 | tokens are non-empty and delimiter-free and together are the text without delimiters |
| Tokens.SplitOfRender | client/linuxCommand.h:194-212 | tokens joined by any non-empty gaps of delimiters split back into themselves |
| HashCode.StringToHashCode | client/linuxCommand.h:214-223 | the loop computes the base-7 accumulation with a rounding after each operation |
| HashCode.PolyConcat | client/linuxCommand.h:214-223 | the polynomial of a concatenation is that of the parts, the first scaled by 7 to the length of the second |
| HashCode.HashIsExact | client/linuxCommand.h:214-223 | for 7-bit text of up to 17 characters nothing is rounded and every value is below 2^53 |
| HashCode.PolySeparatesIff | client/linuxCommand.h:214-223 | over exact integers, equal-length texts of two characters or more over a range of codes are told apart exactly when the range has at most 7 codes |
| HashCode.SeparatesIff | client/linuxCommand.h:214-223 | for the computed ids, a range of more than 7 codes has colliding texts at every length; a smaller one has none where nothing is rounded |
| HashCode.CollisionsExtend | client/linuxCommand.h:218-220 | texts with equal ids keep equal ids under every common continuation, rounding included |
| AddressLines.HashOfLine | client/linuxCommand.h:347-349 | the id of an address line is its address value times 7 and plus 10, rounded after either step |
| AddressLines.LineIdsEqualIff | client/linuxCommand.h:347-349 | two address lines have one id if and only if the address values are equal, or are neighbours past 2^54 / 7 whose lower one leaves 5 modulo 8 |
| AddressLines.LinesSeparateIff | client/linuxCommand.h:347-349 | ids tell all addresses over a range of codes apart if and only if it is one code, or at most 7 codes up to 66 |
| AddressLines.AddressLineIsRounded | client/linuxCommand.h:347-349 | an address line's polynomial is beyond the exact integers, and the id equals it exactly for the given residues |
| AddressLines.MacAddressesCollide | client/linuxCommand.h:347-349 | unicast addresses starting 0c and 72 with any common continuation have one id |
| AddressLines.NeighboursCollide | client/linuxCommand.h:347-349 | fa:16:3e:1c:00:01 and fa:16:3e:1c:00:02 have one id through rounding alone |
| SearchServlet.GetDockerResponse | server/src/SearchServlet.java:141-161 | the loop with its break answers the address of the first entry with the id and response 1, or "null"; an unreadable or malformed file is an exception |
| SearchServlet.DirectiveIsFirstGrant | server/src/SearchServlet.java:149-158 | the directive is the address of the first entry with the id and response 1, and "null" without one |
| SearchServlet.BlankIffTrimmedEmpty | server/src/SearchServlet.java:31 | the queries left out are those that trimming empties |
| SearchServlet.GreetingText | server/src/SearchServlet.java:20-33 | the reply in front of the directive, letter by letter, with and without a query |
| SearchServlet.DoPost | server/src/SearchServlet.java:16-35 | the tables after the request, and the reply text or its absence when an exception escapes from storing or from reading the directives; a syntax error changes nothing and gets the directive of machine 0.0 |
| AgentLoop.Agent.Consider | client/TimeControl.h:57-73 | a sample is posted unless it lists containers and repeats the last posted disk and memory; the remembered values are those of the last posted samples |
| AgentLoop.RememberedIs | client/TimeControl.h:63-73 | remembered are the disk and memory of the last posted sample and the containers of the last one that lists any |
| AgentLoop.KeptShowsLatest | client/TimeControl.h:57-73 | the last posted sample has the disk and memory of the latest one, posted or not |
| AgentLoop.TimerControl | client/TimeControl.h:43-115 | over any stream, with any failing inserts and directive files, the posted samples are the filtered ones, the tables hold them in order, the images started are those of the posts, and the loop ends with the stream or at the first kept sample whose response is too short to read |
| AgentLoop.HistoryOnlyGrows | client/TimeControl.h:43-115 | what was kept, posted and started before is a prefix of what is later |
| AgentLoop.ExtractCases | client/TimeControl.h:101-106 | what the agent takes for an image in every response, with and without the marker |
| AgentLoop.ReplyRoundTrip | client/TimeControl.h:101-106 | the directive is read back if and only if the marker does not precede the greeting |
| AgentLoop.StartedCases | client/TimeControl.h:101-112 | which image any posted sample starts: the directive if the servlet replied, else the error page from position 13 on |
| AgentLoop.DeployIff | client/TimeControl.h:101-112 | an image starts exactly when it is not the text "null" and the first granting entry names it or, without a reply, the error page spells it |
| AgentLoop.OwnReportsDecide | server/src/JsonDataToMysql.java:28-137 | a machine's rows follow its own reports, wherever other machines' statements ran |
| AgentLoop.OwnRows | client/TimeControl.h:57-73 | all three tables hold what arrived of the sample last posted, wherever other machines' statements ran |
| AgentLoop.StoreShowsLatest | client/TimeControl.h:57-73 | the serverinfo row shows the latest sample's disk and memory if and only if the last posted one had every section and its first insert succeeded |
| Freshness.DockerInfoCurrentIff | client/TimeControl.h:57-73 | for all samples: dockerinfo lists the latest containers if and only if they are those that arrived of the last posted sample; without failures, if and only if none are listed or the posted sample had every section and the same containers |
| Freshness.CpuInfoCurrentIff | client/TimeControl.h:57-73 | cpuinfo lists the latest cpus if and only if they equal those that arrived, up to fractions of cores |
| Freshness.ServerInfoCurrentIff | client/TimeControl.h:57-73 | the serverinfo row is wholly the latest sample's if and only if the posted one got that far and had the same rates, location and time |
| Freshness.SkippedIsNeverStored | client/TimeControl.h:57-73 | when times differ, that is so if and only if the latest sample was posted and its first insert succeeded |
| WholeSystem.StoreFollowsAgent | client/TimeControl.h:43-115 | for every stream of readings all three tables hold the rows of the last posted one, in terms of the readings, cut off only by a failing insert; its disk and memory are the latest |
| WholeSystem.ContainersGoStale | client/TimeControl.h:60-62 | after a change of containers alone, dockerinfo of a healthy machine whose rows all arrived goes on showing the old ones if and only if the new list is not empty |
| WholeSystem.ContainersCanChange | client/linuxCommand.h:292-311 | every reading can be followed by a change that is skipped |
| WholeSystem.WipedAndSkipped | client/TimeControl.h:57-73 | after a posted sample without cpu or card, anywhere in a stream, all three tables hold nothing of the machine through any number of samples that list containers and repeat its disk and memory |
| WholeSystem.HealthyCanRepeat | client/linuxCommand.h:53-145 | after every reading such a sample with a cpu and a card is possible |
| WholeSystem.PartialRowsStay | client/TimeControl.h:57-73 | after a failed insert, anywhere in a stream, the tables stay incomplete through any number of samples that repeat the one it was in |
| WholeSystem.ErrorPageStarts | client/TimeControl.h:101-112 | a reading without cpu or card starts the error page's text from position 13 on, whatever the directives say |
| WholeSystem.CollidingAgentsMix | client/linuxCommand.h:347-349 | agents whose address lines have one id have an interleaving that mixes their rows |
| WholeSystem.NeighbouringAgentsMix | client/linuxCommand.h:347-349 | so have the agents of two consecutive addresses |
| CText.Strcat | client/HttpRequest.h:186-200 | appending extends the text in the buffer by exactly the source text |
| CText.AtoiDecimal | client/HttpRequest.h:345 | reading a printed number gives it back |
| CText.AtoiSigned | client/HttpRequest.h:345 | the same behind white space and a sign, whatever other than a digit follows |
| HttpRequest.GetHostAddrFromUrl | client/HttpRequest.h:260-289 | the buffer holds the text after the scheme up to its first slash |
| HttpRequest.GetParamFromUrl | client/HttpRequest.h:293-326 | the buffer holds the text after that slash, or nothing |
| HttpRequest.GetPortFromUrl | client/HttpRequest.h:330-348 | the number after the first colon of the host, or 80 |
| HttpRequest.ScanHost | client/HttpRequest.h:359-378 | the scan copies up to the colon and counts the occurrences of the dot; its flag never rises |
| HttpRequest.GetIPFromUrl | client/HttpRequest.h:352-400 | no address, a text of four parts set apart by dots, or a name to look up |
| HttpRequest.ThreeDotsIff | client/HttpRequest.h:365-385 | the texts counted to three dots are exactly those of four dot-free parts |
| HttpRequest.NumericUrl | client/HttpRequest.h:352-387 | a URL of four such parts has their text as its address |
| HttpRequest.SchemeAnywhere | client/HttpRequest.h:264-276 | the first "http://" anywhere, else the first "https://", ends the dropped part |
| HttpRequest.HostAndParamRebuild | client/HttpRequest.h:260-326 | for every URL host and path rebuild the text after the scheme |
| HttpRequest.UrlRoundTrip | client/HttpRequest.h:260-378 | a URL built from host, port and path is parsed back into them |
| HttpRequest.PlainUrlRoundTrip | client/HttpRequest.h:330-348 | a URL without a port is parsed back too, and stands for port 80 |
| RequestMessage.HttpHeadCreate | client/HttpRequest.h:178-219 | the buffer ends up holding the message for the URL and data |
| RequestMessage.HeadText | client/HttpRequest.h:186-199 | the head that every request has, letter by letter |
| RequestMessage.MessageText | client/HttpRequest.h:201-217 | what a POST adds to it, and that any other request ends there |
| RequestMessage.PostLength | client/HttpRequest.h:186-213 | the length of a POST as the sum of its parts |
| RequestMessage.AgentPostFitsIff | client/HttpRequest.h:183-213 | the buffer holds the agent's message if and only if the data has at most 40783 characters |
| RequestMessage.FramingRoundTrip | client/HttpRequest.h:186-213 | a reader of lines, empty line and Content-Length (sections 3 and 3.3.2 of RFC 7230) gets exactly the data and then two line ends |
| RequestMessage.FramingInStream | client/HttpRequest.h:186-213 | the same with anything behind the message, which is left to be read |
| RequestMessage.RequestRoundTrip | client/HttpRequest.h:178-219 | the round trip for the message of any URL without a carriage return |
| RequestMessage.NulJoinsRequestLine | client/HttpRequest.h:223-227 | the NUL sent behind a message becomes the first character of the next request line |
| RequestMessage.WireRoundTripIff | client/HttpRequest.h:223-227 | what is sent over one connection is read back if and only if the reader ignores NULs between messages or nothing was sent; otherwise the reading fails |
| SkipTrailingSpace.PlainSkip | client/mysql_include/m_string.h:287-289 | the byte loop alone cuts exactly the trailing spaces |
| SkipTrailingSpace.SkipBytes | client/mysql_include/m_string.h:280-281 | a byte loop stops at its bound or at a byte that is no space, having passed only spaces |
| SkipTrailingSpace.SkipWords | client/mysql_include/m_string.h:283-284 | the word loop reads only aligned words inside the text and passes only spaces |
| SkipTrailingSpace.SkipTrailing | client/mysql_include/m_string.h:266-290 | the three loops return what the byte loop returns, for every address, length and content |
| Bits.MyAlignIsRoundUp | client/mysql_include/my_global.h:841 | for powers of two the mask form equals the divide-and-multiply form |
| Bits.RoundUpIsLeast | client/mysql_include/m_string.h:274-275 | the division form is the least multiple not below its argument |
| ByteOrder.Int2Store | client/mysql_include/my_global.h:1180-1183 | stores the low two bytes, low first, and changes nothing else |
| ByteOrder.Int3Store | client/mysql_include/my_global.h:1184-1188 | the same for three bytes |
| ByteOrder.Int4Store | client/mysql_include/my_global.h:1189-1192 | the same for four bytes |
| ByteOrder.Int5Store | client/mysql_include/my_global.h:1193-1198 | the same for five bytes |
| ByteOrder.Int6Store | client/mysql_include/my_global.h:1199-1205 | the same for six bytes |
| ByteOrder.Int8Store | client/mysql_include/my_global.h:1206-1208 | two four-byte stores of the halves store the eight bytes |
| ByteOrder.ValueOfBytes | client/mysql_include/my_global.h:1151-1208 | the positional value of the stored bytes is the number modulo the width |
| ByteOrder.BytesOfValue | client/mysql_include/my_global.h:1151-1208 | the bytes of the positional value of some bytes are those bytes |
| ByteOrder.NothingWraps | client/mysql_include/my_global.h:1151-1179 | every shift and every partial sum of the unsigned loads is the exact integer |
| ByteOrder.UnsignedLoads | client/mysql_include/my_global.h:1151-1179 | each unsigned load is the positional value of its bytes |
| ByteOrder.SignedLoads | client/mysql_include/my_global.h:1136-1150 | the signed loads of two, three, four and eight bytes read two's complement of their width, in buffers of any sufficient length |
| ByteOrder.StoresUndoLoads | client/mysql_include/my_global.h:1151-1208 | storing what an unsigned load read restores the bytes, at every width |
| ByteOrder.StoresUndoSignedLoads | client/mysql_include/my_global.h:1136-1208 | so does storing what a signed load read |
| ByteOrder.LoadsUndoStores | client/mysql_include/my_global.h:1151-1208 | unsigned loads after stores give the value modulo the width |
| ByteOrder.SignedLoadsUndoStores | client/mysql_include/my_global.h:1136-1208 | each signed load after the store of its width gives back every value of its range |
| ByteOrder.NarrowLoadsUndoStores | client/mysql_include/my_global.h:1136-1208 | and so do the narrower signed loads after an eight-byte store |
| ByteOrder.NetworkOrder | client/mysql_include/my_global.h:1276-1279 | the network-order load of the reversed bytes gives the 32-bit value |
| Rounding.Rint | client/mysql_include/my_global.h:1459-1476 | nearest integer, ties to even, for every input but the oversized ties, which are characterised |
| Rounding.NearestEvenIsUnique | client/mysql_include/my_global.h:1451-1457 | nearest with ties to even determines the result |
| Rounding.RintIsOdd | client/mysql_include/my_global.h:1459-1476 | the fallback commutes with negation, on every input |
| Rounding.RintIsMonotone | client/mysql_include/my_global.h:1459-1476 | it preserves order, oversized ties included |
| Rounding.RintIsIdempotent | client/mysql_include/my_global.h:1459-1476 | its results are fixed, so rounding twice is rounding once |

## Left out

- SampleAssembly.DataToJson: does not model a zero memory or disk total, because the JSON text written for the non-finite quotient comes from jsoncpp, whose source is not in the repository.
- ReportStore.Database.DeleteTable: does not model a failing delete, which the source reports and ignores.
- AgentLoop.TimerControl: runs over a finite stream of samples instead of forever, and assumes delivery; the agent remembers a sample before sending it, so a lost post is not repeated.
- RequestMessage.HttpHeadCreate: requires a URL shorter than the 1024-byte buffers it is copied to, where the caller's own guard admits one character more, and a message shorter than its buffer; beyond either the source writes past a buffer, which has no defined result to state.
- CText.Atoi: is not bounded to the range of int, outside which `atoi` is undefined.
- Sockets, DNS, `select`, `popen`, `sleep`, threads' scheduling, servlet plumbing, HTTP responses split over several reads or longer than the agent's 4096-byte buffer.
- JSON text: parsing and printing by jsoncpp and Gson, elements that lack a member, and joining of body lines.
- JDBC: a row whose average is not a number is stored as such.
- `client/jsonToMysql.h` (not called), other MySQL headers, the i386, big-endian and floating-point store macros.
- Rounding of doubles elsewhere than in machine ids.
