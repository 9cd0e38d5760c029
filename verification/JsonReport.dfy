/** The JSON report an agent posts, after parsing: one optional array per top-level member.
    Numbers are exact reals; every array element carries all of its members. */
module JsonReport {
  import opened Wrappers

  datatype Capacity = Capacity(available: real, total: real, used: real)

  datatype Cpu = Cpu(id: int, source: real, mhz: real, cores: real)

  datatype Network = Network(id: int, upload: real, download: real)

  datatype Docker = Docker(id: string, cpu: real, memoryUsage: real, memoryLimit: real, memory: real)

  datatype Report = Report(
    mac: Option<seq<real>>,
    cpu: Option<seq<Cpu>>,
    memory: Option<seq<Capacity>>,
    disk: Option<seq<Capacity>>,
    network: Option<seq<Network>>,
    docker: Option<seq<Docker>>,
    location: Option<seq<string>>,
    timestamp: Option<seq<string>>)

  /** What the servlet's parser makes of a request body. */
  datatype Body = SyntaxError | NotObject | Object(report: Report)

  function Sum(xs: seq<real>): real {
    if xs == [] then 0.0 else Sum(xs[..|xs| - 1]) + xs[|xs| - 1]
  }

  function Uploads(cards: seq<Network>): seq<real> {
    seq(|cards|, i requires 0 <= i < |cards| => cards[i].upload)
  }

  function Downloads(cards: seq<Network>): seq<real> {
    seq(|cards|, i requires 0 <= i < |cards| => cards[i].download)
  }

  /** Conversion of a real to an integer, truncating toward zero as Java and C do. */
  function Truncate(x: real): int {
    if x >= 0.0 then x.Floor else -((-x).Floor)
  }

  /** Toward zero, by less than one. */
  lemma TruncateIs(x: real)
    ensures x >= 0.0 ==> Truncate(x) as real <= x < Truncate(x) as real + 1.0
    ensures x <= 0.0 ==> Truncate(x) as real - 1.0 < x <= Truncate(x) as real
  {
  }

  /** A sum is determined by one element and by its two parts. */
  lemma {:induction false} SumIs(a: seq<real>, b: seq<real>, x: real)
    ensures Sum([x]) == x
    ensures Sum(a + b) == Sum(a) + Sum(b)
  {
    assert [x][..0] == [];
    if b == [] {
      assert a + b == a;
    } else {
      SumIs(a, b[..|b| - 1], x);
      assert (a + b)[..|a + b| - 1] == a + b[..|b| - 1];
    }
  }
}
