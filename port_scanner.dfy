/** The port scanner: choosing the ports to probe, classifying and
    filtering the replies, the delay schedule of a delayed scan, and the
    placement of the scanner's own address among the decoys of a decoy
    scan.

    Sending and receiving packets, threads and sleeping are not modelled:
    the exchanges a scan produced are given to the model as values, and
    every random draw is a parameter. */
module PortScanner {
  import opened Wrappers
  import opened Text

  /** The exceptions these steps raise in the source. */
  datatype ScanError =
    | InvalidPort(cause: ParseError)   // `int()` refuses a field of the port list
    | NoPorts                          // `ports_to_be_used[0]` on an empty list
    | NoResponses                      // iterating responses that were never set
    | NoTcpLayer(port: int)            // `received[TCP]` on a reply without TCP
    | InvalidDelay(cause: ParseError)  // `float()` refuses a field of the delay
    | EmptyRange                       // `randint(a, b)` with b < a

  // ---------------------------------------------------------------------
  // Port selection

  /** Field `i` is the first that `parse` refuses, and it refuses it with `e`. */
  predicate FirstRefusal<T>(fields: seq<string>, parse: string -> Result<T, ParseError>, i: nat, e: ParseError)
  {
    && i < |fields|
    && parse(fields[i]) == Failure(e)
    && forall j :: 0 <= j < i ==> parse(fields[j]).Success?
  }

  /** `[parse(v) for v in fields]`: every field converted, in order; the
      first field `parse` refuses raises, with its own error. */
  function ParseAll<T>(fields: seq<string>, parse: string -> Result<T, ParseError>): (r: Result<seq<T>, ParseError>)
    ensures r.Success? <==> forall i :: 0 <= i < |fields| ==> parse(fields[i]).Success?
    ensures r.Success? ==>
      |r.value| == |fields| && forall i :: 0 <= i < |fields| ==> r.value[i] == parse(fields[i]).value
    ensures r.Failure? ==> exists i: nat :: FirstRefusal(fields, parse, i, r.error)
  {
    if fields == [] then Success([])
    else
      match parse(fields[0])
      case Failure(e) =>
        assert FirstRefusal(fields, parse, 0, e);
        Failure(e)
      case Success(v) =>
        match ParseAll(fields[1..], parse)
        case Failure(e) =>
          assert exists i: nat :: FirstRefusal(fields, parse, i, e) by {
            var k: nat :| FirstRefusal(fields[1..], parse, k, e);
            assert parse(fields[k + 1]) == Failure(e);
            forall j | 0 <= j < k + 1 ensures parse(fields[j]).Success? {
              if j > 0 { assert parse(fields[1..][j - 1]).Success?; }
            }
            assert FirstRefusal(fields, parse, k + 1, e);
          }
          Failure(e)
        case Success(vs) => Success([v] + vs)
  }

  /** The ports named by a `-p`/`-D` argument: its comma-separated fields
      when it is given and not empty, otherwise every port of the table. */
  function PortList(specified: Option<string>, tablePorts: seq<int>): Result<seq<int>, ScanError>
  {
    if specified.Some? && specified.value != "" then
      match ParseAll(Split(specified.value, ','), ParseInt)
      case Failure(e) => Failure(InvalidPort(e))
      case Success(ps) => Success(ps)
    else Success(tablePorts)
  }

  /** `random.sample(pool, len(pool))`: each step takes the element at a
      random index of the remaining pool and moves the pool's last element
      into its place. `draw(i)` is the random number of step `i`. */
  function Sample(pool: seq<int>, draw: nat -> nat, step: nat): (r: seq<int>)
    ensures |r| == |pool|
    decreases |pool|
  {
    if pool == [] then []
    else
      var n := |pool|;
      var j := draw(step) % n;
      [pool[j]] + Sample(pool[j := pool[n - 1]][..n - 1], draw, step + 1)
  }

  /** The remaining pool after a step holds everything but the element taken. */
  lemma PoolAfterStep(pool: seq<int>, j: nat)
    requires j < |pool|
    ensures multiset(pool[j := pool[|pool| - 1]][..|pool| - 1]) + multiset{pool[j]} == multiset(pool)
  {
    var n := |pool|;
    var last := pool[n - 1];
    assert pool == pool[..n - 1] + [last];
    if j < n - 1 {
      assert pool[j := last][..n - 1] == pool[..n - 1][j := last];
      assert pool[..n - 1] == pool[..j] + [pool[j]] + pool[j + 1..n - 1];
      assert pool[..n - 1][j := last] == pool[..j] + [last] + pool[j + 1..n - 1];
    } else {
      assert pool[j := last][..n - 1] == pool[..n - 1];
    }
  }

  /** A random sample of the whole pool is a permutation of it. */
  lemma {:induction false} SampleIsPermutation(pool: seq<int>, draw: nat -> nat, step: nat)
    ensures multiset(Sample(pool, draw, step)) == multiset(pool)
    decreases |pool|
  {
    if pool != [] {
      var n := |pool|;
      var j := draw(step) % n;
      var rest := pool[j := pool[n - 1]][..n - 1];
      SampleIsPermutation(rest, draw, step + 1);
      PoolAfterStep(pool, j);
      assert Sample(pool, draw, step) == [pool[j]] + Sample(rest, draw, step + 1);
    }
  }

  /** The decimal forms of `ports`, as `str()` prints them. */
  function Printed(ports: seq<nat>): (fields: seq<string>)
    ensures |fields| == |ports|
    ensures forall i :: 0 <= i < |ports| ==> fields[i] == NatToString(ports[i])
  {
    if ports == [] then [] else [NatToString(ports[0])] + Printed(ports[1..])
  }

  /** `int()` reads back each printed port, in order. */
  lemma {:induction false} ParsePrintedPorts(ports: seq<nat>)
    ensures ParseAll(Printed(ports), ParseInt) == Success(ports)
  {
    var fields := Printed(ports);
    forall i | 0 <= i < |ports| ensures ParseInt(fields[i]) == Success(ports[i] as int) {
      ParseIntOfNatToString(ports[i]);
    }
    var r := ParseAll(fields, ParseInt);
    assert r.Success?;
    assert r.value == ports;
  }

  lemma PrintedHasNoComma(ports: seq<nat>)
    ensures forall i :: 0 <= i < |ports| ==> ',' !in Printed(ports)[i]
  {
    forall i | 0 <= i < |ports|
      ensures ',' !in Printed(ports)[i]
    {
      var f := Printed(ports)[i];
      assert AllDigits(f);
      assert forall k :: 0 <= k < |f| ==> f[k] != ',';
    }
  }

  /** A comma-separated list of port numbers names exactly those ports,
      in the order written, whatever the table holds. */
  lemma PortListOfPrinted(ports: seq<nat>, tablePorts: seq<int>)
    requires |ports| >= 1
    ensures PortList(Some(Join(Printed(ports), ',')), tablePorts) == Success(ports)
  {
    var fields := Printed(ports);
    var text := Join(fields, ',');
    PrintedHasNoComma(ports);
    SplitJoin(fields, ',');
    ParsePrintedPorts(ports);
    JoinNotEmpty(fields, ',');
  }

  // ---------------------------------------------------------------------
  // Classification of replies

  /** The status shown for a reply. */
  datatype Status =
    | Opened | PotentiallyOpen | Closed | ConnectionClosed | Reset | Filtered | UnknownStatus

  /** The `match` of `_display_result` on the reply's TCP flags (`None`
      when there was no reply). */
  function Classify(flags: Option<string>): Status
  {
    match flags
    case None => Filtered
    case Some(f) =>
      if f == "SA" then Opened
      else if f == "S" then PotentiallyOpen
      else if f == "RA" then Closed
      else if f == "F" then ConnectionClosed
      else if f == "R" then Reset
      else UnknownStatus
  }

  /** Only a SYN-ACK counts as open, only silence as filtered, and the five
      named flag sets each have a status of their own. */
  lemma ClassifyCases(flags: Option<string>)
    ensures Classify(flags) == Opened <==> flags == Some("SA")
    ensures Classify(flags) == Filtered <==> flags == None
    ensures Classify(flags) == UnknownStatus <==>
      flags.Some? && flags.value !in {"SA", "S", "RA", "F", "R"}
  {
  }

  /** A reply seen by the scanner: its TCP flags, or `None` when it has no
      TCP layer. */
  datatype Reply = Reply(tcpFlags: Option<string>)

  /** One probe sent and what came back for it. */
  datatype Exchange = Exchange(dport: int, received: Option<Reply>)

  /** One printed result line. */
  datatype ReportLine = ReportLine(status: Status, port: int, description: string)

  /** The table's description of a port, or "Generic Port". */
  function Describe(names: map<int, string>, port: int): string
  {
    if port in names then names[port] else "Generic Port"
  }

  /** The lines `_process_responses` prints for the exchanges, and the
      exception that stops it at the first reply without a TCP layer. */
  function Report(exchanges: seq<Exchange>, show: bool, names: map<int, string>): (r: (seq<ReportLine>, Option<ScanError>))
    ensures |r.0| <= |exchanges|
    decreases |exchanges|
  {
    if exchanges == [] then ([], None)
    else
      var (lines, err) := Report(exchanges[..|exchanges| - 1], show, names);
      var x := exchanges[|exchanges| - 1];
      if err.Some? then (lines, err)
      else if x.received.Some? && x.received.value.tcpFlags.None? then (lines, Some(NoTcpLayer(x.dport)))
      else
        var flags := if x.received.Some? then x.received.value.tcpFlags else None;
        if flags == Some("SA") || show then
          (lines + [ReportLine(Classify(flags), x.dport, Describe(names, x.dport))], None)
        else (lines, None)
  }

  /** Without `show`, only open ports are printed; every printed line
      describes its port as the table does. */
  lemma {:induction false} ReportShowsOnlyOpenUnlessShow(exchanges: seq<Exchange>, show: bool, names: map<int, string>)
    ensures forall i :: 0 <= i < |Report(exchanges, show, names).0| ==>
      var line := Report(exchanges, show, names).0[i];
      (show || line.status == Opened) && line.description == Describe(names, line.port)
    decreases |exchanges|
  {
    if exchanges != [] {
      ReportShowsOnlyOpenUnlessShow(exchanges[..|exchanges| - 1], show, names);
    }
  }

  /** With `show`, when every reply has a TCP layer, there is one line per
      exchange, in order, for the port probed, with its classification. */
  lemma {:induction false} ReportWithShow(exchanges: seq<Exchange>, names: map<int, string>)
    requires forall i :: 0 <= i < |exchanges| ==>
      exchanges[i].received.Some? ==> exchanges[i].received.value.tcpFlags.Some?
    ensures Report(exchanges, true, names).1 == None
    ensures |Report(exchanges, true, names).0| == |exchanges|
    ensures forall i :: 0 <= i < |exchanges| ==>
      var x, line := exchanges[i], Report(exchanges, true, names).0[i];
      line.port == x.dport
      && line.status == Classify(if x.received.Some? then x.received.value.tcpFlags else None)
    decreases |exchanges|
  {
    if exchanges != [] {
      ReportWithShow(exchanges[..|exchanges| - 1], names);
    }
  }

  /** The probed ports that answered with a SYN-ACK, in order. */
  function OpenPorts(exchanges: seq<Exchange>): seq<int>
    decreases |exchanges|
  {
    if exchanges == [] then []
    else
      var x := exchanges[|exchanges| - 1];
      OpenPorts(exchanges[..|exchanges| - 1]) + (if x.received == Some(Reply(Some("SA"))) then [x.dport] else [])
  }

  /** Without `show`, when every reply has a TCP layer, there is exactly one
      Opened line per SYN-ACK reply, in order, and no other line. */
  lemma {:induction false} ReportWithoutShow(exchanges: seq<Exchange>, names: map<int, string>)
    requires forall i :: 0 <= i < |exchanges| ==>
      exchanges[i].received.Some? ==> exchanges[i].received.value.tcpFlags.Some?
    ensures Report(exchanges, false, names).1 == None
    ensures |Report(exchanges, false, names).0| == |OpenPorts(exchanges)|
    ensures forall j :: 0 <= j < |OpenPorts(exchanges)| ==>
      Report(exchanges, false, names).0[j] == ReportLine(Opened, OpenPorts(exchanges)[j], Describe(names, OpenPorts(exchanges)[j]))
    decreases |exchanges|
  {
    if exchanges != [] {
      ReportWithoutShow(exchanges[..|exchanges| - 1], names);
    }
  }

  // ---------------------------------------------------------------------
  // The scanner

  class PortScanner {
    /** The ports of the port table, in the table's order, and their
        descriptions. */
    const tablePorts: seq<int>
    const names: map<int, string>
    /** The `-p`, `-D` and `-r` arguments. */
    const portSpec: Option<string>
    const decoySpec: Option<string>
    const randomOrder: bool
    /** The `-d` argument, `None` when it is not given. */
    const delay: Option<DelayFlag>
    /** The `show` flag: `-s`, or forced on by a decoy scan. */
    var show: bool
    var portsToBeUsed: Option<seq<int>>
    var responses: Option<seq<Exchange>>

    constructor(tablePorts: seq<int>, names: map<int, string>, portSpec: Option<string>,
                decoySpec: Option<string>, randomOrder: bool, delay: Option<DelayFlag>, show: bool)
      requires forall p :: p in tablePorts <==> p in names
      ensures this.tablePorts == tablePorts && this.names == names
      ensures this.portSpec == portSpec && this.decoySpec == decoySpec
      ensures this.randomOrder == randomOrder && this.delay == delay && this.show == show
      ensures portsToBeUsed == None && responses == None
    {
      this.tablePorts, this.names := tablePorts, names;
      this.portSpec, this.decoySpec, this.randomOrder := portSpec, decoySpec, randomOrder;
      this.delay := delay;
      this.show := show;
      portsToBeUsed, responses := None, None;
    }

    /** The ports in the order they are probed: shuffled when `-r` is given. */
    function Arranged(ps: seq<int>, draw: nat -> nat): seq<int>
    {
      if randomOrder then Sample(ps, draw, 0) else ps
    }

    /** `_prepare_ports`: the named ports, or the whole table, shuffled
        when `-r` is given. A field `int()` refuses raises before anything
        is stored. */
    method PreparePorts(specified: Option<string>, draw: nat -> nat) returns (err: Option<ScanError>)
      modifies this`portsToBeUsed
      ensures PortList(specified, tablePorts).Failure? ==>
        err == Some(PortList(specified, tablePorts).error) && portsToBeUsed == old(portsToBeUsed)
      ensures PortList(specified, tablePorts).Success? ==>
        var ps := PortList(specified, tablePorts).value;
        err == None && portsToBeUsed == Some(Arranged(ps, draw))
    {
      match PortList(specified, tablePorts)
      case Failure(e) =>
        return Some(e);
      case Success(ps) =>
        portsToBeUsed := Some(ps);
        if randomOrder {
          portsToBeUsed := Some(Sample(ps, draw, 0));
        }
        return None;
    }

    /** `_perform_normal_scan`: prepare the ports from `-p` and keep the
        exchanges the scan produced. A `-d` value that does not convert
        raises once the ports are stored, before any response is kept. */
    method PerformNormalScan(draw: nat -> nat, exchanges: seq<Exchange>) returns (err: Option<ScanError>)
      modifies this`portsToBeUsed, this`responses
      ensures PortList(portSpec, tablePorts).Failure? ==>
        err == Some(PortList(portSpec, tablePorts).error)
        && portsToBeUsed == old(portsToBeUsed) && responses == old(responses)
      ensures PortList(portSpec, tablePorts).Success? ==>
        && portsToBeUsed == Some(Arranged(PortList(portSpec, tablePorts).value, draw))
        && (DelayError(delay).Some? ==> err == DelayError(delay) && responses == old(responses))
        && (DelayError(delay).None? ==> err == None && responses == Some(exchanges))
    {
      err := PreparePorts(portSpec, draw);
      if err.Some? {
        return;
      }
      err := DelayError(delay);
      if err.None? {
        responses := Some(exchanges);
      }
    }

    /** `_perform_decoy_scan`: prepare the ports from `-D`, probe the first
        of them, keep the exchanges, and turn `show` on. Returns the port
        probed. */
    method PerformDecoyScan(draw: nat -> nat, exchanges: seq<Exchange>) returns (r: Result<int, ScanError>)
      modifies this`portsToBeUsed, this`responses, this`show
      ensures PortList(decoySpec, tablePorts).Failure? ==>
        r == Failure(PortList(decoySpec, tablePorts).error) && unchanged(this)
      ensures PortList(decoySpec, tablePorts).Success? ==>
        var ps := PortList(decoySpec, tablePorts).value;
        portsToBeUsed == Some(Arranged(ps, draw))
        && (ps == [] ==> r == Failure(NoPorts) && responses == old(responses) && show == old(show))
        && (ps != [] ==> r == Success(portsToBeUsed.value[0]) && responses == Some(exchanges) && show)
    {
      var err := PreparePorts(decoySpec, draw);
      if err.Some? {
        return Failure(err.value);
      }
      var ports := portsToBeUsed.value;
      if ports == [] {
        return Failure(NoPorts);
      }
      responses := Some(exchanges);
      show := true;
      return Success(ports[0]);
    }

    /** `_get_result_by_transmission_method`: a decoy scan when `-D` is
        given, a normal scan otherwise. */
    method GetResultByTransmissionMethod(draw: nat -> nat, exchanges: seq<Exchange>) returns (err: Option<ScanError>)
      modifies this`portsToBeUsed, this`responses, this`show
      ensures decoySpec.Some? ==>
        var ports := PortList(decoySpec, tablePorts);
        && (ports.Failure? ==> err == Some(ports.error) && unchanged(this))
        && (ports.Success? ==>
              && portsToBeUsed == Some(Arranged(ports.value, draw))
              && (ports.value == [] ==> err == Some(NoPorts) && responses == old(responses) && show == old(show))
              && (ports.value != [] ==> err == None && responses == Some(exchanges) && show))
      ensures decoySpec.None? ==>
        var ports := PortList(portSpec, tablePorts);
        && show == old(show)
        && (ports.Failure? ==> err == Some(ports.error) && portsToBeUsed == old(portsToBeUsed) && responses == old(responses))
        && (ports.Success? ==>
              && portsToBeUsed == Some(Arranged(ports.value, draw))
              && (DelayError(delay).Some? ==> err == DelayError(delay) && responses == old(responses))
              && (DelayError(delay).None? ==> err == None && responses == Some(exchanges)))
    {
      if decoySpec.Some? {
        var r := PerformDecoyScan(draw, exchanges);
        err := if r.Failure? then Some(r.error) else None;
      } else {
        err := PerformNormalScan(draw, exchanges);
      }
    }

    /** `_process_responses`: the result lines printed, in order, and the
        exception that ends the loop early, if any. */
    method ProcessResponses() returns (lines: seq<ReportLine>, err: Option<ScanError>)
      ensures responses.None? ==> lines == [] && err == Some(NoResponses)
      ensures responses.Some? ==> (lines, err) == Report(responses.value, show, names)
    {
      if responses.None? {
        return [], Some(NoResponses);
      }
      var xs := responses.value;
      lines, err := [], None;
      var i := 0;
      while i < |xs|
        invariant 0 <= i <= |xs|
        invariant err == None
        invariant (lines, err) == Report(xs[..i], show, names)
      {
        assert xs[..i + 1][..i] == xs[..i];
        var x := xs[i];
        var flags: Option<string> := None;
        if x.received.Some? {
          if x.received.value.tcpFlags.None? {
            err := Some(NoTcpLayer(x.dport));
            ReportStopsAtError(xs, i + 1, show, names);
            assert xs[..|xs|] == xs;
            return;
          }
          flags := x.received.value.tcpFlags;
        }
        if flags == Some("SA") || show {
          lines := lines + [ReportLine(Classify(flags), x.dport, Describe(names, x.dport))];
        }
        i := i + 1;
      }
      assert xs[..|xs|] == xs;
    }
  }

  /** Once the report stops at an error, later exchanges change nothing. */
  lemma {:induction false} ReportStopsAtError(xs: seq<Exchange>, k: nat, show: bool, names: map<int, string>)
    requires k <= |xs|
    requires Report(xs[..k], show, names).1.Some?
    ensures Report(xs, show, names) == Report(xs[..k], show, names)
    decreases |xs| - k
  {
    if k < |xs| {
      assert xs[..k + 1][..k] == xs[..k];
      ReportStopsAtError(xs, k + 1, show, names);
    } else {
      assert xs[..k] == xs;
    }
  }

  // ---------------------------------------------------------------------
  // Delayed sending

  /** The fraction `u` of the width `d`. */
  function Scale(d: real, u: real): real
  {
    d * u
  }

  /** `random.uniform(a, b)` for the draw `u` of `random.random()`. */
  function Uniform(a: real, b: real, u: real): real
  {
    a + Scale(b - a, u)
  }

  /** A fraction below one of a width lies between zero and the width. */
  lemma ScaleBounds(d: real, u: real)
    requires 0.0 <= u < 1.0
    ensures 0.0 <= d ==> 0.0 <= Scale(d, u) <= d
    ensures d <= 0.0 ==> d <= Scale(d, u) <= 0.0
  {
    var w := 1.0 - u;
    assert d * w == d - d * u;
    if 0.0 <= d {
      assert 0.0 <= d * u by { assert 0.0 <= d && 0.0 <= u; }
      assert 0.0 <= d * w by { assert 0.0 <= d && 0.0 < w; }
    } else {
      assert d * u <= 0.0 by { assert d < 0.0 && 0.0 <= u; }
      assert d * w < 0.0 by { assert d < 0.0 && 0.0 < w; }
    }
  }

  /** A uniform draw lies between its bounds, in either order. */
  lemma UniformBetween(a: real, b: real, u: real)
    requires 0.0 <= u < 1.0
    ensures a <= b ==> a <= Uniform(a, b, u) <= b
    ensures b <= a ==> b <= Uniform(a, b, u) <= a
  {
    ScaleBounds(b - a, u);
  }

  /** `_create_delay_time_list`: the `-d` value split on '-'; one value is
      the delay of every packet, two or more give a uniform draw between
      the first two for each packet. `us` are the draws of `random()`. */
  function CreateDelayTimeList(spec: string, count: nat, us: seq<real>): (r: Result<seq<real>, ScanError>)
    requires |us| == count
    ensures r.Success? <==> ParseAll(Split(spec, '-'), ParseReal).Success?
    ensures r.Failure? ==> r.error == InvalidDelay(ParseAll(Split(spec, '-'), ParseReal).error)
    ensures r.Success? ==> |r.value| == count
  {
    match ParseAll(Split(spec, '-'), ParseReal)
    case Failure(e) => Failure(InvalidDelay(e))
    case Success(values) =>
      if |values| > 1 then Success(seq(count, i requires 0 <= i < count => Uniform(values[0], values[1], us[i])))
      else Success(seq(count, i requires 0 <= i < count => values[0]))
  }

  /** Converting two fields that both convert. */
  lemma ParseAllOfTwo<T>(x: string, y: string, parse: string -> Result<T, ParseError>)
    requires parse(x).Success? && parse(y).Success?
    ensures ParseAll([x, y], parse) == Success([parse(x).value, parse(y).value])
  {
    var fields := [x, y];
    assert fields[0] == x && fields[1] == y;
    var r := ParseAll(fields, parse);
    assert r.Success?;
    assert r.value[0] == parse(x).value && r.value[1] == parse(y).value;
    assert r.value == [parse(x).value, parse(y).value];
  }

  /** A single value is every packet's delay. */
  lemma DelayOfSingleValue(spec: string, count: nat, us: seq<real>)
    requires |us| == count
    requires '-' !in spec && ParseReal(spec).Success?
    ensures CreateDelayTimeList(spec, count, us).Success?
    ensures forall i :: 0 <= i < count ==> CreateDelayTimeList(spec, count, us).value[i] == ParseReal(spec).value
  {
    SplitWithoutSeparator(spec, '-');
  }

  /** A range `a-b` gives delays between `a` and `b`. */
  lemma DelayOfRange(a: string, b: string, count: nat, us: seq<real>)
    requires |us| == count && forall i :: 0 <= i < count ==> 0.0 <= us[i] < 1.0
    requires '-' !in a && '-' !in b
    requires ParseReal(a).Success? && ParseReal(b).Success?
    requires ParseReal(a).value <= ParseReal(b).value
    ensures CreateDelayTimeList(a + "-" + b, count, us).Success?
    ensures forall i :: 0 <= i < count ==>
      ParseReal(a).value <= CreateDelayTimeList(a + "-" + b, count, us).value[i] <= ParseReal(b).value
  {
    var va, vb := ParseReal(a).value, ParseReal(b).value;
    SplitAfterPiece(a, '-', b);
    SplitWithoutSeparator(b, '-');
    var fields := Split(a + "-" + b, '-');
    assert fields == [a, b];
    ParseAllOfTwo(a, b, ParseReal);
    var delays := CreateDelayTimeList(a + "-" + b, count, us);
    assert delays == Success(seq(count, i requires 0 <= i < count => Uniform(va, vb, us[i])));
    forall i | 0 <= i < count {
      UniformBetween(va, vb, us[i]);
    }
  }

  /** The `-d` argument: given alone it means a uniform delay of 1 to 3
      seconds per packet; with a value, the list above. */
  datatype DelayFlag = DelayOn | DelaySpec(spec: string)

  /** `_get_delay_time_list`. */
  function DelayTimeList(flag: DelayFlag, count: nat, us: seq<real>): (r: Result<seq<real>, ScanError>)
    requires |us| == count
    ensures r.Success? ==> |r.value| == count
    ensures flag.DelayOn? && (forall i :: 0 <= i < count ==> 0.0 <= us[i] < 1.0) ==>
      r.Success? && forall i :: 0 <= i < count ==> 1.0 <= r.value[i] <= 3.0
  {
    match flag
    case DelayOn =>
      var ds := seq(count, i requires 0 <= i < count => Uniform(1.0, 3.0, us[i]));
      assert forall i :: 0 <= i < count && 0.0 <= us[i] < 1.0 ==> 1.0 <= ds[i] <= 3.0 by {
        forall i | 0 <= i < count && 0.0 <= us[i] < 1.0 {
          UniformBetween(1.0, 3.0, us[i]);
        }
      }
      Success(ds)
    case DelaySpec(s) => CreateDelayTimeList(s, count, us)
  }

  /** The exception `_perform_normal_methods` raises before sending: a
      `-d` value with a field `float()` refuses. An empty value is false,
      so its packets go out without a delay and nothing is raised. */
  function DelayError(delay: Option<DelayFlag>): (r: Option<ScanError>)
    ensures r.Some? ==> r.value.InvalidDelay?
  {
    if delay.Some? && delay.value.DelaySpec? && delay.value.spec != "" then
      match ParseAll(Split(delay.value.spec, '-'), ParseReal)
      case Failure(e) => Some(InvalidDelay(e))
      case Success(_) => None
    else None
  }

  /** The error is exactly the one the delay list raises, whatever the
      number of packets and the draws. */
  lemma DelayErrorOfDelayTimeList(flag: DelayFlag, count: nat, us: seq<real>)
    requires |us| == count && flag != DelaySpec("")
    ensures DelayError(Some(flag)).None? <==> DelayTimeList(flag, count, us).Success?
    ensures DelayError(Some(flag)).Some? ==> DelayError(Some(flag)).value == DelayTimeList(flag, count, us).error
  {
    if flag.DelaySpec? {
      var delays := CreateDelayTimeList(flag.spec, count, us);
      assert DelayTimeList(flag, count, us) == delays;
      var values := ParseAll(Split(flag.spec, '-'), ParseReal);
      if values.Failure? {
        assert DelayError(Some(flag)) == Some(InvalidDelay(values.error));
      } else {
        assert DelayError(Some(flag)) == None;
      }
    }
  }

  // ---------------------------------------------------------------------
  // Decoy scan

  /** `random.randint(lo, hi)` for the draw `d` of `randbelow`; an empty
      range raises. */
  function RandInt(lo: int, hi: int, d: nat): (r: Result<int, ScanError>)
    ensures r.Success? <==> lo <= hi
    ensures r.Success? ==> lo <= r.value <= hi
  {
    if hi < lo then Failure(EmptyRange) else Success(lo + d % (hi - lo + 1))
  }

  /** `s.insert(k, x)`. */
  function Inserted<T>(s: seq<T>, k: nat, x: T): seq<T>
    requires k <= |s|
  {
    s[..k] + [x] + s[k..]
  }

  /** Inserting adds exactly one element at index `k`, and removing it again
      gives back the list with its order. */
  lemma InsertedProperties<T>(s: seq<T>, k: nat, x: T)
    requires k <= |s|
    ensures |Inserted(s, k, x)| == |s| + 1
    ensures Inserted(s, k, x)[k] == x
    ensures Inserted(s, k, x)[..k] + Inserted(s, k, x)[k + 1..] == s
    ensures multiset(Inserted(s, k, x)) == multiset(s) + multiset{x}
  {
    var t := Inserted(s, k, x);
    assert t[..k] == s[..k];
    assert t[k + 1..] == s[k..];
    assert s == s[..k] + s[k..];
  }

  class Decoy {
    const targetIp: string
    const port: int
    const myIp: string
    /** The decoy addresses, drawn from the scanner's subnet. */
    var decoyIps: seq<string>

    /** `decoys` stands for the addresses `_generate_random_ip_in_subnet`
        draws. */
    constructor(targetIp: string, port: int, myIp: string, decoys: seq<string>)
      ensures this.targetIp == targetIp && this.port == port && this.myIp == myIp
      ensures decoyIps == decoys
    {
      this.targetIp, this.port, this.myIp := targetIp, port, myIp;
      decoyIps := decoys;
    }

    /** `_add_real_packet`: insert the scanner's own address at a random
        index in the second half of the list. With no decoys the range is
        empty and `randint` raises. Returns the index used. */
    method AddRealPacket(d: nat) returns (r: Result<nat, ScanError>)
      modifies this`decoyIps
      ensures old(|decoyIps|) == 0 ==> r == Failure(EmptyRange) && decoyIps == old(decoyIps)
      ensures old(|decoyIps|) > 0 ==>
        r.Success? && old(|decoyIps|) / 2 <= r.value < old(|decoyIps|)
        && decoyIps == Inserted(old(decoyIps), r.value, myIp)
    {
      var n := |decoyIps|;
      var k := RandInt(n / 2, n - 1, d);
      if k.Failure? {
        return Failure(k.error);
      }
      decoyIps := Inserted(decoyIps, k.value, myIp);
      return Success(k.value);
    }
  }
}
