/**
  The HM TSDB collector: the lines of a connection update fifteen gauge
  tables, three lifetime counters and the last-received timestamp; a scrape
  reports all of it, stamps the scrape time and duration, and then empties
  the fifteen gauge tables.

  The first half states the behaviour on values (State, Step, Run, Report,
  AfterCollect) and proves its properties; the class HMTSDBCollector at the
  end does the same work in place and is proved to follow those functions.
 */
module Collector {
  import opened Wrappers
  import opened Parser
  import opened Series

  /** The label tuple a gauge entry is keyed by, in the order the gauges declare it. */
  datatype Labels = Labels(deployment: string, job: string, id: string, index: string)

  function LabelsOf<V>(m: HMMetric<V>): Labels
  {
    Labels(m.deployment, m.job, m.id, m.index)
  }

  /** For each series, its current value per label tuple. */
  type Gauges<V> = map<Series, map<Labels, V>>

  /** One scanned line and the clock reading (Unix seconds) taken when it was scanned. */
  datatype Line = Line(text: string, at: int)

  /** Everything the collector reports: the gauges, the counters and the three timestamp gauges. */
  datatype State<V> = State(
    gauges: Gauges<V>,
    received: nat,
    invalid: nat,
    discarded: nat,
    lastReceived: int,
    lastScrape: int,
    lastScrapeDuration: real)

  /** Fifteen empty gauge tables, as after a reset. */
  function EmptyGauges<V>(): (g: Gauges<V>)
    ensures g.Keys == AllSeries
    ensures forall s :: s in g ==> g[s] == map[]
  {
    map s | s in AllSeries :: map[]
  }

  /** The current value of series `s` at label tuple `key`, if there is one. */
  function Lookup<V>(g: Gauges<V>, s: Series, key: Labels): Option<V>
  {
    if s in g && key in g[s] then Some(g[s][key]) else None
  }

  /** Setting a gauge: the one entry changes, every other entry of every series is kept. */
  function Upsert<V>(g: Gauges<V>, s: Series, key: Labels, v: V): (r: Gauges<V>)
    ensures r.Keys == g.Keys + {s}
    ensures forall s', key' :: Lookup(r, s', key') == if s' == s && key' == key then Some(v) else Lookup(g, s', key')
  {
    g[s := (if s in g then g[s] else map[])[key := v]]
  }

  // ---------------------------------------------------------------------
  // One line

  /** The three things a line can do. */
  datatype Outcome<V> =
    | Invalid(error: ParseError)                      // it did not parse
    | Discarded(name: string)                         // it parsed, but its name is not supported
    | Accepted(series: Series, labels: Labels, value: V) // it sets one gauge entry

  function Classify<V>(line: string, parseFloat: string -> Option<V>): Outcome<V>
  {
    match Parse(line, parseFloat)
    case Failure(e) => Invalid(e)
    case Success(m) =>
      match SeriesOf(m.name)
      case None => Discarded(m.name)
      case Some(s) => Accepted(s, LabelsOf(m), m.value)
  }

  /** Whether the line sets series `s` at label tuple `key`. */
  predicate WritesAt<V>(line: Line, parseFloat: string -> Option<V>, s: Series, key: Labels)
  {
    var o := Classify(line.text, parseFloat);
    o.Accepted? && o.series == s && o.labels == key
  }

  /** The collector after one line: count it, stamp it, then count it invalid, discard it or set its gauge. */
  function Step<V>(st: State<V>, line: Line, parseFloat: string -> Option<V>): State<V>
  {
    var st' := st.(received := st.received + 1, lastReceived := line.at);
    match Classify(line.text, parseFloat)
    case Invalid(_) => st'.(invalid := st'.invalid + 1)
    case Discarded(_) => st'.(discarded := st'.discarded + 1)
    case Accepted(s, key, v) => st'.(gauges := Upsert(st'.gauges, s, key, v))
  }

  /** The lines of a connection, in order. */
  function Run<V>(st: State<V>, lines: seq<Line>, parseFloat: string -> Option<V>): State<V>
    decreases |lines|
  {
    if lines == [] then st else Run(Step(st, lines[0], parseFloat), lines[1..], parseFloat)
  }

  function CountInvalid<V>(lines: seq<Line>, parseFloat: string -> Option<V>): nat
    decreases |lines|
  {
    if lines == [] then 0
    else (if Classify(lines[0].text, parseFloat).Invalid? then 1 else 0) + CountInvalid(lines[1..], parseFloat)
  }

  function CountDiscarded<V>(lines: seq<Line>, parseFloat: string -> Option<V>): nat
    decreases |lines|
  {
    if lines == [] then 0
    else (if Classify(lines[0].text, parseFloat).Discarded? then 1 else 0) + CountDiscarded(lines[1..], parseFloat)
  }

  function CountAccepted<V>(lines: seq<Line>, parseFloat: string -> Option<V>): nat
    decreases |lines|
  {
    if lines == [] then 0
    else (if Classify(lines[0].text, parseFloat).Accepted? then 1 else 0) + CountAccepted(lines[1..], parseFloat)
  }

  /**
    A line is counted as received and stamped whatever becomes of it, and it
    has exactly one outcome: it is counted invalid (when it does not parse),
    or counted discarded (when its name is unsupported), or it sets exactly
    one gauge entry; in the first two cases no gauge changes.
   */
  lemma StepEffect<V>(st: State<V>, line: Line, parseFloat: string -> Option<V>)
    ensures var st' := Step(st, line, parseFloat);
            var o := Classify(line.text, parseFloat);
            && st'.received == st.received + 1
            && st'.lastReceived == line.at
            && st'.lastScrape == st.lastScrape && st'.lastScrapeDuration == st.lastScrapeDuration
            && st'.invalid == st.invalid + (if o.Invalid? then 1 else 0)
            && st'.discarded == st.discarded + (if o.Discarded? then 1 else 0)
            && (o.Invalid? <==> Parse(line.text, parseFloat).Failure?)
            && (o.Discarded? <==> Parse(line.text, parseFloat).Success? && SeriesOf(Parse(line.text, parseFloat).value.name).None?)
            && (!o.Accepted? ==> st'.gauges == st.gauges)
            && (forall s, key :: Lookup(st'.gauges, s, key) ==
                  if WritesAt(line, parseFloat, s, key) then Some(o.value) else Lookup(st.gauges, s, key))
  {
  }

  /**
    A supported line sets its series at the label tuple (deployment, job, id,
    index) of the parsed line to the parsed value, and its series is the one
    its name selects.
   */
  lemma AcceptedLine<V>(line: string, parseFloat: string -> Option<V>)
    requires Classify(line, parseFloat).Accepted?
    ensures var o := Classify(line, parseFloat);
            var m := Parse(line, parseFloat).value;
            && NameOf(o.series) == m.name
            && o.labels == Labels(m.deployment, m.job, m.id, m.index)
            && o.value == m.value
  {
  }

  // ---------------------------------------------------------------------
  // A connection

  /**
    Over a connection, received grows by the number of lines, invalid and
    discarded by the number of lines of those outcomes, and the
    last-received timestamp is that of the last line; the scrape gauges are
    untouched.
   */
  lemma {:induction false} RunCounters<V>(st: State<V>, lines: seq<Line>, parseFloat: string -> Option<V>)
    ensures var st' := Run(st, lines, parseFloat);
            && st'.received == st.received + |lines|
            && st'.invalid == st.invalid + CountInvalid(lines, parseFloat)
            && st'.discarded == st.discarded + CountDiscarded(lines, parseFloat)
            && st'.lastReceived == (if lines == [] then st.lastReceived else lines[|lines| - 1].at)
            && st'.lastScrape == st.lastScrape && st'.lastScrapeDuration == st.lastScrapeDuration
    decreases |lines|
  {
    if lines != [] {
      RunCounters(Step(st, lines[0], parseFloat), lines[1..], parseFloat);
      if |lines| > 1 {
        assert lines[1..][|lines[1..]| - 1] == lines[|lines| - 1];
      }
    }
  }

  /** Every line has exactly one outcome: received = invalid + discarded + accepted. */
  lemma {:induction false} CountsPartition<V>(lines: seq<Line>, parseFloat: string -> Option<V>)
    ensures CountInvalid(lines, parseFloat) + CountDiscarded(lines, parseFloat) + CountAccepted(lines, parseFloat) == |lines|
    decreases |lines|
  {
    if lines != [] {
      CountsPartition(lines[1..], parseFloat);
    }
  }

  /** A gauge entry no line of the connection writes keeps its value (or stays absent). */
  lemma {:induction false} RunUntouched<V>(st: State<V>, lines: seq<Line>, parseFloat: string -> Option<V>, s: Series, key: Labels)
    requires forall j :: 0 <= j < |lines| ==> !WritesAt(lines[j], parseFloat, s, key)
    ensures Lookup(Run(st, lines, parseFloat).gauges, s, key) == Lookup(st.gauges, s, key)
    decreases |lines|
  {
    if lines != [] {
      StepEffect(st, lines[0], parseFloat);
      assert !WritesAt(lines[0], parseFloat, s, key);
      RunUntouched(Step(st, lines[0], parseFloat), lines[1..], parseFloat, s, key);
    }
  }

  /** Last write wins: a gauge entry holds the value of the last line that wrote it. */
  lemma {:induction false} RunLastWins<V>(st: State<V>, lines: seq<Line>, parseFloat: string -> Option<V>, s: Series, key: Labels, j: nat)
    requires j < |lines| && WritesAt(lines[j], parseFloat, s, key)
    requires forall l :: j < l < |lines| ==> !WritesAt(lines[l], parseFloat, s, key)
    ensures Lookup(Run(st, lines, parseFloat).gauges, s, key) == Some(Classify(lines[j].text, parseFloat).value)
    decreases |lines|
  {
    StepEffect(st, lines[0], parseFloat);
    var st' := Step(st, lines[0], parseFloat);
    if j == 0 {
      RunUntouched(st', lines[1..], parseFloat, s, key);
    } else {
      RunLastWins(st', lines[1..], parseFloat, s, key, j - 1);
    }
  }

  /** The gauge tables keep their fifteen series. */
  lemma {:induction false} RunKeepsSeries<V>(st: State<V>, lines: seq<Line>, parseFloat: string -> Option<V>)
    requires st.gauges.Keys == AllSeries
    ensures Run(st, lines, parseFloat).gauges.Keys == AllSeries
    decreases |lines|
  {
    if lines != [] {
      var o := Classify(lines[0].text, parseFloat);
      if o.Accepted? {
        AllSeriesComplete(o.series);
      }
      RunKeepsSeries(Step(st, lines[0], parseFloat), lines[1..], parseFloat);
    }
  }

  // ---------------------------------------------------------------------
  // A scrape

  /** What a scrape reports: the state with the scrape time and duration set. */
  function Report<V>(st: State<V>, now: int, elapsed: real): State<V>
  {
    st.(lastScrape := now, lastScrapeDuration := elapsed)
  }

  /** The state a scrape leaves: as reported, with the fifteen gauge tables emptied. */
  function AfterCollect<V>(st: State<V>, now: int, elapsed: real): State<V>
  {
    Report(st, now, elapsed).(gauges := EmptyGauges())
  }

  /**
    A scrape reports every gauge entry, counter and timestamp as they stood,
    with the scrape time and duration it measured, and leaves no gauge entry;
    the counters and the timestamps are not reset.
   */
  lemma CollectEffect<V>(st: State<V>, now: int, elapsed: real)
    ensures var r := Report(st, now, elapsed);
            && r.gauges == st.gauges
            && r.received == st.received && r.invalid == st.invalid && r.discarded == st.discarded
            && r.lastReceived == st.lastReceived
            && r.lastScrape == now && r.lastScrapeDuration == elapsed
    ensures var st' := AfterCollect(st, now, elapsed);
            && st'.gauges.Keys == AllSeries
            && (forall s, key :: Lookup(st'.gauges, s, key) == None)
            && st'.received == st.received && st'.invalid == st.invalid && st'.discarded == st.discarded
            && st'.lastReceived == st.lastReceived
            && st'.lastScrape == now && st'.lastScrapeDuration == elapsed
  {
  }

  /** Two scrapes with no line between them: the second reports no gauge entry and the same counters. */
  lemma CollectTwice<V>(st: State<V>, now1: int, elapsed1: real, now2: int, elapsed2: real)
    ensures var first := Report(st, now1, elapsed1);
            var second := Report(AfterCollect(st, now1, elapsed1), now2, elapsed2);
            && (forall s, key :: Lookup(second.gauges, s, key) == None)
            && second.received == first.received
            && second.invalid == first.invalid
            && second.discarded == first.discarded
            && second.lastReceived == first.lastReceived
  {
    CollectEffect(st, now1, elapsed1);
  }

  /**
    After a scrape's reset, a gauge entry exists only if some line received
    since then wrote it.
   */
  lemma ResetThenRun<V>(st: State<V>, now: int, elapsed: real, lines: seq<Line>, parseFloat: string -> Option<V>, s: Series, key: Labels)
    requires Lookup(Run(AfterCollect(st, now, elapsed), lines, parseFloat).gauges, s, key).Some?
    ensures exists j :: 0 <= j < |lines| && WritesAt(lines[j], parseFloat, s, key)
  {
    if forall j :: 0 <= j < |lines| ==> !WritesAt(lines[j], parseFloat, s, key) {
      RunUntouched(AfterCollect(st, now, elapsed), lines, parseFloat, s, key);
      CollectEffect(st, now, elapsed);
    }
  }

  // ---------------------------------------------------------------------
  // Any interleaving of lines and scrapes

  /** One atomic step of the collector: a scanned line, or a scrape. */
  datatype Event = Received(line: Line) | Scraped(now: int, elapsed: real)

  function Apply<V>(st: State<V>, e: Event, parseFloat: string -> Option<V>): State<V>
  {
    match e
    case Received(line) => Step(st, line, parseFloat)
    case Scraped(now, elapsed) => AfterCollect(st, now, elapsed)
  }

  function Replay<V>(st: State<V>, events: seq<Event>, parseFloat: string -> Option<V>): State<V>
    decreases |events|
  {
    if events == [] then st else Replay(Apply(st, events[0], parseFloat), events[1..], parseFloat)
  }

  /** The lifetime counters never decrease, whatever lines and scrapes arrive. */
  lemma {:induction false} CountersMonotone<V>(st: State<V>, events: seq<Event>, parseFloat: string -> Option<V>)
    ensures var st' := Replay(st, events, parseFloat);
            st'.received >= st.received && st'.invalid >= st.invalid && st'.discarded >= st.discarded
    decreases |events|
  {
    if events != [] {
      var e := events[0];
      if e.Received? {
        StepEffect(st, e.line, parseFloat);
      }
      CountersMonotone(Apply(st, e, parseFloat), events[1..], parseFloat);
    }
  }

  // ---------------------------------------------------------------------
  // The collector object

  class HMTSDBCollector<V> {
    const parseFloat: string -> Option<V>
    var gauges: Gauges<V>
    var received: nat
    var invalid: nat
    var discarded: nat
    var lastReceived: int
    var lastScrape: int
    var lastScrapeDuration: real
    /** Lines that set a gauge; the source keeps no such counter. */
    ghost var accepted: nat

    ghost predicate Valid()
      reads this
    {
      && gauges.Keys == AllSeries
      && received == invalid + discarded + accepted
    }

    ghost function Model(): State<V>
      reads this
    {
      State(gauges, received, invalid, discarded, lastReceived, lastScrape, lastScrapeDuration)
    }

    constructor (parseFloat: string -> Option<V>)
      ensures Valid()
      ensures this.parseFloat == parseFloat
      ensures Model() == State(EmptyGauges(), 0, 0, 0, 0, 0, 0.0)
    {
      this.parseFloat := parseFloat;
      gauges := EmptyGauges();
      received, invalid, discarded := 0, 0, 0;
      lastReceived, lastScrape, lastScrapeDuration := 0, 0, 0.0;
      accepted := 0;
    }

    /** One scanned line of a connection. */
    method HandleLine(line: Line)
      requires Valid()
      modifies this
      ensures Valid()
      ensures Model() == Step(old(Model()), line, parseFloat)
      ensures accepted == old(accepted) + if Classify(line.text, parseFloat).Accepted? then 1 else 0
    {
      ghost var before := Model();
      ghost var o := Classify(line.text, parseFloat);
      received := received + 1;
      lastReceived := line.at;

      var parsed := Parse(line.text, parseFloat);
      if parsed.Failure? {
        assert o.Invalid?;
        invalid := invalid + 1;
        return;
      }
      var m := parsed.value;
      match SeriesOf(m.name)
      case Some(s) =>
        assert o == Accepted(s, LabelsOf(m), m.value);
        AllSeriesComplete(s);
        gauges := gauges[s := gauges[s][LabelsOf(m) := m.value]];
        assert gauges == Upsert(before.gauges, s, LabelsOf(m), m.value);
        accepted := accepted + 1;
      case None =>
        assert o.Discarded?;
        discarded := discarded + 1;
    }

    /** All lines of one connection, in the order they were scanned. */
    method HandleConnection(lines: seq<Line>)
      requires Valid()
      modifies this
      ensures Valid()
      ensures Model() == Run(old(Model()), lines, parseFloat)
      ensures accepted == old(accepted) + CountAccepted(lines, parseFloat)
    {
      var i := 0;
      while i < |lines|
        invariant 0 <= i <= |lines|
        invariant Valid()
        invariant Run(Model(), lines[i..], parseFloat) == Run(old(Model()), lines, parseFloat)
        invariant accepted + CountAccepted(lines[i..], parseFloat) == old(accepted) + CountAccepted(lines, parseFloat)
      {
        assert lines[i..][1..] == lines[i + 1..];
        HandleLine(lines[i]);
        i := i + 1;
      }
    }

    /** A scrape: report everything, stamp the scrape, then reset the fifteen gauge tables. */
    method Collect(now: int, elapsed: real) returns (report: State<V>)
      requires Valid()
      modifies this
      ensures report == Report(old(Model()), now, elapsed)
      ensures Valid()
      ensures Model() == AfterCollect(old(Model()), now, elapsed)
      ensures accepted == old(accepted)
    {
      lastScrape := now;
      lastScrapeDuration := elapsed;
      report := State(gauges, received, invalid, discarded, lastReceived, lastScrape, lastScrapeDuration);
      gauges := EmptyGauges();
    }
  }
}
