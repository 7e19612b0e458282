# BOSH Health Monitor TSDB collector, modelled in Dafny

The exporter listens for lines from the BOSH Health Monitor's TSDB plugin.
Each line has the form `<command> <name> <timestamp> <value> [<key>=<val> ...]`.
The exporter keeps the latest value of 15 per-job gauges, three lifetime
counters (received, invalid, discarded) and a last-received timestamp. A
Prometheus scrape reports all of that, stamps the scrape time and duration,
and then empties the 15 gauges.

This project models three parts of `collectors/hm_tsdb_collector.go`:

- `parser.dfy`, module `Parser`: `parseHMMessage`. This is a pure function
  from a line to an `HMMetric` or a `ParseError`. The tag loop is a forward
  fold (`ApplyTags`).
- `collector.dfy`, module `Collector`: the per-line loop of
  `handleHMMessage` and `Collect`. They are stated twice:
  - on values: `Step`, `Run`, `Report`, `AfterCollect`, with the lemmas;
  - as the class `HMTSDBCollector`, whose methods `HandleLine`,
    `HandleConnection` and `Collect` change its fields in place. Each method
    is proved equal to the matching value function.
- `series.dfy`, module `Series`: the 15 gauge series and the name switch.
- `strings.dfy`, module `Strings`: Go's `strings.Split` for a one-character
  separator, with its inverse `Join`.
- `scenarios.dfy`, module `Scenarios`: the message scenarios of
  `collectors/hm_tsdb_collector_test.go` as lemmas, with the tests' metric
  names and tag values (`fake-deployment-name`, `fake-job-name`, `0`,
  `fake-job-id`). The tests stamp each line with the current time; the
  lemmas use the fixed timestamp `1700000000` instead. `ScrapeTwice` is a
  composed scenario that no single test runs: one collector receives three
  of the lines and is scraped twice.

Abstract inputs:

- The sample value has a type parameter `V`.
- `strconv.ParseFloat` is a parameter `parseFloat: string -> Option<V>`. Only
  its split between success and failure matters.
- `time.Now().Unix()` for a line is the `at` field of a `Line`.
- At a scrape, `time.Now().Unix()` is the argument `now` of `Collect`, and
  `time.Since(begun).Seconds()` is the argument `elapsed`.

Two behaviours of the code worth knowing:

- A tag is split on every `=`, and its value is the second piece. So
  `id=a=b` sets `id` to `a` (`Parser.TagParts`).
- An unknown metric name is not a parse error. The line parses, and the
  name switch counts it as discarded (`Collector.Outcome.Discarded`).

## Model

| member | source | states |
|---|---|---|
| `Strings.IndexOf` | collectors/hm_tsdb_collector.go:567 | the position found is a separator and no separator comes before it (the cut point of `strings.Split`) |
| `Strings.SplitCount` | collectors/hm_tsdb_collector.go:567 | a string holding n separators splits into exactly n + 1 pieces; empty pieces count |
| `Strings.SplitPiecesHaveNoSeparator` | collectors/hm_tsdb_collector.go:567 | no piece of a split contains the separator |
| `Strings.JoinSplit` | collectors/hm_tsdb_collector.go:567 | joining the pieces with the separator gives the original string back |
| `Strings.SplitJoin` | collectors/hm_tsdb_collector.go:567 | splitting a join of separator-free pieces gives those pieces back |
| `Strings.SplitFirst` | collectors/hm_tsdb_collector.go:581-583 | the first piece is the text before the first separator, or the whole string if there is none |
| `Strings.SplitSecond` | collectors/hm_tsdb_collector.go:581-591 | with one separator or more there are at least two pieces; the second is the text between the first separator and the next one (or the end) |
| `Series.SeriesOf` | collectors/hm_tsdb_collector.go:449-558 | a name selects a series only when it is exactly that series' metric name |
| `Series.SeriesOfNameOf` | collectors/hm_tsdb_collector.go:449-554 | each of the 15 metric names selects its own series |
| `Series.SeriesOfRecognised` | collectors/hm_tsdb_collector.go:449-558 | a name is recognised if and only if it is one of the 15 names; any other name goes to the default branch |
| `Series.AllSeriesComplete` | collectors/hm_tsdb_collector.go:381-395 | the set of series reset by a scrape holds every series |
| `Parser.Set` | collectors/hm_tsdb_collector.go:583-592 | assigning a label sets that label and leaves the name, the value and the other three labels unchanged |
| `Parser.KeyNameRecognised` | collectors/hm_tsdb_collector.go:583-592 | each of the four label keys has no `=` and is matched by the key switch |
| `Parser.ApplyTags` | collectors/hm_tsdb_collector.go:580-594 | the tag loop never changes the name or the value |
| `Parser.ApplyTagMeaning` | collectors/hm_tsdb_collector.go:581-593 | a tag token whose text before its first `=` is a known key sets that label to the text between the first and second `=`; a token without `=`, or with any other key, changes nothing |
| `Parser.KeyedTag` | collectors/hm_tsdb_collector.go:581-591 | `key=` followed by any text sets the label to that text up to its first `=` |
| `Parser.EmptyTagValue` | collectors/hm_tsdb_collector.go:581-591 | `key=` sets the label to the empty string |
| `Parser.TagParts` | collectors/hm_tsdb_collector.go:581-591 | `key=v` and `key=v=rest` both set the label to `v` |
| `Parser.TagsAbsent` | collectors/hm_tsdb_collector.go:580-594 | a label that no tag names keeps its earlier value |
| `Parser.TagsLastWins` | collectors/hm_tsdb_collector.go:580-594 | when several tags name a label, the last of them sets its value |
| `Parser.ParseMalformed` | collectors/hm_tsdb_collector.go:567-570 | a line fails with MalformedMessage if and only if it holds fewer than three spaces, that is, fewer than 4 tokens |
| `Parser.ParseLongEnough` | collectors/hm_tsdb_collector.go:572-578 | with 4 tokens or more, the parse fails if and only if token 3 does not parse, and then with InvalidValue(token 3); on success the name is token 1 and the value is the parsed token 3 |
| `Parser.ParseIgnoresTimestamp` | collectors/hm_tsdb_collector.go:572-578 | replacing token 2 (the timestamp) with any space-free text leaves the result unchanged |
| `Parser.ParseLabel` | collectors/hm_tsdb_collector.go:562-597 | each label of a parsed line comes from the last tag at token 4 or later that names it, and is empty when no such tag exists |
| `Collector.EmptyGauges` | collectors/hm_tsdb_collector.go:381-395 | the reset leaves all 15 series present and each one empty |
| `Collector.Upsert` | collectors/hm_tsdb_collector.go:451-456 | setting a gauge changes that one entry of that one series and keeps every other entry of every series |
| `Collector.StepEffect` | collectors/hm_tsdb_collector.go:437-558 | every line adds 1 to received and sets the last-received timestamp; it then has exactly one outcome: invalid +1 (if and only if it fails to parse), discarded +1 (if and only if it parses with an unknown name), or one gauge entry set; in the first two cases no gauge changes, and the scrape gauges never change |
| `Collector.AcceptedLine` | collectors/hm_tsdb_collector.go:449-456 | a line with a known name sets the series its name selects, at key (deployment, job, id, index) of the parsed line, to the parsed value |
| `Collector.RunCounters` | collectors/hm_tsdb_collector.go:437-447 | over a connection, received grows by the number of lines and invalid and discarded by the number of lines with those outcomes; the last-received timestamp is that of the last line |
| `Collector.CountsPartition` | collectors/hm_tsdb_collector.go:442-558 | invalid + discarded + accepted lines = all lines |
| `Collector.RunUntouched` | collectors/hm_tsdb_collector.go:449-558 | a gauge entry that no line of the connection writes keeps its value, or stays absent |
| `Collector.RunLastWins` | collectors/hm_tsdb_collector.go:449-456 | a gauge entry holds the value of the last line that wrote it |
| `Collector.RunKeepsSeries` | collectors/hm_tsdb_collector.go:449-554 | lines never add or remove a series from the gauge table |
| `Collector.CollectEffect` | collectors/hm_tsdb_collector.go:351-396 | a scrape reports the gauges, counters and last-received timestamp as they were, together with the new scrape time and duration; afterwards no gauge entry exists, and the counters and timestamps are unchanged |
| `Collector.CollectTwice` | collectors/hm_tsdb_collector.go:351-396 | a second scrape with no line in between reports no gauge entry and the same counters and last-received timestamp as the first |
| `Collector.ResetThenRun` | collectors/hm_tsdb_collector.go:381-395 | after a scrape, a gauge entry exists only if a line received since then wrote it |
| `Collector.CountersMonotone` | collectors/hm_tsdb_collector.go:433-560 | across any sequence of lines and scrapes, received, invalid and discarded never decrease |
| `Collector.HMTSDBCollector.HandleLine` | collectors/hm_tsdb_collector.go:437-558 | one scanned line updates the object as `Step` says; the object invariant holds: 15 series present, received = invalid + discarded + accepted |
| `Collector.HMTSDBCollector.HandleConnection` | collectors/hm_tsdb_collector.go:433-560 | the scan loop processes the lines in order, as `Run` says, and keeps the invariant |
| `Collector.HMTSDBCollector.Collect` | collectors/hm_tsdb_collector.go:351-396 | returns the report `Report` gives for the state before the call, and leaves the state `AfterCollect` gives |
| `Scenarios.FourTags` | collectors/hm_tsdb_collector.go:580-594 | one tag for each of the four keys sets all four labels |
| `Scenarios.HealthyLineAccepted` | collectors/hm_tsdb_collector_test.go:653-666 | `put system.healthy <ts> 1` with the four tags sets the healthy gauge at (deployment, job, id, index) |
| `Scenarios.ShortLineInvalid` | collectors/hm_tsdb_collector_test.go:893-901 | the three-token line `put invalid.tsdb.message <ts>` is invalid (MalformedMessage) |
| `Scenarios.BadValueLineInvalid` | collectors/hm_tsdb_collector_test.go:904-912 | a line whose value token is `a` is invalid with InvalidValue("a") |
| `Scenarios.UnsupportedLineDiscarded` | collectors/hm_tsdb_collector_test.go:916-925 | the well-formed line `put invalid.tsdb.message <ts> 1` with the four tags parses, and is discarded because its name is not supported |
| `Scenarios.ScrapeTwice` | collectors/hm_tsdb_collector.go:433-560 | composed scenario of the line loop followed by two runs of `Collect` (collectors/hm_tsdb_collector.go lines 351-396): after the healthy, short and unsupported lines, the first scrape reports the job's healthy gauge and no other gauge entry, with received 3, invalid 1 and discarded 1; a second scrape reports no gauge entry and the same counters and last-received timestamp |

## Left out

- `bosh_tsdb_exporter.go`: flag and environment configuration, the HTTP handler, basic auth and TLS. These are process and transport plumbing.
- `NewHMTSDBCollector` (metric names, help texts, the `environment` constant label) and `Describe`. They only build and enumerate Prometheus descriptors. The model's constructor starts from zero counters and 15 empty gauges, as the Prometheus metrics do.
- `listenHMTSDB`, the goroutine per connection and the goroutine started by the constructor. Each line and each scrape is one atomic step. `Collector.Replay` covers any sequential interleaving of lines and scrapes, but not true concurrency.
- The closing of the connection (`defer conn.Close()`). This is I/O.
- `bufio.Scanner`: how lines are cut, `\r` stripping, the token-size limit and read errors. A connection is given as a sequence of lines.
- The Prometheus client library. `GaugeVec`, `Counter` and `Gauge` are finite maps, natural numbers and plain values. The emission order on the metrics channel is not modelled: a scrape returns one report value.
- 64-bit float semantics: `strconv.ParseFloat` is an abstract parameter, values are of an abstract type, and the counters are unbounded naturals.
- `time.Now` and `time.Since`: these are inputs.
- Logging calls.
- Strings are sequences of characters, not bytes. The separators ` ` and `=` are ASCII, so splitting gives the same pieces either way.
