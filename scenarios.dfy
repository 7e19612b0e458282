/**
  The message scenarios of the collector's tests, stated as lemmas about
  concrete lines, with the tests' own names and tag values; the tests stamp
  each line with the current time, for which a fixed timestamp stands here.
  ScrapeTwice composes them: one collector receives three of the lines and
  is scraped twice.
 */
module Scenarios {
  import opened Wrappers
  import opened Strings
  import opened Parser
  import opened Series
  import opened Collector

  const DeploymentName := "fake-deployment-name"
  const JobName := "fake-job-name"
  const JobIndex := "0"
  const JobID := "fake-job-id"

  /** The tags the scenarios carry, one per label key. */
  const Tags: seq<string> := ["deployment=" + DeploymentName, "job=" + JobName, "index=" + JobIndex, "id=" + JobID]

  /** The label tuple those tags select, in the gauges' order (deployment, job, id, index). */
  const JobLabels := Labels(DeploymentName, JobName, JobID, JobIndex)

  /** The scenario lines, as the tokens they are made of, joined with single spaces. */
  const HealthyTokens: seq<string> := ["put", "system.healthy", "1700000000", "1"] + Tags
  const ShortTokens: seq<string> := ["put", "invalid.tsdb.message", "1700000000"]
  const BadValueTokens: seq<string> := ["put", "invalid.tsdb.message", "1700000000", "a"] + Tags
  const UnsupportedTokens: seq<string> := ["put", "invalid.tsdb.message", "1700000000", "1"] + Tags

  const HealthyLine := Join(HealthyTokens, ' ')
  const ShortLine := Join(ShortTokens, ' ')
  const BadValueLine := Join(BadValueTokens, ' ')
  const UnsupportedLine := Join(UnsupportedTokens, ' ')

  lemma TagsHaveNoSpace()
    ensures forall k :: 0 <= k < |Tags| ==> ' ' !in Tags[k]
  {
  }

  /** A line made of space-free tokens splits back into those tokens. */
  lemma TokensOf(tokens: seq<string>)
    requires |tokens| >= 1
    requires forall k :: 0 <= k < |tokens| ==> ' ' !in tokens[k]
    ensures Tokens(Join(tokens, ' ')) == tokens
  {
    SplitJoin(tokens, ' ');
  }

  /** Four tags, one per label key, set all four labels. */
  lemma {:induction false} FourTags<V>(m: HMMetric<V>, d: string, j: string, i: string, x: string)
    requires '=' !in d && '=' !in j && '=' !in i && '=' !in x
    ensures ApplyTags(m, [KeyName(Deployment) + "=" + d, KeyName(Job) + "=" + j,
                          KeyName(Index) + "=" + i, KeyName(Id) + "=" + x])
            == m.(deployment := d, job := j, index := i, id := x)
  {
    var tags := [KeyName(Deployment) + "=" + d, KeyName(Job) + "=" + j,
                 KeyName(Index) + "=" + i, KeyName(Id) + "=" + x];
    TagParts(m, Deployment, d, "");
    var m1 := Set(m, Deployment, d);
    TagParts(m1, Job, j, "");
    var m2 := Set(m1, Job, j);
    TagParts(m2, Index, i, "");
    var m3 := Set(m2, Index, i);
    TagParts(m3, Id, x, "");
    var m4 := Set(m3, Id, x);
    assert ApplyTags(m4, tags[4..]) == m4;
    assert ApplyTags(m3, tags[3..]) == m4;
    assert ApplyTags(m2, tags[2..]) == m4;
    assert ApplyTags(m1, tags[1..]) == m4;
  }

  lemma ScenarioTags<V>(m: HMMetric<V>)
    ensures ApplyTags(m, Tags) == m.(deployment := DeploymentName, job := JobName, index := JobIndex, id := JobID)
  {
    var tags := [KeyName(Deployment) + "=" + DeploymentName, KeyName(Job) + "=" + JobName,
                 KeyName(Index) + "=" + JobIndex, KeyName(Id) + "=" + JobID];
    assert tags[0] == Tags[0];
    assert tags[1] == Tags[1];
    assert tags[2] == Tags[2];
    assert tags[3] == Tags[3];
    assert tags == Tags;
    FourTags(m, DeploymentName, JobName, JobIndex, JobID);
  }

  lemma HealthyLineParses<V>(parseFloat: string -> Option<V>)
    requires parseFloat("1").Some?
    ensures Parse(HealthyLine, parseFloat) ==
            Success(HMMetric("system.healthy", parseFloat("1").value, DeploymentName, JobName, JobIndex, JobID))
  {
    TagsHaveNoSpace();
    TokensOf(HealthyTokens);
    var tokens := Tokens(HealthyLine);
    assert tokens[1] == "system.healthy" && tokens[3] == "1" && tokens[4..] == Tags;
    var m0 := HMMetric("system.healthy", parseFloat("1").value, "", "", "", "");
    assert Parse(HealthyLine, parseFloat) == Success(ApplyTags(m0, Tags));
    ScenarioTags(m0);
  }

  /** `put system.healthy <ts> 1` with the four tags sets the healthy gauge of the job's label tuple. */
  lemma HealthyLineAccepted<V>(parseFloat: string -> Option<V>)
    requires parseFloat("1").Some?
    ensures Classify(HealthyLine, parseFloat) == Accepted(Healthy, JobLabels, parseFloat("1").value)
  {
    HealthyLineParses(parseFloat);
    assert SeriesOf("system.healthy") == Some(Healthy);
  }

  /** `put invalid.tsdb.message 1700000000`, three tokens, is invalid. */
  lemma ShortLineInvalid<V>(parseFloat: string -> Option<V>)
    ensures Classify(ShortLine, parseFloat) == Invalid(MalformedMessage)
  {
    TokensOf(ShortTokens);
  }

  /** `put invalid.tsdb.message <ts> a` with the four tags: the value token does not parse. */
  lemma BadValueLineInvalid<V>(parseFloat: string -> Option<V>)
    requires parseFloat("a").None?
    ensures Classify(BadValueLine, parseFloat) == Invalid(InvalidValue("a"))
  {
    TagsHaveNoSpace();
    TokensOf(BadValueTokens);
  }

  lemma UnsupportedLineParses<V>(parseFloat: string -> Option<V>)
    requires parseFloat("1").Some?
    ensures Parse(UnsupportedLine, parseFloat).Success?
    ensures Parse(UnsupportedLine, parseFloat).value.name == "invalid.tsdb.message"
  {
    TagsHaveNoSpace();
    TokensOf(UnsupportedTokens);
    assert UnsupportedTokens[1] == "invalid.tsdb.message" && UnsupportedTokens[3] == "1";
    ParseLongEnough(UnsupportedLine, parseFloat);
  }

  /** `put invalid.tsdb.message <ts> 1` with the four tags parses, and its unsupported name has it discarded. */
  lemma UnsupportedLineDiscarded<V>(parseFloat: string -> Option<V>)
    requires parseFloat("1").Some?
    ensures Classify(UnsupportedLine, parseFloat) == Discarded("invalid.tsdb.message")
  {
    UnsupportedLineParses(parseFloat);
    var name := Parse(UnsupportedLine, parseFloat).value.name;
    assert SeriesOf(name).None? by {
      assert name == "invalid.tsdb.message";
    }
  }

  /**
    A composed scenario: a fresh collector receives the healthy line, the
    short line and the unsupported line, and is scraped twice. The first
    report holds the healthy gauge of the job and no other gauge entry, and
    counts one line of each kind; the second holds no gauge entry and the
    same counters and last-received timestamp.
   */
  method ScrapeTwice<V>(parseFloat: string -> Option<V>) returns (first: State<V>, second: State<V>)
    requires parseFloat("1").Some?
    ensures Lookup(first.gauges, Healthy, JobLabels) == Some(parseFloat("1").value)
    ensures forall s, key :: s != Healthy || key != JobLabels ==> Lookup(first.gauges, s, key) == None
    ensures first.received == 3 && first.invalid == 1 && first.discarded == 1
    ensures first.lastReceived == 1700000002
    ensures forall s, key :: Lookup(second.gauges, s, key) == None
    ensures second.received == 3 && second.invalid == 1 && second.discarded == 1
    ensures second.lastReceived == first.lastReceived
  {
    var c := new HMTSDBCollector(parseFloat);
    var v := parseFloat("1").value;
    assert forall s, key :: Lookup(c.gauges, s, key) == None;

    HealthyLineAccepted(parseFloat);
    c.HandleLine(Line(HealthyLine, 1700000000));
    var g := c.gauges;
    assert Lookup(g, Healthy, JobLabels) == Some(v);
    assert forall s, key :: s != Healthy || key != JobLabels ==> Lookup(g, s, key) == None;
    assert c.received == 1 && c.invalid == 0 && c.discarded == 0;

    ShortLineInvalid(parseFloat);
    c.HandleLine(Line(ShortLine, 1700000001));
    assert c.gauges == g;
    assert c.received == 2 && c.invalid == 1 && c.discarded == 0;

    UnsupportedLineDiscarded(parseFloat);
    c.HandleLine(Line(UnsupportedLine, 1700000002));
    assert c.gauges == g;
    assert c.received == 3 && c.invalid == 1 && c.discarded == 1;

    first := c.Collect(1700000010, 0.5);
    second := c.Collect(1700000020, 0.5);
  }
}
