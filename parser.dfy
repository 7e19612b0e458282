/**
  The parser for one line of the BOSH Health Monitor's TSDB stream,
    `<command> <name> <timestamp> <value> [<key>=<val> ...]`,
  into an HMMetric. The value is of an abstract type `V`; the float parser
  the source uses is the parameter `parseFloat`, of which only the split
  between success and failure matters here.
 */
module Parser {
  import opened Wrappers
  import opened Strings

  /** One parsed line. Labels a line does not carry stay empty. */
  datatype HMMetric<V> = HMMetric(
    name: string,
    value: V,
    deployment: string,
    job: string,
    index: string,
    id: string)

  datatype ParseError =
    | MalformedMessage      // the line has fewer than 4 space-separated tokens
    | InvalidValue(token: string) // token 3 is not a float

  /** The four label keys a tag may set. */
  datatype LabelKey = Deployment | Job | Index | Id

  /** The switch on a tag's key; any other key is ignored. */
  function KeyOf(key: string): Option<LabelKey>
  {
    if key == "deployment" then Some(Deployment)
    else if key == "job" then Some(Job)
    else if key == "index" then Some(Index)
    else if key == "id" then Some(Id)
    else None
  }

  function KeyName(k: LabelKey): string
  {
    match k
    case Deployment => "deployment"
    case Job => "job"
    case Index => "index"
    case Id => "id"
  }

  function Get<V>(m: HMMetric<V>, k: LabelKey): string
  {
    match k
    case Deployment => m.deployment
    case Job => m.job
    case Index => m.index
    case Id => m.id
  }

  /** `m` with label `k` set to `v`, every other field as it was. */
  function Set<V>(m: HMMetric<V>, k: LabelKey, v: string): (r: HMMetric<V>)
    ensures Get(r, k) == v
    ensures forall k' :: k' != k ==> Get(r, k') == Get(m, k')
    ensures r.name == m.name && r.value == m.value
  {
    match k
    case Deployment => m.(deployment := v)
    case Job => m.(job := v)
    case Index => m.(index := v)
    case Id => m.(id := v)
  }

  /**
    One pass of the tag loop: the token is split on every "="; with two
    pieces or more, a known key in the first piece sets that label to the
    second piece.
   */
  function ApplyTag<V>(m: HMMetric<V>, token: string): HMMetric<V>
  {
    var tag := Split(token, '=');
    if |tag| > 1 then
      match KeyOf(tag[0])
      case Some(k) => Set(m, k, tag[1])
      case None => m
    else m
  }

  /** The tag loop over tokens 4 and later, first token first. */
  function ApplyTags<V>(m: HMMetric<V>, tags: seq<string>): (r: HMMetric<V>)
    ensures r.name == m.name && r.value == m.value
    decreases |tags|
  {
    if tags == [] then m else ApplyTags(ApplyTag(m, tags[0]), tags[1..])
  }

  function Tokens(line: string): seq<string>
  {
    Split(line, ' ')
  }

  /**
    The parser: split on every single space; fewer than 4 tokens is an
    error; the name is token 1, token 2 (the timestamp) is not looked at,
    token 3 must parse as the value, and tokens 4 and later are tags.
   */
  function Parse<V>(line: string, parseFloat: string -> Option<V>): Result<HMMetric<V>, ParseError>
  {
    var tokens := Tokens(line);
    if |tokens| < 4 then Failure(MalformedMessage)
    else
      match parseFloat(tokens[3])
      case None => Failure(InvalidValue(tokens[3]))
      case Some(v) => Success(ApplyTags(HMMetric(tokens[1], v, "", "", "", ""), tokens[4..]))
  }

  // ---------------------------------------------------------------------
  // A tag token on its own

  /** The key of a tag: the text before its first "=", if it names a label. */
  function TagKey(token: string): Option<LabelKey>
  {
    if '=' in token then KeyOf(token[..IndexOf(token, '=')]) else None
  }

  /** The value of a tag: the text between its first "=" and the next "=" or the end. */
  function TagValue(token: string): string
    requires '=' in token
  {
    var rest := token[IndexOf(token, '=') + 1..];
    if '=' in rest then rest[..IndexOf(rest, '=')] else rest
  }

  /**
    A tag sets exactly the label its key names, to the text between the
    first and second "="; a token without "=" or with another key changes
    nothing.
   */
  lemma ApplyTagMeaning<V>(m: HMMetric<V>, token: string)
    ensures ApplyTag(m, token) == match TagKey(token)
      case Some(k) => Set(m, k, TagValue(token))
      case None => m
  {
    if '=' in token {
      SplitFirst(token, '=');
      SplitSecond(token, '=');
    } else {
      assert Split(token, '=') == [token];
    }
  }

  /** A label key holds no "=", and the key switch recognises it. */
  lemma KeyNameRecognised(k: LabelKey)
    ensures '=' !in KeyName(k) && KeyOf(KeyName(k)) == Some(k)
  {
  }

  /** A tag whose key names a label sets it to the text after "=" up to the next "=". */
  lemma KeyedTag<V>(m: HMMetric<V>, k: LabelKey, after: string)
    ensures ApplyTag(m, KeyName(k) + "=" + after) ==
            Set(m, k, if '=' in after then after[..IndexOf(after, '=')] else after)
  {
    var key := KeyName(k);
    KeyNameRecognised(k);
    var t := key + "=" + after;
    assert t[..|key|] == key && t[|key|] == '=';
    IndexOfUnique(t, '=', |key|);
    assert t[|key| + 1..] == after;
    assert TagKey(t) == Some(k);
    ApplyTagMeaning(m, t);
  }

  /** `key=` sets the label to the empty string. */
  lemma EmptyTagValue<V>(m: HMMetric<V>, k: LabelKey)
    ensures ApplyTag(m, KeyName(k) + "=") == Set(m, k, "")
  {
    KeyedTag(m, k, "");
    assert KeyName(k) + "=" + "" == KeyName(k) + "=";
  }

  /**
    `key=v` and `key=v=rest` both set the label to `v`: what follows a
    second "=" is dropped.
   */
  lemma TagParts<V>(m: HMMetric<V>, k: LabelKey, v: string, rest: string)
    requires '=' !in v
    ensures ApplyTag(m, KeyName(k) + "=" + v) == Set(m, k, v)
    ensures ApplyTag(m, KeyName(k) + "=" + v + "=" + rest) == Set(m, k, v)
  {
    KeyedTag(m, k, v);
    var after := v + "=" + rest;
    assert after[..|v|] == v && after[|v|] == '=';
    IndexOfUnique(after, '=', |v|);
    KeyedTag(m, k, after);
    assert KeyName(k) + "=" + after == KeyName(k) + "=" + v + "=" + rest;
  }

  // ---------------------------------------------------------------------
  // The tag loop

  /** A label no tag names keeps the value it had. */
  lemma {:induction false} TagsAbsent<V>(m: HMMetric<V>, tags: seq<string>, k: LabelKey)
    requires forall l :: 0 <= l < |tags| ==> TagKey(tags[l]) != Some(k)
    ensures Get(ApplyTags(m, tags), k) == Get(m, k)
    decreases |tags|
  {
    if tags != [] {
      ApplyTagMeaning(m, tags[0]);
      TagsAbsent(ApplyTag(m, tags[0]), tags[1..], k);
    }
  }

  /** For a key named by several tags, the last of them wins. */
  lemma {:induction false} TagsLastWins<V>(m: HMMetric<V>, tags: seq<string>, k: LabelKey, j: nat)
    requires j < |tags| && TagKey(tags[j]) == Some(k)
    requires forall l :: j < l < |tags| ==> TagKey(tags[l]) != Some(k)
    ensures '=' in tags[j] && Get(ApplyTags(m, tags), k) == TagValue(tags[j])
    decreases |tags|
  {
    ApplyTagMeaning(m, tags[0]);
    if j == 0 {
      TagsAbsent(ApplyTag(m, tags[0]), tags[1..], k);
    } else {
      TagsLastWins(ApplyTag(m, tags[0]), tags[1..], k, j - 1);
    }
  }

  // ---------------------------------------------------------------------
  // The parser

  /**
    A line is rejected as too short exactly when it holds fewer than three
    spaces; empty tokens count, so "a  b c" has four tokens.
   */
  lemma ParseMalformed<V>(line: string, parseFloat: string -> Option<V>)
    ensures Parse(line, parseFloat) == Failure(MalformedMessage) <==> multiset(line)[' '] < 3
  {
    SplitCount(line, ' ');
  }

  /**
    A line with four tokens or more fails only when token 3 does not parse,
    and then with InvalidValue(token 3); otherwise the name is token 1 and
    the value is the parsed token 3.
   */
  lemma ParseLongEnough<V>(line: string, parseFloat: string -> Option<V>)
    requires |Tokens(line)| >= 4
    ensures var tokens := Tokens(line);
            var r := Parse(line, parseFloat);
            && (r.Failure? <==> parseFloat(tokens[3]).None?)
            && (r.Failure? ==> r.error == InvalidValue(tokens[3]))
            && (r.Success? ==> r.value.name == tokens[1] && Some(r.value.value) == parseFloat(tokens[3]))
  {
  }

  /** The timestamp token is never inspected: replacing it leaves the result unchanged. */
  lemma ParseIgnoresTimestamp<V>(line: string, timestamp: string, parseFloat: string -> Option<V>)
    requires |Tokens(line)| >= 4
    requires ' ' !in timestamp
    ensures Parse(Join(Tokens(line)[2 := timestamp], ' '), parseFloat) == Parse(line, parseFloat)
  {
    var tokens := Tokens(line);
    var tokens' := tokens[2 := timestamp];
    SplitPiecesHaveNoSeparator(line, ' ');
    assert forall k :: 0 <= k < |tokens'| ==> ' ' !in tokens'[k] by {
      forall k | 0 <= k < |tokens'| ensures ' ' !in tokens'[k] {
        if k != 2 { assert tokens'[k] == tokens[k]; }
      }
    }
    SplitJoin(tokens', ' ');
    assert tokens'[4..] == tokens[4..];
  }

  /**
    Each label of a parsed line comes from the last tag at token 4 or later
    that names it, and is empty when no such tag exists.
   */
  lemma ParseLabel<V>(line: string, parseFloat: string -> Option<V>, k: LabelKey)
    requires Parse(line, parseFloat).Success?
    ensures var tokens := Tokens(line);
            var r := Parse(line, parseFloat).value;
            && (forall j :: (4 <= j < |tokens| && TagKey(tokens[j]) == Some(k) &&
                             (forall l :: j < l < |tokens| ==> TagKey(tokens[l]) != Some(k))) ==>
                  '=' in tokens[j] && Get(r, k) == TagValue(tokens[j]))
            && ((forall j :: 4 <= j < |tokens| ==> TagKey(tokens[j]) != Some(k)) ==> Get(r, k) == "")
  {
    var tokens := Tokens(line);
    var v := parseFloat(tokens[3]).value;
    var m0 := HMMetric(tokens[1], v, "", "", "", "");
    var tags := tokens[4..];
    assert Get(m0, k) == "" by {
      match k
      case Deployment =>
      case Job =>
      case Index =>
      case Id =>
    }
    forall j | 4 <= j < |tokens| && TagKey(tokens[j]) == Some(k) &&
               (forall l :: j < l < |tokens| ==> TagKey(tokens[l]) != Some(k))
      ensures '=' in tokens[j] && Get(ApplyTags(m0, tags), k) == TagValue(tokens[j])
    {
      assert tags[j - 4] == tokens[j];
      forall l | j - 4 < l < |tags| ensures TagKey(tags[l]) != Some(k) {
        assert tags[l] == tokens[l + 4];
      }
      TagsLastWins(m0, tags, k, j - 4);
    }
    if forall j :: 4 <= j < |tokens| ==> TagKey(tokens[j]) != Some(k) {
      forall l | 0 <= l < |tags| ensures TagKey(tags[l]) != Some(k) {
        assert tags[l] == tokens[l + 4];
      }
      TagsAbsent(m0, tags, k);
    }
  }
}
