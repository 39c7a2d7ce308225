/** Choosing an audit sink from a URL: the scheme, the broker list and the topic. */
module Kafka {
  import opened Text

  const DEFAULT_TOPIC := "audit.v1"
  const SCHEME := "kafka://"
  const TOPIC_KEY := "topic="

  datatype Sink = MemorySink | KafkaSink(brokers: seq<string>, topic: string)
  datatype Error = NoBrokers | UnknownScheme
  datatype Outcome = Opened(sink: Sink) | Refused(error: Error)

  function TrimPrefix(s: string, prefix: string): string {
    if prefix <= s then s[|prefix|..] else s
  }

  /** The trimmed, non-empty parts, in order. */
  function Clean(parts: seq<string>): (r: seq<string>)
    ensures |r| <= |parts|
    ensures forall b :: b in r ==> b != "" && IsTrimmed(b)
  {
    if parts == [] then []
    else
      var b := TrimSpace(parts[|parts| - 1]);
      Clean(parts[..|parts| - 1]) + if b != "" then [b] else []
  }

  /** The value of the last topic= parameter; "" when there is none. */
  function TopicIn(params: seq<string>): string {
    if params == [] then ""
    else
      var kv := params[|params| - 1];
      if TOPIC_KEY <= kv then kv[|TOPIC_KEY|..] else TopicIn(params[..|params| - 1])
  }

  /** NewKafkaSink. */
  function Open(brokers: seq<string>, topic: string): Outcome {
    if brokers == [] then Refused(NoBrokers)
    else Opened(KafkaSink(brokers, if topic == "" then DEFAULT_TOPIC else topic))
  }

  function FromHosts(hosts: string, topic: string, defaultTopic: string): Outcome {
    Open(Clean(Split(hosts, ',')), if topic == "" then defaultTopic else topic)
  }

  /** NewKafkaSinkFromURL. */
  function FromUrl(url: string, defaultTopic: string): Outcome {
    var rest := TrimPrefix(url, SCHEME);
    match Index(rest, '?')
    case None => FromHosts(rest, "", defaultTopic)
    case Some(i) => FromHosts(rest[..i], TopicIn(Split(rest[i + 1..], '&')), defaultTopic)
  }

  predicate IsPlainBrokerList(url: string) {
    !Contains(url, "://") && Contains(url, ":")
  }

  function NewSink(url: string): Outcome {
    if url == "" || "memory://" <= url then Opened(MemorySink)
    else if SCHEME <= url then FromUrl(url, DEFAULT_TOPIC)
    else if IsPlainBrokerList(url) then FromUrl(SCHEME + url, DEFAULT_TOPIC)
    else Refused(UnknownScheme)
  }

  function WithQuery(hosts: string, query: string): string {
    hosts + ['?'] + query
  }

  /** The canonical URL of a broker list and topic. */
  function Render(brokers: seq<string>, topic: string): string {
    SCHEME + WithQuery(Join(brokers, ','), TOPIC_KEY + topic)
  }

  // ------------------------------------------------------------------- methods

  /** After k of the elements of `was`, the first n of `now` are those kept, and the rest are untouched. */
  ghost predicate Filtered(was: seq<string>, now: seq<string>, n: nat, k: nat) {
    && n <= k <= |was| == |now|
    && now[..n] == Clean(was[..k]) && now[n..] == was[n..]
  }

  lemma FilterReads(was: seq<string>, now: seq<string>, n: nat, k: nat)
    requires Filtered(was, now, n, k) && k < |was|
    ensures now[k] == was[k]
  {
    assert now[n..][k - n] == was[n..][k - n];
  }

  lemma FilterStep(was: seq<string>, now: seq<string>, n: nat, k: nat)
    requires Filtered(was, now, n, k) && k < |was|
    ensures var b := TrimSpace(was[k]);
            if b != "" then Filtered(was, now[n := b], n + 1, k + 1) else Filtered(was, now, n, k + 1)
  {
    var b := TrimSpace(was[k]);
    assert was[..k + 1][..k] == was[..k];
    if b != "" {
      assert now[n := b][..n + 1] == now[..n] + [b];
      assert now[n := b][n + 1..] == now[n..][1..] && was[n + 1..] == was[n..][1..];
    }
  }

  /** The filter that reuses the slice it reads: element k is read before anything is written past it. */
  method CleanInPlace(a: array<string>) returns (n: nat)
    modifies a
    ensures n <= a.Length && a[..n] == Clean(old(a[..])) && a[n..] == old(a[n..])
  {
    ghost var was := a[..];
    n := 0;
    for k := 0 to a.Length
      invariant Filtered(was, a[..], n, k)
    {
      ghost var now := a[..];
      FilterReads(was, now, n, k);
      FilterStep(was, now, n, k);
      var b := TrimSpace(a[k]);
      if b != "" {
        a[n] := b;
        assert a[..] == now[n := b];
        n := n + 1;
      }
    }
    assert was[..a.Length] == was;
    assert a[..][..n] == a[..n] && a[..][n..] == a[n..] && was[n..] == old(a[n..]);
  }

  method FindTopic(params: seq<string>) returns (topic: string)
    ensures topic == TopicIn(params)
  {
    topic := "";
    for k := 0 to |params|
      invariant topic == TopicIn(params[..k])
    {
      assert params[..k + 1][..k] == params[..k];
      if TOPIC_KEY <= params[k] {
        topic := params[k][|TOPIC_KEY|..];
      }
    }
    assert params[..|params|] == params;
  }

  method NewKafkaSinkFromUrl(url: string, defaultTopic: string) returns (r: Outcome)
    ensures r == FromUrl(url, defaultTopic)
  {
    var rest := TrimPrefix(url, SCHEME);
    var topic := "";
    var i := Index(rest, '?');
    if i.Some? {
      topic := FindTopic(Split(rest[i.value + 1..], '&'));
      rest := rest[..i.value];
    }
    var parts := Split(rest, ',');
    var brokers := new string[|parts|](k requires 0 <= k < |parts| => parts[k]);
    assert brokers[..] == parts;
    var n := CleanInPlace(brokers);
    if topic == "" {
      topic := defaultTopic;
    }
    if n == 0 {
      return Refused(NoBrokers);
    }
    r := Opened(KafkaSink(brokers[..n], if topic == "" then DEFAULT_TOPIC else topic));
  }

  // ---------------------------------------------------------------- round trips

  predicate GoodBroker(b: string) {
    b != "" && IsTrimmed(b) && ',' !in b && '?' !in b
  }

  /** What parsing can produce, and what rendering preserves. */
  predicate GoodSink(s: Sink) {
    s.KafkaSink? && s.brokers != [] && (forall b :: b in s.brokers ==> GoodBroker(b)) && s.topic != "" && '&' !in s.topic
  }

  lemma {:induction false} CleanKeepsGood(parts: seq<string>)
    requires forall b :: b in parts ==> b != "" && IsTrimmed(b)
    ensures Clean(parts) == parts
  {
    if parts != [] {
      var n := |parts| - 1;
      assert forall b :: b in parts[..n] ==> b in parts;
      CleanKeepsGood(parts[..n]);
      TrimSpaceMeaning(parts[n]);
      assert parts[n] in parts;
      assert parts == parts[..n] + [parts[n]];
    }
  }

  lemma {:induction false} CleanKeepsOut(parts: seq<string>, c: char)
    requires forall b :: b in parts ==> c !in b
    ensures forall b :: b in Clean(parts) ==> c !in b
  {
    if parts != [] {
      var n := |parts| - 1;
      CleanKeepsOut(parts[..n], c);
      TrimSpaceMeaning(parts[n]);
      assert parts[n] in parts;
    }
  }

  lemma {:induction false} TopicKeepsOut(params: seq<string>, c: char)
    requires forall p :: p in params ==> c !in p
    ensures c !in TopicIn(params)
  {
    if params != [] {
      var n := |params| - 1;
      assert params[n] in params;
      TopicKeepsOut(params[..n], c);
    }
  }

  lemma {:induction false} JoinHasParts(parts: seq<string>, sep: char, p: string)
    requires p in parts
    ensures forall c :: c in p ==> c in Join(parts, sep)
  {
    if |parts| > 1 && p in parts[1..] {
      JoinHasParts(parts[1..], sep, p);
    }
  }

  lemma SplitKeepsOut(s: string, sep: char, c: char)
    requires c !in s && c != sep
    ensures forall p :: p in Split(s, sep) ==> c !in p
  {
    var parts := Split(s, sep);
    forall p | p in parts ensures c !in p {
      JoinHasParts(parts, sep, p);
    }
  }

  lemma TopicOf(topic: string)
    requires '&' !in topic
    ensures TopicIn(Split(TOPIC_KEY + topic, '&')) == topic
  {
    assert forall i :: 0 <= i < |TOPIC_KEY| ==> TOPIC_KEY[i] != '&';
    var s := TOPIC_KEY + topic;
    assert Index(s, '&').None?;
    assert Split(s, '&') == [s];
    assert [s][0] == s && s[|TOPIC_KEY|..] == topic;
  }

  lemma TrimPrefixUndoes(prefix: string, s: string)
    ensures TrimPrefix(prefix + s, prefix) == s
  {
  }

  lemma FromQuery(hosts: string, query: string, defaultTopic: string)
    requires '?' !in hosts
    ensures FromUrl(SCHEME + WithQuery(hosts, query), defaultTopic) ==
            FromHosts(hosts, TopicIn(Split(query, '&')), defaultTopic)
  {
    var tail := WithQuery(hosts, query);
    TrimPrefixUndoes(SCHEME, tail);
    assert tail[|hosts|] == '?' && tail[..|hosts|] == hosts && tail[|hosts| + 1..] == query;
    IndexUnique(tail, '?', |hosts|);
  }

  lemma GoodHosts(brokers: seq<string>)
    requires brokers != [] && forall b :: b in brokers ==> GoodBroker(b)
    ensures '?' !in Join(brokers, ',') && Clean(Split(Join(brokers, ','), ',')) == brokers
  {
    JoinChars(brokers, ',', '?');
    SplitJoin(brokers, ',');
    CleanKeepsGood(brokers);
  }

  /** Parsing the canonical URL of good brokers and a good topic gives them back. */
  lemma {:induction false} ParseRendered(s: Sink, defaultTopic: string)
    requires GoodSink(s)
    ensures FromUrl(Render(s.brokers, s.topic), defaultTopic) == Opened(s)
  {
    GoodHosts(s.brokers);
    FromQuery(Join(s.brokers, ','), TOPIC_KEY + s.topic, defaultTopic);
    TopicOf(s.topic);
  }

  lemma HostsAreGood(hosts: string)
    requires '?' !in hosts
    ensures forall b :: b in Clean(Split(hosts, ',')) ==> GoodBroker(b)
  {
    SplitKeepsOut(hosts, ',', '?');
    CleanKeepsOut(Split(hosts, ','), '?');
    CleanKeepsOut(Split(hosts, ','), ',');
  }

  lemma OpenIsGood(brokers: seq<string>, topic: string)
    requires brokers != [] && '&' !in topic && forall b :: b in brokers ==> GoodBroker(b)
    ensures Open(brokers, topic).Opened? && GoodSink(Open(brokers, topic).sink)
  {
    assert forall k :: 0 <= k < |DEFAULT_TOPIC| ==> DEFAULT_TOPIC[k] != '&';
  }

  lemma FromHostsIsGood(hosts: string, topic: string, defaultTopic: string)
    requires '?' !in hosts && '&' !in topic && '&' !in defaultTopic && FromHosts(hosts, topic, defaultTopic).Opened?
    ensures GoodSink(FromHosts(hosts, topic, defaultTopic).sink)
  {
    HostsAreGood(hosts);
    OpenIsGood(Clean(Split(hosts, ',')), if topic == "" then defaultTopic else topic);
  }

  /** Whatever URL is accepted, the brokers found are non-empty, trimmed and free of separators. */
  lemma ParsedIsGood(url: string, defaultTopic: string)
    requires '&' !in defaultTopic && FromUrl(url, defaultTopic).Opened?
    ensures GoodSink(FromUrl(url, defaultTopic).sink)
  {
    var rest := TrimPrefix(url, SCHEME);
    match Index(rest, '?')
    case None =>
      FromHostsIsGood(rest, "", defaultTopic);
    case Some(i) =>
      var params := Split(rest[i + 1..], '&');
      TopicKeepsOut(params, '&');
      FromHostsIsGood(rest[..i], TopicIn(params), defaultTopic);
  }

  lemma {:induction false} CleanEmpty(parts: seq<string>)
    ensures Clean(parts) == [] <==> forall p :: p in parts ==> IsBlank(p)
  {
    if parts != [] {
      var n := |parts| - 1;
      CleanEmpty(parts[..n]);
      TrimSpaceMeaning(parts[n]);
      assert parts == parts[..n] + [parts[n]];
    }
  }

  /** Every accepted URL has a canonical form with the same meaning, on which parsing and rendering are
      inverse; and a URL is refused exactly when no host is left after trimming. */
  lemma CanonicalForm(url: string, defaultTopic: string)
    requires '&' !in defaultTopic
    ensures FromUrl(url, defaultTopic).Opened? ==>
              var s := FromUrl(url, defaultTopic).sink;
              GoodSink(s) && FromUrl(Render(s.brokers, s.topic), defaultTopic) == Opened(s)
    ensures FromUrl(url, defaultTopic) == Refused(NoBrokers) <==>
            var rest := TrimPrefix(url, SCHEME);
            var hosts := if Index(rest, '?').Some? then rest[..Index(rest, '?').value] else rest;
            forall p :: p in Split(hosts, ',') ==> IsBlank(p)
  {
    if FromUrl(url, defaultTopic).Opened? {
      ParsedIsGood(url, defaultTopic);
      ParseRendered(FromUrl(url, defaultTopic).sink, defaultTopic);
    }
    var rest := TrimPrefix(url, SCHEME);
    var hosts := if Index(rest, '?').Some? then rest[..Index(rest, '?').value] else rest;
    CleanEmpty(Split(hosts, ','));
  }

  lemma SchemeHasMark(scheme: string, url: string)
    ensures scheme + "://" <= url ==> Contains(url, "://")
  {
    if scheme + "://" <= url {
      assert url[|scheme|..][..3] == "://";
      assert "://" <= url[|scheme|..];
    }
  }

  lemma KafkaUrlSelected(url: string)
    requires SCHEME <= url
    ensures NewSink(url) == FromUrl(url, DEFAULT_TOPIC)
  {
    assert url[0] == SCHEME[0] && SCHEME[0] != "memory://"[0];
  }

  lemma PlainListSelected(url: string)
    requires IsPlainBrokerList(url)
    ensures NewSink(url) == FromUrl(SCHEME + url, DEFAULT_TOPIC)
  {
    SchemeHasMark("memory", url);
    SchemeHasMark("kafka", url);
    assert "memory" + "://" == "memory://" && "kafka" + "://" == SCHEME;
  }

  /** NewSink opens a canonical URL as what it names, and a plain list with its own brokers under the
      default topic. */
  lemma {:induction false} SinkSelection(brokers: seq<string>, topic: string)
    requires GoodSink(KafkaSink(brokers, topic))
    ensures NewSink(Render(brokers, topic)) == Opened(KafkaSink(brokers, topic))
    ensures IsPlainBrokerList(Join(brokers, ',')) ==>
              NewSink(Join(brokers, ',')) == Opened(KafkaSink(brokers, DEFAULT_TOPIC))
  {
    ParseRendered(KafkaSink(brokers, topic), DEFAULT_TOPIC);
    KafkaUrlSelected(Render(brokers, topic));
    var list := Join(brokers, ',');
    if IsPlainBrokerList(list) {
      PlainListSelected(list);
      GoodHosts(brokers);
      TrimPrefixUndoes(SCHEME, list);
    }
  }

  // --------------------------------------------------------- every part of a URL

  /** The filter takes each part by itself: a blank one goes, another is trimmed. */
  lemma CleanOne(p: string)
    ensures Clean([p]) == if IsBlank(p) then [] else [TrimSpace(p)]
  {
    TrimSpaceMeaning(p);
    assert [p][..0] == [];
  }

  /** And it keeps the order. */
  lemma {:induction false} CleanJoins(xs: seq<string>, ys: seq<string>)
    ensures Clean(xs + ys) == Clean(xs) + Clean(ys)
  {
    if ys == [] {
      assert xs + ys == xs;
    } else {
      assert (xs + ys)[..|xs + ys| - 1] == xs + ys[..|ys| - 1];
      CleanJoins(xs, ys[..|ys| - 1]);
    }
  }

  /** params[i] is the last topic parameter, and this is its value. */
  ghost predicate LastTopic(params: seq<string>, i: int, topic: string) {
    0 <= i < |params| && params[i] == "topic=" + topic &&
    forall j :: i < j < |params| ==> !("topic=" <= params[j])
  }

  lemma {:induction false} TopicExactly(params: seq<string>)
    ensures forall i, topic :: LastTopic(params, i, topic) ==> TopicIn(params) == topic
    ensures (forall j :: 0 <= j < |params| ==> !("topic=" <= params[j])) ==> TopicIn(params) == ""
  {
    if params != [] {
      var n := |params| - 1;
      TopicExactly(params[..n]);
      forall i, topic | LastTopic(params, i, topic) ensures TopicIn(params) == topic {
        if i < n { assert LastTopic(params[..n], i, topic); }
      }
    }
  }

  /** What brokers and topic amount to: the topic asked for, else the caller's default, else audit.v1. */
  lemma OpenExactly(brokers: seq<string>, topic: string, defaultTopic: string)
    ensures Open(brokers, if topic == "" then defaultTopic else topic) ==
            if brokers == [] then Refused(NoBrokers)
            else Opened(KafkaSink(brokers, if topic != "" then topic else if defaultTopic != "" then defaultTopic
                                           else "audit.v1"))
  {
    assert "audit.v1" != "";
  }

  /** Every URL, with a query and without: the scheme is optional, hosts end at the first '?', parameters are
      separated by '&', brokers by ','. */
  lemma UrlExactly(hosts: string, query: string, defaultTopic: string)
    requires '?' !in hosts
    ensures forall url :: url == "kafka://" + hosts || (url == hosts && !("kafka://" <= hosts)) ==>
              FromUrl(url, defaultTopic) == Open(Clean(Split(hosts, ',')), defaultTopic)
    ensures forall url :: url == "kafka://" + (hosts + "?" + query) ||
                          (url == hosts + "?" + query && !("kafka://" <= url)) ==>
              FromUrl(url, defaultTopic) ==
              Open(Clean(Split(hosts, ',')),
                   if TopicIn(Split(query, '&')) == "" then defaultTopic else TopicIn(Split(query, '&')))
  {
    assert "kafka://" == SCHEME;
    var tail := hosts + "?" + query;
    assert tail[|hosts|] == '?' && tail[..|hosts|] == hosts && tail[|hosts| + 1..] == query;
    IndexUnique(tail, '?', |hosts|);
    TrimPrefixUndoes(SCHEME, hosts);
    TrimPrefixUndoes(SCHEME, tail);
  }

  /** Which URLs open the memory sink, which go to the broker parser and in what form, and which are
      refused out of hand. */
  lemma SelectionExactly(url: string)
    ensures url == "" || "memory://" <= url ==> NewSink(url) == Opened(MemorySink)
    ensures "kafka://" <= url ==> NewSink(url) == FromUrl(url, "audit.v1")
    ensures url != "" && !("memory://" <= url) && !("kafka://" <= url) ==>
              NewSink(url) == if Contains(url, ":") && !Contains(url, "://") then FromUrl("kafka://" + url, "audit.v1")
                              else Refused(UnknownScheme)
  {
    if "kafka://" <= url { assert url[0] == 'k' && "memory://"[0] == 'm'; }
  }
}
