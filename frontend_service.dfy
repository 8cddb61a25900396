/** The dashboard service of the microservices lab: it fans requests out to
    the five back-end services and reshapes their answers. Modelled here:
    the services table, the health and metrics aggregations (with the
    request-counter summation over Prometheus text), and the two order
    proxies. Each HTTP fetch is an input: a function from URL to what the
    fetch produced. */
module FrontendService {
  import opened Common
  import opened JsText
  import OrderService
  import UserService

  /** The configured services, in declaration order: (name, base URL). */
  const Services: seq<(string, string)> := [
    ("user-service", "http://user-service.user-service.svc.cluster.local"),
    ("order-service", "http://order-service.order-service.svc.cluster.local"),
    ("inventory-service", "http://inventory-service.inventory-service.svc.cluster.local"),
    ("payment-service", "http://payment-service.payment-service.svc.cluster.local"),
    ("notification-service", "http://notification-service.notification-service.svc.cluster.local")
  ]

  /** What one GET produced: the response body, or axios's `error.message`. */
  datatype Fetch = Fetched(data: string) | FetchFailed(message: string)

  // ---------------------------------------------------------------------
  // The request counter in Prometheus text:
  //   /http_requests_total\{[^}]+\}\s+(\d+)/g, then parseInt of the text
  //   after each match's last space, summed with reduce.
  // ---------------------------------------------------------------------

  const CounterPrefix: string := "http_requests_total{"

  /** Length of the longest prefix of `s` free of '}' (the `[^}]+` run). */
  function LabelRun(s: string): (n: nat)
    ensures n <= |s|
    ensures forall i :: 0 <= i < n ==> s[i] != '}'
    ensures n < |s| ==> s[n] == '}'
  {
    if |s| > 0 && s[0] != '}' then 1 + LabelRun(s[1..]) else 0
  }

  /** Length of the longest prefix of `s` made of `\s` characters. */
  function SpaceRun(s: string): (n: nat)
    ensures n <= |s|
    ensures forall i :: 0 <= i < n ==> IsWhitespace(s[i])
    ensures n < |s| ==> !IsWhitespace(s[n])
  {
    if |s| > 0 && IsWhitespace(s[0]) then 1 + SpaceRun(s[1..]) else 0
  }

  /** The length of the match of the counter pattern that starts at the
      beginning of `t`, or 0 when none starts there. */
  function MatchAt(t: string): (n: nat)
    ensures n <= |t|
    ensures n > 0 ==> StartsWith(t, CounterPrefix) && n > |CounterPrefix| + 3
  {
    if !StartsWith(t, CounterPrefix) then 0
    else
      var m := MatchAfterPrefix(t[|CounterPrefix|..]);
      if m == 0 then 0 else |CounterPrefix| + m
  }

  /** The rest of the pattern, `[^}]+\}\s+\d+`, matched at the start of `r`.
      Every part is a greedy run whose end is forced by the part after it,
      so backtracking never finds a different match. */
  function MatchAfterPrefix(r: string): (n: nat)
    ensures n <= |r|
    ensures n > 0 ==> n > 3
  {
    var a := LabelRun(r);
    if a == 0 || a == |r| then 0
    else
      var r2 := r[a + 1..];
      var b := SpaceRun(r2);
      if b == 0 then 0
      else
        var c := DigitRun(r2[b..], 10);
        if c == 0 then 0 else a + 1 + b + c
  }

  /** `text.match(pattern) || []` with the global flag: every match, left to
      right, each search resuming where the previous match ended. */
  function Matches(t: string): (ms: seq<string>)
    ensures forall i :: 0 <= i < |ms| ==> StartsWith(ms[i], CounterPrefix)
    decreases |t|
  {
    if |t| == 0 then []
    else
      var n := MatchAt(t);
      if n == 0 then Matches(t[1..]) else [t[..n]] + Matches(t[n..])
  }

  /** `matches.reduce((sum, m) => sum + parseInt(m.split(' ').pop()), 0)`;
      `None` stands for `NaN`, which absorbs every later addition. */
  function SumValues(ms: seq<string>): Option<int> {
    SumReadings(seq(|ms|, i requires 0 <= i < |ms| => ValueOf(ms[i])))
  }

  /** The left-to-right sum of the values read, `NaN` as soon as one is. */
  function SumReadings(vs: seq<Option<int>>): Option<int> {
    if |vs| == 0 then Some(0) else AddOrNaN(SumReadings(vs[..|vs| - 1]), vs[|vs| - 1])
  }

  /** `parseInt(m.split(' ').pop())` */
  function ValueOf(m: string): Option<int> {
    ParseInt(AfterLast(m, ' '))
  }

  /** JavaScript addition where `None` is `NaN`. */
  function AddOrNaN(a: Option<int>, b: Option<int>): Option<int> {
    if a.Some? && b.Some? then Some(a.value + b.value) else None
  }

  function TotalRequests(metrics: string): Option<int> {
    SumValues(Matches(metrics))
  }

  /** Text without the counter prefix holds no match, so its total is 0. */
  lemma {:induction false} NoPrefixNoMatch(t: string)
    requires !Contains(t, CounterPrefix)
    ensures Matches(t) == [] && TotalRequests(t) == Some(0)
    decreases |t|
  {
    if |t| > 0 {
      NoPrefixNoMatch(t[1..]);
    }
  }

  /** A counter line with an empty label block `{}` is not a match. */
  lemma EmptyLabelsNotCounted(rest: string)
    ensures MatchAt(CounterPrefix + "}" + rest) == 0
  {
    var t := CounterPrefix + "}" + rest;
    assert t[..|CounterPrefix|] == CounterPrefix;
    assert t[|CounterPrefix|..][0] == '}';
  }

  /** One counter sample as the Prometheus client prints it. */
  datatype Sample = Sample(labels: string, value: nat)

  /** A label block the pattern accepts: non-empty and free of '}'. */
  predicate WellFormedLabels(labels: string) {
    |labels| > 0 && '}' !in labels
  }

  function SampleLine(s: Sample): string {
    CounterPrefix + s.labels + ['}', ' '] + NatToString(s.value)
  }

  /** The exposition text: one line per sample. */
  function Render(samples: seq<Sample>): string {
    if |samples| == 0 then [] else SampleLine(samples[0]) + ['\n'] + Render(samples[1..])
  }

  function SumSamples(samples: seq<Sample>): nat {
    if |samples| == 0 then 0 else SumSamples(samples[..|samples| - 1]) + samples[|samples| - 1].value
  }

  lemma {:induction false} LabelRunStopsAtBrace(labels: string, rest: string)
    requires '}' !in labels
    ensures LabelRun(labels + ['}'] + rest) == |labels|
    decreases |labels|
  {
    if |labels| > 0 {
      assert (labels + ['}'] + rest)[1..] == labels[1..] + ['}'] + rest;
      LabelRunStopsAtBrace(labels[1..], rest);
    } else {
      assert labels + ['}'] + rest == ['}'] + rest;
    }
  }

  /** The digit run of a decimal numeral followed by a newline is the numeral. */
  lemma {:induction false} DigitRunOfPrefix(d: string, rest: string)
    requires forall i :: 0 <= i < |d| ==> IsDigit(d[i])
    requires |rest| > 0 && rest[0] == '\n'
    ensures DigitRun(d + rest, 10) == |d|
    decreases |d|
  {
    var x := d + rest;
    if |d| > 0 {
      assert x[1..] == d[1..] + rest;
      DigitRunOfPrefix(d[1..], rest);
      assert IsRadixDigit(x[0], 10);
    } else {
      assert x == rest;
      assert !IsRadixDigit(x[0], 10);
    }
  }

  /** After the prefix, a sample's labels, brace, space and numeral are
      matched up to the newline. */
  lemma MatchAfterPrefixOfSample(labels: string, d: string, rest: string)
    requires WellFormedLabels(labels)
    requires |d| > 0 && forall i :: 0 <= i < |d| ==> IsDigit(d[i])
    ensures MatchAfterPrefix(labels + ['}', ' '] + d + ['\n'] + rest) == |labels| + 2 + |d|
  {
    var nl := ['\n'] + rest;
    var tail := [' '] + (d + nl);
    var r := labels + ['}', ' '] + d + ['\n'] + rest;
    Regroup(labels, d, rest);
    LabelRunStopsAtBrace(labels, tail);
    assert r[|labels| + 1..] == tail;
    SpaceBeforeNumeral(d, nl);
    DigitRunOfPrefix(d, nl);
  }

  lemma Regroup(labels: string, d: string, rest: string)
    ensures labels + ['}', ' '] + d + ['\n'] + rest == labels + ['}'] + ([' '] + (d + (['\n'] + rest)))
  {
    assert ['}', ' '] == ['}'] + [' '];
  }

  /** The single space before a numeral is the whole run of spaces. */
  lemma SpaceBeforeNumeral(d: string, nl: string)
    requires |d| > 0 && IsDigit(d[0])
    ensures var t := [' '] + (d + nl); SpaceRun(t) == 1 && t[1..] == d + nl
  {
    var t := [' '] + (d + nl);
    assert t[1..] == d + nl;
    assert !IsWhitespace(t[1]);
  }

  /** A sample line followed by a newline is matched exactly, up to the newline. */
  lemma MatchAtSampleLine(s: Sample, rest: string)
    requires WellFormedLabels(s.labels)
    ensures MatchAt(SampleLine(s) + ['\n'] + rest) == |SampleLine(s)|
  {
    var d := NatToString(s.value);
    var x := s.labels + ['}', ' '] + d + ['\n'] + rest;
    var t := SampleLine(s) + ['\n'] + rest;
    assert t == CounterPrefix + x;
    assert t[..|CounterPrefix|] == CounterPrefix;
    assert t[|CounterPrefix|..] == x;
    MatchAfterPrefixOfSample(s.labels, d, rest);
  }

  /** The text after the last space of a sample line is its numeral. */
  lemma ValueOfSampleLine(s: Sample)
    ensures ValueOf(SampleLine(s)) == Some(s.value)
  {
    var d := NatToString(s.value);
    assert SampleLine(s) == (CounterPrefix + s.labels + ['}']) + [' '] + d;
    AfterLastOfAppended(CounterPrefix + s.labels + ['}'], ' ', d);
    ParseIntOfNatToString(s.value);
  }

  /** The matches of a rendered exposition are its sample lines, in order. */
  lemma {:induction false} MatchesOfRender(samples: seq<Sample>)
    requires forall i :: 0 <= i < |samples| ==> WellFormedLabels(samples[i].labels)
    ensures |Matches(Render(samples))| == |samples|
    ensures forall i :: 0 <= i < |samples| ==> Matches(Render(samples))[i] == SampleLine(samples[i])
    decreases |samples|
  {
    if |samples| > 0 {
      var line := SampleLine(samples[0]);
      var rest := Render(samples[1..]);
      var t := Render(samples);
      var nl := ['\n'] + rest;
      assert t == line + nl;
      MatchAtSampleLine(samples[0], rest);
      assert t[..|line|] == line;
      assert t[|line|..] == nl;
      assert Matches(t) == [line] + Matches(nl);
      assert MatchAt(nl) == 0 by {
        assert nl[0] != CounterPrefix[0];
      }
      assert nl[1..] == rest;
      assert Matches(nl) == Matches(rest);
      MatchesOfRender(samples[1..]);
      assert Matches(t) == [line] + Matches(rest);
    }
  }

  lemma {:induction false} SumOfReadings(vs: seq<Option<int>>, samples: seq<Sample>)
    requires |vs| == |samples|
    requires forall i :: 0 <= i < |vs| ==> vs[i] == Some(samples[i].value)
    ensures SumReadings(vs) == Some(SumSamples(samples))
    decreases |vs|
  {
    if |vs| > 0 {
      var k := |vs| - 1;
      assert forall i :: 0 <= i < k ==> vs[..k][i] == vs[i] && samples[..k][i] == samples[i];
      SumOfReadings(vs[..k], samples[..k]);
    }
  }

  /** For exposition text as the Prometheus client prints it, the total is
      the sum of every counter sample's value. */
  lemma TotalOfRender(samples: seq<Sample>)
    requires forall i :: 0 <= i < |samples| ==> WellFormedLabels(samples[i].labels)
    ensures TotalRequests(Render(samples)) == Some(SumSamples(samples))
  {
    var ms := Matches(Render(samples));
    MatchesOfRender(samples);
    var vs := seq(|ms|, i requires 0 <= i < |ms| => ValueOf(ms[i]));
    forall i | 0 <= i < |ms|
      ensures vs[i] == Some(samples[i].value)
    {
      ValueOfSampleLine(samples[i]);
    }
    SumOfReadings(vs, samples);
  }

  /** A match with no space in it (labels without spaces, then a tab before
      the value) is read whole by `parseInt`, which gives `NaN`; the `NaN`
      then absorbs the whole total. */
  lemma SpacelessMatchMakesTotalNaN(ms: seq<string>, i: nat)
    requires i < |ms| && StartsWith(ms[i], CounterPrefix) && ' ' !in ms[i]
    ensures SumValues(ms) == None
  {
    var m := ms[i];
    assert AfterLast(m, ' ') == m;
    assert m[0] == CounterPrefix[0];
    ParseIntOfLetterLead(m);
    NaNAbsorbs(seq(|ms|, j requires 0 <= j < |ms| => ValueOf(ms[j])), i);
  }

  /** One `NaN` reading makes the whole sum `NaN`. */
  lemma {:induction false} NaNAbsorbs(vs: seq<Option<int>>, i: nat)
    requires i < |vs| && vs[i] == None
    ensures SumReadings(vs) == None
    decreases |vs|
  {
    var k := |vs| - 1;
    if i < k {
      assert vs[..k][i] == vs[i];
      NaNAbsorbs(vs[..k], i);
    }
  }

  // ---------------------------------------------------------------------
  // Aggregations over the services table
  // ---------------------------------------------------------------------

  datatype HealthEntry =
    | Healthy(service: string, data: string)
    | Unhealthy(service: string, error: string)

  datatype MetricsEntry =
    | Measured(service: string, totalRequests: Option<int>, metricsSize: nat)
    | Unmeasured(service: string, error: string)

  /** `GET /api/services/health`: one entry per configured service, in table
      order; every per-service failure is caught, so the fan-out never fails. */
  function AggregateHealth(get: string -> Fetch): (r: seq<HealthEntry>)
    ensures |r| == |Services|
    ensures forall i :: 0 <= i < |r| ==>
      && r[i].service == Services[i].0
      && (r[i].Healthy? <==> get(Services[i].1 + "/health").Fetched?)
  {
    seq(|Services|, i requires 0 <= i < |Services| =>
      match get(Services[i].1 + "/health")
      case Fetched(data) => Healthy(Services[i].0, data)
      case FetchFailed(message) => Unhealthy(Services[i].0, message))
  }

  /** `GET /api/services/metrics`: one entry per configured service, in table
      order, with the request total and the text length of each fetched page. */
  function AggregateMetrics(get: string -> Fetch): (r: seq<MetricsEntry>)
    ensures |r| == |Services|
    ensures forall i :: 0 <= i < |r| ==>
      && r[i].service == Services[i].0
      && (r[i].Measured? <==> get(Services[i].1 + "/metrics").Fetched?)
      && (r[i].Measured? ==> r[i].metricsSize == |get(Services[i].1 + "/metrics").data|
                             && r[i].totalRequests == TotalRequests(get(Services[i].1 + "/metrics").data))
  {
    seq(|Services|, i requires 0 <= i < |Services| =>
      match get(Services[i].1 + "/metrics")
      case Fetched(metrics) => Measured(Services[i].0, TotalRequests(metrics), |metrics|)
      case FetchFailed(message) => Unmeasured(Services[i].0, message))
  }

  // ---------------------------------------------------------------------
  // Order proxies
  // ---------------------------------------------------------------------

  /** What the order service answered: a status with its body, or no answer. */
  datatype Upstream<T> = Answered(status: int, body: T) | Unreachable(message: string)

  /** A failure body; `success` is the `success: false` flag that only the
      order-creation proxy adds. */
  datatype ProxyBody<T> =
    | PassedThrough(data: T)
    | ProxyFailed(success: Option<bool>, error: string, details: string)

  datatype ProxyReply<T> = ProxyReply(status: int, body: ProxyBody<T>)

  /** axios's `error.message` for an answer outside 2xx, or for no answer. */
  function FailureMessage<T>(up: Upstream<T>): string {
    match up
    case Answered(status, _) => "Request failed with status code " + IntToString(status)
    case Unreachable(message) => message
  }

  /** Both order proxies: a 2xx answer's body is passed on with status 200;
      any other answer, a 400 rejection included, or no answer at all becomes
      500 with the proxy's own error text and axios's message. */
  function Proxy<T>(up: Upstream<T>, success: Option<bool>, error: string): (r: ProxyReply<T>)
    ensures r.status in {200, 500}
    ensures r.status == 200 <==> up.Answered? && OrderService.IsSuccess(up.status)
    ensures r.status == 200 ==> r.body == PassedThrough(up.body)
    ensures r.status == 500 ==> r.body == ProxyFailed(success, error, FailureMessage(up))
  {
    if up.Answered? && OrderService.IsSuccess(up.status) then ProxyReply(200, PassedThrough(up.body))
    else ProxyReply(500, ProxyFailed(success, error, FailureMessage(up)))
  }

  /** `POST /api/orders`: failures read `success: false` and "Order creation failed". */
  function ProxyOrder(up: Upstream<OrderService.Body>): ProxyReply<OrderService.Body> {
    Proxy(up, Some(false), "Order creation failed")
  }

  /** `GET /api/orders`: failures read "Failed to fetch orders", with no flag. */
  function ProxyListOrders(up: Upstream<(seq<OrderService.Order>, nat)>): ProxyReply<(seq<OrderService.Order>, nat)> {
    Proxy(up, None, "Failed to fetch orders")
  }

  /** End to end: the dashboard reports 200 with the created order exactly
      when the order service created one, and turns every business
      rejection into 500 "Request failed with status code 400". */
  lemma ProxyOfFulfil(users: seq<UserService.User>, w: OrderService.World, req: OrderService.OrderRequest,
                      links: OrderService.Links, approved: bool, now: nat)
    ensures var o := OrderService.Fulfil(users, w, req, links, approved, now);
      var r := ProxyOrder(Answered(o.reply.status, o.reply.body));
      && (r.status == 200 <==> o.reply.body.Created?)
      && (o.reply.body.Created? ==> r.body == PassedThrough(o.reply.body))
      && (o.reply.body.Failed? ==> r.body == ProxyFailed(Some(false), "Order creation failed", "Request failed with status code 400"))
  {
    var o := OrderService.Fulfil(users, w, req, links, approved, now);
    if o.reply.body.Failed? {
      assert IntToString(400) == "400" by {
        assert NatToString(400) == NatToString(40) + [DigitChar(0)];
        assert NatToString(40) == NatToString(4) + [DigitChar(0)];
      }
    }
  }
}
