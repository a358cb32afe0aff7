/**
 * The Atlassian instance-health exporter's collector: the three metric
 * descriptors it declares, and the samples one scrape emits from the
 * troubleshooting plugin's health-check report.
 *
 * Everything outside the collector is a parameter: the HTTP round trip
 * (`client`), the JSON decoder (`unmarshal`) and the elapsed wall-clock
 * time (`elapsedSeconds`). The output channel is the sequence of metrics
 * sent on it, in order.
 */
module Exporter {
  import opened Wrappers
  import opened Strconv
  import opened Prometheus

  const ExporterName: string := "atlassian_instance_health"
  const CheckPath: string := "/rest/troubleshooting/1.0/check/"

  type Bytes = seq<bv8>

  /** One health check of the report, field for field as the endpoint sends it. */
  datatype Entry = Entry(
    id: int,
    completeKey: string,
    name: string,
    description: string,
    isHealthy: bool,
    failureReason: string,
    application: string,
    time: int,
    severity: string,
    documentation: string,
    tag: string,
    healthy: bool)

  /** The decoded body of the check endpoint. */
  datatype InstanceHealthEndpoint = InstanceHealthEndpoint(statuses: seq<Entry>)

  /** What the JSON decoder leaves in the target value, and whether it reported an error. */
  datatype Unmarshaled = Unmarshaled(value: InstanceHealthEndpoint, failed: bool)

  /** The configuration the collector reads: target URL, credential token and target host name. */
  datatype Config = Config(url: string, token: string, fqdn: string)

  datatype Request = Request(verb: string, url: string, header: seq<(string, string)>) {
    /** Adds a header line after those already present. */
    function AddHeader(key: string, value: string): (r: Request)
      ensures r.verb == verb && r.url == url
      ensures |r.header| == |header| + 1
      ensures r.header[..|header|] == header && r.header[|header|..] == [(key, value)]
    {
      this.(header := header + [(key, value)])
    }
  }

  /**
   * The result of sending the request and reading its body: the request
   * failed (the client returned an error, which includes a redirect policy
   * that stopped even though the server answered), or a status code with the
   * bytes read (and whether reading failed part-way).
   */
  datatype Outcome = RequestFailed | Response(statusCode: int, body: Bytes, readFailed: bool)

  /** The collector: its three descriptors, fixed at construction. */
  datatype Collector = Collector(healthMetric: Desc, runtimeMetric: Desc, upMetric: Desc) {
    /** Every descriptor registers cleanly and has the arity `Collect` sends with it. */
    predicate Valid() {
      WellFormedDesc(healthMetric) && |healthMetric.variableLabels| == 10 &&
      WellFormedDesc(runtimeMetric) && |runtimeMetric.variableLabels| == 1 &&
      WellFormedDesc(upMetric) && |upMetric.variableLabels| == 2
    }
  }

  function BoolToFloat(b: bool): (r: real)
    ensures r == 1.0 <==> b
    ensures r == 0.0 <==> !b
  {
    if b then 1.0 else 0.0
  }

  /** The check endpoint of the monitored application, built from the two flags. */
  function TargetUrl(protocol: string, fqdn: string): (url: string)
    ensures |url| == |protocol| + 3 + |fqdn| + |CheckPath|
    ensures url[..|protocol|] == protocol
    ensures url[|protocol|..|protocol| + 3] == "://"
    ensures url[|protocol| + 3..|url| - |CheckPath|] == fqdn
    ensures url[|url| - |CheckPath|..] == CheckPath
  {
    protocol + "://" + fqdn + CheckPath
  }

  /**
   * The segment of a check URL between the protocol's `://` and the check
   * path. This is not URL parsing: for a host flag such as `u@jira` the URL's
   * own host differs from this segment.
   */
  function HostOf(url: string, protocol: string): string
    requires |url| >= |protocol| + 3 + |CheckPath|
  {
    url[|protocol| + 3..|url| - |CheckPath|]
  }

  /**
   * The configuration once the flags are parsed. The host that is queried is
   * the host that labels every sample, and the URL is a check URL of the
   * chosen protocol.
   */
  function NewConfig(protocol: string, fqdn: string, token: string): (cfg: Config)
    ensures |cfg.url| >= |protocol| + 3 + |CheckPath|
    ensures HostOf(cfg.url, protocol) == cfg.fqdn
    ensures cfg.url[..|protocol| + 3] == protocol + "://"
    ensures cfg.url[|cfg.url| - |CheckPath|..] == CheckPath
    ensures cfg.fqdn == fqdn && cfg.token == token
  {
    Config(TargetUrl(protocol, fqdn), token, fqdn)
  }

  /** Decoding never fails the scrape: whatever the decoder left behind is the report. */
  function InstanceHealth(body: Bytes, unmarshal: Bytes -> Unmarshaled): (m: InstanceHealthEndpoint)
    ensures m == unmarshal(body).value
  {
    unmarshal(body).value
  }

  const HealthLabelNames: seq<string> :=
    ["id", "completekey", "name", "description", "failurereason",
     "application", "severity", "documentation", "tag", "fqdn"]

  const HealthDesc: Desc := Desc(
    ExporterName,
    "metric used to monitor the Atlassian Troubleshooting and Support Tools Plugin endpoint (https://<url>" + CheckPath + ")",
    HealthLabelNames)

  const DurationDesc: Desc := Desc(
    ExporterName + "_collect_duration_seconds",
    "Used to keep track of how long the exporter took to collect metrics",
    ["fqdn"])

  const UpDesc: Desc := Desc(
    ExporterName + "_scrape_url_up",
    "metric used to check if the rest endpoint is accessible (https://<url>" + CheckPath + ")",
    ["httpcode", "fqdn"])

  lemma HealthLabelNamesDistinct()
    ensures NoDuplicates(HealthLabelNames)
  {
  }

  lemma HealthLabelNamesWellFormed()
    ensures forall i :: 0 <= i < |HealthLabelNames| ==> IsLabelName(HealthLabelNames[i])
  {
    assert IsLabelName("id") && IsLabelName("completekey") && IsLabelName("name");
    assert IsLabelName("description") && IsLabelName("failurereason");
    assert IsLabelName("application") && IsLabelName("severity");
    assert IsLabelName("documentation") && IsLabelName("tag") && IsLabelName("fqdn");
  }

  lemma HealthDescWellFormed()
    ensures WellFormedDesc(HealthDesc)
  {
    assert IsMetricName(ExporterName);
    HealthLabelNamesWellFormed();
    HealthLabelNamesDistinct();
  }

  lemma DurationDescWellFormed()
    ensures WellFormedDesc(DurationDesc)
  {
    assert IsMetricName(ExporterName);
    assert IsLabelName("_collect_duration_seconds");
    MetricNameSuffix(ExporterName, "_collect_duration_seconds");
    assert IsLabelName("fqdn");
  }

  lemma UpDescWellFormed()
    ensures WellFormedDesc(UpDesc)
  {
    assert IsMetricName(ExporterName);
    assert IsLabelName("_scrape_url_up");
    MetricNameSuffix(ExporterName, "_scrape_url_up");
    assert IsLabelName("httpcode") && IsLabelName("fqdn");
  }

  /** The exporter's declared schema: the three metric names and their ordered label names. */
  predicate DeclaresSchema(c: Collector) {
    && c.healthMetric.fqName == ExporterName
    && c.healthMetric.variableLabels == HealthLabelNames
    && c.runtimeMetric.fqName == ExporterName + "_collect_duration_seconds"
    && c.runtimeMetric.variableLabels == ["fqdn"]
    && c.upMetric.fqName == ExporterName + "_scrape_url_up"
    && c.upMetric.variableLabels == ["httpcode", "fqdn"]
  }

  /** The collector registers cleanly and declares the exporter's schema. */
  function NewInstanceHealthCollector(): (c: Collector)
    ensures c.Valid() && DeclaresSchema(c)
  {
    HealthDescWellFormed();
    DurationDescWellFormed();
    UpDescWellFormed();
    Collector(HealthDesc, DurationDesc, UpDesc)
  }

  /** The descriptors `Describe` sends, in order. */
  function Descriptors(c: Collector): (ds: seq<Desc>)
    ensures |ds| == 3
  {
    [c.healthMetric, c.runtimeMetric, c.upMetric]
  }

  method Describe(c: Collector) returns (ch: seq<Desc>)
    ensures ch == Descriptors(c)
  {
    ch := [];
    ch := ch + [c.healthMetric];
    ch := ch + [c.runtimeMetric];
    ch := ch + [c.upMetric];
  }

  /** The request sent to the check endpoint: a GET of the target URL with the credential and the content type. */
  function ScrapeRequest(cfg: Config): (r: Request)
    ensures r.verb == "GET" && r.url == cfg.url
    ensures |r.header| == 2
    ensures ("Authorization", "Basic " + cfg.token) in r.header
    ensures ("content-type", "application/json") in r.header
  {
    Request("GET", cfg.url, []).AddHeader("Authorization", "Basic " + cfg.token).AddHeader("content-type", "application/json")
  }

  /** Reachability: the up gauge with the status code and host under the up descriptor's two labels. */
  function UpSample(c: Collector, up: real, httpcode: string, fqdn: string): (m: Metric)
    requires c.Valid()
    ensures m.desc == c.upMetric && m.valueType == GaugeValue && m.value == up
    ensures Label(m, c.upMetric.variableLabels[0]) == Some(httpcode)
    ensures Label(m, c.upMetric.variableLabels[1]) == Some(fqdn)
  {
    MustNewConstMetric(c.upMetric, GaugeValue, up, [httpcode, fqdn])
  }

  function HealthLabelValues(e: Entry, fqdn: string): seq<string> {
    [Itoa(e.id), e.completeKey, e.name, e.description, e.failureReason,
     e.application, e.severity, e.documentation, e.tag, fqdn]
  }

  /** One check: 1 exactly when it is healthy, each health label holding its value. */
  function HealthSample(c: Collector, e: Entry, fqdn: string): (m: Metric)
    requires c.Valid()
    ensures m.desc == c.healthMetric && m.valueType == GaugeValue
    ensures m.value == 1.0 <==> e.isHealthy
    ensures m.value == 0.0 <==> !e.isHealthy
    ensures forall i :: 0 <= i < 10 ==>
      Label(m, c.healthMetric.variableLabels[i]) == Some(HealthLabelValues(e, fqdn)[i])
  {
    MustNewConstMetric(c.healthMetric, GaugeValue, BoolToFloat(e.isHealthy), HealthLabelValues(e, fqdn))
  }

  /** The scrape duration, labelled with the host. */
  function DurationSample(c: Collector, seconds: real, fqdn: string): (m: Metric)
    requires c.Valid()
    ensures m.desc == c.runtimeMetric && m.valueType == GaugeValue && m.value == seconds
    ensures Label(m, c.runtimeMetric.variableLabels[0]) == Some(fqdn)
  {
    MustNewConstMetric(c.runtimeMetric, GaugeValue, seconds, [fqdn])
  }

  /** One health sample per entry, in payload order. */
  function HealthSamples(c: Collector, es: seq<Entry>, fqdn: string): (r: seq<Metric>)
    requires c.Valid()
    ensures |r| == |es|
    ensures forall k :: 0 <= k < |es| ==> r[k] == HealthSample(c, es[k], fqdn)
    decreases |es|
  {
    if es == [] then []
    else HealthSamples(c, es[..|es| - 1], fqdn) + [HealthSample(c, es[|es| - 1], fqdn)]
  }

  /** The samples one call of `Collect` sends, in order. */
  function Scrape(c: Collector, cfg: Config, client: Request -> Outcome,
                  unmarshal: Bytes -> Unmarshaled, elapsedSeconds: real): (r: seq<Metric>)
    requires c.Valid()
    ensures |r| > 0 && r[0].desc == c.upMetric
    ensures r[0].value == 1.0 <==> client(ScrapeRequest(cfg)).Response?
    ensures r[0].value == 0.0 <==> client(ScrapeRequest(cfg)).RequestFailed?
    ensures client(ScrapeRequest(cfg)).RequestFailed? ==> |r| == 1
    ensures client(ScrapeRequest(cfg)).Response? ==>
      && |r| == |InstanceHealth(client(ScrapeRequest(cfg)).body, unmarshal).statuses| + 2
      && r[|r| - 1].desc == c.runtimeMetric
      && (forall k :: 0 < k < |r| - 1 ==> r[k].desc == c.healthMetric)
  {
    match client(ScrapeRequest(cfg))
    case RequestFailed => [UpSample(c, 0.0, "", cfg.fqdn)]
    case Response(code, body, _) =>
      [UpSample(c, 1.0, Itoa(code), cfg.fqdn)]
      + HealthSamples(c, InstanceHealth(body, unmarshal).statuses, cfg.fqdn)
      + [DurationSample(c, elapsedSeconds, cfg.fqdn)]
  }

  /**
   * One scrape: build and send the request, report reachability, then one
   * sample per reported check and the duration. Stops after the up sample
   * when the request fails.
   */
  method Collect(c: Collector, cfg: Config, client: Request -> Outcome,
                 unmarshal: Bytes -> Unmarshaled, elapsedSeconds: real) returns (ch: seq<Metric>)
    requires c.Valid()
    ensures ch == Scrape(c, cfg, client, unmarshal, elapsedSeconds)
  {
    ch := [];
    var req := Request("GET", cfg.url, []);
    var basic := "Basic " + cfg.token;
    req := req.AddHeader("Authorization", basic);
    req := req.AddHeader("content-type", "application/json");
    var resp := client(req);
    if resp.RequestFailed? {
      ch := ch + [MustNewConstMetric(c.upMetric, GaugeValue, 0.0, ["", cfg.fqdn])];
      return;
    }
    ch := ch + [MustNewConstMetric(c.upMetric, GaugeValue, 1.0, [Itoa(resp.statusCode), cfg.fqdn])];
    var m := InstanceHealth(resp.body, unmarshal);
    for i := 0 to |m.statuses|
      invariant ch == [UpSample(c, 1.0, Itoa(resp.statusCode), cfg.fqdn)] + HealthSamples(c, m.statuses[..i], cfg.fqdn)
    {
      var metric := m.statuses[i];
      ch := ch + [MustNewConstMetric(c.healthMetric, GaugeValue, BoolToFloat(metric.isHealthy),
                                     [Itoa(metric.id), metric.completeKey, metric.name, metric.description,
                                      metric.failureReason, metric.application, metric.severity,
                                      metric.documentation, metric.tag, cfg.fqdn])];
      assert m.statuses[..i + 1][..i] == m.statuses[..i];
    }
    assert m.statuses[..|m.statuses|] == m.statuses;
    ch := ch + [MustNewConstMetric(c.runtimeMetric, GaugeValue, elapsedSeconds, [cfg.fqdn])];
  }
}
