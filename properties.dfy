/**
 * What one scrape promises, stated about `Scrape`, the sequence of samples
 * that `Collect` is proved to send.
 */
module ExporterProperties {
  import opened Wrappers
  import opened Strconv
  import opened Prometheus
  import opened Exporter

  /** Equal except possibly in the two fields the exporter drops. */
  predicate SameReported(a: Entry, b: Entry) {
    a.(time := b.time, healthy := b.healthy) == b
  }

  predicate SameReportedAll(xs: seq<Entry>, ys: seq<Entry>) {
    |xs| == |ys| && forall k :: 0 <= k < |xs| ==> SameReported(xs[k], ys[k])
  }

  /** The URL determines the host it was built from. */
  lemma TargetUrlInjective(protocol: string, fqdn1: string, fqdn2: string)
    ensures TargetUrl(protocol, fqdn1) == TargetUrl(protocol, fqdn2) <==> fqdn1 == fqdn2
  {
  }

  /**
   * A failed request: exactly one sample, the up metric at 0 with an empty status
   * code and the host name. A response always gives more than one sample.
   */
  lemma TransportFailureStops(c: Collector, cfg: Config, client: Request -> Outcome,
                              unmarshal: Bytes -> Unmarshaled, elapsedSeconds: real)
    requires c.Valid()
    ensures client(ScrapeRequest(cfg)).RequestFailed? <==> |Scrape(c, cfg, client, unmarshal, elapsedSeconds)| == 1
    ensures client(ScrapeRequest(cfg)).RequestFailed? ==>
      Scrape(c, cfg, client, unmarshal, elapsedSeconds) == [MustNewConstMetric(c.upMetric, GaugeValue, 0.0, ["", cfg.fqdn])]
  {
  }

  /**
   * A response with any status code: up at 1 with the decimal status code
   * first, then one health sample per decoded entry in payload order, then
   * the duration; N + 2 samples in all.
   */
  lemma ResponseShape(c: Collector, cfg: Config, client: Request -> Outcome,
                        unmarshal: Bytes -> Unmarshaled, elapsedSeconds: real,
                        code: int, body: Bytes, readFailed: bool)
    requires c.Valid()
    requires client(ScrapeRequest(cfg)) == Response(code, body, readFailed)
    ensures var r := Scrape(c, cfg, client, unmarshal, elapsedSeconds);
            var es := unmarshal(body).value.statuses;
            && |r| == |es| + 2
            && r[0] == MustNewConstMetric(c.upMetric, GaugeValue, 1.0, [Itoa(code), cfg.fqdn])
            && (forall k :: 0 <= k < |es| ==> r[k + 1] == HealthSample(c, es[k], cfg.fqdn))
            && r[|r| - 1] == MustNewConstMetric(c.runtimeMetric, GaugeValue, elapsedSeconds, [cfg.fqdn])
  {
    var es := unmarshal(body).value.statuses;
    var up := UpSample(c, 1.0, Itoa(code), cfg.fqdn);
    var hs := HealthSamples(c, es, cfg.fqdn);
    var duration := DurationSample(c, elapsedSeconds, cfg.fqdn);
    assert Scrape(c, cfg, client, unmarshal, elapsedSeconds) == [up] + hs + [duration];
    FrameLayout(up, hs, duration);
  }

  lemma FrameLayout(up: Metric, hs: seq<Metric>, last: Metric)
    ensures var r := [up] + hs + [last];
            && |r| == |hs| + 2 && r[0] == up && r[|r| - 1] == last
            && forall k :: 0 <= k < |hs| ==> r[k + 1] == hs[k]
  {
  }

  /** Up is 1 and carries the status code, which reads back exactly, whatever the code is. */
  lemma UpCarriesStatusCode(c: Collector, cfg: Config, client: Request -> Outcome, unmarshal: Bytes -> Unmarshaled,
                            elapsedSeconds: real, code: int, body: Bytes, readFailed: bool)
    requires c.Valid() && DeclaresSchema(c)
    requires client(ScrapeRequest(cfg)) == Response(code, body, readFailed)
    ensures var up := Scrape(c, cfg, client, unmarshal, elapsedSeconds)[0];
            && up.value == 1.0
            && up.desc.fqName == ExporterName + "_scrape_url_up"
            && Label(up, "httpcode").Some?
            && ParseDecimal(Label(up, "httpcode").value) == Some(code)
            && Label(up, "fqdn") == Some(cfg.fqdn)
  {
    ResponseShape(c, cfg, client, unmarshal, elapsedSeconds, code, body, readFailed);
    var up := Scrape(c, cfg, client, unmarshal, elapsedSeconds)[0];
    var names := c.upMetric.variableLabels;
    assert up == MustNewConstMetric(c.upMetric, GaugeValue, 1.0, [Itoa(code), cfg.fqdn]);
    assert names[0] == "httpcode" && names[1] == "fqdn";
    assert Label(up, names[0]) == Some(Itoa(code));
    assert Label(up, names[1]) == Some(cfg.fqdn);
    ItoaRoundTrip(code);
  }

  /** Looking up each declared health label name finds the value at its position. */
  lemma HealthLabelLookup(values: seq<string>)
    requires |values| == |HealthLabelNames|
    ensures Lookup(HealthLabelNames, values, "id") == Some(values[0])
    ensures Lookup(HealthLabelNames, values, "completekey") == Some(values[1])
    ensures Lookup(HealthLabelNames, values, "name") == Some(values[2])
    ensures Lookup(HealthLabelNames, values, "description") == Some(values[3])
    ensures Lookup(HealthLabelNames, values, "failurereason") == Some(values[4])
    ensures Lookup(HealthLabelNames, values, "application") == Some(values[5])
    ensures Lookup(HealthLabelNames, values, "severity") == Some(values[6])
    ensures Lookup(HealthLabelNames, values, "documentation") == Some(values[7])
    ensures Lookup(HealthLabelNames, values, "tag") == Some(values[8])
    ensures Lookup(HealthLabelNames, values, "fqdn") == Some(values[9])
  {
    HealthLabelNamesDistinct();
    LookupAt(HealthLabelNames, values, 0);
    LookupAt(HealthLabelNames, values, 1);
    LookupAt(HealthLabelNames, values, 2);
    LookupAt(HealthLabelNames, values, 3);
    LookupAt(HealthLabelNames, values, 4);
    LookupAt(HealthLabelNames, values, 5);
    LookupAt(HealthLabelNames, values, 6);
    LookupAt(HealthLabelNames, values, 7);
    LookupAt(HealthLabelNames, values, 8);
    LookupAt(HealthLabelNames, values, 9);
  }

  /** The two dropped fields have no label name to be found under. */
  lemma DroppedFieldsNotLabels(values: seq<string>)
    ensures Lookup(HealthLabelNames, values, "time") == None
    ensures Lookup(HealthLabelNames, values, "healthy") == None
  {
    assert "time" !in HealthLabelNames;
    LookupAbsent(HealthLabelNames, values, "time");
    assert "healthy" !in HealthLabelNames;
    LookupAbsent(HealthLabelNames, values, "healthy");
  }

  /**
   * Each declared health label holds the matching entry field (the id in
   * decimal, reading back to the id), the host name is the last label, and
   * neither `time` nor `healthy` is a label.
   */
  lemma HealthLabels(c: Collector, e: Entry, fqdn: string)
    requires c.Valid() && DeclaresSchema(c)
    ensures var m := HealthSample(c, e, fqdn);
            && m.desc.fqName == ExporterName
            && Label(m, "id").Some? && ParseDecimal(Label(m, "id").value) == Some(e.id)
            && Label(m, "completekey") == Some(e.completeKey)
            && Label(m, "name") == Some(e.name)
            && Label(m, "description") == Some(e.description)
            && Label(m, "failurereason") == Some(e.failureReason)
            && Label(m, "application") == Some(e.application)
            && Label(m, "severity") == Some(e.severity)
            && Label(m, "documentation") == Some(e.documentation)
            && Label(m, "tag") == Some(e.tag)
            && Label(m, "fqdn") == Some(fqdn)
            && Label(m, "time") == None
            && Label(m, "healthy") == None
  {
    var m := HealthSample(c, e, fqdn);
    assert m.desc.variableLabels == HealthLabelNames;
    assert m.labelValues == HealthLabelValues(e, fqdn);
    HealthLabelLookup(m.labelValues);
    DroppedFieldsNotLabels(m.labelValues);
    ItoaRoundTrip(e.id);
  }

  /** Entries that differ only in `time` and `healthy` give the same sample; `isHealthy` alone decides the value. */
  lemma HealthSampleIgnoresTimeAndHealthy(c: Collector, a: Entry, b: Entry, fqdn: string)
    requires c.Valid()
    ensures SameReported(a, b) ==> HealthSample(c, a, fqdn) == HealthSample(c, b, fqdn)
    ensures a.isHealthy != b.isHealthy ==> HealthSample(c, a, fqdn) != HealthSample(c, b, fqdn)
  {
  }

  lemma HealthSamplesIgnoreTimeAndHealthy(c: Collector, xs: seq<Entry>, ys: seq<Entry>, fqdn: string)
    requires c.Valid()
    requires SameReportedAll(xs, ys)
    ensures HealthSamples(c, xs, fqdn) == HealthSamples(c, ys, fqdn)
  {
  }

  /**
   * Two decoders whose reports differ only in the dropped fields, and in
   * whether they reported an error, lead to the same scrape.
   */
  lemma ScrapeIgnoresTimeHealthyAndDecodeErrors(c: Collector, cfg: Config, client: Request -> Outcome,
                                                unmarshal1: Bytes -> Unmarshaled, unmarshal2: Bytes -> Unmarshaled,
                                                elapsedSeconds: real)
    requires c.Valid()
    requires forall body :: SameReportedAll(unmarshal1(body).value.statuses, unmarshal2(body).value.statuses)
    ensures Scrape(c, cfg, client, unmarshal1, elapsedSeconds) == Scrape(c, cfg, client, unmarshal2, elapsedSeconds)
  {
    match client(ScrapeRequest(cfg))
    case RequestFailed =>
    case Response(code, body, _) =>
      HealthSamplesIgnoreTimeAndHealthy(c, unmarshal1(body).value.statuses, unmarshal2(body).value.statuses, cfg.fqdn);
  }

  /** A failed body read is only logged: the scrape is the one a clean read of the same bytes gives. */
  lemma ReadFailureIgnored(c: Collector, cfg: Config, client1: Request -> Outcome, client2: Request -> Outcome,
                           unmarshal: Bytes -> Unmarshaled, elapsedSeconds: real, code: int, body: Bytes)
    requires c.Valid()
    requires client1(ScrapeRequest(cfg)) == Response(code, body, true)
    requires client2(ScrapeRequest(cfg)) == Response(code, body, false)
    ensures Scrape(c, cfg, client1, unmarshal, elapsedSeconds) == Scrape(c, cfg, client2, unmarshal, elapsedSeconds)
  {
  }

  /** A body that decodes to no statuses (as one the decoder rejects outright does) still gives up and duration, and nothing between. */
  lemma UndecodableBodyStillTimed(c: Collector, cfg: Config, client: Request -> Outcome,
                                  unmarshal: Bytes -> Unmarshaled, elapsedSeconds: real,
                                  code: int, body: Bytes, readFailed: bool)
    requires c.Valid()
    requires client(ScrapeRequest(cfg)) == Response(code, body, readFailed)
    requires unmarshal(body).value.statuses == []
    ensures Scrape(c, cfg, client, unmarshal, elapsedSeconds) ==
      [MustNewConstMetric(c.upMetric, GaugeValue, 1.0, [Itoa(code), cfg.fqdn]),
       MustNewConstMetric(c.runtimeMetric, GaugeValue, elapsedSeconds, [cfg.fqdn])]
  {
  }

  /** A gauge of one of the described metrics, with one value per declared label and `fqdn` in the last position. */
  predicate MatchesSchema(c: Collector, m: Metric, fqdn: string) {
    && m.desc in Descriptors(c)
    && m.valueType == GaugeValue
    && |m.labelValues| == |m.desc.variableLabels| > 0
    && m.labelValues[|m.labelValues| - 1] == fqdn
  }

  lemma SamplesMatchSchema(c: Collector, e: Entry, v: real, httpcode: string, fqdn: string)
    requires c.Valid()
    ensures MatchesSchema(c, UpSample(c, v, httpcode, fqdn), fqdn)
    ensures MatchesSchema(c, HealthSample(c, e, fqdn), fqdn)
    ensures MatchesSchema(c, DurationSample(c, v, fqdn), fqdn)
  {
  }

  /** Every sample of `ms` matches its descriptor's schema. */
  predicate AllMatchSchema(c: Collector, ms: seq<Metric>, fqdn: string) {
    forall k :: 0 <= k < |ms| ==> MatchesSchema(c, ms[k], fqdn)
  }

  lemma HealthSamplesMatchSchema(c: Collector, es: seq<Entry>, fqdn: string)
    requires c.Valid()
    ensures AllMatchSchema(c, HealthSamples(c, es, fqdn), fqdn)
  {
    var hs := HealthSamples(c, es, fqdn);
    forall k | 0 <= k < |hs| ensures MatchesSchema(c, hs[k], fqdn) {
      SamplesMatchSchema(c, es[k], 0.0, "", fqdn);
    }
  }

  lemma AllMatchFrame(c: Collector, up: Metric, hs: seq<Metric>, last: Metric, fqdn: string)
    requires MatchesSchema(c, up, fqdn) && MatchesSchema(c, last, fqdn)
    requires AllMatchSchema(c, hs, fqdn)
    ensures AllMatchSchema(c, [up] + hs + [last], fqdn)
  {
    var r := [up] + hs + [last];
    forall k | 0 <= k < |r| ensures MatchesSchema(c, r[k], fqdn) {
      if 0 < k < |r| - 1 {
        assert r[k] == hs[k - 1];
      }
    }
  }

  /** Every sample of a scrape is a gauge of a described metric with the host as its last label value. */
  lemma ScrapeMatchesSchema(c: Collector, cfg: Config, client: Request -> Outcome,
                            unmarshal: Bytes -> Unmarshaled, elapsedSeconds: real)
    requires c.Valid()
    ensures AllMatchSchema(c, Scrape(c, cfg, client, unmarshal, elapsedSeconds), cfg.fqdn)
  {
    var r := Scrape(c, cfg, client, unmarshal, elapsedSeconds);
    var resp := client(ScrapeRequest(cfg));
    var none := Entry(0, "", "", "", false, "", "", 0, "", "", "", false);
    if resp.RequestFailed? {
      SamplesMatchSchema(c, none, 0.0, "", cfg.fqdn);
      assert r == [UpSample(c, 0.0, "", cfg.fqdn)];
    } else {
      var up := UpSample(c, 1.0, Itoa(resp.statusCode), cfg.fqdn);
      var es := InstanceHealth(resp.body, unmarshal).statuses;
      var duration := DurationSample(c, elapsedSeconds, cfg.fqdn);
      SamplesMatchSchema(c, none, 1.0, Itoa(resp.statusCode), cfg.fqdn);
      SamplesMatchSchema(c, none, elapsedSeconds, "", cfg.fqdn);
      HealthSamplesMatchSchema(c, es, cfg.fqdn);
      AllMatchFrame(c, up, HealthSamples(c, es, cfg.fqdn), duration, cfg.fqdn);
      assert r == [up] + HealthSamples(c, es, cfg.fqdn) + [duration];
    }
  }

  /** With the exporter's own descriptors, every sample's `fqdn` label is the target host. */
  lemma EverySampleNamesTarget(c: Collector, cfg: Config, client: Request -> Outcome,
                               unmarshal: Bytes -> Unmarshaled, elapsedSeconds: real)
    requires c.Valid() && DeclaresSchema(c)
    ensures var r := Scrape(c, cfg, client, unmarshal, elapsedSeconds);
            forall k :: 0 <= k < |r| ==> Label(r[k], "fqdn") == Some(cfg.fqdn)
  {
    ScrapeMatchesSchema(c, cfg, client, unmarshal, elapsedSeconds);
    SchemaNamesHost(c, Scrape(c, cfg, client, unmarshal, elapsedSeconds), cfg.fqdn);
  }

  lemma SchemaNamesHost(c: Collector, ms: seq<Metric>, fqdn: string)
    requires DeclaresSchema(c) && AllMatchSchema(c, ms, fqdn)
    ensures forall k :: 0 <= k < |ms| ==> Label(ms[k], "fqdn") == Some(fqdn)
  {
    forall k | 0 <= k < |ms| ensures Label(ms[k], "fqdn") == Some(fqdn) {
      var names := ms[k].desc.variableLabels;
      assert names[|names| - 1] == "fqdn";
      LookupAt(names, ms[k].labelValues, |names| - 1);
    }
  }

  /**
   * With a configuration built from the flags, the host named in the URL that
   * is queried is the host in every sample's `fqdn` label.
   */
  lemma QueriedHostLabelsEverySample(c: Collector, protocol: string, fqdn: string, token: string,
                                     client: Request -> Outcome, unmarshal: Bytes -> Unmarshaled,
                                     elapsedSeconds: real)
    requires c.Valid() && DeclaresSchema(c)
    ensures var cfg := NewConfig(protocol, fqdn, token);
            var r := Scrape(c, cfg, client, unmarshal, elapsedSeconds);
            && |ScrapeRequest(cfg).url| >= |protocol| + 3 + |CheckPath|
            && HostOf(ScrapeRequest(cfg).url, protocol) == fqdn
            && forall k :: 0 <= k < |r| ==> Label(r[k], "fqdn") == Some(HostOf(ScrapeRequest(cfg).url, protocol))
  {
    var cfg := NewConfig(protocol, fqdn, token);
    EverySampleNamesTarget(c, cfg, client, unmarshal, elapsedSeconds);
  }

  /** `Describe` sends the health, duration and up descriptors, three distinct metrics. */
  lemma DescribeOrder(c: Collector)
    requires DeclaresSchema(c)
    ensures var ds := Descriptors(c);
            && |ds| == 3
            && ds[0].fqName == ExporterName
            && ds[1].fqName == ExporterName + "_collect_duration_seconds"
            && ds[2].fqName == ExporterName + "_scrape_url_up"
            && ds[0].fqName != ds[1].fqName && ds[0].fqName != ds[2].fqName && ds[1].fqName != ds[2].fqName
  {
  }
}
