# Atlassian instance-health exporter: a Dafny model of the collector

The exporter turns the health-check report of an Atlassian application (the
Troubleshooting and Support Tools plugin's `/rest/troubleshooting/1.0/check/`
endpoint) into Prometheus gauges. On every scrape its collector sends one
authenticated GET request, reports whether the request succeeded, and, when it did,
emits one 0/1 gauge per reported check and ends with the time the scrape took.
When the request fails (the HTTP client returns an error, which includes a
redirect policy that stops even though the server answered), the down sample
is the only one sent.

This project models that collector and proves what one scrape sends:

- `wrappers.dfy` — `Option`.
- `strconv.dfy` — `Itoa`, the decimal rendering used for status codes and
  check ids. `ParseDecimal` is a left inverse of it: reading a rendering back
  gives the number. The converse does not hold, since `007` and `-0` also parse.
- `prometheus.dfy` — the parts of the client library the collector uses:
  descriptors (`Desc`), constant metrics (`Metric`), the name and label checks
  a descriptor must pass, and `MustNewConstMetric`. Its `requires` are the library's descriptor and
  label-count checks; the check that label values are valid UTF-8 is not
  modelled (see below).
- `exporter.dfy` — the report entry (`Entry`, every field of the decoded
  struct, including the ignored `time` and `healthy`), the collector and its
  three descriptors, the target URL, the request, and the methods `Describe`
  and `Collect`. The output channel is the sequence of values sent on it.
  `Collect` builds that sequence step by step, with its early return and its
  loop over the statuses. It is proved equal to the function `Scrape`, given
  that the HTTP round trip and the body read return (see "## Left out").
- `properties.dfy` — lemmas about `Scrape`:
  - on transport failure, exactly one down sample is sent;
  - with a response, the samples are up, then N health samples in payload
    order, then the duration, N + 2 in all;
  - up carries the status code for every code;
  - each health label holds its field;
  - `time` and `healthy` never influence anything;
  - read and decode errors do not abort the scrape;
  - every sample matches its descriptor's labels, with `fqdn` last.

The parts outside the collector become parameters of `Collect` and `Scrape`:
- the HTTP round trip together with the body read: `client: Request -> Outcome`;
- the JSON decoder: `unmarshal: Bytes -> Unmarshaled`, its value plus whether it reported an error;
- the elapsed seconds.

## Model

| member | source | states |
|---|---|---|
| Exporter.BoolToFloat | atlassian_instance_health_exporter.go:225-230 | the result is 1 exactly when the flag is true and 0 exactly when it is false |
| Exporter.TargetUrl | atlassian_instance_health_exporter.go:287 | the URL is the protocol, then `://`, then the host, then the check path, and each part can be read back at its position |
| ExporterProperties.TargetUrlInjective | atlassian_instance_health_exporter.go:287 | for one protocol, two hosts give the same URL exactly when they are the same host |
| Exporter.NewConfig | atlassian_instance_health_exporter.go:287 | the URL is the protocol and `://`, then exactly the given host, then the check path; the host kept as the `fqdn` label value is that same given host, and the token is kept |
| Exporter.InstanceHealth | atlassian_instance_health_exporter.go:197-210 | decoding is total and cannot stop the scrape: the report is what the decoder left in the value, whether or not it reported an error |
| Exporter.HealthLabelNamesWellFormed | atlassian_instance_health_exporter.go:86-97 | each of the ten health label names is a valid Prometheus label name |
| Exporter.HealthDescWellFormed | atlassian_instance_health_exporter.go:83-99 | the health descriptor has a valid metric name and ten valid, distinct label names |
| Exporter.DurationDescWellFormed | atlassian_instance_health_exporter.go:100-107 | the duration descriptor has a valid metric name and label |
| Exporter.UpDescWellFormed | atlassian_instance_health_exporter.go:108-116 | the up descriptor has a valid metric name and labels |
| Exporter.NewInstanceHealthCollector | atlassian_instance_health_exporter.go:80-118 | the three descriptors pass the registry's checks; the names are the exporter name, `_collect_duration_seconds` and `_scrape_url_up`; the label lists are the ten health labels, `[fqdn]` and `[httpcode, fqdn]` |
| Exporter.Describe | atlassian_instance_health_exporter.go:120-125 | sends the health, duration and up descriptors, in that order |
| ExporterProperties.DescribeOrder | atlassian_instance_health_exporter.go:121-125 | for the exporter's schema: three descriptors, health then duration then up, with pairwise distinct names |
| Exporter.Request.AddHeader | atlassian_instance_health_exporter.go:142-145 | the verb and URL are kept, the earlier header lines are kept, and the new key/value pair is added |
| Exporter.ScrapeRequest | atlassian_instance_health_exporter.go:133-145 | the request is a GET of the configured URL with exactly two header lines: `Authorization: Basic <token>` and `content-type: application/json` |
| Exporter.UpSample | atlassian_instance_health_exporter.go:151-157 | the up gauge has the given value, the status-code text under `httpcode` and the host under `fqdn` |
| Exporter.HealthSample | atlassian_instance_health_exporter.go:172-186 | the gauge is 1 exactly when `isHealthy` holds and 0 exactly when it does not, and each of the ten health labels holds its value |
| Exporter.DurationSample | atlassian_instance_health_exporter.go:189-192 | the duration gauge holds the elapsed seconds, with the host under `fqdn` |
| Exporter.HealthSamples | atlassian_instance_health_exporter.go:169-187 | one health sample per entry, the k-th built from the k-th entry |
| Exporter.Scrape | atlassian_instance_health_exporter.go:128-194 | up comes first and is 1 exactly when the request succeeded and 0 exactly when it failed; on failure it is the only sample; with a response there are N + 2 samples, health samples in the middle and the duration last |
| Exporter.Collect | atlassian_instance_health_exporter.go:127-194 | what the method sends is exactly `Scrape`: the early return on a failed request, and the loop sending one sample per status in order, are both proved |
| ExporterProperties.TransportFailureStops | atlassian_instance_health_exporter.go:148-153 | a single sample is sent exactly when the request fails; it is up = 0 with labels `("", fqdn)` |
| ExporterProperties.ResponseShape | atlassian_instance_health_exporter.go:156-192 | with a response and N decoded statuses there are N + 2 samples: up = 1 with the decimal status code first, then the health sample of each status in order, then the duration last |
| ExporterProperties.UpCarriesStatusCode | atlassian_instance_health_exporter.go:156-157 | for every status code, up is 1 and its `httpcode` label reads back to that code |
| ExporterProperties.HealthLabelLookup | atlassian_instance_health_exporter.go:86-97 | each declared health label name finds the value at its own position |
| ExporterProperties.DroppedFieldsNotLabels | atlassian_instance_health_exporter.go:86-97 | neither `time` nor `healthy` is a health label name |
| ExporterProperties.HealthLabels | atlassian_instance_health_exporter.go:172-186 | each health label holds its field of the entry; `id` is decimal and reads back to the id; `fqdn` holds the host; there is no `time` or `healthy` label |
| ExporterProperties.HealthSampleIgnoresTimeAndHealthy | atlassian_instance_health_exporter.go:170-187 | entries differing only in `time` and `healthy` give the same sample; entries differing in `isHealthy` give different samples |
| ExporterProperties.HealthSamplesIgnoreTimeAndHealthy | atlassian_instance_health_exporter.go:170-187 | reports that agree except in `time` and `healthy` give the same health samples |
| ExporterProperties.ScrapeIgnoresTimeHealthyAndDecodeErrors | atlassian_instance_health_exporter.go:196-210 | the scrape depends only on what the decoder leaves behind, not on whether it reported an error, and not on `time` or `healthy` |
| ExporterProperties.ReadFailureIgnored | atlassian_instance_health_exporter.go:159-163 | a failed body read gives the same scrape as a clean read of the same bytes |
| ExporterProperties.UndecodableBodyStillTimed | atlassian_instance_health_exporter.go:159-192 | a body that leaves no statuses in the decoded report (for example one the decoder rejects) still gives up = 1 and then the duration, with nothing between |
| ExporterProperties.SamplesMatchSchema | atlassian_instance_health_exporter.go:151-192 | each kind of sample is a gauge of a described metric, with one value per declared label and the host last |
| ExporterProperties.ScrapeMatchesSchema | atlassian_instance_health_exporter.go:148-192 | every sample is a gauge of a described metric, with one value per declared label and the host name last |
| ExporterProperties.EverySampleNamesTarget | atlassian_instance_health_exporter.go:151-192 | for the exporter's schema, every sample's `fqdn` label is the target host |
| ExporterProperties.QueriedHostLabelsEverySample | atlassian_instance_health_exporter.go:287 | with a configuration built from the flags, the segment of the queried URL between `://` and the check path is the `fqdn` flag, and that flag is the `fqdn` label of every sample |
| Prometheus.MustNewConstMetric | atlassian_instance_health_exporter.go:172-186 | given a well-formed descriptor and one value per label, the metric holds each value under the label name at its position, and no other label |
| Strconv.NatToDecimal | atlassian_instance_health_exporter.go:176 | the rendering is non-empty, all digits, has no leading zero unless the number is 0, and is exactly `0` for 0 |
| Strconv.Itoa | atlassian_instance_health_exporter.go:156-157 | the rendering is non-empty, starts with `-` exactly for negative numbers, is digits otherwise, has no leading zero, and is exactly `0` for 0 |
| Strconv.ItoaRoundTrip | atlassian_instance_health_exporter.go:176 | reading the rendering back gives the number |
| Strconv.ItoaInjective | atlassian_instance_health_exporter.go:156-157 | two numbers have the same rendering exactly when they are equal |

## Left out

- Process start-up in `main` is not part of this model: flags, usage text, exit, logger set-up, server goroutine, signals and shutdown. It is I/O and process lifecycle. Only the URL expression at line 287 is modelled, as `TargetUrl` and `NewConfig`.
- The `/` and `/favicon.ico` handlers only write a response, so they are not modelled.
- Logging is not modelled; it is output only and never affects what is sent.
- `http.DefaultClient.Do` and `ioutil.ReadAll` are not modelled. They are library calls; together they are the `client` parameter. A read error becomes the `readFailed` flag, with the bytes read so far as the body.
- The `client` parameter is a total function, so the model assumes that the round trip and the body read always return. The source sets no timeout on `http.DefaultClient`, so a stalled upstream blocks `Collect` at line 148, and a stalled body read blocks it at line 160 after up = 1 has already been sent at line 157. Such a `Collect` never returns and sends only part of `Scrape`; this is not modelled.
- `json.Unmarshal` is the `unmarshal` parameter, an arbitrary total function. The model makes no claim about Go's decoding rules: lenient fields, zero values, partial fills. Whatever the decoder leaves in the value is the report, as in `instanceHealth`.
- A failing `http.NewRequest` (lines 133-136) is not modelled. The source logs the error and then calls `req.Header.Add` on a nil request at line 142, so it cannot reach the send. The model covers only a request that was built.
- `http.Header.Add` canonicalises header keys (`content-type` becomes `Content-Type`); the model keeps the keys as written. The header is a list in the model, but no property depends on the order of its lines, since `http.Header` is a map.
- `resp.Body.Close` (the deferred close at line 154) is not modelled; releasing resources has no value in the model.
- The duration value is the `elapsedSeconds` parameter. The model states where the duration sample is and what labels it has. Its value is not claimed to be non-negative, because clocks are not modelled.
- Go's `float64` values are modelled as `real`. Go's 64-bit `int` (ids and status codes) is modelled as an unbounded `int`; `strconv.Itoa` covers the whole range either way.
- Prometheus internals are not modelled: sorting label pairs for exposition, constant labels (nil here), registration and the text format. The descriptor checks that `MustNewConstMetric` needs are modelled: a valid metric name, valid label names without the reserved `__` prefix, no duplicates, and one value per label.
- Concurrent scrapes are not modelled. `Collect` keeps no state between calls, so each call that returns is one independent application of `Scrape`.
- Strings are modelled as sequences of Unicode characters, while Go strings are bytes. `MustNewConstMetric` also panics when a label value is not valid UTF-8, and the `fqdn` flag is not checked for that; this check is not modelled, so the model's `requires` are the panic conditions only for valid UTF-8 label values.
