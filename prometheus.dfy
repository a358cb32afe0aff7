/**
 * The part of the Prometheus client library that the collector relies on:
 * metric descriptors, constant metrics and the validation that makes
 * `MustNewConstMetric` panic. Only what the exporter touches is modelled.
 */
module Prometheus {
  import opened Wrappers

  /** A metric identity: fully-qualified name, help text and ordered variable label names. */
  datatype Desc = Desc(fqName: string, help: string, variableLabels: seq<string>)

  datatype ValueType = CounterValue | GaugeValue | UntypedValue

  /** A constant metric: a descriptor, a value and one value per variable label, in order. */
  datatype Metric = Metric(desc: Desc, valueType: ValueType, value: real, labelValues: seq<string>)

  predicate IsLetterOrUnderscore(ch: char) {
    ('a' <= ch <= 'z') || ('A' <= ch <= 'Z') || ch == '_'
  }

  predicate IsLabelNameChar(ch: char) {
    IsLetterOrUnderscore(ch) || ('0' <= ch <= '9')
  }

  predicate IsMetricNameChar(ch: char) {
    IsLabelNameChar(ch) || ch == ':'
  }

  /** Metric names match [a-zA-Z_:][a-zA-Z0-9_:]* */
  predicate IsMetricName(s: string) {
    |s| > 0 && (IsLetterOrUnderscore(s[0]) || s[0] == ':') &&
    forall i :: 0 <= i < |s| ==> IsMetricNameChar(s[i])
  }

  /** A metric name followed by label-name characters is still a metric name. */
  lemma MetricNameSuffix(prefix: string, suffix: string)
    requires IsMetricName(prefix)
    requires forall i :: 0 <= i < |suffix| ==> IsLabelNameChar(suffix[i])
    ensures IsMetricName(prefix + suffix)
  {
    var s := prefix + suffix;
    forall i | 0 <= i < |s| ensures IsMetricNameChar(s[i]) {
      if i >= |prefix| {
        assert s[i] == suffix[i - |prefix|];
      }
    }
  }

  /** Label names match [a-zA-Z_][a-zA-Z0-9_]* and do not start with the reserved "__". */
  predicate IsLabelName(s: string) {
    |s| > 0 && IsLetterOrUnderscore(s[0]) &&
    (forall i :: 0 <= i < |s| ==> IsLabelNameChar(s[i])) &&
    !(|s| >= 2 && s[0] == '_' && s[1] == '_')
  }

  predicate NoDuplicates(names: seq<string>) {
    forall i, j :: 0 <= i < j < |names| ==> names[i] != names[j]
  }

  /** What `NewDesc` checks; a descriptor failing it carries an error and makes metrics built from it panic. */
  predicate WellFormedDesc(d: Desc) {
    IsMetricName(d.fqName) &&
    (forall i :: 0 <= i < |d.variableLabels| ==> IsLabelName(d.variableLabels[i])) &&
    NoDuplicates(d.variableLabels)
  }

  /** The value paired with label `name`, looking through names and values together. */
  function Lookup(names: seq<string>, values: seq<string>, name: string): Option<string>
    decreases |names|
  {
    if names == [] || values == [] then None
    else if names[0] == name then Some(values[0])
    else Lookup(names[1..], values[1..], name)
  }

  /** The value of the label called `name` in metric `m`, if it has one. */
  function Label(m: Metric, name: string): Option<string> {
    Lookup(m.desc.variableLabels, m.labelValues, name)
  }

  lemma {:induction false} LookupAt(names: seq<string>, values: seq<string>, i: nat)
    requires |names| == |values| && i < |names| && NoDuplicates(names)
    ensures Lookup(names, values, names[i]) == Some(values[i])
    decreases i
  {
    if i > 0 {
      assert names[0] != names[i];
      assert names[1..][i - 1] == names[i];
      LookupAt(names[1..], values[1..], i - 1);
    }
  }

  lemma {:induction false} LookupAbsent(names: seq<string>, values: seq<string>, name: string)
    requires forall i :: 0 <= i < |names| ==> names[i] != name
    ensures Lookup(names, values, name) == None
    decreases |names|
  {
    if names != [] && values != [] {
      assert names[0] != name;
      LookupAbsent(names[1..], values[1..], name);
    }
  }

  /**
   * The library panics unless the descriptor is well formed and exactly one
   * value is given per variable label; the result carries each value under
   * the label name at the same position, and no other labels.
   */
  function MustNewConstMetric(desc: Desc, valueType: ValueType, value: real, labelValues: seq<string>): (m: Metric)
    requires WellFormedDesc(desc)
    requires |labelValues| == |desc.variableLabels|
    ensures m.desc == desc && m.valueType == valueType && m.value == value
    ensures forall i :: 0 <= i < |labelValues| ==> Label(m, desc.variableLabels[i]) == Some(labelValues[i])
    ensures forall name :: name !in desc.variableLabels ==> Label(m, name) == None
  {
    var m := Metric(desc, valueType, value, labelValues);
    assert forall i :: 0 <= i < |labelValues| ==> Label(m, desc.variableLabels[i]) == Some(labelValues[i]) by {
      forall i | 0 <= i < |labelValues| {
        LookupAt(desc.variableLabels, labelValues, i);
      }
    }
    assert forall name :: name !in desc.variableLabels ==> Label(m, name) == None by {
      forall name | name !in desc.variableLabels {
        LookupAbsent(desc.variableLabels, labelValues, name);
      }
    }
    m
  }
}
