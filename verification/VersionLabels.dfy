/**
 * Reading a version out of labels and image names: the two regular
 * expressions of the program, as a matcher and as what they mean.
 */
module VersionLabels {
  import opened Wrappers

  predicate IsDigit(c: char) {
    '0' <= c <= '9'
  }

  ghost predicate Digits(s: string) {
    s != [] && forall i :: 0 <= i < |s| ==> IsDigit(s[i])
  }

  /** `v<digits>.<digits>.<digits>` and anything after it, on one line. */
  ghost predicate IsVersion(t: string) {
    && '\n' !in t
    && exists a, b, c, rest :: Digits(a) && Digits(b) && Digits(c) && t == Joined(a, b, c, rest)
  }

  function Joined(a: string, b: string, c: string, rest: string): string {
    "v" + a + "." + b + "." + c + rest
  }

  /** The first position from `i` on that holds no digit. */
  function SkipDigits(t: string, i: nat): (j: nat)
    requires i <= |t|
    ensures i <= j <= |t|
    ensures forall k :: i <= k < j ==> IsDigit(t[k])
    ensures j < |t| ==> !IsDigit(t[j])
    decreases |t| - i
  {
    if i < |t| && IsDigit(t[i]) then SkipDigits(t, i + 1) else i
  }

  predicate MatchesVersion(t: string) {
    && '\n' !in t
    && |t| > 0 && t[0] == 'v'
    && var j := SkipDigits(t, 1);
    && j > 1 && j < |t| && t[j] == '.'
    && var k := SkipDigits(t, j + 1);
    && k > j + 1 && k < |t| && t[k] == '.'
    && k + 1 < |t| && IsDigit(t[k + 1])
  }

  lemma MatcherSound(t: string)
    requires MatchesVersion(t)
    ensures IsVersion(t)
  {
    var j := SkipDigits(t, 1);
    var k := SkipDigits(t, j + 1);
    var a, b, c, rest := t[1..j], t[j + 1..k], [t[k + 1]], t[k + 2..];
    assert Digits(a) && Digits(b) && Digits(c);
    assert t == Joined(a, b, c, rest);
  }

  lemma MatcherComplete(t: string, a: string, b: string, c: string, rest: string)
    requires '\n' !in t && Digits(a) && Digits(b) && Digits(c) && t == Joined(a, b, c, rest)
    ensures MatchesVersion(t)
  {
    var p, q := 1 + |a|, 2 + |a| + |b|;
    assert forall k :: 0 <= k < |a| ==> t[1 + k] == a[k];
    assert t[p] == '.' && t[q] == '.' && t[q + 1] == c[0];
    forall k | p + 1 <= k < q ensures IsDigit(t[k]) {
      assert t[k] == b[k - p - 1];
    }
    DigitsEnd(t, 1, p);
    DigitsEnd(t, p + 1, q);
  }

  /** The matcher accepts exactly the versions. */
  lemma MatcherExact(t: string)
    ensures MatchesVersion(t) <==> IsVersion(t)
  {
    if MatchesVersion(t) {
      MatcherSound(t);
    }
    if IsVersion(t) {
      var a, b, c, rest :| Digits(a) && Digits(b) && Digits(c) && t == Joined(a, b, c, rest);
      MatcherComplete(t, a, b, c, rest);
    }
  }

  /** Skipping digits stops at the dot behind them. */
  lemma DigitsEnd(t: string, from: nat, end: nat)
    requires from <= end < |t| && t[end] == '.' && forall k :: from <= k < end ==> IsDigit(t[k])
    ensures SkipDigits(t, from) == end
  {
  }

  /** The regular expression for chart labels matches at position i. */
  ghost predicate ChartMatch(s: string, i: nat) {
    i < |s| && s[i] == '-' && IsVersion(s[i + 1..])
  }

  function ChartVersionFrom(s: string, i: nat): Option<string>
    decreases |s| - i
  {
    if i >= |s| then None
    else if s[i] == '-' && MatchesVersion(s[i + 1..]) then Some(s[i + 1..])
    else ChartVersionFrom(s, i + 1)
  }

  /** `-(v\d+\.\d+\.\d+.*)$`: the leftmost match, less its dash. */
  function ChartVersion(s: string): Option<string> {
    ChartVersionFrom(s, 0)
  }

  ghost predicate NoChartMatch(s: string, from: nat, end: nat) {
    forall j: nat :: from <= j < end ==> !ChartMatch(s, j)
  }

  /** Sound, complete and leftmost. */
  lemma {:induction false} ChartVersionIsLeftmost(s: string, from: nat)
    ensures var r := ChartVersionFrom(s, from);
            && (r.None? ==> NoChartMatch(s, from, |s|))
            && (r.Some? ==> exists i: nat :: Leftmost(s, from, i) && r.value == s[i + 1..])
    decreases |s| - from
  {
    if from < |s| {
      MatchAt(s, from);
      if ChartMatch(s, from) {
        assert Leftmost(s, from, from);
      } else {
        ChartVersionIsLeftmost(s, from + 1);
        NoMatchCons(s, from);
        var r := ChartVersionFrom(s, from + 1);
        if r.Some? {
          var i: nat :| Leftmost(s, from + 1, i) && r.value == s[i + 1..];
          assert Leftmost(s, from, i);
        }
      }
    }
  }

  /** The first match from `from` on is at i. */
  ghost predicate Leftmost(s: string, from: nat, i: nat) {
    from <= i && ChartMatch(s, i) && NoChartMatch(s, from, i)
  }

  lemma NoMatchCons(s: string, from: nat)
    requires !ChartMatch(s, from)
    ensures forall end: nat :: NoChartMatch(s, from + 1, end) ==> NoChartMatch(s, from, end)
  {
    forall end: nat | NoChartMatch(s, from + 1, end) ensures NoChartMatch(s, from, end) {
      forall j: nat | from <= j < end ensures !ChartMatch(s, j) {
      }
    }
  }

  lemma MatchAt(s: string, i: nat)
    requires i < |s|
    ensures ChartMatch(s, i) <==> s[i] == '-' && MatchesVersion(s[i + 1..])
  {
    MatcherExact(s[i + 1..]);
  }

  /** A chart label made of a name and a version gives back the version, if the name holds no earlier match. */
  lemma ChartLabelGivesVersion(name: string, version: string)
    requires IsVersion(version)
    requires NoChartMatch(name + "-" + version, 0, |name|)
    ensures ChartVersion(name + "-" + version) == Some(version)
  {
    var s := name + "-" + version;
    ChartVersionIsLeftmost(s, 0);
    assert s[|name| + 1..] == version;
    assert ChartMatch(s, |name|);
    assert ChartVersion(s).Some?;
    var i: nat :| Leftmost(s, 0, i) && ChartVersion(s).value == s[i + 1..];
    assert i == |name|;
  }

  const IMAGE := "quay.io/jetstack/cert-manager-webhook:"

  /** `^quay\.io/jetstack/cert-manager-webhook:(v\d+\.\d+\.\d+.*)$` */
  function ImageVersion(image: string): (v: Option<string>)
    ensures v.Some? ==> image == IMAGE + v.value && v.value != ""
  {
    if IMAGE <= image && MatchesVersion(image[|IMAGE|..]) then Some(image[|IMAGE|..]) else None
  }

  /** The expression matches exactly the prefix followed by a version, and captures that version. */
  lemma ImageVersionExact(image: string, v: string)
    ensures ImageVersion(image) == Some(v) <==>
              image == "quay.io/jetstack/cert-manager-webhook:" + v && IsVersion(v)
  {
    if IMAGE <= image {
      MatcherExact(image[|IMAGE|..]);
    }
  }

  const VERSION_LABEL := "app.kubernetes.io/version"
  const CHART_LABEL := "helm.sh/chart"
  const OLD_CHART_LABEL := "chart"

  function LabelVersion(labels: map<string, string>): string {
    if VERSION_LABEL in labels then labels[VERSION_LABEL]
    else if CHART_LABEL in labels && ChartVersion(labels[CHART_LABEL]).Some? then ChartVersion(labels[CHART_LABEL]).value
    else if OLD_CHART_LABEL in labels && ChartVersion(labels[OLD_CHART_LABEL]).Some? then
      ChartVersion(labels[OLD_CHART_LABEL]).value
    else ""
  }

  /** The chart holds a version: the suffix after its leftmost match. */
  ghost predicate ChartHolds(chart: string, v: string) {
    exists i: nat :: Leftmost(chart, 0, i) && v == chart[i + 1..]
  }

  /** The chart holds no version. */
  ghost predicate ChartHoldsNone(chart: string) {
    NoChartMatch(chart, 0, |chart|)
  }

  lemma ChartVersionExact(chart: string)
    ensures ChartVersion(chart).Some? ==> ChartHolds(chart, ChartVersion(chart).value) && !ChartHoldsNone(chart)
    ensures ChartVersion(chart).None? <==> ChartHoldsNone(chart)
  {
    ChartVersionIsLeftmost(chart, 0);
    if ChartVersion(chart).Some? {
      var i: nat :| Leftmost(chart, 0, i) && ChartVersion(chart).value == chart[i + 1..];
      assert ChartHolds(chart, ChartVersion(chart).value);
      assert !ChartHoldsNone(chart);
    }
  }

  /**
   * Which version the labels hold: that of the version label as it is, otherwise the suffix of the
   * chart label, otherwise the suffix of the old chart label, otherwise none.
   */
  lemma LabelVersionExact(labels: map<string, string>)
    ensures var v := LabelVersion(labels);
            && ("app.kubernetes.io/version" in labels ==> v == labels["app.kubernetes.io/version"])
            && ("app.kubernetes.io/version" !in labels ==>
                  && (HasChart(labels, "helm.sh/chart") ==> ChartHolds(labels["helm.sh/chart"], v))
                  && (!HasChart(labels, "helm.sh/chart") && HasChart(labels, "chart") ==> ChartHolds(labels["chart"], v))
                  && (!HasChart(labels, "helm.sh/chart") && !HasChart(labels, "chart") ==> v == ""))
  {
    forall key | key in labels
      ensures ChartVersion(labels[key]).Some? ==> ChartHolds(labels[key], ChartVersion(labels[key]).value)
      ensures ChartVersion(labels[key]).None? <==> !HasChart(labels, key)
    {
      ChartVersionExact(labels[key]);
    }
  }

  ghost predicate HasChart(labels: map<string, string>, key: string) {
    key in labels && !ChartHoldsNone(labels[key])
  }
}
