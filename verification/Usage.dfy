/** Observed usage, how far it may be trusted, and the footprint a capacity decision
    charges for a pod. */
module Usage {
  import opened Basics

  const HISTORICAL_P95 := "historical_p95"
  const RECOMMENDER := "recommender"
  const SAMPLED_ROLLUP := "sampled_rollup"
  const INSTANT := "instant"
  const NO_FIDELITY := "none"

  /** Any fidelity not listed here cannot justify removing capacity. */
  predicate Actionable(fidelity: string) {
    fidelity == HISTORICAL_P95 || fidelity == RECOMMENDER || fidelity == SAMPLED_ROLLUP
  }

  datatype Reading = Reading(cpu: int, mem: int)

  datatype UsageSet = UsageSet(pods: map<string, Reading>, fidelity: string)
  {
    function Get(key: string): Reading {
      if key in pods then pods[key] else Reading(0, 0)
    }
  }

  function Scale(v: int, headroomPercent: int): int {
    v + GoDiv(v * Max(headroomPercent, 0), 100)
  }

  /** A figure reaches the usage plus the headroom percentage, to the unit, and exceeds both
      that and the request only if the other asks for it. */
  ghost predicate CoversUsage(figure: int, request: int, usage: int, headroomPercent: int) {
    && 100 * figure > usage * (100 + headroomPercent) - 100
    && (figure == request || 100 * figure <= usage * (100 + headroomPercent))
  }

  lemma ScaleMeaning(v: int, headroomPercent: int)
    ensures v >= 0 ==> Scale(v, headroomPercent) >= v
    ensures v >= 0 && headroomPercent >= 0 ==>
              v * (100 + headroomPercent) - 100 < 100 * Scale(v, headroomPercent) <= v * (100 + headroomPercent)
  {
    if v >= 0 {
      var extra := v * Max(headroomPercent, 0);
      assert extra >= 0;
      assert headroomPercent >= 0 ==> v * (100 + headroomPercent) == 100 * v + extra;
      HundredthParts(extra);
    }
  }

  lemma HundredthParts(extra: int)
    requires extra >= 0
    ensures extra - 100 < 100 * GoDiv(extra, 100) <= extra
    ensures GoDiv(extra, 100) >= 0
  {
  }

  /** The more demanding of the request and the observed usage plus headroom. */
  function Effective(reqCPU: int, reqMem: int, reading: Reading, fidelity: string, headroomPercent: int)
    : (r: (int, int))
    ensures r.0 >= reqCPU && r.1 >= reqMem
    ensures !Actionable(fidelity) ==> r == (reqCPU, reqMem)
    ensures Actionable(fidelity) && headroomPercent >= 0 ==>
              && (reading.cpu >= 0 ==> CoversUsage(r.0, reqCPU, reading.cpu, headroomPercent))
              && (reading.mem >= 0 ==> CoversUsage(r.1, reqMem, reading.mem, headroomPercent))
    ensures Actionable(fidelity) && reading.cpu >= 0 && reading.mem >= 0 ==>
              r.0 >= reading.cpu && r.1 >= reading.mem
  {
    ScaleMeaning(reading.cpu, headroomPercent);
    ScaleMeaning(reading.mem, headroomPercent);
    if !Actionable(fidelity) then (reqCPU, reqMem)
    else
      (Max(reqCPU, Scale(reading.cpu, headroomPercent)), Max(reqMem, Scale(reading.mem, headroomPercent)))
  }

  // ----- choosing a source -----

  /** What a provider answered when asked. */
  datatype Answer = Unavailable | Answered(readings: UsageSet)

  function CountKnown(readings: UsageSet, keys: seq<string>): nat {
    if keys == [] then 0
    else CountKnown(readings, keys[..|keys| - 1]) + if keys[|keys| - 1] in readings.pods then 1 else 0
  }

  /** The ratio of two counts, as a number between zero and one. */
  ghost predicate IsFraction(ratio: real, found: nat, wanted: nat) {
    0.0 <= ratio <= 1.0 && ratio * wanted as real == found as real
  }

  /** The fraction of the wanted pods a source has a reading for. */
  method Coverage(readings: UsageSet, keys: seq<string>) returns (ratio: real)
    ensures keys == [] ==> ratio == 0.0
    ensures keys != [] ==> IsFraction(ratio, CountKnown(readings, keys), |keys|)
  {
    if keys == [] {
      return 0.0;
    }
    hide Ratio, IsFraction;
    var found := 0;
    for i := 0 to |keys|
      invariant found == CountKnown(readings, keys[..i]) && found <= i
    {
      assert keys[..i + 1][..i] == keys[..i];
      if keys[i] in readings.pods {
        found := found + 1;
      }
    }
    assert keys[..|keys|] == keys;
    RatioMeaning(found, |keys|);
    return Ratio(found, |keys|);
  }

  function Ratio(found: nat, wanted: nat): real
    requires wanted > 0
  {
    found as real / wanted as real
  }

  lemma RatioMeaning(found: nat, wanted: nat)
    requires found <= wanted && wanted > 0
    ensures IsFraction(Ratio(found, wanted), found, wanted)
  {
    var ratio := found as real / wanted as real;
    assert ratio * wanted as real == found as real;
    if ratio > 1.0 {
      ScaleReal(1.0, ratio, wanted as real);
    } else if ratio < 0.0 {
      ScaleReal(ratio, 0.0, wanted as real);
    }
  }

  lemma ScaleReal(a: real, b: real, scale: real)
    requires a < b && scale > 0.0
    ensures a * scale < b * scale
  {
    assert (b - a) * scale > 0.0;
    assert b * scale - a * scale == (b - a) * scale;
  }

  /** A ratio reaches four fifths exactly when the counts do. */
  lemma FourFifths(ratio: real, found: nat, wanted: nat)
    requires wanted > 0 && IsFraction(ratio, found, wanted)
    ensures ratio >= 0.80 <==> 100 * found >= 80 * wanted
  {
    if ratio > 0.80 {
      ScaleReal(0.80, ratio, wanted as real);
    } else if ratio < 0.80 {
      ScaleReal(ratio, 0.80, wanted as real);
    }
    assert 100.0 * found as real >= 80.0 * wanted as real <==> 100 * found >= 80 * wanted;
  }

  /** A source must answer, and for at least 80% of the pods asked about. */
  predicate Usable(answer: Answer, keys: seq<string>) {
    answer.Answered? && (keys == [] || 100 * CountKnown(answer.readings, keys) >= 80 * |keys|)
  }

  /** Whether a source is used, counted by positions: it answered, and at least four fifths of
      the keys, if there are any, have a reading. */
  lemma UsableExactly(answer: Answer, keys: seq<string>)
    ensures Usable(answer, keys)
            <==> (answer.Answered?
                  && (|keys| > 0 ==> 5 * |set i | 0 <= i < |keys| && keys[i] in answer.readings.pods| >= 4 * |keys|))
  {
    if answer.Answered? {
      KnownPositions(answer.readings, keys);
    }
  }

  lemma {:induction false} KnownPositions(readings: UsageSet, keys: seq<string>)
    ensures CountKnown(readings, keys) == |set i | 0 <= i < |keys| && keys[i] in readings.pods|
  {
    var known := set i | 0 <= i < |keys| && keys[i] in readings.pods;
    if keys == [] {
      assert known == {};
    } else {
      var n := |keys| - 1;
      KnownPositions(readings, keys[..n]);
      var front := set i | 0 <= i < n && keys[..n][i] in readings.pods;
      assert known == if keys[n] in readings.pods then front + {n} else front;
    }
  }

  const NO_READINGS := UsageSet(map[], NO_FIDELITY)

  /** Picks the strongest usable source for a (trimmed, lower-cased) provider mode. */
  method Resolve(mode: string, urlConfigured: bool, prometheus: Answer, fallback: Option<Answer>, keys: seq<string>)
    returns (r: UsageSet)
    ensures mode == "prometheus" ==>
              r == if urlConfigured && Usable(prometheus, keys) then prometheus.readings else NO_READINGS
    ensures mode !in {"", "auto", "prometheus"} ==>
              r == if fallback.Some? && Usable(fallback.value, keys) then fallback.value.readings else NO_READINGS
    ensures mode in {"", "auto"} && urlConfigured && Usable(prometheus, keys) ==> r == prometheus.readings
    ensures mode in {"", "auto"} && !(urlConfigured && Usable(prometheus, keys)) ==>
              r == if fallback.Some? && Usable(fallback.value, keys) then fallback.value.readings else NO_READINGS
    ensures r == NO_READINGS || keys == [] || 100 * CountKnown(r, keys) >= 80 * |keys|
  {
    var known := if mode == "" then "auto" else mode;
    if known != "auto" && known != "prometheus" && known != "instant" {
      known := "instant";
    }
    if known == "prometheus" || (known == "auto" && urlConfigured) {
      if urlConfigured {
        var ok := TryProvider(prometheus, keys);
        if ok {
          return prometheus.readings;
        }
      }
      if known == "prometheus" {
        return NO_READINGS;
      }
    }
    if fallback.Some? {
      var ok := TryProvider(fallback.value, keys);
      if ok {
        return fallback.value.readings;
      }
    }
    return NO_READINGS;
  }

  method TryProvider(answer: Answer, keys: seq<string>) returns (ok: bool)
    ensures ok == Usable(answer, keys)
  {
    if answer.Unavailable? {
      return false;
    }
    var ratio := Coverage(answer.readings, keys);
    if keys != [] {
      FourFifths(ratio, CountKnown(answer.readings, keys), |keys|);
    }
    return keys == [] || ratio >= 0.80;
  }
}
