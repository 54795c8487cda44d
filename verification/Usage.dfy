/** The canonical form of a usage event, from which an archive set's bindings are derived. */
module Usage {
  import opened Types

  const MICROSECOND: nat := 1000
  const MAX_USAGE_ID: nat := 128

  // ---- text -----------------------------------------------------------------------------------

  /** The white space of `unicode.IsSpace`. */
  predicate IsSpace(c: char) {
    c == ' ' || '\t' <= c <= '\r' || c == '\U{0085}' || c == '\U{00A0}' || c == '\U{1680}' || '\U{2000}' <= c <= '\U{200A}'
    || c == '\U{2028}' || c == '\U{2029}' || c == '\U{202F}' || c == '\U{205F}' || c == '\U{3000}'
  }

  function TrimLeft(s: string): string {
    if s != [] && IsSpace(s[0]) then TrimLeft(s[1..]) else s
  }

  function TrimRight(s: string): string {
    if s != [] && IsSpace(s[|s| - 1]) then TrimRight(s[..|s| - 1]) else s
  }

  function Trim(s: string): string { TrimRight(TrimLeft(s)) }

  predicate Tight(s: string) { s == "" || (!IsSpace(s[0]) && !IsSpace(s[|s| - 1])) }

  lemma {:induction false} TrimRightTight(s: string)
    requires s == "" || !IsSpace(s[0])
    ensures Tight(TrimRight(s))
  {
    if s != [] && IsSpace(s[|s| - 1]) { TrimRightTight(s[..|s| - 1]); }
  }

  lemma {:induction false} TrimLeftTight(s: string)
    ensures TrimLeft(s) == "" || !IsSpace(TrimLeft(s)[0])
  {
    if s != [] && IsSpace(s[0]) { TrimLeftTight(s[1..]); }
  }

  lemma TrimTwice(s: string)
    ensures Trim(Trim(s)) == Trim(s)
  {
    TrimLeftTight(s);
    TrimRightTight(TrimLeft(s));
  }

  /** The order of `sort.Slice`: byte order of the metric codes. */
  predicate TextLess(a: string, b: string) {
    b != [] && (a == [] || a[0] < b[0] || (a[0] == b[0] && TextLess(a[1..], b[1..])))
  }

  lemma {:induction false} TextTotal(a: string, b: string)
    ensures TextLess(a, b) || TextLess(b, a) || a == b
  {
    if a != [] && b != [] && a[0] == b[0] {
      TextTotal(a[1..], b[1..]);
      assert a == [a[0]] + a[1..] && b == [b[0]] + b[1..];
    }
  }

  lemma {:induction false} TextTrans(a: string, b: string, c: string)
    requires TextLess(a, b) && TextLess(b, c)
    ensures TextLess(a, c)
  {
    if a != [] && a[0] == b[0] && b[0] == c[0] { TextTrans(a[1..], b[1..], c[1..]); }
  }

  lemma {:induction false} TextAntisymmetric(a: string, b: string)
    requires TextLess(a, b)
    ensures !TextLess(b, a)
  {
    if a != [] && a[0] == b[0] { TextAntisymmetric(a[1..], b[1..]); }
  }

  // ---- measurements ---------------------------------------------------------------------------------

  predicate MetricAllowed(service: string, m: Measurement) {
    (service == "mqtt" && m.scale == 0 &&
      (((m.metric == "publish_bytes" || m.metric == "delivery_bytes") && m.unit == "bytes") ||
       ((m.metric == "publish_count" || m.metric == "delivery_count") && m.unit == "requests")))
    || (service == "ota" &&
      ((m.metric == "device_task" && m.unit == "tasks" && m.scale == 0) ||
       (m.metric == "successful_download_gib" && m.unit == "GiB" && m.scale == 9) ||
       (m.metric == "artifact_storage_gib_month" && m.unit == "GiB-month" && m.scale == 9) ||
       (m.metric == "artifact_write" && m.unit == "requests" && m.scale == 0)))
  }

  predicate DistinctMetrics(ms: seq<Measurement>) {
    forall i, j :: 0 <= i < j < |ms| ==> ms[i].metric != ms[j].metric
  }

  predicate MeasurementsValid(service: string, ms: seq<Measurement>) {
    DistinctMetrics(ms) && forall m <- ms :: m.quantity <= MAX_INT64 && MetricAllowed(service, m)
  }

  /** The loop of `validate`. */
  method CheckMeasurements(service: string, ms: seq<Measurement>) returns (ok: bool)
    ensures ok <==> MeasurementsValid(service, ms)
  {
    var seen: set<string> := {};
    for i := 0 to |ms|
      invariant forall metric :: metric in seen <==> exists j :: 0 <= j < i && ms[j].metric == metric
      invariant MeasurementsValid(service, ms[..i])
    {
      var m := ms[i];
      assert ms[..i + 1] == ms[..i] + [m];
      if m.metric in seen || m.quantity > MAX_INT64 || !MetricAllowed(service, m) {
        assert m in ms;
        return false;
      }
      seen := seen + {m.metric};
    }
    assert ms[..|ms|] == ms;
    ok := true;
  }

  predicate InOrder(ms: seq<Measurement>) {
    forall i, j :: 0 <= i < j < |ms| ==> !TextLess(ms[j].metric, ms[i].metric)
  }

  function Inserted(ms: seq<Measurement>, m: Measurement): seq<Measurement> {
    if ms == [] then [m]
    else if TextLess(m.metric, ms[|ms| - 1].metric) then Inserted(ms[..|ms| - 1], m) + [ms[|ms| - 1]]
    else ms + [m]
  }

  function SortByMetric(ms: seq<Measurement>): seq<Measurement> {
    if ms == [] then [] else Inserted(SortByMetric(ms[..|ms| - 1]), ms[|ms| - 1])
  }

  lemma {:induction false} InsertedMembers(ms: seq<Measurement>, m: Measurement)
    ensures multiset(Inserted(ms, m)) == multiset(ms) + multiset{m}
  {
    if ms != [] {
      assert ms == ms[..|ms| - 1] + [ms[|ms| - 1]];
      if TextLess(m.metric, ms[|ms| - 1].metric) { InsertedMembers(ms[..|ms| - 1], m); }
    }
  }

  lemma {:induction false} InsertedInOrder(ms: seq<Measurement>, m: Measurement)
    requires InOrder(ms)
    ensures InOrder(Inserted(ms, m))
  {
    if ms != [] {
      var rest, last := ms[..|ms| - 1], ms[|ms| - 1];
      if TextLess(m.metric, last.metric) {
        InsertedInOrder(rest, m);
        InsertedMembers(rest, m);
        forall x | x in Inserted(rest, m) ensures !TextLess(last.metric, x.metric) {
          assert x in multiset(Inserted(rest, m));
          if x == m { TextAntisymmetric(m.metric, last.metric); }
        }
      } else {
        forall x | x in rest ensures !TextLess(m.metric, x.metric) {
          if TextLess(m.metric, x.metric) {
            TextTotal(x.metric, last.metric);
            if TextLess(x.metric, last.metric) { TextTrans(m.metric, x.metric, last.metric); }
          }
        }
      }
    }
  }

  lemma {:induction false} SortedResult(ms: seq<Measurement>)
    ensures InOrder(SortByMetric(ms)) && multiset(SortByMetric(ms)) == multiset(ms)
  {
    if ms != [] {
      var rest, last := ms[..|ms| - 1], ms[|ms| - 1];
      SortedResult(rest);
      InsertedInOrder(SortByMetric(rest), last);
      InsertedMembers(SortByMetric(rest), last);
      assert ms == rest + [last];
    }
  }

  lemma SameMembers(a: seq<Measurement>, b: seq<Measurement>)
    requires multiset(a) == multiset(b)
    ensures |a| == |b| && forall m :: m in a <==> m in b
  {
    assert |multiset(a)| == |a| && |multiset(b)| == |b|;
    forall m ensures m in a <==> m in b { assert m in a <==> m in multiset(a); assert m in b <==> m in multiset(b); }
  }

  lemma RestIsSame(a: seq<Measurement>, b: seq<Measurement>)
    requires multiset(a) == multiset(b) && a != [] && b != [] && a[|a| - 1] == b[|b| - 1]
    ensures multiset(a[..|a| - 1]) == multiset(b[..|b| - 1])
  {
    assert a == a[..|a| - 1] + [a[|a| - 1]] && b == b[..|b| - 1] + [b[|b| - 1]];
    assert multiset(a[..|a| - 1]) == multiset(a) - multiset{a[|a| - 1]};
    assert multiset(b[..|b| - 1]) == multiset(b) - multiset{b[|b| - 1]};
  }

  lemma SameFromEnds(a: seq<Measurement>, b: seq<Measurement>)
    requires a != [] && |a| == |b| && a[..|a| - 1] == b[..|b| - 1] && a[|a| - 1] == b[|b| - 1]
    ensures a == b
  {
    assert a == a[..|a| - 1] + [a[|a| - 1]] && b == b[..|b| - 1] + [b[|b| - 1]];
  }

  /** Distinct metrics have one order. */
  lemma {:induction false} OneOrder(a: seq<Measurement>, b: seq<Measurement>)
    requires InOrder(a) && InOrder(b) && multiset(a) == multiset(b) && DistinctMetrics(a) && DistinctMetrics(b)
    ensures a == b
  {
    SameMembers(a, b);
    if a != [] {
      LastIsSame(a, b);
      RestIsSame(a, b);
      OneOrder(a[..|a| - 1], b[..|b| - 1]);
      SameFromEnds(a, b);
    }
  }

  lemma LastIsSame(a: seq<Measurement>, b: seq<Measurement>)
    requires InOrder(a) && InOrder(b) && DistinctMetrics(a) && DistinctMetrics(b) && |a| == |b| > 0
    requires forall m :: m in a <==> m in b
    ensures a[|a| - 1] == b[|b| - 1]
  {
    var p, q := a[|a| - 1], b[|b| - 1];
    assert p in b && q in a;
    var i :| 0 <= i < |a| && a[i] == q;
    var j :| 0 <= j < |b| && b[j] == p;
    TextTotal(p.metric, q.metric);
    assert p.metric == q.metric by {
      assert i == |a| - 1 || TextLess(q.metric, p.metric);
      assert j == |b| - 1 || TextLess(p.metric, q.metric);
    }
  }

  lemma DistinctPermuted(a: seq<Measurement>, b: seq<Measurement>)
    requires multiset(a) == multiset(b) && DistinctMetrics(a)
    ensures DistinctMetrics(b)
  {
    SameMembers(a, b);
    forall i, j | 0 <= i < j < |b| ensures b[i].metric != b[j].metric {
      assert b[i] in a && b[j] in a;
      var x :| 0 <= x < |a| && a[x] == b[i];
      var y :| 0 <= y < |a| && a[y] == b[j];
      if b[i].metric == b[j].metric {
        assert x == y;
        TwiceIn(b, i, j);
        OnceIn(a, x);
      }
    }
  }

  lemma TwiceIn(s: seq<Measurement>, i: nat, j: nat)
    requires i < j < |s| && s[i] == s[j]
    ensures multiset(s)[s[i]] >= 2
  {
    assert s == s[..j] + s[j..];
    assert s[i] in s[..j] && s[j] in s[j..];
  }

  lemma OnceIn(s: seq<Measurement>, i: nat)
    requires i < |s| && DistinctMetrics(s)
    ensures multiset(s)[s[i]] == 1
  {
    assert s == s[..i] + [s[i]] + s[i + 1..];
    assert s[i] !in s[..i] && s[i] !in s[i + 1..];
  }

  // ---- the canonical event ------------------------------------------------------------------------------

  function ToMicrosecond(t: nat): nat { t - t % MICROSECOND }

  function UsageIdLength(id: UsageId): nat {
    match id case Given(text) => |text| case Derived(_, _, _, _, _, _, _) => 30
  }

  predicate EventValid(e: UsageEvent) {
    && 0 < UsageIdLength(e.usageId) <= MAX_USAGE_ID
    && e.service != "" && e.brand != "" && e.epoch != "" && e.source != ""
    && e.eventTime != 0 && e.windowStart != 0 && e.windowEnd != 0 && e.windowStart < e.windowEnd
    && e.sequence <= MAX_INT64 && e.measurements != [] && MeasurementsValid(e.service, e.measurements)
  }

  function Trimmed(e: UsageEvent): UsageEvent {
    e.(usageId := (match e.usageId case Given(text) => Given(Trim(text)) case d => d),
       service := Trim(e.service), brand := Trim(e.brand), epoch := Trim(e.epoch), source := Trim(e.source))
  }

  /** A missing id is derived before any precision is dropped. */
  function Identified(e: UsageEvent): UsageEvent {
    if e.usageId == Given("")
    then e.(usageId := Derived(e.service, e.brand, e.epoch, e.sequence, e.windowStart, e.windowEnd, e.dimensions))
    else e
  }

  function Rounded(e: UsageEvent): UsageEvent {
    e.(eventTime := ToMicrosecond(e.eventTime), windowStart := ToMicrosecond(e.windowStart),
       windowEnd := ToMicrosecond(e.windowEnd), measurements := SortByMetric(e.measurements))
  }

  function Canonical(e: UsageEvent): Option<UsageEvent> {
    var named := Identified(Trimmed(e));
    if !EventValid(named) then None
    else if !EventValid(Rounded(named)) then None else Some(Rounded(named))
  }

  /** `CanonicalUsageBinding`; the canonical event stands for its digest. */
  function UsageBinding(sequence: nat, content: ContentDigest, usage: Option<UsageEvent>): Option<RecordBinding> {
    if sequence == 0 || sequence > MAX_INT64 || usage == None then None
    else match Canonical(usage.value)
      case None => None
      case Some(e) => Some(RecordBinding(sequence, content, e.usageId, e))
  }

  // ---- what makes it canonical ------------------------------------------------------------------------------

  lemma SortPermuted(a: seq<Measurement>, b: seq<Measurement>)
    requires multiset(a) == multiset(b) && DistinctMetrics(a)
    ensures SortByMetric(a) == SortByMetric(b)
  {
    SortedResult(a);
    SortedResult(b);
    DistinctPermuted(a, SortByMetric(a));
    DistinctPermuted(a, SortByMetric(b));
    OneOrder(SortByMetric(a), SortByMetric(b));
  }

  lemma ValidPermuted(service: string, a: seq<Measurement>, b: seq<Measurement>)
    requires multiset(a) == multiset(b)
    ensures MeasurementsValid(service, a) <==> MeasurementsValid(service, b)
  {
    SameMembers(a, b);
    if DistinctMetrics(a) { DistinctPermuted(a, b); }
    if DistinctMetrics(b) { DistinctPermuted(b, a); }
  }

  /** The order in which a producer lists its measurements never changes the binding. */
  lemma OrderIrrelevant(e: UsageEvent, ms: seq<Measurement>, sequence: nat, content: ContentDigest)
    requires multiset(ms) == multiset(e.measurements)
    ensures UsageBinding(sequence, content, Some(e.(measurements := ms))) == UsageBinding(sequence, content, Some(e))
  {
    var a, b := Identified(Trimmed(e)), Identified(Trimmed(e.(measurements := ms)));
    assert b == a.(measurements := ms);
    ValidPermuted(a.service, a.measurements, ms);
    assert a.measurements == [] <==> ms == [] by { SameMembers(e.measurements, ms); }
    if EventValid(a) { SortPermuted(a.measurements, ms); }
  }

  lemma TrimmedStable(e: UsageEvent)
    ensures Trimmed(Trimmed(e)) == Trimmed(e)
  {
    TrimTwice(e.service);
    TrimTwice(e.brand);
    TrimTwice(e.epoch);
    TrimTwice(e.source);
    if e.usageId.Given? { TrimTwice(e.usageId.text); }
  }

  lemma NamedStable(t: UsageEvent)
    requires Trimmed(t) == t
    ensures Trimmed(Identified(t)) == Identified(t) && Identified(Identified(t)) == Identified(t)
    ensures Trimmed(Rounded(Identified(t))) == Rounded(Identified(t))
    ensures Identified(Rounded(Identified(t))) == Rounded(Identified(t))
  {}

  lemma RoundedStable(e: UsageEvent)
    requires DistinctMetrics(e.measurements)
    ensures Rounded(Rounded(e)) == Rounded(e)
  {
    hide SortByMetric, ToMicrosecond;
    SortedTwice(e.measurements);
    MicrosecondTwice(e.eventTime);
    MicrosecondTwice(e.windowStart);
    MicrosecondTwice(e.windowEnd);
  }

  lemma MicrosecondTwice(t: nat)
    ensures ToMicrosecond(ToMicrosecond(t)) == ToMicrosecond(t)
  {}

  lemma SortedTwice(ms: seq<Measurement>)
    requires DistinctMetrics(ms)
    ensures SortByMetric(SortByMetric(ms)) == SortByMetric(ms)
  {
    hide SortByMetric;
    var once := SortByMetric(ms);
    SortedResult(ms);
    SortedResult(once);
    DistinctPermuted(ms, once);
    DistinctPermuted(once, SortByMetric(once));
    OneOrder(SortByMetric(once), once);
  }

  /** Dropping the precision below a microsecond: the last whole microsecond not after `t`. */
  lemma MicrosecondIs(t: nat)
    ensures ToMicrosecond(t) <= t < ToMicrosecond(t) + MICROSECOND && ToMicrosecond(t) % MICROSECOND == 0
    ensures ToMicrosecond(t) == 0 <==> t < MICROSECOND
  {}

  /** An event has a canonical form exactly when it is valid as it came, with its text trimmed
      and its id derived, and its times and its window survive the loss of precision. */
  lemma CanonicalExactly(e: UsageEvent)
    ensures var named := Identified(Trimmed(e));
      && (Canonical(e).Some? <==>
            && EventValid(named) && named.eventTime >= MICROSECOND && named.windowStart >= MICROSECOND
            && ToMicrosecond(named.windowStart) < ToMicrosecond(named.windowEnd))
      && (Canonical(e).Some? ==>
            && Canonical(e).value == named.(eventTime := ToMicrosecond(named.eventTime), windowStart := ToMicrosecond(named.windowStart),
                                            windowEnd := ToMicrosecond(named.windowEnd), measurements := Canonical(e).value.measurements)
            && InOrder(Canonical(e).value.measurements) && multiset(Canonical(e).value.measurements) == multiset(named.measurements))
  {
    hide ToMicrosecond, SortByMetric, MeasurementsValid, InOrder, Trim, UsageIdLength;
    var named := Identified(Trimmed(e));
    MicrosecondIs(named.eventTime);
    MicrosecondIs(named.windowStart);
    MicrosecondIs(named.windowEnd);
    SortedResult(named.measurements);
    ValidPermuted(named.service, named.measurements, SortByMetric(named.measurements));
    if named.measurements != [] { assert |multiset(SortByMetric(named.measurements))| == |named.measurements|; }
  }

  /** A canonical event is its own canonical form, with the same id. */
  lemma CanonicalStable(e: UsageEvent)
    requires Canonical(e).Some?
    ensures Canonical(Canonical(e).value) == Canonical(e)
  {
    var t := Trimmed(e);
    TrimmedStable(e);
    NamedStable(t);
    RoundedStable(Identified(t));
    var c := Rounded(Identified(t));
    assert Identified(Trimmed(c)) == c && Rounded(c) == c;
  }
}
