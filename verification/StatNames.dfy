/** What a precomputed total counts, number by number and by the names of the raw stats
    (`traffic_monitor/cache/stats_type_astats.go`). */
module StatNames {
  import opened Core
  import opened Totals
  import opened DsStats
  import opened Astats

  /** The raw stat is of that name, and of the delivery service. */
  ghost predicate IsOf(regexes: Regexes, stat: string, d: DeliveryServiceName, name: string) {
    TargetOf(regexes, stat) == Some(Target(d, name))
  }

  // ---------- Names ----------

  lemma {:induction false} PartsHaveNoDot(s: string)
    ensures forall part | part in Split(s) :: NoDot(part)
  {
    if s != "" {
      PartsHaveNoDot(s[1..]);
      var rest := Split(s[1..]);
      assert rest[0] in rest && forall part | part in rest[1..] :: part in rest;
    }
  }

  lemma {:induction false} JoinMore(a: string, b: string, parts: seq<string>)
    ensures Join([a] + ([b] + parts)) == a + "." + Join([b] + parts)
  {
    assert ([a] + ([b] + parts))[1..] == [b] + parts;
  }

  lemma {:induction false} JoinLast(parts: seq<string>, name: string)
    requires parts != []
    ensures Join(parts + [name]) == Join(parts) + "." + name
  {
    var all := parts + [name];
    if |parts| == 1 {
      assert all[1..] == [name];
    } else {
      JoinLast(parts[1..], name);
      assert all[1..] == parts[1..] + [name];
      var rest := Join(parts[1..]);
      assert parts[0] + "." + (rest + "." + name) == (parts[0] + "." + rest) + "." + name;
    }
  }

  /** The name is one of a server name that matches the delivery service. */
  ghost predicate IsStatName(regexes: Regexes, stat: string, d: DeliveryServiceName, name: string,
                             subsub: string, sub: string, domain: string)
  {
    && NoDot(subsub) && NoDot(sub) && NoDot(name) && stat == StatName(subsub, sub, domain, name)
    && regexes(domain, sub, subsub) == Some(d) && d != ""
  }

  /** The parts that a target was made of. A name with no domain part at all has no domain, and one dot less. */
  ghost predicate IsShortName(regexes: Regexes, stat: string, d: DeliveryServiceName, name: string, subsub: string, sub: string) {
    && NoDot(subsub) && NoDot(sub) && NoDot(name)
    && stat == "plugin" + "." + ("remap_stats" + "." + (subsub + "." + (sub + "." + name)))
    && regexes("", sub, subsub) == Some(d) && d != ""
  }

  lemma {:induction false} JoinedParts(subsub: string, sub: string, middle: seq<string>, name: string)
    requires middle != []
    ensures Join(["plugin"] + (["remap_stats"] + ([subsub] + ([sub] + (middle + [name]))))) == StatName(subsub, sub, Join(middle), name)
  {
    JoinLast(middle, name);
    var rest := middle + [name];
    assert rest == [rest[0]] + rest[1..];
    JoinMore(sub, rest[0], rest[1..]);
    JoinMore(subsub, sub, rest);
    JoinMore("remap_stats", subsub, [sub] + rest);
    JoinMore("plugin", "remap_stats", [subsub] + ([sub] + rest));
  }

  lemma {:induction false} JoinedShortParts(subsub: string, sub: string, name: string)
    ensures Join(["plugin"] + (["remap_stats"] + ([subsub] + ([sub] + [name]))))
         == "plugin" + "." + ("remap_stats" + "." + (subsub + "." + (sub + "." + name)))
  {
    assert [name] == [name] + [];
    JoinMore(sub, name, []);
    JoinMore(subsub, sub, [name]);
    JoinMore("remap_stats", subsub, [sub] + [name]);
    JoinMore("plugin", "remap_stats", [subsub] + ([sub] + [name]));
  }

  lemma {:induction false} ShortName(regexes: Regexes, subsub: string, sub: string, name: string)
    requires NoDot(subsub) && NoDot(sub) && NoDot(name)
    ensures Split("plugin" + "." + ("remap_stats" + "." + (subsub + "." + (sub + "." + name))))
         == ["plugin"] + (["remap_stats"] + ([subsub] + ([sub] + [name])))
  {
    SplitOne(name);
    SplitPart(sub, name);
    SplitPart(subsub, sub + "." + name);
    SplitPart("remap_stats", subsub + "." + (sub + "." + name));
    SplitPart("plugin", "remap_stats" + "." + (subsub + "." + (sub + "." + name)));
  }

  /** Exactly the names of that form, of a server name that matches, belong to the delivery service. */
  lemma {:induction false} IsOfIff(regexes: Regexes, stat: string, d: DeliveryServiceName, name: string)
    ensures IsOf(regexes, stat, d, name) <==>
      || (exists subsub, sub, domain :: IsStatName(regexes, stat, d, name, subsub, sub, domain))
      || (exists subsub, sub :: IsShortName(regexes, stat, d, name, subsub, sub))
  {
    if IsOf(regexes, stat, d, name) {
      TakenApart(regexes, stat, d, name);
    }
    if subsub, sub, domain :| IsStatName(regexes, stat, d, name, subsub, sub, domain) {
      TargetOfStatName(regexes, subsub, sub, domain, name);
    }
    if subsub, sub :| IsShortName(regexes, stat, d, name, subsub, sub) {
      ShortName(regexes, subsub, sub, name);
      var statParts := Split(stat)[2..];
      assert statParts == [subsub] + ([sub] + [name]);
      assert statParts[2..2] == [];
    }
  }

  lemma {:induction false} TakenApart(regexes: Regexes, stat: string, d: DeliveryServiceName, name: string)
    requires IsOf(regexes, stat, d, name)
    ensures || (exists subsub, sub, domain :: IsStatName(regexes, stat, d, name, subsub, sub, domain))
            || (exists subsub, sub :: IsShortName(regexes, stat, d, name, subsub, sub))
  {
    var parts := Split(stat);
    var n := |parts|;
    PartsHaveNoDot(stat);
    JoinSplit(stat);
    assert parts[2..][|parts[2..]| - 1] == parts[n - 1];
    var subsub, sub, middle := parts[2], parts[3], parts[4..n - 1];
    assert parts[2..][2..n - 3] == middle;
    assert parts == ["plugin"] + (["remap_stats"] + ([subsub] + ([sub] + (middle + [name]))));
    if middle == [] {
      assert middle + [name] == [name];
      JoinedShortParts(subsub, sub, name);
      assert IsShortName(regexes, stat, d, name, subsub, sub);
    } else {
      JoinedParts(subsub, sub, middle, name);
      assert IsStatName(regexes, stat, d, name, subsub, sub, Join(middle));
    }
  }

  // ---------- Numbers ----------

  /** The numbers of a total that are sums of whole numbers, and those of fractions. */
  datatype Whole = OutBytes | Status2xx | Status3xx | Status4xx | Status5xx

  datatype Fraction = InBytes | Tps2xx | Tps3xx | Tps4xx | Tps5xx | TpsTotal

  function WholeName(n: Whole): string {
    match n
    case OutBytes => "out_bytes"
    case Status2xx => "status_2xx"
    case Status3xx => "status_3xx"
    case Status4xx => "status_4xx"
    case Status5xx => "status_5xx"
  }

  function WholeOf(s: CacheStats, n: Whole): int {
    match n
    case OutBytes => s.outBytes
    case Status2xx => s.status2xx
    case Status3xx => s.status3xx
    case Status4xx => s.status4xx
    case Status5xx => s.status5xx
  }

  function FractionName(n: Fraction): string {
    match n
    case InBytes => "in_bytes"
    case Tps2xx => "tps_2xx"
    case Tps3xx => "tps_3xx"
    case Tps4xx => "tps_4xx"
    case Tps5xx => "tps_5xx"
    case TpsTotal => "tps_total"
  }

  function FractionOf(s: CacheStats, n: Fraction): real {
    match n
    case InBytes => s.inBytes
    case Tps2xx => s.tps2xx
    case Tps3xx => s.tps3xx
    case Tps4xx => s.tps4xx
    case Tps5xx => s.tps5xx
    case TpsTotal => s.tpsTotal
  }

  /** The whole number next to `f` towards zero. */
  ghost predicate IsCut(f: real, n: int) {
    if f >= 0.0 then n as real <= f < n as real + 1.0 else n as real - 1.0 < f <= n as real
  }

  lemma {:induction false} TruncateCuts(f: real, n: int)
    ensures Truncate(f) == n <==> IsCut(f, n)
  {
  }

  /** The floats of one name of a delivery service, cut to whole numbers; those of other types do not count. */
  ghost function Wholes(regexes: Regexes, raw: RawStats, d: DeliveryServiceName, n: Whole): map<string, int> {
    map s | s in raw && IsOf(regexes, s, d, WholeName(n)) && raw[s].Float? :: Truncate(raw[s].f)
  }

  /** Rates of a status class must be integers, the other two floats. */
  ghost predicate HasFraction(n: Fraction, v: Value) {
    if n.InBytes? || n.TpsTotal? then v.Float? else v.Integer?
  }

  ghost function Fractions(regexes: Regexes, raw: RawStats, d: DeliveryServiceName, n: Fraction): map<string, real> {
    map s | s in raw && IsOf(regexes, s, d, FractionName(n)) && HasFraction(n, raw[s]) ::
      if raw[s].Float? then raw[s].f else raw[s].i as real
  }

  function PlusInt(a: int, b: int): int {
    a + b
  }

  function PlusReal(a: real, b: real): real {
    a + b
  }

  lemma {:induction false} PlusIsAdditive()
    ensures Additive(PlusInt, 0) && Additive(PlusReal, 0.0)
  {
    assert forall a, b :: Commutes(PlusInt, a, b);
    assert forall a, b, c :: Associates(PlusInt, a, b, c);
    assert forall a :: Neutral(PlusInt, 0, a);
    assert forall a, b :: Commutes(PlusReal, a, b);
    assert forall a, b, c :: Associates(PlusReal, a, b, c);
    assert forall a :: Neutral(PlusReal, 0.0, a);
  }

  // ---------- The numbers of a sum ----------

  ghost predicate TakesSums<V>(h: CacheStats -> V, plus: (V, V) -> V, a: CacheStats, b: CacheStats) {
    h(Sum(a, b)) == plus(h(a), h(b))
  }

  /** A number of the sum of stats is the sum of that number of each. */
  lemma {:induction false} NumberOfSum<V(!new)>(m: map<string, CacheStats>, h: CacheStats -> V, plus: (V, V) -> V, zero: V)
    requires Additive(plus, zero) && h(ZERO) == zero && forall a, b :: TakesSums(h, plus, a, b)
    ensures h(SumOf(m)) == Total(map k | k in m :: h(m[k]), plus, zero)
    decreases |m|
  {
    var numbers := map k | k in m :: h(m[k]);
    if m == map[] {
      assert numbers == map[];
    } else {
      var k :| k in m;
      NumberOfSum(m - {k}, h, plus, zero);
      SumIsAdditive();
      TotalSplit(m, k, Sum, ZERO);
      TotalSplit(numbers, k, plus, zero);
      assert numbers - {k} == map j | j in m - {k} :: h((m - {k})[j]);
      assert TakesSums(h, plus, m[k], SumOf(m - {k}));
    }
  }

  /** One value counts only for the number of its name, and only with the right type. */
  lemma {:induction false} WholeOfValue(name: string, v: Value, n: Whole)
    ensures var c := Contribution(name, v);
      (if c.Some? then WholeOf(c.value, n) else 0) == (if name == WholeName(n) && v.Float? then Truncate(v.f) else 0)
  {
  }

  lemma {:induction false} FractionOfValue(name: string, v: Value, n: Fraction)
    ensures var c := Contribution(name, v);
      (if c.Some? then FractionOf(c.value, n) else 0.0)
        == (if name == FractionName(n) && HasFraction(n, v) then (if v.Float? then v.f else v.i as real) else 0.0)
  {
  }

  /** Each whole number of a sum is the sum of the floats of its own name. */
  lemma {:induction false} WholeIsSum(regexes: Regexes, raw: RawStats, d: DeliveryServiceName, n: Whole)
    ensures WholeOf(SumOf(Counted(regexes, raw, d)), n) == Total(Wholes(regexes, raw, d, n), PlusInt, 0)
  {
    var h := s => WholeOf(s, n);
    var counted := Counted(regexes, raw, d);
    var numbers := map k | k in counted :: h(counted[k]);
    PlusIsAdditive();
    assert forall a, b :: TakesSums(h, PlusInt, a, b);
    NumberOfSum(counted, h, PlusInt, 0);
    forall k
      ensures Get(numbers, k, 0) == Get(Wholes(regexes, raw, d, n), k, 0)
    {
      if k in raw && TargetOf(regexes, k).Some? {
        WholeOfValue(TargetOf(regexes, k).value.name, raw[k], n);
      }
    }
    TotalSame(numbers, Wholes(regexes, raw, d, n), PlusInt, 0);
  }

  lemma {:induction false} FractionIsSum(regexes: Regexes, raw: RawStats, d: DeliveryServiceName, n: Fraction)
    ensures FractionOf(SumOf(Counted(regexes, raw, d)), n) == Total(Fractions(regexes, raw, d, n), PlusReal, 0.0)
  {
    var h := s => FractionOf(s, n);
    var counted := Counted(regexes, raw, d);
    var numbers := map k | k in counted :: h(counted[k]);
    PlusIsAdditive();
    assert forall a, b :: TakesSums(h, PlusReal, a, b);
    NumberOfSum(counted, h, PlusReal, 0.0);
    forall k
      ensures Get(numbers, k, 0.0) == Get(Fractions(regexes, raw, d, n), k, 0.0)
    {
      if k in raw && TargetOf(regexes, k).Some? {
        FractionOfValue(TargetOf(regexes, k).value.name, raw[k], n);
      }
    }
    TotalSame(numbers, Fractions(regexes, raw, d, n), PlusReal, 0.0);
  }

  // ---------- The flag ----------

  ghost predicate SomeFlag(m: map<string, CacheStats>) {
    exists k :: k in m && m[k].isAvailable
  }

  lemma {:induction false} FlagOfSum(m: map<string, CacheStats>)
    ensures SumOf(m).isAvailable <==> SomeFlag(m)
    decreases |m|
  {
    if m != map[] {
      var k :| k in m;
      FlagOfSum(m - {k});
      SumIsAdditive();
      TotalSplit(m, k, Sum, ZERO);
      if j :| j in m && m[j].isAvailable {
        assert j == k || (j in m - {k} && (m - {k})[j].isAvailable);
      }
    }
  }

  ghost predicate IsFlagged(regexes: Regexes, raw: RawStats, d: DeliveryServiceName) {
    exists s :: s in raw && IsOf(regexes, s, d, "is_available") && raw[s] == Flag(true)
  }

  lemma {:induction false} FlagIsSet(regexes: Regexes, raw: RawStats, d: DeliveryServiceName)
    ensures SumOf(Counted(regexes, raw, d)).isAvailable <==> IsFlagged(regexes, raw, d)
  {
    var counted := Counted(regexes, raw, d);
    FlagOfSum(counted);
    if k :| k in counted && counted[k].isAvailable {
      FlagOfValue(TargetOf(regexes, k).value.name, raw[k]);
      assert IsOf(regexes, k, d, "is_available");
    }
    if s :| s in raw && IsOf(regexes, s, d, "is_available") && raw[s] == Flag(true) {
      FlagOfValue("is_available", raw[s]);
      assert s in counted && counted[s].isAvailable;
    }
  }

  lemma {:induction false} FlagOfValue(name: string, v: Value)
    ensures var c := Contribution(name, v);
      c.Some? && c.value.isAvailable <==> name == "is_available" && v == Flag(true)
  {
  }

  // ---------- What was precomputed ----------

  /** The value has the type that stats of that name must have. */
  ghost predicate Counts(name: string, v: Value) {
    || (v.Float? && name in {"out_bytes", "status_2xx", "status_3xx", "status_4xx", "status_5xx", "in_bytes", "tps_total"})
    || (v.Integer? && name in {"tps_2xx", "tps_3xx", "tps_4xx", "tps_5xx"})
    || (v.Flag? && name == "is_available")
    || (v.Text? && name == "error_string")
  }

  ghost predicate SomeCounts(regexes: Regexes, raw: RawStats, d: DeliveryServiceName) {
    exists s, name :: s in raw && IsOf(regexes, s, d, name) && Counts(name, raw[s])
  }

  ghost predicate NumbersAreRight(total: CacheStats, regexes: Regexes, raw: RawStats, d: DeliveryServiceName) {
    && (forall n :: WholeOf(total, n) == Total(Wholes(regexes, raw, d, n), PlusInt, 0))
    && (forall n :: FractionOf(total, n) == Total(Fractions(regexes, raw, d, n), PlusReal, 0.0))
    && (total.isAvailable <==> IsFlagged(regexes, raw, d)) && total.kbps == 0.0
  }

  lemma {:induction false} CountsIff(regexes: Regexes, raw: RawStats, d: DeliveryServiceName)
    ensures Counted(regexes, raw, d) != map[] <==> SomeCounts(regexes, raw, d)
  {
    var counted := Counted(regexes, raw, d);
    if counted != map[] {
      var s :| s in counted;
      var name := TargetOf(regexes, s).value.name;
      assert IsOf(regexes, s, d, name) && Counts(name, raw[s]);
    }
    if s, name :| s in raw && IsOf(regexes, s, d, name) && Counts(name, raw[s]) {
      assert s in counted;
    }
  }

  lemma {:induction false} NoBandwidth(m: map<string, CacheStats>)
    requires forall k | k in m :: m[k].kbps == 0.0
    ensures SumOf(m).kbps == 0.0
    decreases |m|
  {
    if m != map[] {
      var k :| k in m;
      NoBandwidth(m - {k});
      SumIsAdditive();
      TotalSplit(m, k, Sum, ZERO);
    }
  }

  lemma {:induction false} ContributesNoBandwidth(name: string, v: Value)
    ensures Contribution(name, v).Some? ==> Contribution(name, v).value.kbps == 0.0
  {
  }

  /** Precomputing has a stat for a delivery service iff some raw stat of it counts, and then every number of its total is
      the sum of the raw stats of its own name. */
  lemma {:induction false} PrecomputedNumbers(stats: StatValues, regexes: Regexes, raw: RawStats, server: CacheName,
                                              group: CacheGroupName, kind: CacheType, d: DeliveryServiceName)
    requires PrecomputedFrom(stats, regexes, raw, server, group, kind)
    ensures d in stats <==> SomeCounts(regexes, raw, d)
    ensures d in stats ==> NumbersAreRight(stats[d].total, regexes, raw, d)
  {
    assert PrecomputedFor(stats, regexes, raw, server, group, kind, d);
    CountsIff(regexes, raw, d);
    if d in stats {
      var counted := Counted(regexes, raw, d);
      forall n
        ensures WholeOf(SumOf(counted), n) == Total(Wholes(regexes, raw, d, n), PlusInt, 0)
      {
        WholeIsSum(regexes, raw, d, n);
      }
      forall n
        ensures FractionOf(SumOf(counted), n) == Total(Fractions(regexes, raw, d, n), PlusReal, 0.0)
      {
        FractionIsSum(regexes, raw, d, n);
      }
      FlagIsSet(regexes, raw, d);
      forall k | k in counted
        ensures counted[k].kbps == 0.0
      {
        ContributesNoBandwidth(TargetOf(regexes, k).value.name, raw[k]);
      }
      NoBandwidth(counted);
    }
  }
}
