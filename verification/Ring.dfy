/** The history of CRConfig requests, kept in a circular buffer (`traffic_monitor/towrap/towrap.go`). */
module Ring {
  import opened Core

  /** The statistics of a CRConfig. Both pointers are nil when it could not be fetched or parsed. */
  datatype Stats = Stats(date: Option<int>, cdn: Option<string>)

  datatype Request = Request(time: int, addr: string, stats: Stats, err: bool)

  datatype Comparison = Same | Different | NilPointer

  /** The comparison of two entries, from left to right, which dereferences what it compares. */
  function Compare(a: Request, b: Request): Comparison {
    if a.addr != b.addr then Different
    else if a.stats.date.None? || b.stats.date.None? then NilPointer
    else if a.stats.date != b.stats.date then Different
    else if a.stats.cdn.None? || b.stats.cdn.None? then NilPointer
    else if a.stats.cdn != b.stats.cdn then Different
    else Same
  }

  /** Entries are the same iff they have the same address, and the same date and CDN, which are there. A date that is
      missing is dereferenced iff the addresses are the same, and a CDN iff the dates are too. */
  lemma {:induction false} CompareIff(a: Request, b: Request)
    ensures Compare(a, b) == Same <==> a.addr == b.addr && a.stats == b.stats && a.stats.date.Some? && a.stats.cdn.Some?
    ensures Compare(a, b) == NilPointer <==> !CanCompare(a, b)
  {
  }

  ghost predicate CanCompare(a: Request, b: Request) {
    a.addr == b.addr ==>
      && a.stats.date.Some? && b.stats.date.Some?
      && (a.stats.date == b.stats.date ==> a.stats.cdn.Some? && b.stats.cdn.Some?)
  }

  /** The unsigned integers wrap around. */
  const WORD := 0x1_0000_0000_0000_0000

  function Decremented(n: nat): nat {
    if n > 0 then n - 1 else WORD - 1
  }

  /** `(pos - 1) % limit` in unsigned arithmetic. */
  function Before(pos: nat, limit: nat): (i: nat)
    requires pos < limit
    ensures i < limit
  {
    Decremented(pos) % limit
  }

  datatype Outcome = Stored | Duplicate | Panic

  // ---------- The log ----------

  /** The entry that a new one is compared with: the last one, or at a full turn of the buffer whichever
      the wrapped index points to. */
  function ComparedWith(log: seq<Request>, limit: nat): Request
    requires log != [] && 0 < limit <= WORD
  {
    if |log| % limit != 0 then log[|log| - 1]
    else
      FullTurn(|log|, limit);
      log[|log| - limit + Before(0, limit)]
  }

  lemma {:induction false} FullTurn(n: nat, limit: nat)
    requires n > 0 && limit > 0 && n % limit == 0
    ensures n >= limit
  {
  }

  /** What adding an entry to the log of all entries stored so far does. */
  function AddOutcome(log: seq<Request>, limit: nat, e: Request): Outcome
    requires limit <= WORD
  {
    if limit == 0 then Panic
    else if log == [] then Stored
    else
      match Compare(e, ComparedWith(log, limit))
      case Same => Duplicate
      case Different => Stored
      case NilPointer => Panic
  }

  function Logged(log: seq<Request>, limit: nat, e: Request): seq<Request>
    requires limit <= WORD
  {
    if AddOutcome(log, limit, e) == Stored then log + [e] else log
  }

  // ---------- The buffer ----------

  class CRConfigHistory {
    const hist: array<Request>
    var len: nat
    var pos: nat
    ghost var log: seq<Request>

    /** The buffer holds the last entries of the log, each at its number modulo the limit. */
    ghost predicate Valid()
      reads this, hist
    {
      && hist.Length <= WORD
      && len == Min(hist.Length, |log|)
      && pos == (if hist.Length == 0 then 0 else |log| % hist.Length)
      && Holds(hist[..], log)
    }

    constructor (limit: nat, zero: Request)
      requires limit <= WORD
      ensures Valid() && fresh(hist) && hist.Length == limit && log == []
    {
      hist := new Request[limit](_ => zero);
      len, pos, log := 0, 0, [];
    }

    method Add(e: Request) returns (outcome: Outcome)
      requires Valid()
      modifies this, hist
      ensures Valid()
      ensures outcome == AddOutcome(old(log), hist.Length, e)
      ensures log == Logged(old(log), hist.Length, e)
    {
      var limit := hist.Length;
      if len != 0 {
        var last := hist[Before(pos, limit)];
        PreviousSlot(hist[..], log);
        match Compare(e, last) {
          case Same => return Duplicate;
          case NilPointer => return Panic;
          case Different =>
        }
      }
      if limit == 0 {
        return Panic;
      }
      StoreKeeps(hist[..], log, e);
      hist[pos] := e;
      NextPosition(|log|, limit);
      pos := (pos + 1) % limit;
      if len < limit {
        len := len + 1;
      }
      log := log + [e];
      outcome := Stored;
    }

    /** The last entries, as many as there are or fit, oldest first. */
    method Get() returns (entries: seq<Request>)
      requires Valid()
      ensures entries == log[|log| - Min(hist.Length, |log|)..]
    {
      var limit := hist.Length;
      if len < limit {
        Unturned(hist[..], log);
        return hist[..len];
      }
      Turned(hist[..], log);
      entries := hist[pos..] + hist[..pos];
    }
  }

  ghost predicate Holds(hist: seq<Request>, log: seq<Request>) {
    forall i | |log| - Min(|hist|, |log|) <= i < |log| :: hist[i % |hist|] == log[i]
  }

  // ---------- Modular arithmetic ----------

  lemma {:induction false} Multiple(d: int, m: nat)
    ensures d >= 1 ==> d * m >= m
    ensures d <= -1 ==> d * m <= -1 * m
  {
    if d >= 1 {
      assert (d - 1) * m >= 0;
    } else if d <= -1 {
      assert (d + 1) * m <= 0;
    }
  }

  lemma {:induction false} Remainder(q: int, m: nat, r: nat)
    requires r < m
    ensures (q * m + r) % m == r
  {
    var x := q * m + r;
    assert x == (x / m) * m + x % m;
    var d := x / m - q;
    assert d * m == (x / m) * m - q * m;
    Multiple(d, m);
  }

  lemma {:induction false} Divided(n: nat, m: nat)
    requires m > 0
    ensures n == (n / m) * m + n % m
  {
  }

  lemma {:induction false} NextPosition(n: nat, m: nat)
    requires m > 0
    ensures (n + 1) % m == (n % m + 1) % m
  {
    var q, r := n / m, n % m;
    Divided(n, m);
    if r + 1 < m {
      Remainder(q, m, r + 1);
      Remainder(0, m, r + 1);
    } else {
      assert n + 1 == (q + 1) * m + 0;
      Remainder(q + 1, m, 0);
      Remainder(1, m, 0);
    }
  }

  lemma {:induction false} PreviousPosition(n: nat, m: nat)
    requires m > 0 && n % m != 0
    ensures n > 0 && (n - 1) % m == n % m - 1 == Before(n % m, m)
  {
    Divided(n, m);
    Remainder(n / m, m, n % m - 1);
    Remainder(0, m, n % m - 1);
  }

  /** At a full turn, place `k` of the buffer has been there for less than a turn. */
  lemma {:induction false} TurnedPosition(n: nat, m: nat, k: nat)
    requires n > 0 && k < m && n % m == 0
    ensures n >= m && (n - m + k) % m == k
  {
    FullTurn(n, m);
    Divided(n, m);
    assert n - m + k == (n / m - 1) * m + k;
    Remainder(n / m - 1, m, k);
  }

  /** Numbers less than the limit apart have different places. */
  lemma {:induction false} DifferentPlaces(i: nat, n: nat, m: nat)
    requires i < n < i + m
    ensures i % m != n % m
  {
    assert i == (i / m) * m + i % m && n == (n / m) * m + n % m;
    var d := n / m - i / m;
    assert d * m == (n / m) * m - (i / m) * m;
    Multiple(d, m);
  }

  lemma {:induction false} StoreKeeps(hist: seq<Request>, log: seq<Request>, e: Request)
    requires |hist| > 0 && Holds(hist, log)
    ensures Holds(hist[|log| % |hist| := e], log + [e])
  {
    var hist', log' := hist[|log| % |hist| := e], log + [e];
    forall i | |log'| - Min(|hist'|, |log'|) <= i < |log'|
      ensures hist'[i % |hist'|] == log'[i]
    {
      if i < |log| {
        DifferentPlaces(i, |log|, |hist|);
      }
    }
  }

  lemma {:induction false} PreviousSlot(hist: seq<Request>, log: seq<Request>)
    requires 0 < |hist| <= WORD && log != [] && Holds(hist, log)
    ensures hist[Before(|log| % |hist|, |hist|)] == ComparedWith(log, |hist|)
  {
    var n, m := |log|, |hist|;
    if n % m != 0 {
      PreviousPosition(n, m);
      assert hist[(n - 1) % m] == log[n - 1];
    } else {
      var k := Before(0, m);
      TurnedPosition(n, m, k);
      assert hist[(n - m + k) % m] == log[n - m + k];
    }
  }

  lemma {:induction false} Unturned(hist: seq<Request>, log: seq<Request>)
    requires |log| < |hist| && Holds(hist, log)
    ensures hist[..|log|] == log
  {
    forall i | 0 <= i < |log|
      ensures hist[i] == log[i]
    {
      Remainder(0, |hist|, i);
      assert hist[i % |hist|] == log[i];
    }
  }

  lemma {:induction false} Turned(hist: seq<Request>, log: seq<Request>)
    requires |log| >= |hist| && Holds(hist, log)
    ensures var pos := if |hist| == 0 then 0 else |log| % |hist|;
            hist[pos..] + hist[..pos] == log[|log| - |hist|..]
  {
    var n, m := |log|, |hist|;
    if m > 0 {
      var pos := n % m;
      forall k | 0 <= k < m
        ensures (hist[pos..] + hist[..pos])[k] == log[n - m + k]
      {
        var q := n / m;
        assert n == q * m + pos;
        if k < m - pos {
          assert n - m + k == (q - 1) * m + (pos + k);
          Remainder(q - 1, m, pos + k);
        } else {
          assert n - m + k == q * m + (pos + k - m);
          Remainder(q, m, pos + k - m);
        }
        assert hist[(n - m + k) % m] == log[n - m + k];
      }
    }
  }

  // ---------- No request twice in a row ----------

  ghost function LogOf(limit: nat, adds: seq<Request>): seq<Request>
    requires limit <= WORD
  {
    if adds == [] then [] else Logged(LogOf(limit, adds[..|adds| - 1]), limit, adds[|adds| - 1])
  }

  ghost predicate NoRepeats(log: seq<Request>) {
    forall i | 0 < i < |log| :: log[i].addr != log[i - 1].addr || log[i].stats != log[i - 1].stats
  }

  lemma {:induction false} LastSlot(limit: nat)
    requires 0 < limit <= WORD
    ensures Before(0, limit) == limit - 1 <==> WORD % limit == 0
  {
    var q, r := WORD / limit, WORD % limit;
    assert WORD == q * limit + r;
    if r == 0 {
      assert WORD - 1 == (q - 1) * limit + (limit - 1);
      Remainder(q - 1, limit, limit - 1);
    } else {
      assert WORD - 1 == q * limit + (r - 1);
      Remainder(q, limit, r - 1);
    }
  }

  /** Adding an entry whose statistics are known drops it iff it repeats the last one. */
  lemma {:induction false} DropsIffRepeated(limit: nat, log: seq<Request>, e: Request)
    requires 0 < limit <= WORD && WORD % limit == 0 && log != []
    requires forall i | 0 <= i < |log| :: log[i].stats.date.Some? && log[i].stats.cdn.Some?
    requires e.stats.date.Some? && e.stats.cdn.Some?
    ensures var last := log[|log| - 1];
      Logged(log, limit, e) == if e.addr == last.addr && e.stats == last.stats then log else log + [e]
  {
    LastSlot(limit);
    CompareIff(e, ComparedWith(log, limit));
  }

  lemma {:induction false} NoneRepeats(limit: nat, adds: seq<Request>)
    requires 0 < limit <= WORD && WORD % limit == 0
    ensures NoRepeats(LogOf(limit, adds))
  {
    if adds != [] {
      var before := LogOf(limit, adds[..|adds| - 1]);
      NoneRepeats(limit, adds[..|adds| - 1]);
      LastSlot(limit);
    }
  }

  /** Requests of the same address and CDN, a second apart. */
  ghost function Dated(n: nat): seq<Request> {
    seq(n, i => Request(0, "", Stats(Some(i), Some("")), false))
  }

  lemma {:induction false} DatedAreStored(limit: nat, n: nat)
    requires n <= limit <= WORD
    ensures LogOf(limit, Dated(n)) == Dated(n)
  {
    if n > 0 {
      var adds := Dated(n);
      assert adds[..n - 1] == Dated(n - 1);
      DatedAreStored(limit, n - 1);
      var log, e := Dated(n - 1), adds[n - 1];
      if n > 1 {
        NewIsStored(log, limit, e);
      }
      assert LogOf(limit, adds) == log + [e] == adds;
    }
  }

  lemma {:induction false} NewIsStored(log: seq<Request>, limit: nat, e: Request)
    requires 0 < |log| < limit <= WORD && Compare(e, log[|log| - 1]) == Different
    ensures AddOutcome(log, limit, e) == Stored
  {
    Remainder(0, limit, |log|);
  }

  /** When the limit does not divide 2^64, a request repeated after the buffer has filled up is stored
      twice in a row. */
  lemma {:induction false} SomeRepeats(limit: nat) returns (adds: seq<Request>)
    requires 0 < limit <= WORD && WORD % limit != 0
    ensures !NoRepeats(LogOf(limit, adds))
  {
    var dated := Dated(limit);
    var e := dated[limit - 1];
    adds := dated + [e];
    assert adds[..|adds| - 1] == dated;
    DatedAreStored(limit, limit);
    LastSlot(limit);
    assert limit % limit == 0;
    assert ComparedWith(dated, limit) == dated[Before(0, limit)];
    assert LogOf(limit, adds) == dated + [e];
    assert Compare((dated + [e])[limit], (dated + [e])[limit - 1]) == Same;
  }

  /** The log of every run is free of consecutive duplicates iff the limit divides 2^64. */
  lemma {:induction false} RepeatsIff(limit: nat)
    requires 0 < limit <= WORD
    ensures (forall adds :: NoRepeats(LogOf(limit, adds))) <==> 18_446_744_073_709_551_616 % limit == 0
  {
    if WORD % limit == 0 {
      forall adds
        ensures NoRepeats(LogOf(limit, adds))
      {
        NoneRepeats(limit, adds);
      }
    } else {
      var adds := SomeRepeats(limit);
    }
  }

  ghost predicate RunPanics(limit: nat, adds: seq<Request>)
    requires limit <= WORD
  {
    exists k :: 0 <= k < |adds| && AddOutcome(LogOf(limit, adds[..k]), limit, adds[k]) == Panic
  }

  ghost predicate Over(adds: seq<Request>, entries: iset<Request>) {
    forall i | 0 <= i < |adds| :: adds[i] in entries
  }

  ghost predicate Comparable(entries: iset<Request>) {
    forall a, b | a in entries && b in entries :: CanCompare(b, a)
  }

  /** No run over some entries panics iff no two of them, nor any with itself, dereference a nil pointer when they are
      compared: entries of the same address need a date, and those of the same date a CDN. */
  lemma {:induction false} PanicsIff(limit: nat, entries: iset<Request>)
    requires 0 < limit <= WORD
    ensures (forall adds | Over(adds, entries) :: !RunPanics(limit, adds)) <==> Comparable(entries)
  {
    if Comparable(entries) {
      forall adds | Over(adds, entries)
        ensures !RunPanics(limit, adds)
      {
        ComparableNeverPanics(limit, adds, entries);
      }
    } else {
      var a, b :| a in entries && b in entries && !CanCompare(b, a);
      PairPanics(limit, a, b);
      assert Over([a, b], entries);
    }
  }

  lemma {:induction false} ComparableNeverPanics(limit: nat, adds: seq<Request>, entries: iset<Request>)
    requires 0 < limit <= WORD && Comparable(entries) && Over(adds, entries)
    ensures !RunPanics(limit, adds)
  {
    forall k | 0 <= k < |adds|
      ensures AddOutcome(LogOf(limit, adds[..k]), limit, adds[k]) != Panic
    {
      var log := LogOf(limit, adds[..k]);
      if log != [] {
        LogHasOnly(limit, adds[..k]);
        var last := ComparedWith(log, limit);
        ComparedIsLogged(log, limit);
        assert last in adds[..k];
        CompareIff(adds[k], last);
        assert Compare(adds[k], last) != NilPointer;
      }
    }
  }

  /** The second of two entries is compared with the first, also at a limit of 1, when the buffer is full. */
  lemma {:induction false} PairPanics(limit: nat, a: Request, b: Request)
    requires 0 < limit <= WORD && Compare(b, a) == NilPointer
    ensures RunPanics(limit, [a, b])
  {
    var adds := [a, b];
    assert adds[..1] == [a] && [a][..0] == [];
    assert LogOf(limit, []) == [] && LogOf(limit, [a]) == [a];
    assert ComparedWith([a], limit) == a;
    assert AddOutcome(LogOf(limit, adds[..1]), limit, adds[1]) == Panic;
  }

  /** Entries whose statistics are known never make it panic. */
  lemma {:induction false} NeverPanics(limit: nat, adds: seq<Request>)
    requires 0 < limit <= WORD
    requires forall i | 0 <= i < |adds| :: adds[i].stats.date.Some? && adds[i].stats.cdn.Some?
    ensures !RunPanics(limit, adds)
  {
    var entries := iset i | 0 <= i < |adds| :: adds[i];
    ComparableNeverPanics(limit, adds, entries);
  }

  lemma {:induction false} ComparedIsLogged(log: seq<Request>, limit: nat)
    requires log != [] && 0 < limit <= WORD
    ensures ComparedWith(log, limit) in log
  {
    if |log| % limit == 0 {
      FullTurn(|log|, limit);
    }
  }

  lemma {:induction false} LogHasOnly(limit: nat, adds: seq<Request>)
    requires limit <= WORD
    ensures forall x | x in LogOf(limit, adds) :: x in adds
  {
    if adds != [] {
      LogHasOnly(limit, adds[..|adds| - 1]);
    }
  }

  /** But a request that fails panics in the end: its entry has no statistics, so the next one of its address panics
      wherever the entry before is looked at, which is everywhere but at the full turns of a limit that does not
      divide 2^64. */
  lemma {:induction false} FailingTwicePanics(log: seq<Request>, limit: nat, a: Request, b: Request)
    requires 0 < limit <= WORD && ((|log| + 1) % limit != 0 || WORD % limit == 0)
    requires a.addr == b.addr && a.stats.date.None?
    requires AddOutcome(log, limit, a) == Stored
    ensures AddOutcome(Logged(log, limit, a), limit, b) == Panic
  {
    LastSlot(limit);
    assert ComparedWith(log + [a], limit) == a;
  }
}
