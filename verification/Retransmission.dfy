/** The retransmission table of one connection: what a tick of the one-second timer does to an
    unacknowledged message, when a message is sent again, and when it is given up. */
module Retransmission {
  import opened Codec

  /** The two countdowns read from the configuration file; both are fixed after start-up. */
  datatype Config = Config(maxWait: int, maxRetry: int) {
    predicate Valid() {
      1 <= maxWait && 1 <= maxRetry
    }

    /** s is the whole number of ticks that fits `maxRetry` times into `maxWait`, and no more often. */
    predicate IsStride(s: int) {
      maxRetry * s <= maxWait < maxRetry * (s + 1)
    }

    /** Ticks between two transmissions of the same message. */
    function Stride(): int
      requires Valid()
    {
      maxWait / maxRetry
    }
  }

  /** One unacknowledged message. */
  datatype Entry = Entry(body: Bytes, retry: int, wait: int)

  type Table = map<nat, Entry>

  function Fresh(cfg: Config, body: Bytes): Entry {
    Entry(body, cfg.maxRetry, cfg.maxWait)
  }

  predicate Drops(e: Entry) {
    e.wait - 1 <= 0
  }

  predicate Resends(cfg: Config, e: Entry)
    requires cfg.Valid()
  {
    e.wait - 1 < (e.retry - 1) * cfg.Stride()
  }

  /** The entry as a tick leaves it, whether or not it stays in the table. */
  function Aged(cfg: Config, e: Entry): Entry
    requires cfg.Valid()
  {
    e.(wait := e.wait - 1, retry := if Resends(cfg, e) then e.retry - 1 else e.retry)
  }

  /** What holds of every entry that a writer keeps in its table. */
  predicate Sound(cfg: Config, e: Entry)
    requires cfg.Valid()
  {
    && 1 <= e.retry <= cfg.maxRetry
    && 1 <= e.wait <= cfg.maxWait
    && (e.retry - 1) * cfg.Stride() <= e.wait
  }

  lemma StrideBound(cfg: Config)
    requires cfg.Valid()
    ensures 0 <= cfg.Stride()
    ensures cfg.maxRetry * cfg.Stride() <= cfg.maxWait
    ensures (cfg.maxRetry - 1) * cfg.Stride() <= cfg.maxWait - cfg.Stride()
  {
    var w, r := cfg.maxWait, cfg.maxRetry;
    assert w == (w / r) * r + w % r;
    assert (r - 1) * cfg.Stride() == r * cfg.Stride() - cfg.Stride();
  }

  /** The stride is the one whole number of ticks that fits `maxRetry` times into `maxWait`, and no more often. */
  lemma StrideExactly(cfg: Config, s: int)
    requires cfg.Valid()
    ensures cfg.IsStride(s) <==> s == cfg.Stride()
    ensures cfg.maxRetry * s <= cfg.maxWait < cfg.maxRetry * (s + 1) <==> s == cfg.Stride()
    ensures cfg.Stride() == 0 <==> cfg.maxWait < cfg.maxRetry
    ensures cfg.Stride() == 1 <==> cfg.maxRetry <= cfg.maxWait < 2 * cfg.maxRetry
  {
    var w, r, q := cfg.maxWait, cfg.maxRetry, cfg.Stride();
    DivisionExact(w, r);
    OnlyQuotient(w, r, q, s);
    OnlyQuotient(w, r, q, 0);
    OnlyQuotient(w, r, q, 1);
  }

  lemma DivisionExact(w: int, r: int)
    requires 1 <= r
    ensures r * (w / r) <= w < r * (w / r) + r
  {
  }

  lemma OnlyQuotient(w: int, r: int, q: int, s: int)
    requires 1 <= r && r * q <= w < r * q + r
    ensures r * s <= w < r * (s + 1) <==> s == q
  {
    assert r * (s + 1) == r * s + r && r * (q + 1) == r * q + r;
    MulCancel(s, q, r);
    MulCancel(s + 1, q, r);
    MulCancel(q + 1, s, r);
  }

  lemma FreshIsSound(cfg: Config, body: Bytes)
    requires cfg.Valid()
    ensures Sound(cfg, Fresh(cfg, body))
  {
    StrideBound(cfg);
  }

  /** A tick keeps every surviving entry sound; a dropped one still has a transmission to its name. */
  lemma AgedIsSound(cfg: Config, e: Entry)
    requires cfg.Valid() && Sound(cfg, e)
    ensures 1 <= Aged(cfg, e).retry <= cfg.maxRetry
    ensures !Drops(e) ==> Sound(cfg, Aged(cfg, e))
    ensures Resends(cfg, e) ==> 1 <= cfg.Stride() && 2 <= e.retry && e.wait == (e.retry - 1) * cfg.Stride()
  {
    StrideBound(cfg);
    var s := cfg.Stride();
    if Resends(cfg, e) {
      assert e.wait == (e.retry - 1) * s;
      if s == 0 || e.retry == 1 {
        assert false;
      }
      assert (e.retry - 2) * s == (e.retry - 1) * s - s;
    }
  }

  // ---------------------------------------------------------------- the schedule of one message

  /** The entry after n ticks without an acknowledgement, or None once it has been dropped. */
  datatype Slot = Gone | Kept(entry: Entry)

  function After(cfg: Config, e: Entry, n: nat): Slot
    requires cfg.Valid()
  {
    if n == 0 then Kept(e)
    else
      match After(cfg, e, n - 1)
      case Gone => Gone
      case Kept(p) => if Drops(p) then Gone else Kept(Aged(cfg, p))
  }

  predicate ResentAt(cfg: Config, e: Entry, tick: nat)
    requires cfg.Valid() && 1 <= tick
  {
    var p := After(cfg, e, tick - 1);
    p.Kept? && Resends(cfg, p.entry)
  }

  predicate DroppedAt(cfg: Config, e: Entry, tick: nat)
    requires cfg.Valid() && 1 <= tick
  {
    var p := After(cfg, e, tick - 1);
    p.Kept? && Drops(p.entry)
  }

  /** How often the message is sent again during the first n ticks. */
  function ResendCount(cfg: Config, e: Entry, n: nat): nat
    requires cfg.Valid()
  {
    if n == 0 then 0
    else ResendCount(cfg, e, n - 1) + if ResentAt(cfg, e, n) then 1 else 0
  }

  /** The state of a pending message after n ticks: the two countdowns stay within one stride of
      each other, and every step of the retry countdown was one transmission. */
  lemma {:induction false} PendingState(cfg: Config, body: Bytes, n: nat)
    requires cfg.Valid()
    ensures var a := After(cfg, Fresh(cfg, body), n);
      if n < cfg.maxWait then
        && a.Kept? && Sound(cfg, a.entry) && a.entry.body == body
        && a.entry.wait == cfg.maxWait - n
        && (a.entry.retry == cfg.maxRetry || a.entry.wait < a.entry.retry * cfg.Stride())
        && a.entry.retry == cfg.maxRetry - ResendCount(cfg, Fresh(cfg, body), n)
      else a.Gone?
  {
    if n == 0 {
      FreshIsSound(cfg, body);
    } else {
      PendingState(cfg, body, n - 1);
      if n <= cfg.maxWait {
        var p := After(cfg, Fresh(cfg, body), n - 1).entry;
        AgedIsSound(cfg, p);
        if Resends(cfg, p) {
          assert p.wait - 1 < (p.retry - 1) * cfg.Stride();
        }
      }
    }
  }

  /** The tick of the k-th retransmission. */
  function ResendTick(cfg: Config, k: nat): int
    requires cfg.Valid()
  {
    cfg.maxWait - (cfg.maxRetry - k) * cfg.Stride() + 1
  }

  lemma ResendTickRange(cfg: Config, k: nat)
    requires cfg.Valid() && 1 <= cfg.Stride() && 1 <= k < cfg.maxRetry
    ensures cfg.Stride() < ResendTick(cfg, k) <= cfg.maxWait
    ensures ResendTick(cfg, k) == cfg.maxWait <==> cfg.Stride() == 1 && k == cfg.maxRetry - 1
  {
    StrideBound(cfg);
    var s, j := cfg.Stride(), cfg.maxRetry - k;
    assert 1 * s <= j * s <= (cfg.maxRetry - 1) * s by {
      MulOrder(1, j, s);
      MulOrder(j, cfg.maxRetry - 1, s);
    }
    if j * s == 1 {
      MulOrder(1, j, s);
      MulOrder(1, s, j);
    }
  }

  lemma MulOrder(a: int, b: int, s: int)
    requires a <= b && 0 <= s
    ensures a * s <= b * s
  {
    assert 0 <= (b - a) * s;
  }

  lemma MulCancel(a: int, b: int, s: int)
    requires 1 <= s
    ensures a * s <= b * s <==> a <= b
    ensures a * s < b * s <==> a < b
  {
    if a <= b {
      MulOrder(a, b, s);
    }
    if a + 1 <= b {
      MulOrder(a + 1, b, s);
      assert (a + 1) * s == a * s + s;
    }
    if b + 1 <= a {
      MulOrder(b + 1, a, s);
      assert (b + 1) * s == b * s + s;
    }
  }

  /** An unacknowledged message is given up at tick `maxWait` and at no other, and sent again exactly at the ticks
      of `ResendTick`. */
  lemma ScheduleByStride(cfg: Config, body: Bytes, tick: nat)
    requires cfg.Valid() && 1 <= tick
    ensures DroppedAt(cfg, Fresh(cfg, body), tick) <==> tick == cfg.maxWait
    ensures ResentAt(cfg, Fresh(cfg, body), tick) <==>
            1 <= cfg.Stride() && exists k :: 1 <= k < cfg.maxRetry && tick == ResendTick(cfg, k)
  {
    PendingState(cfg, body, tick - 1);
    var s := cfg.Stride();
    var a := After(cfg, Fresh(cfg, body), tick - 1);
    if tick <= cfg.maxWait {
      var p := a.entry;
      AgedIsSound(cfg, p);
      if Resends(cfg, p) {
        var k := cfg.maxRetry - (p.retry - 1);
        assert tick == ResendTick(cfg, k);
      }
      if 1 <= s && exists k :: 1 <= k < cfg.maxRetry && tick == ResendTick(cfg, k) {
        var k :| 1 <= k < cfg.maxRetry && tick == ResendTick(cfg, k);
        assert p.wait == (cfg.maxRetry - k) * s;
        MulCancel(p.retry - 1, cfg.maxRetry - k, s);
        MulCancel(cfg.maxRetry - k, p.retry, s);
        assert p.retry - 1 == cfg.maxRetry - k;
      }
    } else if 1 <= s {
      forall k | 1 <= k < cfg.maxRetry
        ensures tick != ResendTick(cfg, k)
      {
        ResendTickRange(cfg, k);
      }
    }
  }

  /** The exact schedule of an unacknowledged message, in terms of the two configured countdowns W and R and of the
      whole number s of ticks with R * s <= W < R * (s + 1): given up at tick W and at no other; never sent again if
      s = 0; else sent again first at tick W - (R - 1) * s + 1, which is between s + 1 and s + R, and then every s
      ticks, R - 1 times in all. */
  lemma ExactSchedule(cfg: Config, body: Bytes, s: int, tick: nat)
    requires 1 <= cfg.maxWait && 1 <= cfg.maxRetry && 1 <= tick
    requires cfg.maxRetry * s <= cfg.maxWait < cfg.maxRetry * (s + 1)
    ensures DroppedAt(cfg, Fresh(cfg, body), tick) <==> tick == cfg.maxWait
    ensures var first := cfg.maxWait - (cfg.maxRetry - 1) * s + 1;
      && s + 1 <= first <= s + cfg.maxRetry
      && (ResentAt(cfg, Fresh(cfg, body), tick) <==>
            1 <= s && first <= tick <= first + (cfg.maxRetry - 2) * s && (tick - first) % s == 0)
  {
    StrideExactly(cfg, s);
    ScheduleByStride(cfg, body, tick);
    FirstTick(cfg.maxWait, cfg.maxRetry, s);
    hide *;
    if 1 <= s {
      EveryStrideATick(cfg, s, tick);
    }
  }

  lemma FirstTick(w: int, r: int, s: int)
    requires r * s <= w < r * (s + 1)
    ensures s + 1 <= w - (r - 1) * s + 1 <= s + r
  {
    assert (r - 1) * s == r * s - s && r * (s + 1) == r * s + r;
  }

  lemma EveryStrideATick(cfg: Config, s: int, tick: nat)
    requires cfg.Valid() && s == cfg.Stride() && 1 <= s
    ensures var first := cfg.maxWait - (cfg.maxRetry - 1) * s + 1;
      (exists k :: 1 <= k < cfg.maxRetry && tick == ResendTick(cfg, k))
      <==> first <= tick <= first + (cfg.maxRetry - 2) * s && (tick - first) % s == 0
  {
    var r, first := cfg.maxRetry, cfg.maxWait - (cfg.maxRetry - 1) * s + 1;
    if k :| 1 <= k < r && tick == ResendTick(cfg, k) {
      TickFromFirst(cfg, k, s);
      hide ResendTick;
      MulOrder(0, k - 1, s);
      MulOrder(k - 1, r - 2, s);
      MulMod(k - 1, s);
    }
    if first <= tick <= first + (r - 2) * s && (tick - first) % s == 0 {
      var k := (tick - first) / s + 1;
      EveryStride(tick - first, r - 2, s);
      TickFromFirst(cfg, k, s);
      hide ResendTick;
      assert 1 <= k < r && tick == ResendTick(cfg, k);
    }
  }

  lemma TickFromFirst(cfg: Config, k: nat, s: int)
    requires cfg.Valid() && s == cfg.Stride()
    ensures ResendTick(cfg, k) == cfg.maxWait - (cfg.maxRetry - 1) * s + 1 + (k - 1) * s
  {
    assert (cfg.maxRetry - k) * s == (cfg.maxRetry - 1) * s - (k - 1) * s;
  }

  lemma MulMod(k: int, s: int)
    requires 1 <= s
    ensures k * s % s == 0
  {
    var q, m := k * s / s, k * s % s;
    assert k * s == q * s + m && 0 <= m < s;
    MulCancel(k, q, s);
    MulCancel(q + 1, k, s);
    assert (q + 1) * s == q * s + s;
  }

  /** A multiple of s that is not above n * s is one of the first. */
  lemma EveryStride(d: int, n: int, s: int)
    requires 1 <= s
    ensures 0 <= d <= n * s && d % s == 0 ==> 0 <= d / s <= n && d / s * s == d
  {
    if 0 <= d <= n * s && d % s == 0 {
      MulCancel(d / s, n, s);
    }
  }

  /** A message is sent again in the very tick that gives it up exactly when 2 <= R <= W < 2 * R. */
  lemma ResendMeetsDrop(cfg: Config, body: Bytes)
    requires cfg.Valid()
    ensures (exists tick: nat :: 1 <= tick && ResentAt(cfg, Fresh(cfg, body), tick) && DroppedAt(cfg, Fresh(cfg, body), tick))
            <==> 2 <= cfg.maxRetry <= cfg.maxWait < 2 * cfg.maxRetry
  {
    StrideExactly(cfg, cfg.Stride());
    var e := Fresh(cfg, body);
    var s, w := cfg.Stride(), cfg.maxWait;
    forall tick: nat | 1 <= tick && ResentAt(cfg, e, tick) && DroppedAt(cfg, e, tick)
      ensures s == 1 && 2 <= cfg.maxRetry
    {
      ScheduleByStride(cfg, body, tick);
      var k :| 1 <= k < cfg.maxRetry && tick == ResendTick(cfg, k);
      ResendTickRange(cfg, k);
    }
    if s == 1 && 2 <= cfg.maxRetry {
      ScheduleByStride(cfg, body, w);
      ResendTickRange(cfg, cfg.maxRetry - 1);
      assert ResentAt(cfg, e, w) && DroppedAt(cfg, e, w);
    }
  }

  /** Over its whole life an unacknowledged message is sent again exactly R - 1 times, or never if W < R. */
  lemma {:induction false} ResendTotal(cfg: Config, body: Bytes, n: nat)
    requires cfg.Valid() && cfg.maxWait <= n
    ensures ResendCount(cfg, Fresh(cfg, body), n) == if cfg.maxWait < cfg.maxRetry then 0 else cfg.maxRetry - 1
  {
    StrideExactly(cfg, 0);
    var w, s, e := cfg.maxWait, cfg.Stride(), Fresh(cfg, body);
    StrideBound(cfg);
    if n == w {
      PendingState(cfg, body, w - 1);
      var p := After(cfg, e, w - 1).entry;
      AgedIsSound(cfg, p);
      assert p.wait == 1;
      if s == 0 {
        assert p.retry * s == 0;
      } else if p.retry != cfg.maxRetry {
        MulCancel(p.retry - 1, 1, s);
      } else {
        MulCancel(p.retry - 1, 1, s);
      }
      assert s >= 1 ==> p.retry == 1 || (p.retry == 2 && s == 1) by {
        if s >= 1 && p.retry >= 2 {
          MulOrder(1, p.retry - 1, s);
          MulOrder(1, s, p.retry - 1);
        }
      }
    } else {
      ResendTotal(cfg, body, n - 1);
      ScheduleByStride(cfg, body, n);
      if ResentAt(cfg, e, n) {
        var k :| 1 <= k < cfg.maxRetry && n == ResendTick(cfg, k);
        ResendTickRange(cfg, k);
      }
    }
  }

  // ---------------------------------------------------------------- a tick over the whole table

  /** The table after one tick, written without any order of visits. */
  function TickTable(cfg: Config, t: Table): Table
    requires cfg.Valid()
  {
    map k | k in t && !Drops(t[k]) :: Aged(cfg, t[k])
  }

  /** The messages that one tick sends again. */
  function Resent(cfg: Config, t: Table): set<nat>
    requires cfg.Valid()
  {
    set k | k in t && Resends(cfg, t[k])
  }

  /** One iteration of the loop over the map: the table and the ids sent so far in this tick. */
  datatype Sweep = Sweep(table: Table, sent: seq<nat>)

  function Visit(cfg: Config, s: Sweep, k: nat): Sweep
    requires cfg.Valid() && k in s.table
  {
    var e := s.table[k];
    Sweep(if Drops(e) then s.table - {k} else s.table[k := Aged(cfg, e)],
          if Resends(cfg, e) then s.sent + [k] else s.sent)
  }

  /** The keys still to come, in the order in which the loop will meet them. */
  ghost predicate IsOrder(order: seq<nat>, keys: set<nat>) {
    && (forall i :: 0 <= i < |order| ==> order[i] in keys)
    && (forall k :: k in keys ==> k in order)
    && (forall i, j :: 0 <= i < j < |order| ==> order[i] != order[j])
  }

  /** The whole loop, the keys taken in the given order. */
  function VisitAll(cfg: Config, s: Sweep, order: seq<nat>): Sweep
    requires cfg.Valid()
    requires forall i :: 0 <= i < |order| ==> order[i] in s.table
    requires forall i, j :: 0 <= i < j < |order| ==> order[i] != order[j]
    decreases |order|
  {
    if order == [] then s else VisitAll(cfg, Visit(cfg, s, order[0]), order[1..])
  }

  /** What the rest of the loop does to the entry of key k. */
  ghost predicate SweptEntry(cfg: Config, before: Table, after: Table, order: seq<nat>, k: nat)
    requires cfg.Valid()
  {
    if k !in before then k !in after
    else if k !in order then k in after && after[k] == before[k]
    else if Drops(before[k]) then k !in after
    else k in after && after[k] == Aged(cfg, before[k])
  }

  /** Half way through the loop: the keys of `order` are still as the tick found them. */
  lemma {:induction false} SweepTable(cfg: Config, s: Sweep, order: seq<nat>, k: nat)
    requires cfg.Valid()
    requires forall i :: 0 <= i < |order| ==> order[i] in s.table
    requires forall i, j :: 0 <= i < j < |order| ==> order[i] != order[j]
    ensures SweptEntry(cfg, s.table, VisitAll(cfg, s, order).table, order, k)
    decreases |order|
  {
    if order != [] {
      var k0, rest := order[0], order[1..];
      assert order == [k0] + rest;
      assert k0 !in rest;
      SweepTable(cfg, Visit(cfg, s, k0), rest, k);
    }
  }

  /** Of the keys of `order`, those that the rest of the loop sends again. */
  function DueSet(cfg: Config, t: Table, order: seq<nat>): set<nat>
    requires cfg.Valid()
  {
    set k | k in order && k in t && Resends(cfg, t[k])
  }

  lemma DueSetStep(cfg: Config, s: Sweep, order: seq<nat>)
    requires cfg.Valid() && order != [] && order[0] in s.table && order[0] !in order[1..]
    ensures var later := DueSet(cfg, Visit(cfg, s, order[0]).table, order[1..]);
      && order[0] !in later
      && DueSet(cfg, s.table, order) == if Resends(cfg, s.table[order[0]]) then {order[0]} + later else later
  {
    assert order == [order[0]] + order[1..];
  }

  lemma {:induction false} SweepSends(cfg: Config, s: Sweep, order: seq<nat>)
    requires cfg.Valid()
    requires forall i :: 0 <= i < |order| ==> order[i] in s.table
    requires forall i, j :: 0 <= i < j < |order| ==> order[i] != order[j]
    ensures multiset(VisitAll(cfg, s, order).sent) == multiset(s.sent) + multiset(DueSet(cfg, s.table, order))
    decreases |order|
  {
    if order != [] {
      var k0, rest := order[0], order[1..];
      var s1 := Visit(cfg, s, k0);
      DueSetStep(cfg, s, order);
      SweepSends(cfg, s1, rest);
      assert multiset(s.sent + [k0]) == multiset(s.sent) + multiset{k0};
      var later := DueSet(cfg, s1.table, rest);
      assert multiset({k0} + later) == multiset{k0} + multiset(later);
    } else {
      assert DueSet(cfg, s.table, order) == {};
    }
  }

  /** One more iteration, seen from the start of the tick. */
  lemma SweepNext(cfg: Config, t0: Table, t1: Table, order: seq<nat>, k: nat)
    requires cfg.Valid() && k in t0 && k !in order
    requires forall j: nat :: SweptEntry(cfg, t0, t1, order, j)
    ensures k in t1 && t1[k] == t0[k]
    ensures forall j: nat :: SweptEntry(cfg, t0, Visit(cfg, Sweep(t1, []), k).table, order + [k], j)
    ensures DueSet(cfg, t0, order + [k]) == DueSet(cfg, t0, order) + if Resends(cfg, t0[k]) then {k} else {}
    ensures k !in DueSet(cfg, t0, order)
  {
    assert SweptEntry(cfg, t0, t1, order, k);
    forall j: nat
      ensures SweptEntry(cfg, t0, Visit(cfg, Sweep(t1, []), k).table, order + [k], j)
    {
      assert SweptEntry(cfg, t0, t1, order, j);
    }
  }

  /** A loop that has visited every key has done the tick. */
  lemma SweepDone(cfg: Config, t0: Table, t1: Table, order: seq<nat>)
    requires cfg.Valid() && forall j: nat :: SweptEntry(cfg, t0, t1, order, j)
    requires forall k :: k in t0 ==> k in order
    ensures t1 == TickTable(cfg, t0)
    ensures DueSet(cfg, t0, order) == Resent(cfg, t0)
  {
    forall j: nat
      ensures j in t1 <==> j in t0 && !Drops(t0[j])
      ensures j in t1 ==> t1[j] == Aged(cfg, t0[j])
    {
      assert SweptEntry(cfg, t0, t1, order, j);
      assert j in t0 ==> j in order;
    }
  }

  /** Whatever order the map is walked in, the loop leaves the pointwise table and sends each
      message of `Resent` exactly once. */
  lemma SweepIsOrderFree(cfg: Config, t: Table, order: seq<nat>)
    requires cfg.Valid() && IsOrder(order, t.Keys)
    ensures VisitAll(cfg, Sweep(t, []), order).table == TickTable(cfg, t)
    ensures multiset(VisitAll(cfg, Sweep(t, []), order).sent) == multiset(Resent(cfg, t))
  {
    var r := VisitAll(cfg, Sweep(t, []), order);
    forall k: nat
      ensures SweptEntry(cfg, t, r.table, order, k)
    {
      SweepTable(cfg, Sweep(t, []), order, k);
    }
    SweepSends(cfg, Sweep(t, []), order);
    SweepDone(cfg, t, r.table, order);
  }

  /** n ticks in a row with nothing acknowledged and nothing new. */
  function TickTimes(cfg: Config, t: Table, n: nat): Table
    requires cfg.Valid()
  {
    if n == 0 then t else TickTable(cfg, TickTimes(cfg, t, n - 1))
  }

  /** A table entry ages exactly like a message on its own. */
  lemma {:induction false} TableAgesPointwise(cfg: Config, t: Table, n: nat)
    requires cfg.Valid()
    ensures forall k :: k in TickTimes(cfg, t, n) <==> k in t && After(cfg, t[k], n).Kept?
    ensures forall k :: k in TickTimes(cfg, t, n) ==> TickTimes(cfg, t, n)[k] == After(cfg, t[k], n).entry
  {
    if n != 0 {
      TableAgesPointwise(cfg, t, n - 1);
    }
  }

  lemma {:induction false} WaitRunsOut(cfg: Config, e: Entry, n: nat)
    requires cfg.Valid()
    ensures After(cfg, e, n).Kept? ==> After(cfg, e, n).entry.wait == e.wait - n && (n == 0 || 0 < e.wait - n)
  {
    if n != 0 {
      WaitRunsOut(cfg, e, n - 1);
    }
  }

  /** Without new messages the table of a writer is empty after `maxWait` ticks. */
  lemma TableDrains(cfg: Config, t: Table, n: nat)
    requires cfg.Valid() && cfg.maxWait <= n
    requires forall k :: k in t ==> Sound(cfg, t[k])
    ensures TickTimes(cfg, t, n) == map[]
  {
    TableAgesPointwise(cfg, t, n);
    forall k | k in t
      ensures After(cfg, t[k], n).Gone?
    {
      WaitRunsOut(cfg, t[k], n);
    }
  }
}
