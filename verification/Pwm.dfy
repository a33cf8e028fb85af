/** The software PWM driver: pwm_start turns the duties into a sorted, merged table of delta times
    that the timer interrupt plays back. */
module Pwm {
  const PWM_CHANNEL: nat := 6
  const PWM_DEPTH: nat := 1023
  const PWM_1S: nat := 1000000
  const APB_CLK_FREQ: nat := 80000000

  type Pins = set<nat>

  /** At 'time' the pins 'up' go high and the pins 'down' go low. */
  datatype Event = Event(up: Pins, down: Pins, time: nat)

  /** Timer ticks of a time in microseconds. The longer form is for times whose product with the
      timer frequency does not fit in 32 bits. */
  function Ticks(us: nat): nat {
    if us == 0 then 0
    else if us > 0x35A then us / 4 * (APB_CLK_FREQ / 16 / 250000) + us % 4 * (APB_CLK_FREQ / 16 / 1000000)
    else us * (APB_CLK_FREQ / 16) / 1000000
  }

  /** Both forms are exact, and neither overflows for a period of at most one second. */
  lemma TicksExact(us: nat)
    ensures Ticks(us) == 5 * us
    ensures us <= 0x35A ==> us * (APB_CLK_FREQ / 16) < 0x1_0000_0000
    ensures us <= PWM_1S ==>
              us / 4 * (APB_CLK_FREQ / 16 / 250000) + us % 4 * (APB_CLK_FREQ / 16 / 1000000) < 0x1_0000_0000
  {
    assert APB_CLK_FREQ / 16 == 5000000 && APB_CLK_FREQ / 16 / 250000 == 20 && APB_CLK_FREQ / 16 / 1000000 == 5;
    var q, m := us / 4, us % 4;
    assert us == 4 * q + m;
    if us <= 0x35A { DivExact(5 * us, us * 5000000); }
  }

  lemma DivExact(x: nat, y: nat)
    requires y == x * 1000000
    ensures y / 1000000 == x
  {
  }

  /** The duties and pins of the channels in use. */
  datatype Setup = Setup(period: nat, duty: seq<nat>, pin: seq<nat>) {
    predicate Valid() {
      && 0 < period <= PWM_1S && |duty| == |pin| <= PWM_CHANNEL
      && (forall c :: 0 <= c < |duty| ==> duty[c] <= PWM_DEPTH)
      && (forall c, d :: 0 <= c < d < |pin| ==> pin[c] != pin[d])
    }

    /** How long a channel is high in a period. */
    function HighTicks(c: nat): nat
      requires c < |duty|
    {
      Ticks(period * duty[c] / PWM_DEPTH)
    }

    function Gpio(): Pins {
      set c | 0 <= c < |pin| :: pin[c]
    }
  }

  /** 'h' ticks are the channel's share of the period: five for each microsecond of period times duty,
      divided by 1023 and rounded down. */
  predicate Share(u: Setup, c: nat, h: nat)
    requires c < |u.duty|
  {
    h % 5 == 0 && 1023 * h <= 5 * u.period * u.duty[c] < 1023 * (h + 5)
  }

  lemma HighTicksShare(u: Setup, c: nat)
    requires u.Valid() && c < |u.duty|
    ensures Share(u, c, u.HighTicks(c))
  {
    hide Ticks;
    var x := u.period * u.duty[c];
    TicksExact(x / PWM_DEPTH);
    assert 5 * u.period * u.duty[c] == 5 * x;
  }

  lemma HighTicksInPeriod(u: Setup, c: nat)
    requires u.Valid() && c < |u.duty|
    ensures u.HighTicks(c) <= Ticks(u.period) && u.period * u.duty[c] < 0x1_0000_0000
    ensures u.duty[c] == 0 ==> u.HighTicks(c) == 0
    ensures u.duty[c] == PWM_DEPTH ==> u.HighTicks(c) == Ticks(u.period)
  {
    var d := u.duty[c];
    assert u.period * d <= u.period * PWM_DEPTH;
    assert u.period * PWM_DEPTH <= PWM_1S * PWM_DEPTH;
    assert u.period * PWM_DEPTH / PWM_DEPTH == u.period;
    DivMonotone(u.period * d, u.period * PWM_DEPTH, PWM_DEPTH);
    TicksExact(u.period * d / PWM_DEPTH);
    TicksExact(u.period);
  }

  lemma DivMonotone(a: nat, b: nat, d: nat)
    requires a <= b && d > 0
    ensures a / d <= b / d
  {
    if a / d > b / d { MulMonotone(b / d + 1, a / d, d); }
  }

  lemma MulMonotone(a: nat, b: nat, d: nat)
    requires a <= b
    ensures a * d <= b * d
  {
    assert b * d == a * d + (b - a) * d;
  }

  // ----- the table on sequences --------------------------------------------------------

  /** One event for each channel, at its absolute time, and one for the end of the period. */
  function Raw(u: Setup): (r: seq<Event>)
    requires u.Valid()
    ensures |r| == |u.pin| + 1
  {
    seq(|u.pin|, c requires 0 <= c < |u.pin| && u.Valid() => Event({}, {u.pin[c]}, u.HighTicks(c)))
    + [Event(u.Gpio(), {}, Ticks(u.period))]
  }

  function Insert(s: seq<Event>, x: Event): (r: seq<Event>)
    ensures |r| == |s| + 1
    decreases |s|
  {
    if s == [] || s[|s| - 1].time <= x.time then s + [x] else Insert(s[..|s| - 1], x) + [s[|s| - 1]]
  }

  function Sort(s: seq<Event>): (r: seq<Event>)
    ensures |r| == |s|
    decreases |s|
  {
    if s == [] then [] else Insert(Sort(s[..|s| - 1]), s[|s| - 1])
  }

  function Join(x: Event, y: Event): Event {
    Event(x.up + y.up, x.down + y.down, x.time)
  }

  /** Combine events of the same time, from place 'i' down. */
  function Merge(s: seq<Event>, i: nat): (r: seq<Event>)
    requires i < |s| || (i == 0 && s == [])
    ensures |r| <= |s| && (s != [] ==> r != [])
    decreases i
  {
    if i == 0 then s
    else if s[i].time == s[i - 1].time then Merge(s[..i - 1] + [Join(s[i - 1], s[i])] + s[i + 1..], i - 1)
    else Merge(s, i - 1)
  }

  /** The time since the event before. */
  function Deltas(s: seq<Event>): (r: seq<Event>)
    requires Increasing(s)
    ensures |r| == |s|
  {
    seq(|s|, i requires 0 <= i < |s| && Increasing(s) =>
               s[i].(time := if i == 0 then s[0].time else s[i].time - s[i - 1].time))
  }

  /** The last event starts the period, so it clears no channel of full duty; channels of duty 0
      are cleared then instead of at once after. */
  function Finish(s: seq<Event>): (r: seq<Event>)
    requires s != []
    ensures r != [] || |s| == 1
  {
    var n := |s| - 1;
    var t := s[n := s[n].(down := {})];
    if t[0].time == 0 then
      t[n := t[n].(up := t[n].up - t[0].down, down := t[n].down + t[0].down)][1..]
    else t
  }

  predicate Ordered(s: seq<Event>) {
    forall i, j :: 0 <= i < j < |s| ==> s[i].time <= s[j].time
  }

  predicate Increasing(s: seq<Event>) {
    forall i, j :: 0 <= i < j < |s| ==> s[i].time < s[j].time
  }

  // ----- what sorting and merging keep -------------------------------------------------

  /** Pin 'p' goes down (up) at time 't' of the table. */
  predicate DownAt(s: seq<Event>, t: nat, p: nat) {
    exists i :: 0 <= i < |s| && s[i].time == t && p in s[i].down
  }

  predicate UpAt(s: seq<Event>, t: nat, p: nat) {
    exists i :: 0 <= i < |s| && s[i].time == t && p in s[i].up
  }

  predicate HasTime(s: seq<Event>, t: nat) {
    exists i :: 0 <= i < |s| && s[i].time == t
  }

  /** The same pins change at the same times. */
  ghost predicate SameTimes(s: seq<Event>, r: seq<Event>) {
    && (forall t: nat, p: nat :: DownAt(s, t, p) <==> DownAt(r, t, p))
    && (forall t: nat, p: nat :: UpAt(s, t, p) <==> UpAt(r, t, p))
    && (forall t: nat :: HasTime(s, t) <==> HasTime(r, t))
  }

  lemma MembersSameTimes(s: seq<Event>, r: seq<Event>)
    requires forall e :: e in s <==> e in r
    ensures SameTimes(s, r)
  {
    forall t: nat, p: nat ensures (DownAt(s, t, p) <==> DownAt(r, t, p)) && (UpAt(s, t, p) <==> UpAt(r, t, p)) {
      DownMember(s, t, p); DownMember(r, t, p);
    }
    forall t: nat ensures HasTime(s, t) <==> HasTime(r, t) { TimeMember(s, t); TimeMember(r, t); }
  }

  lemma DownMember(s: seq<Event>, t: nat, p: nat)
    ensures DownAt(s, t, p) <==> exists e :: e in s && e.time == t && p in e.down
    ensures UpAt(s, t, p) <==> exists e :: e in s && e.time == t && p in e.up
  {
  }

  lemma TimeMember(s: seq<Event>, t: nat)
    ensures HasTime(s, t) <==> exists e :: e in s && e.time == t
  {
  }

  lemma {:induction false} InsertKeeps(s: seq<Event>, x: Event)
    ensures multiset(Insert(s, x)) == multiset(s) + multiset{x}
    decreases |s|
  {
    if s != [] && s[|s| - 1].time > x.time {
      var front, y := s[..|s| - 1], s[|s| - 1];
      InsertKeeps(front, x);
      assert s == front + [y];
      CatMultiset(s, front, [y]);
      CatMultiset(Insert(s, x), Insert(front, x), [y]);
    } else {
      CatMultiset(s + [x], s, [x]);
    }
  }

  lemma {:induction false} InsertSorts(s: seq<Event>, x: Event)
    requires Ordered(s)
    ensures Ordered(Insert(s, x))
    decreases |s|
  {
    if s != [] && s[|s| - 1].time > x.time {
      var front, y := s[..|s| - 1], s[|s| - 1];
      InsertSorts(front, x);
      var r := Insert(front, x);
      InsertKeeps(front, x);
      forall e | e in r ensures e.time <= y.time {
        assert e in multiset(r);
        if e != x { assert e in front; }
      }
      OrderedLast(r, y);
    }
  }

  lemma CatMultiset(s: seq<Event>, a: seq<Event>, b: seq<Event>)
    ensures s == a + b ==> multiset(s) == multiset(a) + multiset(b)
  {
  }

  lemma OrderedLast(r: seq<Event>, y: Event)
    requires Ordered(r) && forall e :: e in r ==> e.time <= y.time
    ensures Ordered(r + [y])
  {
  }

  /** Sorting keeps the events and orders them by time. */
  lemma {:induction false} SortSorts(s: seq<Event>)
    ensures Ordered(Sort(s)) && multiset(Sort(s)) == multiset(s)
    decreases |s|
  {
    if s != [] {
      var front := s[..|s| - 1];
      assert s == front + [s[|s| - 1]];
      SortSorts(front);
      InsertSorts(Sort(front), s[|s| - 1]);
      InsertKeeps(Sort(front), s[|s| - 1]);
    }
  }

  lemma SortKeeps(s: seq<Event>)
    ensures SameTimes(s, Sort(s))
  {
    SortSorts(s);
    forall e ensures e in s <==> e in Sort(s) { assert e in multiset(s) <==> e in multiset(Sort(s)); }
    MembersSameTimes(s, Sort(s));
  }

  /** Two neighbours of the same time become one event. */
  function JoinAt(s: seq<Event>, i: nat): seq<Event>
    requires 0 < i < |s|
  {
    s[..i - 1] + [Join(s[i - 1], s[i])] + s[i + 1..]
  }

  lemma JoinKeeps(s: seq<Event>, i: nat)
    requires 0 < i < |s| && s[i].time == s[i - 1].time
    ensures SameTimes(s, JoinAt(s, i))
  {
    var r := JoinAt(s, i);
    assert forall j :: 0 <= j < i - 1 ==> r[j] == s[j];
    assert r[i - 1] == Join(s[i - 1], s[i]);
    assert forall j :: i <= j < |r| ==> r[j] == s[j + 1];
    forall t: nat, p: nat ensures (DownAt(s, t, p) <==> DownAt(r, t, p)) && (UpAt(s, t, p) <==> UpAt(r, t, p)) {
      if DownAt(s, t, p) {
        var j :| 0 <= j < |s| && s[j].time == t && p in s[j].down;
        assert r[if j < i then j else j - 1].time == t;
      }
      if UpAt(s, t, p) {
        var j :| 0 <= j < |s| && s[j].time == t && p in s[j].up;
        assert r[if j < i then j else j - 1].time == t;
      }
      if DownAt(r, t, p) {
        var j :| 0 <= j < |r| && r[j].time == t && p in r[j].down;
        var k := if j < i - 1 then j else if j > i - 1 then j + 1 else if p in s[i - 1].down then i - 1 else i;
        assert s[k].time == t;
      }
      if UpAt(r, t, p) {
        var j :| 0 <= j < |r| && r[j].time == t && p in r[j].up;
        assert s[if j < i - 1 then j else if j > i - 1 then j + 1 else if p in s[i - 1].up then i - 1 else i].time == t;
      }
    }
    forall t: nat ensures HasTime(s, t) <==> HasTime(r, t) {
      if HasTime(s, t) {
        var j :| 0 <= j < |s| && s[j].time == t;
        assert r[if j < i then j else j - 1].time == t;
      }
      if HasTime(r, t) {
        var j :| 0 <= j < |r| && r[j].time == t;
        assert s[if j < i then j else j + 1].time == t;
      }
    }
  }

  /** From place 'i' on, no two events have the same time, nor the one before 'i' with 'i'. */
  predicate DistinctFrom(s: seq<Event>, i: nat) {
    forall j :: i < j < |s| ==> s[j - 1].time < s[j].time
  }

  /** Merging keeps when pins change, and leaves no two events of the same time. */
  lemma {:induction false} MergeKeeps(s: seq<Event>, i: nat)
    requires i < |s| && Ordered(s) && DistinctFrom(s, i)
    ensures SameTimes(s, Merge(s, i)) && Increasing(Merge(s, i))
    decreases i
  {
    hide SameTimes;
    if i == 0 {
      NeighboursIncrease(s);
      SameTimesRefl(s);
    } else if s[i].time == s[i - 1].time {
      var r := JoinAt(s, i);
      JoinKeeps(s, i);
      JoinOrdered(s, i);
      MergeKeeps(r, i - 1);
      SameTimesTrans(s, r, Merge(s, i));
    } else {
      MergeKeeps(s, i - 1);
    }
  }

  lemma SameTimesRefl(s: seq<Event>)
    ensures SameTimes(s, s)
  {
  }

  lemma SameTimesTrans(s: seq<Event>, r: seq<Event>, q: seq<Event>)
    requires SameTimes(s, r) && SameTimes(r, q)
    ensures SameTimes(s, q)
  {
    hide DownAt, UpAt, HasTime;
  }

  lemma JoinOrdered(s: seq<Event>, i: nat)
    requires 0 < i < |s| && s[i].time == s[i - 1].time && Ordered(s) && DistinctFrom(s, i)
    ensures Ordered(JoinAt(s, i)) && DistinctFrom(JoinAt(s, i), i - 1)
  {
    var r := JoinAt(s, i);
    assert forall j :: 0 <= j < |r| ==> r[j].time == s[if j < i then j else j + 1].time;
  }

  lemma NeighboursIncrease(s: seq<Event>)
    requires DistinctFrom(s, 0)
    ensures Increasing(s)
  {
    forall i, j | 0 <= i < j < |s| ensures s[i].time < s[j].time { IncreaseTo(s, i, j); }
  }

  lemma {:induction false} IncreaseTo(s: seq<Event>, i: nat, j: nat)
    requires DistinctFrom(s, 0) && i < j < |s|
    ensures s[i].time < s[j].time
    decreases j
  {
    if i < j - 1 { IncreaseTo(s, i, j - 1); }
  }

  // ----- the table ---------------------------------------------------------------------

  function Merged(u: Setup): (r: seq<Event>)
    requires u.Valid()
    ensures r != []
  {
    Merge(Sort(Raw(u)), |u.pin|)
  }

  lemma MergedTable(u: Setup)
    requires u.Valid()
    ensures SameTimes(Raw(u), Merged(u)) && Increasing(Merged(u))
  {
    SortSorts(Raw(u));
    SortKeeps(Raw(u));
    MergeKeeps(Sort(Raw(u)), |u.pin|);
  }

  /** The table that pwm_start leaves for the interrupt. */
  function Build(u: Setup): seq<Event>
    requires u.Valid()
  {
    MergedTable(u);
    Finish(Deltas(Merged(u)))
  }

  /** What the merged table says: channels go down at their times, all pins go up at the end. */
  ghost predicate Describes(u: Setup, s: seq<Event>)
    requires u.Valid()
  {
    && s != [] && Increasing(s) && s[|s| - 1].time == Ticks(u.period) && s[|s| - 1].up == u.Gpio()
    && (forall i :: 0 <= i < |s| - 1 ==> s[i].up == {})
    && (forall i, p :: 0 <= i < |s| && p in s[i].down ==> p in u.Gpio())
    && (forall i: nat, c: nat :: i < |s| && c < |u.pin| ==> (u.pin[c] in s[i].down <==> s[i].time == u.HighTicks(c)))
    && (forall c: nat :: c < |u.pin| ==> HasTime(s, u.HighTicks(c)))
  }

  lemma RawTimes(u: Setup)
    requires u.Valid()
    ensures var r := Raw(u);
            && (forall t: nat, p: nat :: UpAt(r, t, p) <==> t == Ticks(u.period) && p in u.Gpio())
            && (forall t: nat, p: nat ::
                  DownAt(r, t, p) <==> exists c: nat :: c < |u.pin| && u.pin[c] == p && u.HighTicks(c) == t)
            && (forall t: nat :: HasTime(r, t) ==> t <= Ticks(u.period))
            && HasTime(r, Ticks(u.period))
            && (forall c: nat :: c < |u.pin| ==> HasTime(r, u.HighTicks(c)))
  {
    var r, n := Raw(u), |u.pin|;
    assert r[n] == Event(u.Gpio(), {}, Ticks(u.period));
    assert forall c: nat :: c < n ==> r[c] == Event({}, {u.pin[c]}, u.HighTicks(c));
    forall c: nat | c < n ensures u.HighTicks(c) <= Ticks(u.period) { HighTicksInPeriod(u, c); }
    forall t: nat, p: nat ensures DownAt(r, t, p) <==> exists c: nat :: c < n && u.pin[c] == p && u.HighTicks(c) == t {
      if c: nat :| c < n && u.pin[c] == p && u.HighTicks(c) == t { assert p in r[c].down; }
    }
  }

  lemma MergedDescribes(u: Setup)
    requires u.Valid()
    ensures Describes(u, Merged(u))
  {
    hide Raw, Merged, HasTime, UpAt, DownAt, Ticks;
    RawTimes(u);
    MergedTable(u);
    var r, s := Raw(u), Merged(u);
    LastTime(s, Ticks(u.period));
    forall i: nat | i < |s| ensures s[i].up == if i == |s| - 1 then u.Gpio() else {} {
      forall p: nat ensures p in s[i].up <==> i == |s| - 1 && p in u.Gpio() { UpsOf(s, i, p); }
    }
    forall i: nat, c: nat | i < |s| && c < |u.pin| ensures u.pin[c] in s[i].down <==> s[i].time == u.HighTicks(c) {
      DownsOf(s, i, u.pin[c]);
      SamePin(u, c);
    }
    forall i: nat, p: nat | i < |s| && p in s[i].down ensures p in u.Gpio() { DownsOf(s, i, p); }
  }

  lemma SamePin(u: Setup, c: nat)
    requires u.Valid() && c < |u.pin|
    ensures forall d: nat :: d < |u.pin| && u.pin[d] == u.pin[c] ==> d == c
  {
  }

  lemma LastTime(s: seq<Event>, t: nat)
    requires s != [] && Increasing(s) && HasTime(s, t) && forall x: nat :: HasTime(s, x) ==> x <= t
    ensures s[|s| - 1].time == t
  {
    assert HasTime(s, s[|s| - 1].time);
  }

  lemma UpsOf(s: seq<Event>, i: nat, p: nat)
    requires i < |s| && Increasing(s)
    ensures p in s[i].up <==> UpAt(s, s[i].time, p)
  {
  }

  lemma DownsOf(s: seq<Event>, i: nat, p: nat)
    requires i < |s| && Increasing(s)
    ensures p in s[i].down <==> DownAt(s, s[i].time, p)
  {
  }

  // ----- playing the table -------------------------------------------------------------

  /** Some pins go high, then some go low. */
  function Drive(out: Pins, e: Event): Pins {
    out + e.up - e.down
  }

  /** How long pin 'p' is high from the moment the timer is loaded for event 'k' to the end. */
  function High(e: seq<Event>, k: nat, out: Pins, p: nat): nat
    requires k < |e|
    decreases |e| - k
  {
    (if p in out then e[k].time else 0) + (if k == |e| - 1 then 0 else High(e, k + 1, Drive(out, e[k]), p))
  }

  function Total(e: seq<Event>, k: nat): nat
    requires k <= |e|
    decreases |e| - k
  {
    if k == |e| then 0 else e[k].time + Total(e, k + 1)
  }

  lemma {:induction false} HighAlways(e: seq<Event>, k: nat, out: Pins, p: nat)
    requires k < |e| && p in out && forall j :: k <= j < |e| - 1 ==> p !in e[j].down
    ensures High(e, k, out, p) == Total(e, k)
    decreases |e| - k
  {
    if k < |e| - 1 { HighAlways(e, k + 1, Drive(out, e[k]), p); } else { assert Total(e, k + 1) == 0; }
  }

  lemma {:induction false} HighNever(e: seq<Event>, k: nat, out: Pins, p: nat)
    requires k < |e| && p !in out && forall j :: k <= j < |e| - 1 ==> p !in e[j].up
    ensures High(e, k, out, p) == 0
    decreases |e| - k
  {
    if k < |e| - 1 { HighNever(e, k + 1, Drive(out, e[k]), p); }
  }

  lemma {:induction false} HighUntil(e: seq<Event>, k: nat, out: Pins, p: nat, m: nat)
    requires k <= m < |e| - 1 && p in out && p in e[m].down
    requires forall j :: k <= j < m ==> p !in e[j].down
    requires forall j :: 0 <= j < |e| - 1 ==> p !in e[j].up
    ensures High(e, k, out, p) == Total(e, k) - Total(e, m + 1)
    decreases m - k
  {
    if k < m { HighUntil(e, k + 1, Drive(out, e[k]), p, m); } else { HighNever(e, k + 1, Drive(out, e[k]), p); }
  }

  /** From an event on, the deltas add up to the rest of the period. */
  lemma {:induction false} DeltasAddUp(s: seq<Event>, k: nat)
    requires Increasing(s) && 0 < k <= |s|
    ensures Total(Deltas(s), k) == s[|s| - 1].time - s[k - 1].time
    decreases |s| - k
  {
    if k < |s| { DeltasAddUp(s, k + 1); }
  }

  lemma {:induction false} TotalShift(e: seq<Event>, f: seq<Event>, k: nat, d: nat)
    requires k + d <= |e| && |f| + d == |e| && forall j :: 0 <= j < |f| ==> f[j].time == e[j + d].time
    requires k <= |f|
    ensures Total(f, k) == Total(e, k + d)
    decreases |f| - k
  {
    if k < |f| { TotalShift(e, f, k + 1, d); }
  }

  /** The finished table in terms of the merged one. */
  lemma FinishedTable(u: Setup, s: seq<Event>)
    requires u.Valid() && Describes(u, s)
    ensures var e, d := Finish(Deltas(s)), if s[0].time == 0 then 1 else 0;
            && |e| + d == |s| && |e| > 0
            && (forall j :: 0 <= j < |e| ==> e[j].time == Deltas(s)[j + d].time)
            && (forall j :: 0 <= j < |e| - 1 ==> e[j].up == {} && e[j].down == s[j + d].down)
            && e[|e| - 1].down == (if d == 1 then s[0].down else {})
            && e[|e| - 1].up == (if d == 1 then u.Gpio() - s[0].down else u.Gpio())
  {
    hide HasTime, Ticks, Finish, Deltas;
    TicksExact(u.period);
    DeltasShape(s);
    FinishShape(Deltas(s));
  }

  lemma DeltasShape(s: seq<Event>)
    requires Increasing(s) && s != []
    ensures |Deltas(s)| == |s| && Deltas(s)[0] == s[0]
    ensures forall j :: 0 <= j < |s| ==> Deltas(s)[j].up == s[j].up && Deltas(s)[j].down == s[j].down
  {
  }

  lemma FinishShape(x: seq<Event>)
    requires x != [] && (x[0].time == 0 ==> |x| > 1)
    ensures var e, d, n := Finish(x), if x[0].time == 0 then 1 else 0, |x| - 1;
            && |e| + d == |x| && |e| > 0
            && (forall j :: 0 <= j < |e| ==> e[j].time == x[j + d].time)
            && (forall j :: 0 <= j < |e| - 1 ==> e[j].up == x[j + d].up && e[j].down == x[j + d].down)
            && e[|e| - 1].down == (if d == 1 then x[0].down else {})
            && e[|e| - 1].up == (if d == 1 then x[n].up - x[0].down else x[n].up)
  {
    var n := |x| - 1;
    var t := x[n := x[n].(down := {})];
    if x[0].time == 0 {
      var y := t[n := t[n].(up := t[n].up - t[0].down, down := t[n].down + t[0].down)];
      assert y[0] == x[0] && Finish(x) == y[1..];
      assert forall j {:trigger y[1..][j]} :: 0 <= j < n ==> y[1..][j] == y[j + 1];
    } else {
      assert Finish(x) == t;
    }
  }

  /** The wave form: from the start of a period on, whatever the pins were before, the events take
      the ticks of the period, and each channel is high for the ticks of its duty. */
  lemma WaveForm(u: Setup, out: Pins, c: nat)
    requires u.Valid() && c < |u.pin|
    ensures var e := Build(u);
            && |e| > 0 && Total(e, 0) == 5 * u.period
            && High(e, 0, Drive(out, e[|e| - 1]), u.pin[c]) == u.HighTicks(c)
    ensures Share(u, c, u.HighTicks(c))
  {
    hide Build, High, Total, Drive, Share, Setup.HighTicks, Ticks;
    TableWave(u, out, c);
    HighTicksShare(u, c);
    TicksExact(u.period);
  }

  lemma TableWave(u: Setup, out: Pins, c: nat)
    requires u.Valid() && c < |u.pin|
    ensures var e := Build(u);
            && |e| > 0 && Total(e, 0) == Ticks(u.period)
            && High(e, 0, Drive(out, e[|e| - 1]), u.pin[c]) == u.HighTicks(c)
  {
    hide Merged, Build, HasTime, Ticks, High, Total, Deltas, Finish;
    MergedDescribes(u);
    var s, e := Merged(u), Build(u);
    BuiltFrom(u);
    FinishedTable(u, s);
    var d := if s[0].time == 0 then 1 else 0;
    PeriodAddsUp(u, s, e, d);
    PinHigh(u, s, e, d, Drive(out, e[|e| - 1]), c);
  }

  lemma BuiltFrom(u: Setup)
    requires u.Valid()
    ensures Increasing(Merged(u)) && Build(u) == Finish(Deltas(Merged(u)))
  {
    MergedTable(u);
  }

  lemma PinHigh(u: Setup, s: seq<Event>, e: seq<Event>, d: nat, out: Pins, c: nat)
    requires u.Valid() && c < |u.pin| && Describes(u, s) && d == (if s[0].time == 0 then 1 else 0) && |e| + d == |s|
    requires |e| > 0
    requires forall j :: 0 <= j < |e| ==> e[j].time == Deltas(s)[j + d].time
    requires forall j :: 0 <= j < |e| - 1 ==> e[j].up == {} && e[j].down == s[j + d].down
    requires Total(e, 0) == Ticks(u.period)
    requires u.pin[c] in out <==> !(d == 1 && u.pin[c] in s[0].down)
    ensures High(e, 0, out, u.pin[c]) == u.HighTicks(c)
  {
    hide Ticks, High, Total, Deltas, HasTime;
    var p, t := u.pin[c], u.HighTicks(c);
    TimeOf(s, t);
    var m: nat :| m < |s| && s[m].time == t;
    assert forall j: nat :: j < |s| ==> (p in s[j].down <==> s[j].time == t);
    assert s[|s| - 1].time == Ticks(u.period);
    LevelFor(s, e, d, out, p, t, m);
  }

  /** A pin that goes down at time 't' of the merged table only. */
  lemma LevelFor(s: seq<Event>, e: seq<Event>, d: nat, out: Pins, p: nat, t: nat, m: nat)
    requires s != [] && Increasing(s) && d == (if s[0].time == 0 then 1 else 0) && |e| + d == |s| && |e| > 0
    requires forall j :: 0 <= j < |e| ==> e[j].time == Deltas(s)[j + d].time
    requires forall j :: 0 <= j < |e| - 1 ==> e[j].up == {} && e[j].down == s[j + d].down
    requires Total(e, 0) == s[|s| - 1].time && m < |s| && s[m].time == t
    requires forall j: nat :: j < |s| ==> (p in s[j].down <==> s[j].time == t)
    requires p in out <==> !(d == 1 && p in s[0].down)
    ensures High(e, 0, out, p) == t
  {
    hide High, Total, Deltas;
    assert forall j: nat :: j < |s| ==> (s[j].time == t <==> j == m);
    if t == 0 {
      HighNever(e, 0, out, p);
    } else if m == |s| - 1 {
      forall j: nat | j < |e| - 1 ensures p !in e[j].down { assert s[j + d].time != t; }
      HighAlways(e, 0, out, p);
    } else {
      LevelUntil(s, e, d, out, p, m);
    }
  }

  lemma LevelUntil(s: seq<Event>, e: seq<Event>, d: nat, out: Pins, p: nat, m: nat)
    requires s != [] && Increasing(s) && d == (if s[0].time == 0 then 1 else 0) && |e| + d == |s|
    requires forall j :: 0 <= j < |e| ==> e[j].time == Deltas(s)[j + d].time
    requires forall j :: 0 <= j < |e| - 1 ==> e[j].up == {} && e[j].down == s[j + d].down
    requires Total(e, 0) == s[|s| - 1].time && d <= m < |s| - 1
    requires forall j: nat :: j < |s| ==> (p in s[j].down <==> j == m)
    requires p in out
    ensures High(e, 0, out, p) == s[m].time
  {
    hide High, Total, Deltas;
    HighUntil(e, 0, out, p, m - d);
    DeltasAddUp(s, m + 1);
    TotalShift(Deltas(s), e, m - d + 1, d);
  }

  lemma TimeOf(s: seq<Event>, t: nat)
    requires HasTime(s, t)
    ensures exists m: nat :: m < |s| && s[m].time == t
  {
  }

  lemma PeriodAddsUp(u: Setup, s: seq<Event>, e: seq<Event>, d: nat)
    requires u.Valid() && Describes(u, s) && d == (if s[0].time == 0 then 1 else 0) && |e| + d == |s| && |e| > 0
    requires forall j :: 0 <= j < |e| ==> e[j].time == Deltas(s)[j + d].time
    ensures Total(e, 0) == Ticks(u.period)
  {
    hide Ticks, HasTime;
    TotalShift(Deltas(s), e, 0, d);
    DeltasAddUp(s, 1);
    assert Total(Deltas(s), 0) == s[0].time + Total(Deltas(s), 1);
  }

  // ----- the interrupt -----------------------------------------------------------------

  /** What the interrupt works with: the table it plays and the newest one, which event comes
      next, the levels of the pins, and the time until the next interrupt. */
  datatype Player = Player(e: seq<Event>, newest: seq<Event>, current: nat, out: Pins, load: nat, stopped: bool) {
    predicate Valid() {
      e != [] && newest != []
    }
  }

  /** One interrupt. */
  function Interrupt(q: Player): (r: Player)
    requires q.Valid()
    ensures r.Valid() && r.newest == q.newest
  {
    if q.current >= |q.e| - 1 then
      var n := q.newest;
      Player(n, n, 0, Drive(q.out, n[|n| - 1]), if |n| != 1 then n[0].time else q.load, q.stopped || |n| == 1)
    else
      Player(q.e, q.newest, q.current + 1, Drive(q.out, q.e[q.current]), q.e[q.current + 1].time, q.stopped)
  }

  function Interrupts(q: Player, k: nat): (r: Player)
    requires q.Valid()
    ensures r.Valid() && r.newest == q.newest
    decreases k
  {
    if k == 0 then q else Interrupts(Interrupt(q), k - 1)
  }

  /** How long pin 'p' is high in the next 'k' waits for an interrupt. */
  function HighFor(q: Player, k: nat, p: nat): nat
    requires q.Valid()
    decreases k
  {
    if k == 0 then 0 else (if p in q.out then q.load else 0) + HighFor(Interrupt(q), k - 1, p)
  }

  function TimeFor(q: Player, k: nat): nat
    requires q.Valid()
    decreases k
  {
    if k == 0 then 0 else q.load + TimeFor(Interrupt(q), k - 1)
  }

  /** The interrupt has just started a period of the table that is also the newest one. */
  predicate PeriodStart(q: Player) {
    q.Valid() && q.newest == q.e && |q.e| > 1 && q.current == 0 && q.load == q.e[0].time
  }

  /** The levels are what the last event of the table leaves. */
  ghost predicate StartLevels(q: Player) {
    q.e != [] && exists out {:trigger Drive(out, q.e[|q.e| - 1])} :: q.out == Drive(out, q.e[|q.e| - 1])
  }

  /** The newest table is about to be played, or the timer is off if there is nothing to play. */
  ghost predicate Begun(q: Player) {
    if |q.newest| > 1 then PeriodStart(q) else q.stopped && q.current == 0
  }

  lemma LastPlayed(q: Player)
    requires q.Valid() && q.current == |q.e| - 1
    ensures Begun(Interrupt(q)) && Interrupt(q).e == q.newest && StartLevels(Interrupt(q))
  {
    var n := q.newest;
    assert Interrupt(q).out == Drive(q.out, n[|n| - 1]);
  }

  /** The rest of a table is played to its end; then the newest table, whichever it is, starts a
      period with the levels that its last event leaves, or turns the timer off. */
  lemma {:induction false} PlaysTable(q: Player, p: nat)
    requires q.Valid() && q.current < |q.e| && q.load == q.e[q.current].time
    ensures var k := |q.e| - q.current;
            && HighFor(q, k, p) == High(q.e, q.current, q.out, p) && TimeFor(q, k) == Total(q.e, q.current)
            && Begun(Interrupts(q, k)) && Interrupts(q, k).e == q.newest
            && StartLevels(Interrupts(q, k))
    decreases |q.e| - q.current
  {
    hide Drive, StartLevels, Begun;
    var k, r := |q.e| - q.current, Interrupt(q);
    assert HighFor(q, k, p) == (if p in q.out then q.load else 0) + HighFor(r, k - 1, p);
    assert TimeFor(q, k) == q.load + TimeFor(r, k - 1);
    assert Interrupts(q, k) == Interrupts(r, k - 1);
    if q.current < |q.e| - 1 {
      PlaysTable(r, p);
    } else {
      assert HighFor(r, 0, p) == 0 && TimeFor(r, 0) == 0 && Total(q.e, |q.e|) == 0 && Interrupts(r, 0) == r;
      LastPlayed(q);
    }
  }

  lemma {:induction false} HighForSplit(q: Player, k: nat, m: nat, p: nat)
    requires q.Valid()
    ensures HighFor(q, k + m, p) == HighFor(q, k, p) + HighFor(Interrupts(q, k), m, p)
    ensures TimeFor(q, k + m) == TimeFor(q, k) + TimeFor(Interrupts(q, k), m)
    ensures Interrupts(q, k + m) == Interrupts(Interrupts(q, k), m)
    decreases k
  {
    if k > 0 { HighForSplit(Interrupt(q), k - 1, m, p); }
  }

  function Times(m: nat, n: nat): nat {
    m * n
  }

  lemma PlaysNothing(q: Player, p: nat)
    requires q.Valid()
    ensures Times(0, |q.e|) == 0 && HighFor(q, 0, p) == 0 && TimeFor(q, 0) == 0 && Interrupts(q, 0) == q
  {
  }

  lemma OneMore(m: nat, n: nat)
    requires m > 0
    ensures Times(m, n) == n + Times(m - 1, n)
  {
  }

  /** Over any number of periods without a new pwm_start, from one start of a period to another,
      the time is that many periods, and each channel is high for its duty in each of them. */
  lemma {:induction false} Periods(u: Setup, q: Player, m: nat, c: nat)
    requires u.Valid() && c < |u.pin| && PeriodStart(q) && q.e == Build(u) && StartLevels(q)
    ensures TimeFor(q, Times(m, |q.e|)) == Times(m, 5 * u.period)
    ensures HighFor(q, Times(m, |q.e|), u.pin[c]) == Times(m, u.HighTicks(c)) && Share(u, c, u.HighTicks(c))
    ensures PeriodStart(Interrupts(q, Times(m, |q.e|))) && Interrupts(q, Times(m, |q.e|)).e == q.e
    decreases m
  {
    hide Build, Ticks, Times, HighFor, TimeFor, Interrupts, Drive, High, Total, Setup.HighTicks, Share;
    var n, p := |q.e|, u.pin[c];
    if m == 0 {
      PlaysNothing(q, p);
      HighTicksShare(u, c);
      NoTimes(5 * u.period);
      NoTimes(u.HighTicks(c));
    } else {
      var out :| q.out == Drive(out, q.e[n - 1]);
      WaveForm(u, out, c);
      PlaysTable(q, p);
      Periods(u, Interrupts(q, n), m - 1, c);
      HighForSplit(q, n, Times(m - 1, n), p);
      OneMore(m, n);
      OneMore(m, 5 * u.period);
      OneMore(m, u.HighTicks(c));
    }
  }

  lemma NoTimes(n: nat)
    ensures Times(0, n) == 0
  {
  }

  /** A new table that pwm_start made during a period: the running table is played to its end, and
      then every period has the new wave form. */
  lemma HandOver(u: Setup, q: Player, m: nat, c: nat)
    requires u.Valid() && c < |u.pin| && q.Valid() && q.newest == Build(u) && |q.newest| > 1
    requires q.current < |q.e| && q.load == q.e[q.current].time
    ensures var k := |q.e| - q.current;
            && TimeFor(q, k) == Total(q.e, q.current)
            && HighFor(q, k, u.pin[c]) == High(q.e, q.current, q.out, u.pin[c])
            && TimeFor(Interrupts(q, k), Times(m, |q.newest|)) == Times(m, 5 * u.period)
            && HighFor(Interrupts(q, k), Times(m, |q.newest|), u.pin[c]) == Times(m, u.HighTicks(c))
    ensures Share(u, c, u.HighTicks(c))
  {
    hide Build, Ticks, Times, HighFor, TimeFor, Interrupts, Drive, High, Total, StartLevels, Setup.HighTicks, Share;
    PlaysTable(q, u.pin[c]);
    Periods(u, Interrupts(q, |q.e| - q.current), m, c);
  }

  /** When all duties are 0 or full, the timer is off, and the levels are constant: exactly the
      channels of full duty are high. */
  lemma TimerOff(u: Setup, out: Pins, c: nat)
    requires u.Valid() && c < |u.pin| && |Build(u)| == 1
    ensures Share(u, c, if u.pin[c] in Drive(out, Build(u)[0]) then 5 * u.period else 0)
  {
    hide Build;
    var e := Build(u);
    WaveForm(u, out, c);
    TicksExact(u.period);
    assert Total(e, 0) == e[0].time + Total(e, 1) && Total(e, 1) == 0;
  }

  // ----- in place ----------------------------------------------------------------------

  lemma {:induction false} InsertAt(s: seq<Event>, x: Event, j: nat)
    requires j <= |s| && (j > 0 ==> s[j - 1].time <= x.time) && forall k :: j <= k < |s| ==> x.time < s[k].time
    ensures Insert(s, x) == s[..j] + [x] + s[j..]
    decreases |s|
  {
    if j < |s| {
      var front := s[..|s| - 1];
      InsertAt(front, x, j);
      assert s[j..] == front[j..] + [s[|s| - 1]];
      assert front[..j] == s[..j];
    } else {
      assert s[..j] == s && s[j..] == [];
    }
  }

  /** The first 'i' events of 'v' have been sorted. */
  predicate Sorting(w: seq<Event>, v: seq<Event>, i: nat) {
    i <= |v| == |w| && w[..i] == Sort(v[..i]) && w[i..] == v[i..]
  }

  lemma SortingStep(w: seq<Event>, v: seq<Event>, i: nat, r: seq<Event>)
    requires Sorting(w, v, i) && i < |v| && |r| == |w|
    requires r[..i + 1] == Insert(w[..i], w[i]) && r[i + 1..] == w[i + 1..]
    ensures Sorting(r, v, i + 1)
  {
    hide Sort, Insert;
    assert w[i] == w[i..][0] == v[i..][0] == v[i];
    SortStep(v, i);
    assert w[i + 1..] == w[i..][1..] == v[i..][1..] == v[i + 1..];
  }

  lemma SortStep(s: seq<Event>, i: nat)
    requires i < |s|
    ensures Sort(s[..i + 1]) == Insert(Sort(s[..i]), s[i])
  {
    var t := s[..i + 1];
    assert t[..i] == s[..i] && t[i] == s[i];
  }

  lemma SortOne(s: seq<Event>)
    requires s != []
    ensures Sorting(s, s, 1)
  {
    var t := s[..1];
    assert t[..0] == [] && Sort([]) == [] && Insert([], t[0]) == [t[0]];
  }

  /** Insertion sort of the first 'n' events. */
  method InsertSort(a: array<Event>, n: nat)
    requires n <= a.Length
    modifies a
    ensures a[..n] == Sort(old(a[..n])) && a[n..] == old(a[n..])
  {
    hide Sort, Insert, Sorting;
    ghost var v := a[..];
    if n == 0 {
      SortNothing(a[..n]);
      return;
    }
    SortOne(v);
    var i := 1;
    while i < n
      invariant 1 <= i <= n && Sorting(a[..], v, i)
    {
      ghost var w := a[..];
      SortedFront(w, v, i);
      if a[i].time < a[i - 1].time { Sink(a, i); } else { Stays(w, i); }
      SortingStep(w, v, i, a[..]);
      i := i + 1;
    }
    SortedAll(a[..], v, n);
  }

  lemma SortNothing(s: seq<Event>)
    requires s == []
    ensures Sort(s) == s
  {
  }

  lemma SortedFront(w: seq<Event>, v: seq<Event>, i: nat)
    requires Sorting(w, v, i)
    ensures i <= |w| && Ordered(w[..i])
  {
    SortSorts(v[..i]);
  }

  lemma SortedAll(w: seq<Event>, v: seq<Event>, n: nat)
    requires Sorting(w, v, n)
    ensures n <= |w| == |v| && w[..n] == Sort(v[..n]) && w[n..] == v[n..]
  {
  }

  /** An event that is not before its predecessor stays where it is. */
  lemma Stays(w: seq<Event>, i: nat)
    requires 0 < i < |w| && w[i].time >= w[i - 1].time
    ensures w[..i + 1] == Insert(w[..i], w[i])
  {
    assert w[..i][i - 1] == w[i - 1];
  }

  /** Events from place 'j' on have moved up; place 'j + 1' is free. */
  ghost predicate Shifting(w: seq<Event>, v: seq<Event>, i: nat, j: int) {
    && |w| == |v| && -1 <= j < i < |v|
    && (forall k :: 0 <= k <= j || i < k < |w| ==> w[k] == v[k])
    && (forall k {:trigger w[k]} :: j + 2 <= k <= i ==> w[k] == v[k - 1])
  }

  lemma ShiftStep(w: seq<Event>, v: seq<Event>, i: nat, j: nat)
    requires Shifting(w, v, i, j)
    ensures Shifting(w[j + 1 := w[j]], v, i, j - 1)
  {
  }

  lemma ShiftDone(w: seq<Event>, v: seq<Event>, i: nat, j: int)
    requires Shifting(w, v, i, j) && Ordered(v[..i])
    requires (j >= 0 ==> v[j].time <= v[i].time) && (j < i - 1 ==> v[i].time < v[j + 1].time)
    ensures var r := w[j + 1 := v[i]]; r[..i + 1] == Insert(v[..i], v[i]) && r[i + 1..] == v[i + 1..]
  {
    var s, r := v[..i], w[j + 1 := v[i]];
    forall k | j + 1 <= k < i ensures v[i].time < s[k].time { assert s[j + 1].time <= s[k].time; }
    InsertAt(s, v[i], j + 1);
    var t := s[..j + 1] + [v[i]] + s[j + 1..];
    assert forall k :: 0 <= k < i + 1 ==> r[k] == t[k];
    assert r[..i + 1] == t;
  }

  /** Move event 'i' down to its place among the ones before it. */
  method Sink(a: array<Event>, i: nat)
    requires 0 < i < a.Length && a[i].time < a[i - 1].time && Ordered(a[..i])
    modifies a
    ensures a[..i + 1] == Insert(old(a[..i]), old(a[i])) && a[i + 1..] == old(a[i + 1..])
  {
    ghost var v := a[..];
    var tmp := a[i];
    a[i] := a[i - 1];
    var j: int := i - 1;
    assert Shifting(a[..], v, i, j);
    hide Shifting, Insert, Ordered;
    while tmp.time < a[j].time
      invariant 0 <= j < i && Shifting(a[..], v, i, j) && a[j] == v[j]
      invariant j < i - 1 ==> tmp.time < v[j + 1].time
      decreases j
    {
      ShiftStep(a[..], v, i, j);
      a[j + 1] := a[j];
      j := j - 1;
      if j < 0 { break; }
      ShiftFront(a[..], v, i, j);
    }
    ShiftDone(a[..], v, i, j);
    a[j + 1] := tmp;
    assert v[..i] == old(a[..i]) && v[i + 1..] == old(a[i + 1..]);
  }

  lemma ShiftFront(w: seq<Event>, v: seq<Event>, i: nat, j: nat)
    requires Shifting(w, v, i, j)
    ensures w[j] == v[j]
  {
  }

  // ----- the driver --------------------------------------------------------------------

  class Driver {
    const tables: seq<array<Event>>
    var counts: seq<nat>
    var setup: Setup
    var toggle: nat
    var playing: nat
    var stopped: bool
    var current: nat
    var out: Pins
    var load: nat

    ghost predicate Ready()
      reads this
    {
      && |tables| == |counts| == 2 && tables[0] != tables[1] && toggle < 2 && playing < 2 && setup.Valid()
      && tables[0].Length == tables[1].Length == PWM_CHANNEL + 1
      && counts[0] <= PWM_CHANNEL + 1 && counts[1] <= PWM_CHANNEL + 1
    }

    /** Both tables hold at least one event. */
    ghost predicate Loaded()
      reads this
    {
      Ready() && counts[0] > 0 && counts[1] > 0
    }

    /** The wait under way is that of the next event of the table being played; the timer stops only
        at the start of a table. This is what playing a table to its end starts from. */
    ghost predicate InStep()
      requires Ready()
      reads this, tables[0], tables[1]
    {
      if stopped then current == 0
      else current < counts[playing] && load == tables[playing][current].time
    }

    /** The table that pwm_start will write is not the one being played. */
    predicate Spare()
      reads this
    {
      stopped || playing == toggle
    }

    ghost function Table(i: nat): seq<Event>
      requires Ready() && i < 2
      reads this, tables[i]
    {
      tables[i][..counts[i]]
    }

    ghost function Playing(): Player
      requires Loaded()
      reads this, tables[0], tables[1]
    {
      Player(Table(playing), Table(toggle), current, out, load, stopped)
    }

    constructor ()
      ensures Ready() && fresh(tables[0]) && fresh(tables[1]) && stopped && toggle == 1 && InStep()
    {
      var none := Event({}, {}, 0);
      var a := new Event[PWM_CHANNEL + 1](_ => none);
      var b := new Event[PWM_CHANNEL + 1](_ => none);
      tables := [a, b];
      counts := [0, 0];
      setup := Setup(PWM_1S / 500, [], []);
      toggle, playing, stopped, current, out, load := 1, 0, true, 0, {}, 0;
    }

    /** Step 1 of pwm_start: one event for each channel and one for the period. */
    method Fill(a: array<Event>)
      requires setup.Valid() && a.Length == PWM_CHANNEL + 1
      modifies a
      ensures a[..|setup.pin| + 1] == Raw(setup)
    {
      var n := |setup.pin|;
      for i := 0 to n
        invariant forall c: nat :: c < i ==> a[c] == Event({}, {setup.pin[c]}, setup.HighTicks(c))
      {
        a[i] := Event({}, {setup.pin[i]}, setup.HighTicks(i));
      }
      a[n] := Event(setup.Gpio(), {}, Ticks(setup.period));
    }

    /** Step 3: combine events of the same time. The result is the number of events left. */
    method Combine(a: array<Event>, n: nat) returns (count: nat)
      requires 0 < n <= a.Length
      modifies a
      ensures count <= n && a[..count] == Merge(old(a[..n]), n - 1)
    {
      hide Merge;
      count := n;
      var i := n - 1;
      MergeEnd(a[..n]);
      while i > 0
        invariant 0 <= i < count <= n
        invariant Merge(a[..count], i) == Merge(old(a[..n]), n - 1)
      {
        ghost var s := a[..count];
        MergeStep(s, i);
        if a[i].time == a[i - 1].time {
          a[i - 1] := Join(a[i - 1], a[i]);
          ghost var t := s[i - 1 := a[i - 1]];
          assert a[..count] == t && a[..i] == t[..i] && a[i + 1..count] == t[i + 1..];
          JoinedInPlace(s, i);
          ShiftDown(a, i, count);
          count := count - 1;
        }
        i := i - 1;
      }
      MergeEnd(a[..count]);
    }

    /** Step 4: each event gets the time since the one before. */
    method Difference(a: array<Event>, n: nat)
      requires 0 < n <= a.Length && Increasing(a[..n])
      modifies a
      ensures a[..n] == Deltas(old(a[..n]))
    {
      hide Deltas, Increasing;
      ghost var s := a[..n];
      var i := n - 1;
      DeltasAt(s, 0);
      while i > 0
        invariant 0 <= i < n
        invariant forall k :: 0 <= k <= i ==> a[k] == s[k]
        invariant forall k :: i < k < n ==> a[k] == Deltas(s)[k]
      {
        DeltasAt(s, i);
        a[i] := a[i].(time := a[i].time - a[i - 1].time);
        i := i - 1;
      }
    }

    /** Steps 5 and 6: the last event, and channels of duty 0. */
    method Close(a: array<Event>, n: nat) returns (count: nat)
      requires 0 < n <= a.Length && (a[0].time == 0 ==> n > 1)
      modifies a
      ensures 0 < count <= n && a[..count] == Finish(old(a[..n]))
    {
      count := n;
      a[n - 1] := a[n - 1].(down := {});
      if a[0].time == 0 {
        a[n - 1] := a[n - 1].(up := a[n - 1].up - a[0].down);
        a[n - 1] := a[n - 1].(down := a[n - 1].down + a[0].down);
        ghost var t := a[..n];
        ShiftDown(a, 0, n);
        count := n - 1;
        assert a[..count] == t[1..];
      }
    }

    /** pwm_start: build the table that is not the newest one and make it the newest. */
    method Start()
      requires Ready()
      modifies this`counts, this`toggle, this`playing, this`stopped, this`out, this`load, tables[1 - toggle]
      ensures Ready() && toggle == 1 - old(toggle) && counts[toggle] > 0 && Table(toggle) == Build(setup)
      ensures counts[1 - toggle] == old(counts)[1 - toggle]
      ensures !old(stopped) ==> playing == old(playing) && out == old(out) && load == old(load) && !stopped
      ensures old(stopped) ==>
                && playing == toggle && out == Drive(old(out), Build(setup)[0])
                && stopped == (counts[toggle] == 1) && (!stopped ==> load == Build(setup)[0].time)
      ensures current == old(current) && (old(InStep() && Spare()) ==> InStep())
      ensures !old(Spare()) ==>
                (InStep() <==> current < |Build(setup)| && old(load) == Build(setup)[current].time)
    {
      hide Build, Drive;
      var t := 1 - toggle;
      var a := tables[t];
      ghost var other, next := tables[1 - t][..], counts[1 - t];
      var count := MakeTable(a);
      counts := counts[t := count];
      assert tables[1 - t][..] == other && counts[1 - t] == next;
      assert Table(t) == Build(setup) && (current < count ==> a[current] == Build(setup)[current]);
      if stopped {
        playing := t;
        out := Drive(out, a[0]);
        if count != 1 {
          stopped := false;
          load := a[0].time;
        }
      }
      toggle := t;
      assert playing != t ==> Table(playing) == other[..next];
      assert old(InStep() && Spare()) ==> InStep() by {
        if old(InStep() && !stopped && playing == toggle) { assert tables[playing][current] == other[current]; }
      }
    }

    /** Steps 1 to 6. */
    method MakeTable(a: array<Event>) returns (count: nat)
      requires setup.Valid() && a.Length == PWM_CHANNEL + 1
      modifies a
      ensures 0 < count <= a.Length && a[..count] == Build(setup)
    {
      hide Sort, Merge, Finish, Raw, Deltas, Describes;
      var n := |setup.pin| + 1;
      Fill(a);
      InsertSort(a, n);
      count := Combine(a, n);
      MergedTable(setup);
      MergedDescribes(setup);
      FirstNotLast(setup, a[..count]);
      ghost var s := a[..count];
      Difference(a, count);
      assert a[0] == a[..count][0] == Deltas(s)[0];
      count := Close(a, count);
    }

    /** The interrupt handler. */
    method Handler()
      requires Loaded()
      modifies this`current, this`playing, this`out, this`load, this`stopped
      ensures Loaded() && Playing() == Interrupt(old(Playing()))
      ensures old(InStep() && !stopped) ==> InStep()
    {
      if current >= counts[playing] - 1 {
        playing := toggle;
        var a := tables[playing];
        out := Drive(out, a[counts[playing] - 1]);
        current := 0;
        if counts[playing] != 1 { load := a[0].time; } else { stopped := true; }
      } else {
        var a := tables[playing];
        out := Drive(out, a[current]);
        current := current + 1;
        load := a[current].time;
      }
    }
  }

  lemma OneChannel(u: Setup)
    requires u.Valid() && |u.pin| == 1 && 0 < u.HighTicks(0) < Ticks(u.period)
    ensures |Build(u)| == 2 && Build(u)[0].time == u.HighTicks(0)
  {
    hide Ticks, Setup.HighTicks;
    var s := Raw(u);
    assert s == [s[0], s[1]] && s[..1] == [s[0]] && s[..0] == [];
    assert Sort(s[..1]) == [s[0]];
    assert Sort(s) == s;
    MergeEnd(s);
    assert Merged(u) == s;
  }

  /** The timer starts with a setup, and pwm_start comes again in the first period. */
  method StartTwice(u: Setup) returns (d: Driver)
    requires u.Valid() && |u.pin| == 1 && 0 < u.HighTicks(0) < Ticks(u.period)
    ensures fresh(d) && d.Ready() && fresh(d.tables[0]) && fresh(d.tables[1])
    ensures !d.Spare() && d.playing == 1 - d.toggle && d.current == 0 && d.load == u.HighTicks(0)
  {
    hide Build, Drive, Ticks, Setup.HighTicks, Setup.Valid, Driver.InStep;
    OneChannel(u);
    d := new Driver();
    d.setup := u;
    d.Start();
    d.Start();
  }

  /** Another pwm_start in the period writes the table being played: the wait under way is that of the
      first duty, 512, and the table says that it is that of the last one, 256. */
  method StartedAgain() returns (wait: nat, planned: nat)
    ensures wait == 2500 && planned == 1250
  {
    hide Build, Drive;
    var last := Setup(1000, [256], [0]);
    OneChannel(last);
    var d := StartTwice(Setup(1000, [512], [0]));
    d.setup := last;
    d.Start();
    wait := d.load;
    planned := d.tables[d.playing][d.current].time;
  }

  /** Remove event 'i' of the first 'n'. */
  method ShiftDown(a: array<Event>, i: nat, n: nat)
    requires i < n <= a.Length
    modifies a
    ensures a[..n - 1] == old(a[..i]) + old(a[i + 1..n])
  {
    ghost var was := a[..n];
    ghost var goal := was[..i] + was[i + 1..];
    for j := i + 1 to n
      invariant forall k :: 0 <= k < j - 1 ==> a[k] == goal[k]
      invariant forall k :: j - 1 <= k < n ==> a[k] == was[k]
    {
      a[j - 1] := a[j];
    }
    assert a[..n - 1] == goal;
  }

  lemma JoinedInPlace(s: seq<Event>, i: nat)
    requires 0 < i < |s| && s[i].time == s[i - 1].time
    ensures var t := s[i - 1 := Join(s[i - 1], s[i])]; t[..i] + t[i + 1..] == JoinAt(s, i)
  {
  }

  lemma DeltasAt(s: seq<Event>, k: nat)
    requires Increasing(s) && k < |s|
    ensures |Deltas(s)| == |s| && (k > 0 ==> s[k - 1].time <= s[k].time)
    ensures Deltas(s)[k] == if k == 0 then s[0] else s[k].(time := s[k].time - s[k - 1].time)
  {
  }

  lemma MergeEnd(s: seq<Event>)
    requires s != []
    ensures Merge(s, 0) == s
  {
  }

  lemma MergeStep(s: seq<Event>, i: nat)
    requires 0 < i < |s|
    ensures Merge(s, i) == if s[i].time == s[i - 1].time then Merge(JoinAt(s, i), i - 1) else Merge(s, i - 1)
  {
  }

  /** The period does not end at once. */
  lemma FirstNotLast(u: Setup, s: seq<Event>)
    requires u.Valid() && Describes(u, s)
    ensures Deltas(s)[0].time == 0 ==> |s| > 1
  {
    TicksExact(u.period);
  }
}