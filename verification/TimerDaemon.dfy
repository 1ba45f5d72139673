/** timers.c: the software timer daemon.  Expiry times wrap with the tick count, so
    active timers live on two sorted lists, one for the epoch in which the tick count
    was last sampled and one for the epoch after it. */
module TimerDaemon {
  import opened Common
  import opened SortedList

  type Id = nat

  datatype Timer = Timer(period: Tick, autoReload: bool, active: bool)

  /** What a timer has done since it was last started: the unbounded time of the
      command, and how often the callback has run. */
  datatype History = History(start: int, fired: nat)

  /** A command as queued: times are the unbounded times at which it was issued. */
  datatype Command =
    | Start(t: Id, issued: int)
    | Stop(t: Id)
    | ChangePeriod(t: Id, period: Tick)
    | Delete(t: Id)

  datatype Verdict = ProcessNow | ToCurrent | ToOverflow

  // ---------------------------------------------------------------- the decision

  /** prvInsertTimerInActiveList, on tick values only. */
  function Decide(next: Tick, now: Tick, command: Tick, period: Tick): Verdict {
    if next <= now then
      if Wrapped(now - command) >= period then ProcessNow else ToOverflow
    else
      if now < command && next >= command then ProcessNow else ToCurrent
  }

  /** For every command time, sample less than one wrap later and period: the timer is
      processed at once exactly when it is due, otherwise it goes on the list of the
      epoch in which it will be due. */
  lemma {:induction false} DecisionIsExact(c: int, n: int, p: Tick, k: int)
    requires c <= n < c + WRAP && 1 <= p && Epoch(k) <= n < Epoch(k + 1)
    ensures Decide(Wrapped(c + p), Wrapped(n), Wrapped(c), p) ==
      if c + p <= n then ProcessNow else if c + p < Epoch(k + 1) then ToCurrent else ToOverflow
  {
    Residue(n, k);
    if c >= Epoch(k) { Residue(c, k); } else { Residue(c, k - 1); }
    if c + p < Epoch(k) { Residue(c + p, k - 1); }
    else if c + p < Epoch(k + 1) { Residue(c + p, k); }
    else { Residue(c + p, k + 1); }
  }

  lemma {:induction false} Residue(x: int, k: int)
    requires Epoch(k) <= x < Epoch(k + 1)
    ensures Wrapped(x) == x - Epoch(k)
  {
  }

  /** A sample below the previous one means the tick count has wrapped, and less than one
      wrap apart it means it has wrapped once. */
  lemma {:induction false} EpochOf(n: int, last: int, k: int, epoch: int)
    requires k == n / 0x1_0000_0000 && last <= n && Epoch(epoch) <= last < Epoch(epoch + 1)
    ensures Epoch(k) <= n < Epoch(k + 1) && k >= epoch
    ensures Wrapped(n) < Wrapped(last) ==> k > epoch
    ensures n < last + WRAP ==> k == if Wrapped(n) < Wrapped(last) then epoch + 1 else epoch
  {
    Residue(n, k);
    Residue(last, epoch);
  }

  // ------------------------------------------------------------- counting callbacks

  /** When a timer that has fired `fired` times is next due. */
  function Due(h: History, p: int): int { h.start + (h.fired + 1) * p }

  function Fire(h: History): History { h.(fired := h.fired + 1) }

  lemma {:induction false} DueAfterFiring(h: History, p: int)
    ensures Due(Fire(h), p) == Due(h, p) + p
    ensures Due(History(h.start, 0), p) == h.start + p
  {
  }

  lemma {:induction false} FirstDue(issued: int, p: int)
    ensures Due(History(issued, 0), p) == issued + p
    ensures Wrapped(Wrapped(issued) + p) == Wrapped(issued + p)
  {
    WrappedSum(issued, p);
  }

  /** How often a timer should have fired by time `n`. */
  function Expected(t: Timer, start: int, n: int): int
    requires t.period > 0
  {
    var whole := (n - start) / t.period;
    if t.autoReload || whole < 1 then whole else 1
  }

  lemma {:induction false} CountIsExact(h: History, p: int, n: int)
    requires p > 0 && Due(h, p) - p <= n < Due(h, p)
    ensures h.fired == (n - h.start) / p
  {
    var r := n - h.start - h.fired * p;
    assert 0 <= r < p;
    QuotientIs(h.fired, p, r);
  }

  lemma {:induction false} QuotientIs(q: nat, p: int, r: int)
    requires p > 0 && 0 <= r < p
    ensures (q * p + r) / p == q
  {
    var x := q * p + r;
    var d := x / p - q;
    assert d * p == r - x % p;
    assert d >= 1 ==> d * p >= p;
    assert d <= -1 ==> d * p <= -p;
  }

  // ------------------------------------------------------------------------- lists

  datatype Lists = Lists(current: seq<Item>, overflow: seq<Item>)

  /** The lists with timer `t` added to that of the epoch in which it is due. */
  function Listing(l: Lists, epoch: int, t: Id, due: int): Lists {
    if due >= Epoch(epoch + 1) then l.(overflow := Insert(l.overflow, Item(t, Wrapped(due))))
    else l.(current := Insert(l.current, Item(t, Wrapped(due))))
  }

  // --------------------------------------------------------------------- invariant

  /** The list of epoch `k`: sorted, and every entry is an active timer due in that
      epoch at the entry's value.  Timers in `flight` are on no list. */
  ghost predicate Holds(s: seq<Item>, k: int, timers: map<Id, Timer>, history: map<Id, History>, flight: set<Id>) {
    && Sorted(s) && DistinctOwners(s)
    && forall e <- s :: Listed(e, k, timers, history, flight)
  }

  ghost predicate Listed(e: Item, k: int, timers: map<Id, Timer>, history: map<Id, History>, flight: set<Id>) {
    && e.owner in timers && e.owner in history && e.owner !in flight
    && timers[e.owner].active
    && Due(history[e.owner], timers[e.owner].period) == Epoch(k) + e.value
  }

  /** The record of one timer is up to date at time `clock`. */
  ghost predicate Account(timer: Timer, history: map<Id, History>, t: Id, clock: int) {
    && (timer.active ==>
         && t in history
         && Due(history[t], timer.period) - timer.period <= clock
         && (!timer.autoReload ==> history[t].fired == 0))
    && (!timer.active && t in history ==>
         && !timer.autoReload && history[t].fired == 1
         && history[t].start + timer.period <= clock)
  }

  /** The callback has run as often as it should have by time `n`. */
  ghost predicate Exact(timer: Timer, h: History, n: int) {
    timer.period > 0 && h.fired == Expected(timer, h.start, n)
  }

  ghost predicate AllExact(d: Desk) {
    forall t <- d.history :: t in d.timers && Exact(d.timers[t], d.history[t], d.clock)
  }

  /** What is on record about callbacks: the histories, and how often each timer's callback
      has run since the daemon began. */
  datatype Record = Record(history: map<Id, History>, ran: multiset<Id>)

  /** Between commands histories change only by firing, and every run of a callback counts. */
  ghost predicate Progress(was: Record, now: Record) {
    && was.history.Keys == now.history.Keys
    && (forall t <- was.history :: Advances(was, now, t))
    && (forall t :: t !in was.history ==> now.ran[t] == was.ran[t])
  }

  ghost predicate Advances(was: Record, now: Record, t: Id)
    requires t in was.history && t in now.history
  {
    && now.history[t].start == was.history[t].start && now.ran[t] >= was.ran[t]
    && now.history[t].fired + was.ran[t] == was.history[t].fired + now.ran[t]
  }

  lemma {:induction false} RanOn(was: Record, t: Id, h: History)
    requires t in was.history && h.start == was.history[t].start && h.fired >= was.history[t].fired
    ensures Progress(was, Record(was.history[t := h], was.ran[t := was.ran[t] + (h.fired - was.history[t].fired)]))
  {
  }

  lemma {:induction false} ProgressOn(a: Record, b: Record, c: Record)
    requires Progress(a, b) && Progress(b, c)
    ensures Progress(a, c)
  {
    forall t | t in a.history ensures Advances(a, c, t) {
      assert Advances(a, b, t) && Advances(b, c, t);
    }
  }

  /** The callbacks of these timers have not run. */
  ghost predicate Quiet(flight: set<Id>, was: multiset<Id>, now: multiset<Id>) {
    forall t <- flight :: now[t] == was[t]
  }

  ghost predicate SameSettings(was: map<Id, Timer>, now: map<Id, Timer>) {
    && was.Keys == now.Keys
    && forall t <- was :: now[t].period == was[t].period && now[t].autoReload == was[t].autoReload
  }

  /** The whole daemon.  `clock` is the time up to which expiries are accounted for and
      `epoch` the number of wraps before it. */
  datatype Desk = Desk(
    timers: map<Id, Timer>, history: map<Id, History>,
    current: seq<Item>, overflow: seq<Item>, epoch: int, clock: int)

  ghost predicate Books(d: Desk, flight: set<Id>) {
    && Epoch(d.epoch) <= d.clock < Epoch(d.epoch + 1)
    && d.history.Keys <= d.timers.Keys && flight <= d.timers.Keys
    && (forall t <- d.timers :: d.timers[t].period > 0)
    && Holds(d.current, d.epoch, d.timers, d.history, flight)
    && Holds(d.overflow, d.epoch + 1, d.timers, d.history, flight)
    && forall t <- d.timers :: t !in flight ==> Settled(d, t)
  }

  /** One timer's record and its list membership agree. */
  ghost predicate Settled(d: Desk, t: Id)
    requires t in d.timers
  {
    && Account(d.timers[t], d.history, t, d.clock)
    && (d.timers[t].active <==> Owns(d.current, t) || Owns(d.overflow, t))
  }

  /** Taking the head of the current list. */
  lemma {:induction false} Popped(d: Desk, flight: set<Id>)
    requires Books(d, flight) && d.current != []
    ensures Books(d.(current := d.current[1..]), flight + {d.current[0].owner})
  {
    var t, rest := d.current[0].owner, d.current[1..];
    var e := d.(current := rest);
    assert d.current == [d.current[0]] + rest;
    assert Listed(d.current[0], d.epoch, d.timers, d.history, flight);
    forall x | x in rest ensures Listed(x, d.epoch, d.timers, d.history, flight + {t}) {
      assert x in d.current;
    }
    forall x | x in d.overflow ensures Listed(x, d.epoch + 1, d.timers, d.history, flight + {t}) {
    }
    forall u | u in d.timers && u !in flight + {t} ensures Settled(e, u) {
      assert Settled(d, u);
      assert forall x :: x in d.current && x.owner == u ==> x in rest;
      assert Owns(d.current, u) <==> Owns(rest, u);
    }
  }

  lemma {:induction false} HeadExpired(d: Desk, flight: set<Id>)
    requires Books(d, flight) && d.current != []
    ensures var x := d.current[0];
      && x.owner !in flight && x.owner in d.timers && x.owner in d.history && d.timers[x.owner].active
      && (!d.timers[x.owner].autoReload ==> d.history[x.owner].fired == 0)
      && var due := Due(d.history[x.owner], d.timers[x.owner].period);
      && due == Epoch(d.epoch) + x.value && x.value == Wrapped(due)
    ensures Books(d.(current := d.current[1..]), flight + {d.current[0].owner})
  {
    Popped(d, flight);
    var x := d.current[0];
    assert Listed(x, d.epoch, d.timers, d.history, flight);
    assert Settled(d, x.owner);
    Residue(Epoch(d.epoch) + x.value, d.epoch);
  }

  /** Taking a timer off whatever list it is on. */
  lemma {:induction false} Lifted(d: Desk, flight: set<Id>, t: Id)
    requires Books(d, flight) && t in d.timers
    ensures Books(d.(current := Drop(d.current, t), overflow := Drop(d.overflow, t)), flight + {t})
  {
    var e := d.(current := Drop(d.current, t), overflow := Drop(d.overflow, t));
    HoldsDropped(d.current, d.epoch, d.timers, d.history, flight, t);
    HoldsDropped(d.overflow, d.epoch + 1, d.timers, d.history, flight, t);
    forall u | u in d.timers && u !in flight + {t} ensures Settled(e, u) {
      StaysSettled(d, t, u);
    }
  }

  lemma {:induction false} StaysSettled(d: Desk, t: Id, u: Id)
    requires Sorted(d.current) && Sorted(d.overflow) && u in d.timers && u != t && Settled(d, u)
    ensures Settled(d.(current := Drop(d.current, t), overflow := Drop(d.overflow, t)), u)
  {
    OwnsOthers(d.current, Item(t, 0), u);
    OwnsOthers(d.overflow, Item(t, 0), u);
  }

  lemma {:induction false} HoldsDropped(s: seq<Item>, k: int, timers: map<Id, Timer>, history: map<Id, History>, flight: set<Id>, t: Id)
    requires Holds(s, k, timers, history, flight)
    ensures Holds(Drop(s, t), k, timers, history, flight + {t})
  {
    DropSorted(s, t);
    DropDistinct(s, t);
    forall e | e in Drop(s, t) ensures Listed(e, k, timers, history, flight + {t}) {
      assert Listed(e, k, timers, history, flight);
    }
  }

  /** Putting a timer back on the list of the epoch in which it is next due. */
  lemma {:induction false} Landed(d: Desk, flight: set<Id>, t: Id, timer: Timer, h: History)
    requires Books(d, flight) && t in flight
    requires timer.active && timer.period > 0 && (!timer.autoReload ==> h.fired == 0)
    requires Due(h, timer.period) - timer.period <= d.clock < Due(h, timer.period)
    ensures Books(Placed(d, t, timer, h), flight - {t})
  {
    var e := Placed(d, t, timer, h);
    LandedHolds(d, flight, t, timer, h);
    forall u | u in e.timers && u !in flight - {t} ensures Settled(e, u) {
      if u != t {
        LandedBeside(d, t, timer, h, u);
      }
    }
  }

  lemma {:induction false} LandedHolds(d: Desk, flight: set<Id>, t: Id, timer: Timer, h: History)
    requires Books(d, flight) && t in flight && timer.active
    requires Due(h, timer.period) - timer.period <= d.clock < Due(h, timer.period)
    ensures var e := Placed(d, t, timer, h);
      && Holds(e.current, e.epoch, e.timers, e.history, flight - {t})
      && Holds(e.overflow, e.epoch + 1, e.timers, e.history, flight - {t})
      && (Owns(e.current, t) || Owns(e.overflow, t))
  {
    var e, due := Placed(d, t, timer, h), Due(h, timer.period);
    var x, far := Item(t, Wrapped(due)), due >= Epoch(d.epoch + 1);
    Residue(due, if far then d.epoch + 1 else d.epoch);
    HoldsElsewhere(d.current, d.epoch, d.timers, d.history, flight, t, timer, h);
    HoldsElsewhere(d.overflow, d.epoch + 1, d.timers, d.history, flight, t, timer, h);
    if far {
      HoldsInserted(d.overflow, d.epoch + 1, e.timers, e.history, flight, x);
    } else {
      HoldsInserted(d.current, d.epoch, e.timers, e.history, flight, x);
    }
  }

  lemma {:induction false} LandedBeside(d: Desk, t: Id, timer: Timer, h: History, u: Id)
    requires u != t && u in d.timers && Settled(d, u) && Sorted(d.current) && Sorted(d.overflow)
    ensures Settled(Placed(d, t, timer, h), u)
  {
    var x := Item(t, Wrapped(Due(h, timer.period)));
    OwnsOthers(d.current, x, u);
    OwnsOthers(d.overflow, x, u);
  }

  /** A list does not depend on timers that are on no list. */
  lemma {:induction false} HoldsElsewhere(s: seq<Item>, k: int, timers: map<Id, Timer>, history: map<Id, History>, flight: set<Id>, t: Id, timer: Timer, h: History)
    requires Holds(s, k, timers, history, flight) && t in flight
    ensures Holds(s, k, timers[t := timer], history[t := h], flight)
    ensures Holds(s, k, timers[t := timer], history[t := h], flight - {t})
  {
    forall e | e in s ensures Listed(e, k, timers[t := timer], history[t := h], flight) {
      assert Listed(e, k, timers, history, flight);
    }
  }

  lemma {:induction false} HoldsInserted(s: seq<Item>, k: int, timers: map<Id, Timer>, history: map<Id, History>, flight: set<Id>, x: Item)
    requires Holds(s, k, timers, history, flight) && x.owner in flight
    requires Listed(x, k, timers, history, flight - {x.owner})
    ensures Holds(Insert(s, x), k, timers, history, flight - {x.owner}) && x in Insert(s, x)
  {
    assert !Owns(s, x.owner);
    InsertSorted(s, x);
    InsertDistinct(s, x);
  }

  lemma {:induction false} LandedAsIs(d: Desk, flight: set<Id>, t: Id)
    requires Books(d, flight) && t in flight && d.timers[t].active && t in d.history
    requires !d.timers[t].autoReload ==> d.history[t].fired == 0
    requires var due := Due(d.history[t], d.timers[t].period); due - d.timers[t].period <= d.clock < due
    ensures var l := Listing(Lists(d.current, d.overflow), d.epoch, t, Due(d.history[t], d.timers[t].period));
      Books(d.(current := l.current, overflow := l.overflow), flight - {t})
  {
    Landed(d, flight, t, d.timers[t], d.history[t]);
    assert d.timers[t := d.timers[t]] == d.timers;
    assert d.history[t := d.history[t]] == d.history;
  }

  function Placed(d: Desk, t: Id, timer: Timer, h: History): Desk {
    var l := Listing(Lists(d.current, d.overflow), d.epoch, t, Due(h, timer.period));
    d.(timers := d.timers[t := timer], history := d.history[t := h], current := l.current, overflow := l.overflow)
  }

  /** Leaving a timer off the lists. */
  lemma {:induction false} Retired(d: Desk, flight: set<Id>, t: Id, timer: Timer, history: map<Id, History>)
    requires Books(d, flight) && t in flight
    requires !timer.active && timer.period > 0 && Account(timer, history, t, d.clock)
    requires history.Keys <= d.history.Keys + {t}
    requires forall u :: u != t ==> (u in history <==> u in d.history) && (u in history ==> history[u] == d.history[u])
    ensures Books(d.(timers := d.timers[t := timer], history := history), flight - {t})
  {
    var e := d.(timers := d.timers[t := timer], history := history);
    forall u | u in e.timers && u !in flight - {t} ensures Settled(e, u) {
      if u != t {
        assert Settled(d, u);
      }
    }
  }

  /** Time passing within an epoch. */
  lemma {:induction false} Advanced(d: Desk, flight: set<Id>, n: int)
    requires Books(d, flight) && d.clock <= n < Epoch(d.epoch + 1)
    ensures Books(d.(clock := n), flight)
  {
    var e := d.(clock := n);
    forall t | t in d.timers && t !in flight ensures Settled(e, t) {
      assert Settled(d, t);
    }
  }

  /** Exchanging the lists once the current one has been emptied. */
  lemma {:induction false} Exchanged(d: Desk, flight: set<Id>, n: int)
    requires Books(d, flight) && d.current == [] && Epoch(d.epoch + 1) <= n < Epoch(d.epoch + 2)
    ensures Books(d.(current := d.overflow, overflow := [], epoch := d.epoch + 1, clock := n), flight)
  {
    var e := d.(current := d.overflow, overflow := [], epoch := d.epoch + 1, clock := n);
    forall t | t in d.timers && t !in flight ensures Settled(e, t) {
      assert Settled(d, t);
    }
  }

  /** With no active timer any amount of time may pass. */
  lemma {:induction false} Idled(d: Desk, flight: set<Id>, k: int, n: int)
    requires Books(d, flight) && d.current == [] && d.overflow == []
    requires d.clock <= n && Epoch(k) <= n < Epoch(k + 1)
    ensures Books(d.(epoch := k, clock := n), flight)
  {
    var e := d.(epoch := k, clock := n);
    forall t | t in d.timers && t !in flight ensures Settled(e, t) {
      assert Settled(d, t);
    }
  }

  /** No timer on the lists is due. */
  ghost predicate NothingDue(d: Desk) {
    d.current == [] || Epoch(d.epoch) + d.current[0].value > d.clock
  }

  lemma {:induction false} NothingDueMeans(d: Desk, t: Id)
    requires Books(d, {}) && NothingDue(d) && t in d.timers && d.timers[t].active
    ensures t in d.history && d.clock < Due(d.history[t], d.timers[t].period)
  {
    NothingDueBefore(d, t);
  }

  /** Whenever nothing is due, every started timer has run its callback exactly as often
      as whole periods have passed since its command, or once if it is a one-shot timer
      and at least one has. */
  lemma {:induction false} CallbacksExact(d: Desk, t: Id)
    requires Books(d, {}) && NothingDue(d) && t in d.history
    ensures t in d.timers && Exact(d.timers[t], d.history[t], d.clock)
  {
    var timer, h := d.timers[t], d.history[t];
    assert Settled(d, t);
    if timer.active {
      NothingDueMeans(d, t);
      CountIsExact(h, timer.period, d.clock);
    } else {
      AtLeastOne(d.clock - h.start, timer.period);
    }
  }

  /** The lists are both empty exactly when no timer is active. */
  lemma {:induction false} SomeActive(d: Desk)
    requires Books(d, {})
    ensures (d.current == [] && d.overflow == []) <==> (forall t <- d.timers :: !d.timers[t].active)
  {
    if d.current != [] {
      assert Listed(d.current[0], d.epoch, d.timers, d.history, {});
    } else if d.overflow != [] {
      assert Listed(d.overflow[0], d.epoch + 1, d.timers, d.history, {});
    } else {
      assert forall t <- d.timers :: Settled(d, t);
    }
  }

  lemma {:induction false} AtLeastOne(x: int, p: int)
    requires 0 < p <= x
    ensures x / p >= 1
  {
    var q := x / p;
    assert x == q * p + x % p;
    assert q <= 0 ==> q * p <= 0;
  }

  /** Writing to a timer that is on no list. */
  lemma {:induction false} Rewritten(d: Desk, flight: set<Id>, t: Id, timer: Timer, h: History)
    requires Books(d, flight) && t in flight && timer.period > 0
    ensures Books(d.(timers := d.timers[t := timer], history := d.history[t := h]), flight)
  {
    var e := d.(timers := d.timers[t := timer], history := d.history[t := h]);
    HoldsElsewhere(d.current, d.epoch, d.timers, d.history, flight, t, timer, h);
    HoldsElsewhere(d.overflow, d.epoch + 1, d.timers, d.history, flight, t, timer, h);
    forall u | u in e.timers && u !in flight ensures Settled(e, u) {
      assert Settled(d, u);
    }
  }

  function NextExpiry(d: Desk): Tick { if d.current == [] then 0 else d.current[0].value }

  /** No active timer is due before the head of the current list, or before the wrap if that
      list is empty. */
  lemma {:induction false} NothingDueBefore(d: Desk, t: Id)
    requires Books(d, {}) && t in d.timers && d.timers[t].active
    ensures t in d.history
    ensures Epoch(if d.current == [] then d.epoch + 1 else d.epoch) + NextExpiry(d) <= Due(d.history[t], d.timers[t].period)
  {
    assert Settled(d, t);
    if Owns(d.current, t) {
      var e :| e in d.current && e.owner == t;
      assert Listed(e, d.epoch, d.timers, d.history, {});
      assert d.current[0].value <= e.value;
    } else {
      var e :| e in d.overflow && e.owner == t;
      assert Listed(e, d.epoch + 1, d.timers, d.history, {});
    }
  }

  /** How long the daemon blocks when nothing is due: until the head of the current list
      is due, or until the tick count wraps. */
  function BlockTime(d: Desk): Tick {
    Wrapped(NextExpiry(d) - Wrapped(d.clock))
  }

  /** The daemon never sleeps past an expiry. */
  lemma {:induction false} NeverOversleeps(d: Desk, t: Id)
    requires Books(d, {}) && NothingDue(d) && t in d.timers && d.timers[t].active
    ensures t in d.history && d.clock + BlockTime(d) <= Due(d.history[t], d.timers[t].period)
    ensures d.current != [] && d.current[0].owner == t ==>
      d.clock + BlockTime(d) == Due(d.history[t], d.timers[t].period)
  {
    NothingDueBefore(d, t);
    Residue(d.clock, d.epoch);
    if d.current != [] {
      assert Listed(d.current[0], d.epoch, d.timers, d.history, {});
    }
  }

  /** The daemon blocks until the head of the current list is due or, that list being empty,
      until the tick count wraps; at the very tick of a wrap with nothing listed for the new
      epoch the block time is nought and it looks again. */
  lemma {:induction false} BlocksUntil(d: Desk)
    requires Books(d, {}) && NothingDue(d)
    ensures d.clock + BlockTime(d) ==
      if d.current != [] then Epoch(d.epoch) + d.current[0].value
      else if d.clock == Epoch(d.epoch) then d.clock else Epoch(d.epoch + 1)
  {
    Residue(d.clock, d.epoch);
  }

  // ------------------------------------------------------------ timers left behind

  /** The entries with a value of at most `v`. */
  ghost function Behind(s: seq<Item>, v: int): set<Item> { set e | e in s && e.value <= v }

  /** How many listed timers are due in the current epoch and still to be served. */
  ghost function Overdue(d: Desk): nat { |Behind(d.current, d.clock - Epoch(d.epoch))| }

  lemma {:induction false} HeadServed(s: seq<Item>, v: int)
    requires s != [] && DistinctOwners(s) && s[0].value <= v
    ensures |Behind(s[1..], v)| + 1 == |Behind(s, v)|
  {
    assert s == [s[0]] + s[1..];
    assert s[0] !in s[1..];
    assert Behind(s, v) == Behind(s[1..], v) + {s[0]};
  }

  lemma {:induction false} NobodyBehind(s: seq<Item>, v: int)
    requires Sorted(s) && (s != [] ==> s[0].value > v)
    ensures Behind(s, v) == {}
  {
    forall e | e in s ensures e.value > v {
      assert s[0].value <= e.value;
    }
  }

  /** A list that has taken in at most an entry with a value above `v`. */
  ghost predicate Relisted(was: seq<Item>, now: seq<Item>, v: int) {
    now == was || exists x: Item :: x.value > v && now == Insert(was, x)
  }

  /** A timer listed for a time still ahead is not overdue. */
  lemma {:induction false} ListedAhead(l: Lists, epoch: int, clock: int, t: Id, due: int)
    requires clock < due && Epoch(epoch) <= clock
    ensures Relisted(l.current, Listing(l, epoch, t, due).current, clock - Epoch(epoch))
  {
    if due < Epoch(epoch + 1) {
      Residue(due, epoch);
      assert Item(t, Wrapped(due)).value > clock - Epoch(epoch);
    }
  }

  lemma {:induction false} OneServed(was: seq<Item>, now: seq<Item>, v: int)
    requires was != [] && Sorted(was) && DistinctOwners(was) && was[0].value <= v && Relisted(was[1..], now, v)
    ensures |Behind(now, v)| + 1 == |Behind(was, v)|
  {
    HeadServed(was, v);
    if now != was[1..] {
      var x: Item :| x.value > v && now == Insert(was[1..], x);
      InsertSorted(was[1..], x);
      assert Behind(now, v) == Behind(was[1..], v);
    }
  }

  lemma {:induction false} OneFewer(d: Desk, e: Desk)
    requires d.current != [] && Sorted(d.current) && DistinctOwners(d.current)
    requires e.epoch == d.epoch && e.clock == d.clock && Epoch(d.epoch) + d.current[0].value <= d.clock
    requires Relisted(d.current[1..], e.current, d.clock - Epoch(d.epoch))
    ensures Overdue(e) + 1 == Overdue(d)
  {
    OneServed(d.current, e.current, d.clock - Epoch(d.epoch));
  }

  lemma {:induction false} OwnersBound(s: seq<Item>, all: set<Id>)
    requires DistinctOwners(s) && forall e <- s :: e.owner in all
    ensures |s| <= |all|
  {
    if s != [] {
      assert forall e <- s[1..] :: e.owner != s[0].owner;
      OwnersBound(s[1..], all - {s[0].owner});
    }
  }

  lemma {:induction false} CurrentFits(d: Desk)
    requires Books(d, {})
    ensures Overdue(d) <= |d.timers.Keys|
  {
    assert forall e <- d.current :: Listed(e, d.epoch, d.timers, d.history, {});
    OwnersBound(d.current, d.timers.Keys);
    FewBehind(d.current, d.clock - Epoch(d.epoch));
  }

  lemma {:induction false} FewBehind(s: seq<Item>, v: int)
    ensures |Behind(s, v)| <= |s|
  {
    if s != [] {
      FewBehind(s[1..], v);
      assert s == [s[0]] + s[1..];
      assert Behind(s, v) == Behind(s[1..], v) + (if s[0].value <= v then {s[0]} else {});
    }
  }

  /** The timers of the first `k` entries have run. */
  ghost predicate HaveRun(s: seq<Item>, k: nat, start: Record, now: Record)
    requires k <= |s|
  {
    Progress(start, now) && forall i :: 0 <= i < k ==> now.ran[s[i].owner] > start.ran[s[i].owner]
  }

  /** Whoever has run stays so, and entry `k` joins them. */
  lemma {:induction false} MoreHaveRun(s: seq<Item>, k: nat, start: Record, mid: Record, now: Record)
    requires k < |s| && HaveRun(s, k, start, mid) && Progress(mid, now) && now.ran[s[k].owner] > mid.ran[s[k].owner]
    ensures HaveRun(s, k + 1, start, now)
  {
    ProgressOn(start, mid, now);
    forall i | 0 <= i < k + 1 ensures now.ran[s[i].owner] > start.ran[s[i].owner] {
      RanGrows(start, mid, s[i].owner);
      RanGrows(mid, now, s[i].owner);
    }
  }

  lemma {:induction false} RanGrows(was: Record, now: Record, t: Id)
    requires Progress(was, now)
    ensures now.ran[t] >= was.ran[t]
  {
    if t in was.history {
      assert Advances(was, now, t);
    }
  }

  /** What a command does to the timer it names, and that others only progress. */
  ghost predicate Obeyed(cmd: Command, n: int, was: Record, now: Record, timers: map<Id, Timer>) {
    && cmd.t in timers && OthersProgress(was, now, cmd.t)
    && match cmd
       case Start(t, issued) =>
         t in now.history && now.history[t].start == issued && was.ran[t] + now.history[t].fired == now.ran[t]
       case ChangePeriod(t, period) =>
         t in now.history && now.history[t] == History(n, 0) && now.ran[t] == was.ran[t] && timers[t].period == period
       case Stop(t) => t !in now.history && !timers[t].active && now.ran[t] == was.ran[t]
       case Delete(t) => t !in now.history && !timers[t].active && now.ran[t] == was.ran[t]
  }

  /** A command changes no setting but the period it sets. */
  ghost predicate OneResettled(cmd: Command, was: map<Id, Timer>, now: map<Id, Timer>) {
    && was.Keys == now.Keys
    && forall t <- was ::
         && now[t].autoReload == was[t].autoReload
         && (!(cmd.ChangePeriod? && cmd.t == t) ==> now[t].period == was[t].period)
  }

  ghost predicate OthersProgress(was: Record, now: Record, t: Id) {
    && (forall u :: u != t ==> (u in was.history <==> u in now.history))
    && (forall u :: u != t && u in was.history && u in now.history ==> Advances(was, now, u))
    && (forall u :: u != t && u !in was.history ==> now.ran[u] == was.ran[u])
  }

  /** What callers owe: the timer exists, a start command is processed less than one wrap
      after it was issued, a period is not zero. */
  predicate Acceptable(cmd: Command, timers: map<Id, Timer>, n: int) {
    && cmd.t in timers
    && (cmd.Start? ==> cmd.issued <= n < cmd.issued + WRAP)
    && (cmd.ChangePeriod? ==> cmd.period > 0)
  }

  /** What wakes the daemon: its own timetable, or a command. */
  datatype Event = Wake(n: int) | Obey(cmd: Command, n: int)

  /** The tick count is sampled less than one wrap after the last sample, unless no timer is
      active, and a command is one that callers may send. */
  predicate InTime(clock: int, idle: bool, timers: map<Id, Timer>, event: Event) {
    && clock <= event.n && (event.n < clock + WRAP || idle)
    && (event.Obey? ==> Acceptable(event.cmd, timers, event.n))
  }

  // -------------------------------------------------------- what commands ask for

  /** What has been asked of a timer: when it was started, if it is not stopped, and with
      which period. */
  datatype Orders = Orders(start: Option<int>, period: Tick)

  function Ordered(o: Orders, event: Event, t: Id): Orders {
    if event.Wake? || event.cmd.t != t then o
    else match event.cmd
      case Start(_, issued) => o.(start := Some(issued))
      case ChangePeriod(_, period) => Orders(Some(event.n), period)
      case Stop(_) => o.(start := None)
      case Delete(_) => o.(start := None)
  }

  /** The orders that stand after a run of events, read off the commands alone. */
  function OrdersAfter(o: Orders, events: seq<Event>, t: Id): Orders {
    if events == [] then o
    else Ordered(OrdersAfter(o, events[..|events| - 1], t), events[|events| - 1], t)
  }

  ghost function OrdersOf(d: Desk, t: Id): Orders
    requires t in d.timers
  {
    Orders(if t in d.history then Some(d.history[t].start) else None, d.timers[t].period)
  }

  predicate Names(event: Event, t: Id) { event.Obey? && event.cmd.t == t }

  /** The position of the last event that is a command for `t`. */
  function LastCommand(events: seq<Event>, t: Id): (j: Option<nat>)
    ensures j.Some? ==> j.value < |events|
  {
    if events == [] then None
    else if Names(events[|events| - 1], t) then Some(|events| - 1)
    else LastCommand(events[..|events| - 1], t)
  }

  /** How often the callback of `t` has run since its last command, or else in all; `marks`
      says how often callbacks had run before each event and at the end. */
  ghost function RunsSince(h: map<Id, History>, events: seq<Event>, marks: seq<multiset<Id>>, t: Id): int
    requires |marks| == |events| + 1
  {
    match LastCommand(events, t)
    case Some(j) => marks[|events|][t] - marks[j][t]
    case None => (if t in h then h[t].fired else 0) + marks[|events|][t] - marks[0][t]
  }

  /** The records of `t` have gone from `d` to `e` as the events ask, and every run of its
      callback is on record; a stopped timer has not run. */
  ghost predicate Follows(d: Desk, events: seq<Event>, marks: seq<multiset<Id>>, e: Desk, t: Id)
    requires t in d.timers && |marks| == |events| + 1
  {
    && t in e.timers && e.timers[t].autoReload == d.timers[t].autoReload
    && OrdersOf(e, t) == OrdersAfter(OrdersOf(d, t), events, t)
    && RunsSince(d.history, events, marks, t) == if t in e.history then e.history[t].fired else 0
  }

  /** The same for one event. */
  ghost predicate Turned(d: Desk, r: multiset<Id>, event: Event, e: Desk, q: multiset<Id>) {
    && e.timers.Keys == d.timers.Keys
    && forall t <- d.timers ::
         && e.timers[t].autoReload == d.timers[t].autoReload
         && OrdersOf(e, t) == Ordered(OrdersOf(d, t), event, t)
         && r[t] + (if t in e.history then e.history[t].fired else 0) ==
              q[t] + (if t in d.history && !Names(event, t) then d.history[t].fired else 0)
  }

  /** Firing on the way to a command does not blur what the command does. */
  lemma {:induction false} ObeyedFrom(cmd: Command, n: int, d: Record, mid: Record, e: Record, timers: map<Id, Timer>)
    requires Progress(d, mid) && mid.ran[cmd.t] == d.ran[cmd.t]
    requires Obeyed(cmd, n, mid, e, timers)
    ensures Obeyed(cmd, n, d, e, timers)
  {
    forall u | u != cmd.t && u in d.history && u in e.history ensures Advances(d, e, u) {
      assert Advances(d, mid, u) && Advances(mid, e, u);
    }
  }

  /** Runs of the callback after a start are counted from nought. */
  lemma {:induction false} StartedFrom(was: Record, t: Id, issued: int, now: Record)
    requires Progress(Record(was.history[t := History(issued, 0)], was.ran), now)
    ensures t in now.history && now.history[t].start == issued && was.ran[t] + now.history[t].fired == now.ran[t]
    ensures OthersProgress(was, now, t)
  {
    var mid := Record(was.history[t := History(issued, 0)], was.ran);
    assert Advances(mid, now, t);
    forall u | u != t && u in was.history && u in now.history ensures Advances(was, now, u) {
      assert Advances(mid, now, u);
    }
  }

  lemma {:induction false} WokenTurned(d: Desk, r: multiset<Id>, n: int, e: Desk, q: multiset<Id>)
    requires d.history.Keys <= d.timers.Keys && SameSettings(d.timers, e.timers)
    requires Progress(Record(d.history, r), Record(e.history, q))
    ensures Turned(d, r, Wake(n), e, q)
  {
    forall t | t in d.timers
      ensures r[t] + (if t in e.history then e.history[t].fired else 0) == q[t] + (if t in d.history then d.history[t].fired else 0)
    {
      if t in d.history {
        assert Advances(Record(d.history, r), Record(e.history, q), t);
      }
    }
  }

  lemma {:induction false} ObeyedTurned(d: Desk, r: multiset<Id>, cmd: Command, n: int, e: Desk, q: multiset<Id>)
    requires Obeyed(cmd, n, Record(d.history, r), Record(e.history, q), e.timers) && OneResettled(cmd, d.timers, e.timers)
    ensures Turned(d, r, Obey(cmd, n), e, q)
  {
    forall t | t in d.timers
      ensures r[t] + (if t in e.history then e.history[t].fired else 0) ==
        q[t] + (if t in d.history && cmd.t != t then d.history[t].fired else 0)
    {
      if t != cmd.t && t in d.history {
        assert Advances(Record(d.history, r), Record(e.history, q), t);
      }
    }
  }

  lemma {:induction false} FollowsOn(d: Desk, events: seq<Event>, i: nat, marks: seq<multiset<Id>>, mid: Desk, e: Desk, q: multiset<Id>, t: Id)
    requires i < |events| && |marks| == i + 1 && t in d.timers
    requires Follows(d, events[..i], marks, mid, t) && Turned(mid, marks[i], events[i], e, q)
    ensures Follows(d, events[..i + 1], marks + [q], e, t)
  {
    assert events[..i + 1][..i] == events[..i] && events[..i + 1][i] == events[i];
    var more := marks + [q];
    assert forall j :: 0 <= j <= i ==> more[j] == marks[j];
  }

  ghost predicate AllFollow(d: Desk, events: seq<Event>, marks: seq<multiset<Id>>, e: Desk) {
    |marks| == |events| + 1 && forall t <- d.timers :: Follows(d, events, marks, e, t)
  }

  lemma {:induction false} AllFollowOn(d: Desk, events: seq<Event>, i: nat, marks: seq<multiset<Id>>, mid: Desk, e: Desk, q: multiset<Id>)
    requires i < |events| && AllFollow(d, events[..i], marks, mid) && Turned(mid, marks[i], events[i], e, q)
    ensures AllFollow(d, events[..i + 1], marks + [q], e)
  {
    forall t | t in d.timers ensures Follows(d, events[..i + 1], marks + [q], e, t) {
      FollowsOn(d, events, i, marks, mid, e, q, t);
    }
  }

  /** Exact expirations, for one timer: when the daemon blocks at time n, a timer whose last
      order was to start at c with period p has run its callback exactly floor((n - c) / p)
      times since if it reloads itself, and the minimum of that and one if it does not; a
      timer last stopped has not run since. */
  ghost predicate ServedExactly(d: Desk, events: seq<Event>, marks: seq<multiset<Id>>, n: int, t: Id)
    requires t in d.timers && |marks| == |events| + 1
  {
    var o := OrdersAfter(OrdersOf(d, t), events, t);
    match o.start
    case None => RunsSince(d.history, events, marks, t) == 0
    case Some(c) =>
      && o.period > 0
      && RunsSince(d.history, events, marks, t) == Expected(Timer(o.period, d.timers[t].autoReload, true), c, n)
  }

  lemma {:induction false} FollowedIsServed(d: Desk, events: seq<Event>, marks: seq<multiset<Id>>, e: Desk, t: Id)
    requires t in d.timers && |marks| == |events| + 1 && Follows(d, events, marks, e, t) && AllExact(e)
    ensures ServedExactly(d, events, marks, e.clock, t)
  {
  }

  /** The last `k` of the first `i` events are wake-ups at one and the same time. */
  ghost predicate Repeats(events: seq<Event>, i: nat, k: nat) {
    0 < k <= i <= |events| && events[i - 1].Wake? && forall j :: i - k <= j < i ==> events[j] == events[i - 1]
  }

  /** No more than `streak` of them are. */
  ghost predicate Streak(events: seq<Event>, i: nat, streak: nat) {
    && streak <= i <= |events|
    && (streak == 0 < i ==> !events[i - 1].Wake?)
    && (0 < streak < i ==> events[i - streak - 1] != events[i - 1])
  }

  /** Repeated wake-ups either have come to a block or leave fewer and fewer timers overdue. */
  ghost predicate Settling(events: seq<Event>, i: nat, streak: nat, most: nat, blocked: bool, overdue: nat) {
    && Streak(events, i, streak)
    && (streak > 0 ==> if blocked then overdue == 0 else overdue + streak <= most + 1)
  }

  /** The streak after one more event. */
  function Longer(events: seq<Event>, i: nat, streak: nat): nat
    requires i < |events|
  {
    if !events[i].Wake? then 0 else if i > 0 && events[i] == events[i - 1] then streak + 1 else 1
  }

  lemma {:induction false} SettlingOn(events: seq<Event>, i: nat, streak: nat, most: nat, stood: bool, before: nat, blocked: bool, after: nat)
    requires i < |events| && Settling(events, i, streak, most, stood, before) && after <= most && (blocked ==> after == 0)
    requires i > 0 && events[i] == events[i - 1] && events[i].Wake? && !blocked ==> after < before
    ensures Settling(events, i + 1, Longer(events, i, streak), most, blocked, after)
  {
  }

  /** More wake-ups at one time than there are timers, by two, have come to a block. */
  lemma {:induction false} SettledAtLast(events: seq<Event>, i: nat, streak: nat, most: nat, blocked: bool, overdue: nat)
    requires Settling(events, i, streak, most, blocked, overdue) && Repeats(events, i, most + 2)
    ensures blocked
  {
    assert streak < i ==> streak == 0 || events[i - streak - 1] != events[i - 1];
  }

  lemma {:induction false} FollowsAtFirst(d: Desk, r: multiset<Id>)
    ensures AllFollow(d, [], [r], d)
  {
  }

  lemma {:induction false} AllServed(d: Desk, events: seq<Event>, marks: seq<multiset<Id>>, e: Desk)
    requires AllFollow(d, events, marks, e) && AllExact(e)
    ensures forall t <- d.timers :: ServedExactly(d, events, marks, e.clock, t)
  {
    forall t | t in d.timers ensures ServedExactly(d, events, marks, e.clock, t) {
      FollowedIsServed(d, events, marks, e, t);
    }
  }

  class Daemon {
    var timers: map<Id, Timer>
    var current: seq<Item>
    var overflow: seq<Item>
    var lastTime: Tick
    var ran: multiset<Id>
    ghost var history: map<Id, History>
    ghost var epoch: int
    ghost var clock: int

    ghost function View(): Desk
      reads this
    {
      Desk(timers, history, current, overflow, epoch, clock)
    }

    ghost function Rec(): Record
      reads this
    {
      Record(history, ran)
    }

    ghost function Both(): Lists
      reads this`current, this`overflow
    {
      Lists(current, overflow)
    }

    ghost predicate Valid()
      reads this
    {
      Books(View(), {}) && lastTime == Wrapped(clock)
    }

    constructor ()
      ensures Valid() && timers == map[]
    {
      timers, current, overflow, lastTime, ran := map[], [], [], 0, multiset{};
      history, epoch, clock := map[], 0, 0;
    }

    /** prvInsertTimerInActiveList. */
    method InsertTimerInActiveList(t: Id, next: Tick, now: Tick, command: Tick, ghost c: int)
      returns (processNow: bool)
      requires t in timers && timers[t].period > 0 && c <= clock < c + WRAP
      requires Epoch(epoch) <= clock < Epoch(epoch + 1)
      requires next == Wrapped(c + timers[t].period) && now == Wrapped(clock) && command == Wrapped(c)
      modifies this`current, this`overflow
      ensures processNow <==> c + timers[t].period <= clock
      ensures processNow ==> Both() == old(Both())
      ensures !processNow ==> Both() == Listing(old(Both()), epoch, t, c + timers[t].period)
    {
      DecisionIsExact(c, clock, timers[t].period, epoch);
      processNow := false;
      if next <= now {
        if Wrapped(now - command) >= timers[t].period {
          processNow := true;
        } else {
          overflow := Insert(overflow, Item(t, next));
        }
      } else {
        if now < command && next >= command {
          processNow := true;
        } else {
          current := Insert(current, Item(t, next));
        }
      }
    }

    /** The user's callback, seen as one more run. */
    method Callback(t: Id)
      requires t in history
      modifies this`history, this`ran
      ensures history == old(history)[t := Fire(old(history[t]))] && ran == old(ran)[t := old(ran)[t] + 1]
    {
      history := history[t := Fire(history[t])];
      ran := ran[t := ran[t] + 1];
    }
  
    /** One turn of the reload loop's condition: list the timer one period after `e`. */
    method ListNext(t: Id, e: Tick, now: Tick, ghost due: int) returns (again: bool)
      requires t in timers && timers[t].period > 0 && due <= clock < due + WRAP
      requires Epoch(epoch) <= clock < Epoch(epoch + 1) && now == Wrapped(clock) && e == Wrapped(due)
      modifies this`current, this`overflow
      ensures again <==> due + timers[t].period <= clock
      ensures Both() == if again then old(Both()) else Listing(old(Both()), epoch, t, due + timers[t].period)
    {
      WrappedSum(due, timers[t].period);
      again := InsertTimerInActiveList(t, Wrapped(e + timers[t].period), now, e, due);
    }

    /** One turn of the reload loop: the callback for the period just passed, then the next. */
    method NextPeriod(t: Id, e: Tick, now: Tick, ghost due: int) returns (later: Tick, again: bool)
      requires t in timers && timers[t].period > 0 && t in history && due + timers[t].period <= clock < due + WRAP
      requires Epoch(epoch) <= clock < Epoch(epoch + 1) && now == Wrapped(clock) && e == Wrapped(due)
      modifies this`current, this`overflow, this`history, this`ran
      ensures history == old(history)[t := Fire(old(history[t]))] && ran == old(ran)[t := old(ran)[t] + 1]
      ensures later == Wrapped(due + timers[t].period)
      ensures again <==> due + 2 * timers[t].period <= clock
      ensures Both() == if again then old(Both()) else Listing(old(Both()), epoch, t, due + 2 * timers[t].period)
    {
      WrappedSum(due, timers[t].period);
      later := Wrapped(e + timers[t].period);
      Callback(t);
      again := ListNext(t, later, now, due + timers[t].period);
    }

    /** prvReloadTimer: run the callback once for every period that has already passed,
        then list the timer for the next one. */
    method ReloadTimer(t: Id, expired: Tick, now: Tick)
      requires t in timers && timers[t].period > 0 && t in history && Epoch(epoch) <= clock < Epoch(epoch + 1)
      requires expired == Wrapped(Due(history[t], timers[t].period)) && now == Wrapped(clock)
      requires Due(history[t], timers[t].period) <= clock < Due(history[t], timers[t].period) + WRAP
      modifies this`current, this`overflow, this`history, this`ran
      ensures t in history && history == old(history)[t := history[t]]
      ensures history[t].start == old(history[t].start) && history[t].fired >= old(history[t].fired)
      ensures ran == old(ran)[t := old(ran)[t] + (history[t].fired - old(history[t].fired))]
      ensures Due(history[t], timers[t].period) <= clock < Due(history[t], timers[t].period) + timers[t].period
      ensures Both() == Listing(old(Both()), epoch, t, Due(history[t], timers[t].period) + timers[t].period)
    {
      var period: int, e: int := timers[t].period, expired;
      ghost var h, l, due := history, Both(), Due(history[t], period);
      var again := ListNext(t, e, now, due);
      while again
        invariant t in history && history == h[t := history[t]]
        invariant history[t].start == h[t].start && history[t].fired >= h[t].fired
        invariant ran == old(ran)[t := old(ran)[t] + (history[t].fired - h[t].fired)]
        invariant due == Due(history[t], period) && e == Wrapped(due)
        invariant due <= clock < due + WRAP
        invariant again <==> due + period <= clock
        invariant Both() == if again then l else Listing(l, epoch, t, due + period)
        decreases clock - due
      {
        DueAfterFiring(history[t], period);
        e, again := NextPeriod(t, e, now, due);
        due := due + period;
      }
    }
  
    /** An auto-reload timer catches up, goes back on a list, and its callback runs for the
        expiry in hand. */
    method CatchUp(t: Id, expired: Tick, now: Tick)
      requires t in timers && timers[t].period > 0 && t in history && Epoch(epoch) <= clock < Epoch(epoch + 1)
      requires expired == Wrapped(Due(history[t], timers[t].period)) && now == Wrapped(clock)
      requires Due(history[t], timers[t].period) <= clock < Due(history[t], timers[t].period) + WRAP
      modifies this`current, this`overflow, this`history, this`ran
      ensures t in history && history == old(history)[t := history[t]]
      ensures history[t].start == old(history[t].start) && history[t].fired > old(history[t].fired)
      ensures ran == old(ran)[t := old(ran)[t] + (history[t].fired - old(history[t].fired))]
      ensures Due(history[t], timers[t].period) - timers[t].period <= clock < Due(history[t], timers[t].period)
      ensures Both() == Listing(old(Both()), epoch, t, Due(history[t], timers[t].period))
      ensures Relisted(old(current), current, clock - Epoch(epoch))
    {
      ReloadTimer(t, expired, now);
      DueAfterFiring(history[t], timers[t].period);
      Callback(t);
      ListedAhead(old(Both()), epoch, clock, t, Due(history[t], timers[t].period));
    }

    /** Timer `t`, on no list, has expired and its callback for that is still to run. */
    ghost predicate Expired(t: Id, expired: Tick, now: Tick, flight: set<Id>)
      reads this
    {
      && Books(View(), flight) && t in flight && t in history && timers[t].active
      && (!timers[t].autoReload ==> history[t].fired == 0)
      && now == Wrapped(clock)
      && var due := Due(history[t], timers[t].period);
      && expired == Wrapped(due) && due <= clock < due + WRAP
    }

    method ExpireReloading(t: Id, expired: Tick, now: Tick, ghost flight: set<Id>)
      requires Expired(t, expired, now, flight) && timers[t].autoReload
      modifies this`current, this`overflow, this`history, this`ran
      ensures ran[t] > old(ran)[t] && Relisted(old(current), current, clock - Epoch(epoch))
      ensures Quiet(flight - {t}, old(ran), ran)
      ensures Books(View(), flight - {t}) && Progress(old(Rec()), Rec())
    {
      ghost var d := View();
      CatchUp(t, expired, now);
      RanOn(old(Rec()), t, history[t]);
      Landed(d, flight, t, timers[t], history[t]);
      assert View() == Placed(d, t, timers[t], history[t]);
    }

    /** A one-shot timer becomes inactive. */
    method ExpireOnce(t: Id, expired: Tick, now: Tick, ghost flight: set<Id>)
      requires Expired(t, expired, now, flight) && !timers[t].autoReload
      modifies this`timers, this`history, this`ran
      ensures ran[t] > old(ran)[t]
      ensures Quiet(flight - {t}, old(ran), ran)
      ensures Books(View(), flight - {t}) && Progress(old(Rec()), Rec()) && SameSettings(old(timers), timers)
    {
      ghost var d := View();
      DueAfterFiring(history[t], timers[t].period);
      timers := timers[t := timers[t].(active := false)];
      Callback(t);
      Retired(d, flight, t, timers[t], history);
      assert View() == d.(timers := d.timers[t := timers[t]], history := history);
    }

    method Expire(t: Id, expired: Tick, now: Tick, ghost flight: set<Id>)
      requires Expired(t, expired, now, flight)
      modifies this`timers, this`current, this`overflow, this`history, this`ran
      ensures ran[t] > old(ran)[t] && Relisted(old(current), current, clock - Epoch(epoch))
      ensures Quiet(flight - {t}, old(ran), ran)
      ensures Books(View(), flight - {t}) && Progress(old(Rec()), Rec()) && SameSettings(old(timers), timers)
    {
      if timers[t].autoReload {
        ExpireReloading(t, expired, now, flight);
      } else {
        ExpireOnce(t, expired, now, flight);
      }
    }

    /** prvProcessExpiredTimer: the timer at the head has run and is no longer overdue. */
    method ProcessExpiredTimer(next: Tick, now: Tick, ghost flight: set<Id>)
      requires Books(View(), flight) && current != [] && next == current[0].value
      requires now == Wrapped(clock) && Epoch(epoch) + next <= clock
      modifies this`timers, this`current, this`overflow, this`history, this`ran
      ensures ran[old(current[0].owner)] > old(ran)[old(current[0].owner)]
      ensures Relisted(old(current[1..]), current, clock - Epoch(epoch))
      ensures Books(View(), flight)
      ensures Quiet(flight, old(ran), ran)
      ensures Progress(old(Rec()), Rec()) && SameSettings(old(timers), timers)
    {
      var t := current[0].owner;
      HeadExpired(View(), flight);
      current := current[1..];
      Expire(t, next, now, flight + {t});
      assert flight + {t} - {t} == flight;
    }

    /** One turn of the loop that empties the list of the old epoch. */
    method ServeHead(ghost flight: set<Id>, ghost all: seq<Item>, ghost k: nat, ghost start: Record)
      requires Books(View(), flight) && clock == Epoch(epoch + 1) - 1 && k < |all| && current == all[k..]
      requires HaveRun(all, k, start, Rec())
      modifies this`timers, this`current, this`overflow, this`history, this`ran
      ensures Books(View(), flight) && current == all[k + 1..] && HaveRun(all, k + 1, start, Rec())
      ensures SameSettings(old(timers), timers) && Quiet(flight, old(ran), ran)
    {
      Residue(clock, epoch);
      assert current[0] in current && Listed(current[0], epoch, timers, history, flight);
      ProcessExpiredTimer(current[0].value, MAX_DELAY, flight);
      MoreHaveRun(all, k, start, old(Rec()), Rec());
    }

    /** prvSwitchTimerLists: everything still due in the old epoch is processed as of its
        last tick, then the lists are exchanged. */
    method SwitchTimerLists(ghost flight: set<Id>)
      requires Books(View(), flight) && clock == Epoch(epoch + 1) - 1
      modifies this`timers, this`current, this`overflow, this`history, this`ran
      ensures Books(View().(current := [], overflow := current), flight) && overflow == []
      ensures Quiet(flight, old(ran), ran)
      ensures Progress(old(Rec()), Rec()) && SameSettings(old(timers), timers)
      ensures old(current) == [] ==> current == old(overflow)
      ensures forall e <- old(current) :: ran[e.owner] > old(ran)[e.owner]
    {
      Residue(clock, epoch);
      ghost var k: nat := 0;
      while current != []
        invariant Books(View(), flight) && SameSettings(old(timers), timers) && Quiet(flight, old(ran), ran)
        invariant old(current) == [] ==> current == [] && overflow == old(overflow)
        invariant k <= |old(current)| && current == old(current)[k..]
        invariant HaveRun(old(current), k, old(Rec()), Rec())
        decreases |current|
      {
        ServeHead(flight, old(current), k, old(Rec()));
        k := k + 1;
      }
      current, overflow := overflow, current;
    }
  
    /** prvSampleTimeNow at unbounded time `n`.  While timers are active the samples must
        be less than one wrap apart. */
    method SampleTimeNow(n: int, ghost flight: set<Id>) returns (now: Tick, switched: bool)
      requires Books(View(), flight) && lastTime == Wrapped(clock)
      requires clock <= n && (n < clock + WRAP || (current == [] && overflow == []))
      modifies this
      ensures Books(View(), flight) && clock == n && now == Wrapped(n) && lastTime == now
      ensures Quiet(flight, old(ran), ran)
      ensures Progress(old(Rec()), Rec()) && SameSettings(old(timers), timers)
      ensures switched <==> now < old(lastTime)
      ensures !switched ==> Both() == old(Both()) && timers == old(timers) && Rec() == old(Rec())
      ensures !switched && old(current) != [] ==> epoch == old(epoch)
      ensures switched ==> forall e <- old(current) :: ran[e.owner] > old(ran)[e.owner]
    {
      now := Wrapped(n);
      ghost var k := n / 0x1_0000_0000;
      EpochOf(n, clock, k, epoch);
      if now < lastTime {
        BringForward(n, k, flight);
        switched := true;
      } else {
        switched := false;
        if k == epoch {
          Advanced(View(), flight, n);
        } else {
          Idled(View(), flight, k, n);
        }
        epoch, clock := k, n;
      }
      lastTime := now;
    }

    /** The tick count has wrapped since the last sample. */
    method BringForward(ghost n: int, ghost k: int, ghost flight: set<Id>)
      requires Books(View(), flight) && Epoch(k) <= n < Epoch(k + 1)
      requires k == epoch + 1 || (k > epoch && current == [] && overflow == [])
      modifies this`timers, this`current, this`overflow, this`history, this`ran, this`epoch, this`clock
      ensures Books(View(), flight) && clock == n
      ensures Quiet(flight, old(ran), ran)
      ensures Progress(old(Rec()), Rec()) && SameSettings(old(timers), timers)
      ensures forall e <- old(current) :: ran[e.owner] > old(ran)[e.owner]
    {
      Advanced(View(), flight, Epoch(epoch + 1) - 1);
      clock := Epoch(epoch + 1) - 1;
      SwitchTimerLists(flight);
      ghost var d := View().(current := [], overflow := current);
      if k == epoch + 1 {
        Exchanged(d, flight, n);
      } else {
        Idled(d, flight, k, n);
      }
      epoch, clock := k, n;
    }
  
    /** prvGetNextExpireTime: the time of the next expiry in the current epoch, or that of the
        next wrap, so no active timer is due before it. */
    method GetNextExpireTime() returns (next: Tick, wasEmpty: bool)
      requires Valid()
      ensures wasEmpty <==> current == []
      ensures next == if current == [] then 0 else current[0].value
      ensures forall t <- timers :: timers[t].active ==>
        t in history && Epoch(if wasEmpty then epoch + 1 else epoch) + next <= Due(history[t], timers[t].period)
    {
      forall t | t in timers && timers[t].active
        ensures t in history && Epoch(if current == [] then epoch + 1 else epoch) + NextExpiry(View()) <= Due(history[t], timers[t].period)
      {
        NothingDueBefore(View(), t);
      }
      wasEmpty := current == [];
      next := if wasEmpty then 0 else current[0].value;
    }

    /** prvProcessTimerOrBlockTask at unbounded time `n`: a timer that is due runs, and a call
        that neither blocks nor finds the tick count wrapped has run one. */
    method ProcessTimerOrBlockTask(next: Tick, wasEmpty: bool, n: int)
      returns (blocked: bool, wait: Tick, indefinitely: bool)
      requires Valid() && clock <= n && (n < clock + WRAP || (current == [] && overflow == []))
      requires wasEmpty <==> current == []
      requires next == if current == [] then 0 else current[0].value
      modifies this
      ensures Valid() && clock == n
      ensures Progress(old(Rec()), Rec()) && SameSettings(old(timers), timers)
      ensures blocked ==> AllExact(View())
      ensures blocked ==> (indefinitely <==> forall t <- timers :: !timers[t].active)
      ensures blocked ==> wait == BlockTime(View()) && NothingDue(View()) && Overdue(View()) == 0
      ensures old(current) != [] && (Epoch(old(epoch)) + next <= n || (!blocked && Wrapped(n) >= old(lastTime))) ==>
        ran[old(current[0].owner)] > old(ran)[old(current[0].owner)]
      ensures !blocked && Wrapped(n) >= old(lastTime) ==> old(current) != []
      ensures !blocked && n == old(clock) ==> Overdue(View()) < old(Overdue(View()))
    {
      blocked, wait, indefinitely := false, 0, false;
      var now, switched := SampleTimeNow(n, {});
      if !switched {
        blocked, wait, indefinitely := ProcessOrBlock(next, wasEmpty, now);
      }
    }

    /** The lists have not been switched: serve the head if it is due, or block. */
    method ProcessOrBlock(next: Tick, wasEmpty: bool, now: Tick) returns (blocked: bool, wait: Tick, indefinitely: bool)
      requires Valid() && now == lastTime && (wasEmpty <==> current == [])
      requires next == if current == [] then 0 else current[0].value
      modifies this`timers, this`current, this`overflow, this`history, this`ran
      ensures Valid() && Progress(old(Rec()), Rec()) && SameSettings(old(timers), timers)
      ensures blocked ==> AllExact(View()) && wait == BlockTime(View()) && NothingDue(View()) && Overdue(View()) == 0
      ensures blocked ==> (indefinitely <==> forall t <- timers :: !timers[t].active)
      ensures blocked <==> wasEmpty || Epoch(epoch) + next > clock
      ensures !blocked ==> ran[old(current[0].owner)] > old(ran)[old(current[0].owner)]
      ensures !blocked ==> Overdue(View()) + 1 == old(Overdue(View()))
    {
      Residue(clock, epoch);
      blocked, wait, indefinitely := true, 0, false;
      if !wasEmpty && next <= now {
        ServeDue(next, now);
        blocked := false;
      } else {
        indefinitely := wasEmpty && overflow == [];
        wait := Wrapped(next - now);
        NowExact();
      }
    }

    /** The head is due: it is served, and one timer fewer is overdue. */
    method ServeDue(next: Tick, now: Tick)
      requires Valid() && current != [] && next == current[0].value && now == lastTime && Epoch(epoch) + next <= clock
      modifies this`timers, this`current, this`overflow, this`history, this`ran
      ensures Valid() && Progress(old(Rec()), Rec()) && SameSettings(old(timers), timers)
      ensures ran[old(current[0].owner)] > old(ran)[old(current[0].owner)]
      ensures Overdue(View()) + 1 == old(Overdue(View()))
    {
      ghost var d := View();
      ProcessExpiredTimer(next, now, {});
      OneFewer(d, View());
    }

    /** With nothing due every count is exact. */
    ghost method NowExact()
      requires Valid() && NothingDue(View())
      ensures AllExact(View()) && Overdue(View()) == 0
      ensures current == [] && overflow == [] <==> forall t <- timers :: !timers[t].active
    {
      forall t | t in history ensures t in timers && Exact(timers[t], history[t], clock) {
        CallbacksExact(View(), t);
      }
      SomeActive(View());
      NobodyBehind(current, clock - Epoch(epoch));
    }

    /** Start or restart, the timer being on no list. */
    method StartTimer(t: Id, value: Tick, now: Tick, ghost issued: int)
      requires Books(View(), {t}) && issued <= clock < issued + WRAP
      requires value == Wrapped(issued) && now == Wrapped(clock)
      modifies this`timers, this`current, this`overflow, this`history, this`ran
      ensures Books(View(), {}) && SameSettings(old(timers), timers)
      ensures t in history && history[t].start == issued && old(ran)[t] + history[t].fired == ran[t]
      ensures OthersProgress(old(Rec()), Rec(), t)
    {
      Mark(t, timers[t].(active := true), issued);
      ListStarted(t, value, now, issued);
      StartedFrom(old(Rec()), t, issued, Rec());
    }

    method ListStarted(t: Id, value: Tick, now: Tick, ghost issued: int)
      requires Books(View(), {t}) && issued <= clock < issued + WRAP
      requires timers[t].active && t in history && history[t] == History(issued, 0)
      requires value == Wrapped(issued) && now == Wrapped(clock)
      modifies this`timers, this`current, this`overflow, this`history, this`ran
      ensures Books(View(), {}) && SameSettings(old(timers), timers) && Progress(old(Rec()), Rec())
    {
      assert {t} - {t} == {};
      FirstDue(issued, timers[t].period);
      var processNow := ListUnlessDue(t, value, now, issued);
      if processNow {
        Expire(t, Wrapped(value + timers[t].period), now, {t});
      }
    }

    /** A started timer that is not due yet goes on its list. */
    method ListUnlessDue(t: Id, value: Tick, now: Tick, ghost issued: int) returns (processNow: bool)
      requires Books(View(), {t}) && issued <= clock < issued + WRAP
      requires timers[t].active && t in history && history[t] == History(issued, 0)
      requires value == Wrapped(issued) && now == Wrapped(clock)
      modifies this`current, this`overflow
      ensures processNow <==> issued + timers[t].period <= clock
      ensures if processNow then View() == old(View()) else Books(View(), {})
    {
      ghost var d := View();
      processNow := ListNext(t, value, now, issued);
      if !processNow {
        LandedAsIs(d, {t}, t);
        assert {t} - {t} == {};
      }
    }

    method Mark(t: Id, timer: Timer, ghost start: int)
      requires Books(View(), {t}) && timer.period > 0
      modifies this`timers, this`history
      ensures Books(View(), {t})
      ensures timers == old(timers)[t := timer] && history == old(history)[t := History(start, 0)]
    {
      Rewritten(View(), {t}, t, timer, History(start, 0));
      timers := timers[t := timer];
      history := history[t := History(start, 0)];
    }

    /** A timer started at the very time of the sample cannot be due. */
    method ListFresh(t: Id, now: Tick)
      requires Books(View(), {t}) && timers[t].active && t in history && history[t] == History(clock, 0)
      requires now == Wrapped(clock)
      modifies this`current, this`overflow
      ensures Books(View(), {})
    {
      var processNow := ListUnlessDue(t, now, now, clock);
    }

    method ChangeTimerPeriod(t: Id, period: Tick, now: Tick)
      requires Books(View(), {t}) && period > 0 && now == Wrapped(clock)
      modifies this`timers, this`current, this`overflow, this`history, this`ran
      ensures Books(View(), {}) && OthersProgress(old(Rec()), Rec(), t)
      ensures timers == old(timers)[t := Timer(period, old(timers[t].autoReload), true)]
      ensures t in history && history[t] == History(clock, 0) && ran == old(ran)
    {
      Mark(t, Timer(period, timers[t].autoReload, true), clock);
      ListFresh(t, now);
    }

    method StopTimer(t: Id)
      requires Books(View(), {t})
      modifies this`timers, this`history, this`ran
      ensures Books(View(), {}) && OthersProgress(old(Rec()), Rec(), t)
      ensures timers == old(timers)[t := old(timers[t]).(active := false)]
      ensures t !in history && ran == old(ran)
    {
      ghost var d := View();
      timers := timers[t := timers[t].(active := false)];
      history := history - {t};
      Retired(d, {t}, t, timers[t], history);
      assert {t} - {t} == {};
    }

    /** The timer named in a command leaves its list before the time is sampled. */
    method TakeOffList(t: Id, n: int) returns (now: Tick)
      requires Valid() && clock <= n && (n < clock + WRAP || (current == [] && overflow == [])) && t in timers
      modifies this
      ensures Books(View(), {t}) && clock == n && now == Wrapped(n) && lastTime == now && ran[t] == old(ran)[t]
      ensures Progress(old(Rec()), Rec()) && SameSettings(old(timers), timers)
    {
      Lifted(View(), {}, t);
      assert {} + {t} == {t};
      current, overflow := Drop(current, t), Drop(overflow, t);
      var switched;
      now, switched := SampleTimeNow(n, {t});
    }

    /** One command, taken off the queue and processed at unbounded time `n`
        (prvProcessReceivedCommands). */
    method ProcessCommand(cmd: Command, n: int)
      requires Valid() && clock <= n && (n < clock + WRAP || (current == [] && overflow == []))
      requires Acceptable(cmd, timers, n)
      modifies this
      ensures Valid() && clock == n && OneResettled(cmd, old(timers), timers)
      ensures Obeyed(cmd, n, old(Rec()), Rec(), timers)
    {
      var now := TakeOffList(cmd.t, n);
      ghost var mid := Rec();
      Execute(cmd, n, now);
      ObeyedFrom(cmd, n, old(Rec()), mid, Rec(), timers);
    }

    /** The switch over the command, the timer being on no list. */
    method Execute(cmd: Command, ghost n: int, now: Tick)
      requires Books(View(), {cmd.t}) && Acceptable(cmd, timers, clock) && n == clock && now == Wrapped(clock)
      modifies this`timers, this`current, this`overflow, this`history, this`ran
      ensures Books(View(), {}) && OneResettled(cmd, old(timers), timers)
      ensures Obeyed(cmd, n, old(Rec()), Rec(), timers)
    {
      match cmd {
        case Start(t, issued) => StartTimer(t, Wrapped(issued), now, issued);
        case ChangePeriod(t, period) => ChangeTimerPeriod(t, period, now);
        case Stop(t) => StopTimer(t);
        case Delete(t) => StopTimer(t);
      }
    }

    /** xTimerCreate: a new timer is dormant. */
    method CreateTimer(t: Id, period: Tick, autoReload: bool)
      requires Valid() && t !in timers && period > 0
      modifies this`timers
      ensures Valid() && timers == old(timers)[t := Timer(period, autoReload, false)]
    {
      ghost var d := View();
      timers := timers[t := Timer(period, autoReload, false)];
      forall u | u in timers ensures Settled(View(), u) {
        if u != t {
          assert Settled(d, u);
        }
      }
    }

    /** One turn of prvTimerTask's loop body, or of the command loop inside it. */
    method Turn(event: Event) returns (blocked: bool)
      requires Valid() && InTime(clock, current == [] && overflow == [], timers, event)
      modifies this
      ensures Valid() && clock == event.n && Turned(old(View()), old(ran), event, View(), ran)
      ensures blocked ==> AllExact(View()) && Overdue(View()) == 0
      ensures event == Wake(old(clock)) && !blocked ==> Overdue(View()) < old(Overdue(View()))
    {
      blocked := false;
      ghost var d := View();
      match event {
        case Wake(n) =>
          var next, wasEmpty := GetNextExpireTime();
          var wait, indefinitely;
          blocked, wait, indefinitely := ProcessTimerOrBlockTask(next, wasEmpty, n);
          WokenTurned(d, old(ran), n, View(), ran);
        case Obey(cmd, n) =>
          ProcessCommand(cmd, n);
          ObeyedTurned(d, old(ran), cmd, n, View(), ran);
      }
    }

    /** How things stand after the first `i` events of a run from `d`. */
    ghost predicate UnderWay(d: Desk, r: multiset<Id>, events: seq<Event>, i: nat, marks: seq<multiset<Id>>, streak: nat, blocked: bool, left: nat, most: nat)
      reads this
    {
      && i <= |events| && |marks| == i + 1 && marks[0] == r && Valid() && |timers.Keys| == most
      && clock == (if i == 0 then d.clock else events[i - 1].n)
      && AllFollow(d, events[..i], marks, View()) && marks[i] == ran
      && (blocked ==> AllExact(View()))
      && left == Overdue(View()) && Settling(events, i, streak, most, blocked, left)
    }

    /** One event of a run. */
    method Handle(events: seq<Event>, i: nat, now: int, ghost d: Desk, ghost r: multiset<Id>, ghost marks: seq<multiset<Id>>, ghost streak: nat, ghost stood: bool, ghost left: nat, ghost most: nat)
      returns (blocked: bool, later: int, ghost more: seq<multiset<Id>>, ghost fewer: nat)
      requires i < |events| && UnderWay(d, r, events, i, marks, streak, stood, left, most) && now == clock
      requires InTime(now, current == [] && overflow == [], timers, events[i])
      modifies this
      ensures UnderWay(d, r, events, i + 1, more, Longer(events, i, streak), blocked, fewer, most) && later == clock
    {
      ghost var mid := View();
      blocked := Turn(events[i]);
      later, more, fewer := events[i].n, marks + [ran], Overdue(View());
      AllFollowOn(d, events, i, marks, mid, View(), ran);
      CurrentFits(View());
      SettlingOn(events, i, streak, most, stood, left, blocked, fewer);
    }

    /** prvTimerTask over any run, for as long as the events come in time.  The records follow
        the commands, and whenever the run ends in the daemon blocking every timer that the
        commands have left started has run its callback exactly as often as it should have.
        Woken often enough at one time, it does block: once for every timer there is and twice
        more suffices. */
    method TimerTask(events: seq<Event>, start: int)
      returns (handled: nat, blocked: bool, ghost marks: seq<multiset<Id>>)
      requires Valid() && clock == start
      modifies this
      ensures Valid() && handled <= |events|
      ensures clock == if handled == 0 then start else events[handled - 1].n
      ensures handled < |events| ==> !InTime(clock, current == [] && overflow == [], timers, events[handled])
      ensures |marks| == handled + 1 && marks[0] == old(ran) && marks[handled] == ran
      ensures AllFollow(old(View()), events[..handled], marks, View())
      ensures blocked ==> forall t <- old(timers) :: ServedExactly(old(View()), events[..handled], marks, clock, t)
      ensures Repeats(events, handled, |old(timers).Keys| + 2) ==> blocked
    {
      ghost var d := View();
      FollowsAtFirst(d, ran);
      ghost var streak, left;
      handled, blocked, marks, streak, left := HandleAll(events, start, d, |timers.Keys|);
      if Repeats(events, handled, |d.timers.Keys| + 2) {
        SettledAtLast(events, handled, streak, |d.timers.Keys|, blocked, left);
      }
      if blocked {
        AllServed(d, events[..handled], marks, View());
      }
    }

    /** The endless loop of prvTimerTask, left at the first event that does not come in time. */
    method HandleAll(events: seq<Event>, start: int, ghost d: Desk, ghost most: nat)
      returns (handled: nat, blocked: bool, ghost marks: seq<multiset<Id>>, ghost streak: nat, ghost left: nat)
      requires UnderWay(d, ran, events, 0, [ran], 0, false, Overdue(View()), most) && clock == start
      modifies this
      ensures UnderWay(d, old(ran), events, handled, marks, streak, blocked, left, most)
      ensures handled < |events| ==> !InTime(clock, current == [] && overflow == [], timers, events[handled])
    {
      handled, blocked, marks, streak, left := 0, false, [ran], 0, Overdue(View());
      var now := start;
      while handled < |events| && InTime(now, current == [] && overflow == [], timers, events[handled])
        invariant UnderWay(d, old(ran), events, handled, marks, streak, blocked, left, most) && now == clock
        decreases |events| - handled
      {
        blocked, now, marks, left := Handle(events, handled, now, d, old(ran), marks, streak, blocked, left, most);
        handled, streak := handled + 1, Longer(events, handled, streak);
      }
    }
  }
}
