/** One timer seen on its own: an absolute deadline, and at most one request that
    waits for the next tick. */
module FlatTimer {
  import Arith

  datatype Deadline = Never | At(time: int)

  datatype Request = NoRequest | Arm(ticks: int) | Drop

  datatype Timer = Freed | Timer(due: Deadline, every: int, recurring: bool, request: Request)

  predicate Fires(t: Timer, now: int) {
    t.Timer? && t.due == At(now)
  }

  // A timer that fires is due again, or never.
  function Fire(t: Timer, now: int): Timer
    requires t.Timer?
  {
    t.(due := if t.recurring then At(now + t.every) else Never)
  }

  // The request takes effect at the end of the tick.
  function Absorb(t: Timer, now: int): Timer
    requires t.Timer?
  {
    match t.request
    case NoRequest => t
    case Arm(k) => t.(due := At(now + k), every := k, request := NoRequest)
    case Drop => Freed
  }

  function Tick(t: Timer, now: int): Timer {
    if t.Freed? then Freed else Absorb(if Fires(t, now) then Fire(t, now) else t, now)
  }

  // The timer after `n` more ticks without requests, the clock standing at `now`.
  function After(t: Timer, now: int, n: nat): Timer {
    if n == 0 then t else Tick(After(t, now, n - 1), now + n)
  }

  // Does the timer fire at the n-th tick from `now` on?
  predicate FiresAfter(t: Timer, now: int, n: nat) {
    1 <= n && Fires(After(t, now, n - 1), now + n)
  }

  /** A timer armed for `k` ticks in the tick at `now` fires `k` ticks later:
      once if it is one-shot, every `k` ticks if it recurs, and at no other tick. */
  lemma FiresOnTime(t: Timer, now: int, k: nat, n: nat)
    requires t.Timer? && t.request == Arm(k) && 1 <= k && 1 <= n
    ensures FiresAfter(Tick(t, now), now, n) <==> if t.recurring then n % k == 0 else n == k
  {
    Course(Tick(t, now), now, k, n - 1);
    NextMultiple(n, k);
    if !t.recurring && n - 1 < k {
      Arith.Quotient(n - 1, 0, k);
    }
  }

  lemma {:induction false} Course(t: Timer, now: int, k: nat, n: nat)
    requires t.Timer? && t.request == NoRequest && t.due == At(now + k) && t.every == k && 1 <= k
    ensures After(t, now, n) ==
      if t.recurring then t.(due := At(now + (n / k + 1) * k))
      else if n < k then t else t.(due := Never)
  {
    if n == 0 {
      assert (0 / k + 1) * k == k;
    } else {
      Course(t, now, k, n - 1);
      NextMultiple(n, k);
      var m := (n - 1) / k + 1;
      assert (m + 1) * k == m * k + k;
      assert (n / k + 1) * k == if n == m * k then n + k else m * k;
    }
  }

  /** Until its deadline a timer without a request stays as it is, so the time
      left is positive and drops by one tick per tick. */
  lemma {:induction false} Waits(t: Timer, now: int, d: int, n: nat)
    requires t.Timer? && t.request == NoRequest && t.due == At(d) && n < d - now
    ensures After(t, now, n) == t && After(t, now, n).due.time - (now + n) == (d - now) - n > 0
    ensures !FiresAfter(t, now, n)
  {
    if n > 0 {
      Waits(t, now, d, n - 1);
    }
  }

  // One tick more, seen from its end and from its start.
  lemma {:induction false} Later(t: Timer, now: int, n: nat)
    ensures After(t, now, n + 1) == After(Tick(t, now + 1), now + 1, n)
    ensures n > 0 ==> FiresAfter(t, now, n + 1) == FiresAfter(Tick(t, now + 1), now + 1, n)
  {
    if n > 0 {
      Later(t, now, n - 1);
    }
  }

  lemma AtOnce(t: Timer, now: int)
    ensures After(t, now, 0) == t
  {
  }

  // The same for a timer about to be armed, up to the `m`-th tick after that and the next.
  lemma OnTime(t: Timer, now: int, k: nat, m: nat)
    requires t.Timer? && t.request == Arm(k) && 1 <= k && 1 <= m
    ensures forall n | 2 <= n <= m + 1 ::
      FiresAfter(t, now, n) <==> if t.recurring then (n - 1) % k == 0 else n - 1 == k
    ensures After(t, now, m).Timer? && FiresAfter(t, now, 1) == Fires(t, now + 1)
    ensures Fires(After(t, now, m), now + m + 1) <==> if t.recurring then m % k == 0 else m == k
  {
    Later(t, now, m - 1);
    Keeps(t, now + 1, k, m - 1);
    forall n | 2 <= n <= m + 1
      ensures FiresAfter(t, now, n) <==> if t.recurring then (n - 1) % k == 0 else n - 1 == k
    {
      Later(t, now, n - 1);
      FiresOnTime(t, now + 1, k, n - 1);
    }
    assert FiresAfter(t, now, m + 1) == Fires(After(t, now, m), now + m + 1);
    AtOnce(t, now);
  }

  // A timer without a request to drop it is there after the tick, and still without one.
  lemma Stays(t: Timer, now: int)
    requires t.Timer? && !t.request.Drop?
    ensures Tick(t, now).Timer? && Tick(t, now).request == NoRequest && Tick(t, now).recurring == t.recurring
  {
  }

  // One armed stays without a request, however many ticks later.
  lemma {:induction false} Keeps(t: Timer, now: int, k: nat, n: nat)
    requires t.Timer? && t.request == Arm(k)
    ensures var u := After(Tick(t, now), now, n); u.Timer? && u.request == NoRequest
  {
    if n > 0 {
      Keeps(t, now, k, n - 1);
    }
  }

  /** A timer asked to be dropped may fire in the tick that takes the request, if it is
      due then; it never fires afterwards, and does not come back. */
  lemma {:induction false} StaysAway(t: Timer, now: int, n: nat)
    requires t.Timer? && t.request == Drop
    ensures After(Tick(t, now), now, n) == Freed && !FiresAfter(Tick(t, now), now, n)
  {
    if n > 0 {
      StaysAway(t, now, n - 1);
    }
  }

  // The multiples of `k` seen from `n - 1` and from `n`.
  lemma NextMultiple(n: nat, k: nat)
    requires 1 <= k && 1 <= n
    ensures n == ((n - 1) / k + 1) * k <==> n % k == 0
    ensures n / k == (n - 1) / k + if n % k == 0 then 1 else 0
  {
    var q := (n - 1) / k;
    assert n - 1 == q * k + (n - 1) % k;
    assert (q + 1) * k == q * k + k;
    Arith.Quotient(n, if n == q * k + k then q + 1 else q, k);
  }
}

/** The timing wheel of libtimer/WheelTimer.c. */
module WheelTimer {
  import Arith
  import opened FlatTimer

  datatype Opcode = Create | Resched | Delete | Scheduled

  class Elem {
    var opcode: Opcode
    var interval: int
    var newInterval: int
    var cycle: int
    var slot: int
    const recurring: bool
    // The absolute slot, cycle * wheel size + slot, while the element is queued.
    ghost var due: int

    constructor (recurring: bool)
      ensures this.recurring == recurring && opcode == Create && interval == 0
    {
      this.recurring := recurring;
      opcode, interval, newInterval, cycle, slot := Create, 0, 0, 0, 0;
    }
  }

  function Following(s: seq<Elem>, x: Elem): Elem?
  {
    if s == [] then null else if s[0] == x then (if |s| > 1 then s[1] else null) else Following(s[1..], x)
  }

  class Wheel {
    const size: nat
    const clk: nat
    var tic: int
    var cycle: int
    var slots: seq<seq<Elem>>
    var resched: seq<Elem>
    ghost var queued: set<Elem>
    ghost var live: set<Elem>

    // GET_WT_CURRENT_ABS_SLOT_NO.
    function Now(): int
      reads `cycle, `tic
    {
      cycle * size + tic
    }

    function Ticks(interval: int): int {
      if clk == 0 then 0 else interval / clk
    }

    // A queued element sits in its slot, and is due no earlier than `bound`.
    ghost predicate Slotted(e: Elem, bound: int)
      reads `slots, e`slot, e`cycle, e`due, e`interval
    {
      && 0 <= e.slot < |slots| && e in slots[e.slot] && e.due == e.cycle * size + e.slot
      && bound <= e.due && e.interval >= clk
    }

    // Slot `i` holds elements once each, in the order of their cycles.
    ghost predicate SlotOk(i: int)
      reads `slots, `queued, queued`slot, queued`cycle
    {
      0 <= i < |slots| ==>
        && (forall j | 0 <= j < |slots[i]| :: slots[i][j] in queued && slots[i][j].slot == i)
        && (forall j, k | 0 <= j < k < |slots[i]| :: slots[i][j] != slots[i][k])
        && (forall j, k | 0 <= j < k < |slots[i]| :: slots[i][j].cycle <= slots[i][k].cycle)
    }

    ghost predicate Slots(bound: int)
      reads `slots, `queued, queued`slot, queued`cycle, queued`due, queued`interval
    {
      && (forall i {:trigger SlotOk(i)} | 0 <= i < |slots| :: SlotOk(i))
      && (forall e {:trigger Slotted(e, bound)} | e in queued :: Slotted(e, bound))
    }

    // An element with a request is on the list of requests, once.
    ghost predicate Requested(e: Elem)
      reads `resched, e`opcode, e`newInterval
    {
      && (e in resched <==> e.opcode != Scheduled)
      && (e.opcode == Create || e.opcode == Resched ==> e.newInterval >= clk)
    }

    ghost predicate RequestsBut(but: Elem?)
      reads `resched, `live, live`opcode, live`newInterval
    {
      && (forall e {:trigger Requested(e)} | e in live && e != but :: Requested(e))
      && (forall e | e in resched :: e in live)
      && Once(resched)
    }

    static ghost predicate Once(s: seq<Elem>) {
      forall j, k | 0 <= j < k < |s| :: s[j] != s[k]
    }

    ghost predicate Clock()
      reads `cycle, `tic, `slots
    {
      1 <= clk && |slots| == size && 0 <= tic < size
    }

    ghost predicate Valid()
      reads this, live, queued
    {
      Clock() && queued <= live && Slots(Now() + 1) && RequestsBut(null)
    }

    /** The element as a timer with an absolute deadline. */
    ghost function Abs(e: Elem): Timer
      reads `queued, `live, e`due, e`interval, e`opcode, e`newInterval
    {
      if e !in live then Freed else
        Timer(if e in queued then At(e.due) else Never, Ticks(e.interval), e.recurring,
              match e.opcode
              case Create | Resched => Arm(Ticks(e.newInterval))
              case Delete => Drop
              case Scheduled => NoRequest)
    }

    constructor (size: nat, clk: nat)
      requires 1 <= size && 1 <= clk
      ensures Valid() && Now() == 0 && live == {} && this.size == size && this.clk == clk
    {
      this.size, this.clk := size, clk;
      tic, cycle := 0, 0;
      slots := seq(size, i => []);
      resched, queued, live := [], {}, {};
    }

    // ---------- slot lists ----------

    /** glthread_priority_insert with the comparison by cycle. */
    method Place(e: Elem, i: int) returns (ghost at: int)
      requires 0 <= i < |slots| && SlotOk(i) && e !in slots[i]
      modifies `slots
      ensures |slots| == |old(slots)| && forall j | 0 <= j < |slots| && j != i :: slots[j] == old(slots[j])
      ensures Inserted(old(slots[i]), slots[i], e, at)
    {
      var s := slots[i];
      var k := 0;
      while k < |s| && s[k].cycle <= e.cycle
        invariant k <= |s| && forall j | 0 <= j < k :: s[j].cycle <= e.cycle
      {
        k := k + 1;
      }
      slots := slots[i := s[..k] + [e] + s[k..]];
      assert k < |s| ==> forall j | k <= j < |s| :: s[k].cycle <= s[j].cycle;
      at := k;
    }

    static ghost predicate Inserted(was: seq<Elem>, s: seq<Elem>, e: Elem, k: int)
      reads was, e
    {
      && 0 <= k <= |was| && s == was[..k] + [e] + was[k..]
      && (forall j | 0 <= j < k :: was[j].cycle <= e.cycle)
      && (forall j | k <= j < |was| :: e.cycle < was[j].cycle)
    }

    twostate predicate Untouched(x: Elem)
      reads x
    {
      x.slot == old(x.slot) && x.cycle == old(x.cycle) && x.due == old(x.due) && x.interval == old(x.interval)
    }

    static lemma InsertedAt(was: seq<Elem>, s: seq<Elem>, e: Elem, k: int)
      requires 0 <= k <= |was| && s == was[..k] + [e] + was[k..]
      ensures |s| == |was| + 1
      ensures forall j | 0 <= j < |s| :: s[j] == if j < k then was[j] else if j == k then e else was[j - 1]
      ensures forall x :: x in s <==> x == e || x in was
    {
      assert forall j | 0 <= j < |was| :: was[j] == if j < k then s[j] else s[j + 1];
      assert s[k] == e;
    }

    // The slot that takes the element keeps its order.
    twostate lemma InsertedSlotOk(e: Elem, new k: int, new bound: int)
      requires old(Slots(bound)) && e !in old(queued) && queued == old(queued) + {e}
      requires |slots| == |old(slots)| && 0 <= e.slot < |slots| && Inserted(old(slots)[e.slot], slots[e.slot], e, k)
      requires forall x {:trigger Untouched(x)} | x in old(queued) :: Untouched(x)
      ensures SlotOk(e.slot)
    {
      hide Slots;
      WasSlotOk(e.slot, bound);
      var was, s := old(slots)[e.slot], slots[e.slot];
      InsertedAt(was, s, e, k);
      assert forall j | 0 <= j < |was| :: was[j] in old(queued) && Untouched(was[j]);
    }

    twostate lemma WasSlotOk(new i: int, new bound: int)
      requires old(Slots(bound)) && 0 <= i < |old(slots)|
      ensures old(SlotOk(i))
    {
    }

    twostate lemma WasSlotted(new x: Elem, new bound: int)
      requires old(Slots(bound)) && x in old(queued)
      ensures old(Slotted(x, bound))
    {
    }

    // A slot that has not changed.
    twostate lemma SameSlotOk(new i: int, new bound: int)
      requires old(Slots(bound)) && 0 <= i < |slots| && |slots| == |old(slots)| && slots[i] == old(slots)[i]
      requires forall x | x in slots[i] :: x in queued
      requires forall x {:trigger Untouched(x)} | x in old(queued) :: Untouched(x)
      ensures SlotOk(i)
    {
      hide Slots;
      WasSlotOk(i, bound);
      assert forall j | 0 <= j < |slots[i]| :: Untouched(slots[i][j]);
    }

    twostate lemma InsertedSlots(e: Elem, new k: int, new bound: int)
      requires old(Slots(bound)) && e !in old(queued) && queued == old(queued) + {e}
      requires |slots| == |old(slots)| && 0 <= e.slot < |slots|
      requires e.due == e.cycle * size + e.slot && bound <= e.due && e.interval >= clk
      requires forall j | 0 <= j < |slots| && j != e.slot :: slots[j] == old(slots[j])
      requires Inserted(old(slots)[e.slot], slots[e.slot], e, k)
      requires forall x {:trigger Untouched(x)} | x in old(queued) :: Untouched(x)
      ensures Slots(bound)
    {
      forall i | 0 <= i < |slots| ensures SlotOk(i) {
        hide Slots, SlotOk;
        if i == e.slot {
          InsertedSlotOk(e, k, bound);
        } else {
          Members(i, bound);
          SameSlotOk(i, bound);
        }
      }
      InsertedAt(old(slots)[e.slot], slots[e.slot], e, k);
      forall x | x in queued ensures Slotted(x, bound) {
        hide Slots, SlotOk;
        if x != e {
          WasSlotted(x, bound);
          assert Untouched(x);
        }
      }
    }

    twostate lemma Members(new i: int, new bound: int)
      requires old(Slots(bound)) && 0 <= i < |old(slots)|
      ensures forall x | x in old(slots)[i] :: x in old(queued) && old(x.slot) == i
    {
      WasSlotOk(i, bound);
    }

    lemma NotInSlot(e: Elem, i: int, bound: int)
      requires Slots(bound) && e !in queued && 0 <= i < |slots|
      ensures SlotOk(i) && e !in slots[i]
    {
      assert SlotOk(i);
    }

    // `e` goes into the slot of the tick that comes `ticks` ticks from now.
    method Insert(e: Elem, ticks: int, ghost bound: int) returns (ghost at: int)
      requires Clock() && Slots(bound) && e !in queued && e.interval >= clk && bound <= Now() + ticks
      modifies `slots, `queued, e`cycle, e`slot, e`due
      ensures Clock() && Slots(bound) && queued == old(queued) + {e} && e.due == Now() + ticks && 0 <= e.slot < |slots|
      ensures forall j | 0 <= j < |slots| && j != e.slot :: slots[j] == old(slots[j])
      ensures Inserted(old(slots)[e.slot], slots[e.slot], e, at)
    {
      hide Slots, SlotOk, Inserted;
      var next := Now() + ticks;
      e.cycle := next / size;
      e.slot := next % size;
      e.due := next;
      NotInSlot(e, e.slot, bound);
      at := Place(e, e.slot);
      queued := queued + {e};
      InsertedSlots(e, at, bound);
    }

    static ghost predicate Removed(was: seq<Elem>, s: seq<Elem>, e: Elem, k: int) {
      0 <= k < |was| && was[k] == e && s == was[..k] + was[k + 1..]
    }

    static lemma RemovedAt(was: seq<Elem>, s: seq<Elem>, e: Elem, k: int)
      requires Removed(was, s, e, k)
      ensures |s| == |was| - 1 && forall j | 0 <= j < |s| :: s[j] == if j < k then was[j] else was[j + 1]
      ensures forall x | x != e :: x in was ==> x in s
    {
      assert forall j | 0 <= j < |was| && j != k :: was[j] == if j < k then s[j] else s[j - 1];
    }

    // The slot that loses the element keeps its order.
    twostate lemma RemovedSlotOk(e: Elem, new k: int, new bound: int)
      requires old(Slots(bound)) && e in old(queued) && queued == old(queued) - {e}
      requires |slots| == |old(slots)| && 0 <= e.slot < |slots| && Removed(old(slots)[e.slot], slots[e.slot], e, k)
      requires forall x {:trigger Untouched(x)} | x in old(queued) :: Untouched(x)
      ensures SlotOk(e.slot)
    {
      hide Slots;
      WasSlotOk(e.slot, bound);
      var was, s := old(slots)[e.slot], slots[e.slot];
      RemovedAt(was, s, e, k);
      assert forall j | 0 <= j < |was| :: was[j] in old(queued) && Untouched(was[j]);
    }

    twostate lemma RemovedSlots(e: Elem, new k: int, new bound: int)
      requires old(Slots(bound)) && e in old(queued) && queued == old(queued) - {e}
      requires |slots| == |old(slots)| && 0 <= e.slot < |slots|
      requires forall j | 0 <= j < |slots| && j != e.slot :: slots[j] == old(slots[j])
      requires Removed(old(slots)[e.slot], slots[e.slot], e, k)
      requires forall x {:trigger Untouched(x)} | x in old(queued) :: Untouched(x)
      ensures Slots(bound)
    {
      assert Untouched(e);
      forall i | 0 <= i < |slots| ensures SlotOk(i) {
        hide Slots, SlotOk;
        if i == e.slot {
          RemovedSlotOk(e, k, bound);
        } else {
          Members(i, bound);
          SameSlotOk(i, bound);
        }
      }
      RemovedAt(old(slots)[e.slot], slots[e.slot], e, k);
      forall x | x in queued ensures Slotted(x, bound) {
        hide Slots, SlotOk;
        WasSlotted(x, bound);
        assert Untouched(x);
      }
    }

    lemma InSlot(e: Elem, bound: int) returns (k: int)
      requires Slots(bound) && e in queued
      ensures Slotted(e, bound) && SlotOk(e.slot) && 0 <= k < |slots[e.slot]| && slots[e.slot][k] == e
    {
      assert Slotted(e, bound) && SlotOk(e.slot);
      k :| 0 <= k < |slots[e.slot]| && slots[e.slot][k] == e;
    }

    lemma NotQueued(e: Elem, bound: int)
      requires Slots(bound) && e !in queued
      ensures 0 <= e.slot < |slots| ==> e !in slots[e.slot]
    {
      if 0 <= e.slot < |slots| { assert SlotOk(e.slot); }
    }

    // remove_glthread on the slot glue: nothing happens to an element that is not queued.
    method Unqueue(e: Elem, ghost bound: int) returns (ghost from: int)
      requires Clock() && Slots(bound)
      modifies `slots, `queued
      ensures Clock() && Slots(bound) && queued == old(queued) - {e}
      ensures e !in old(queued) ==> slots == old(slots)
      ensures e in old(queued) ==> 0 <= e.slot < |slots| && Removed(old(slots)[e.slot], slots[e.slot], e, from)
      ensures forall j | 0 <= j < |slots| && j != e.slot :: slots[j] == old(slots[j])
    {
      hide Slots, SlotOk, Slotted;
      from := 0;
      if e in queued {
        from := InSlot(e, bound);
        SlotIndex(e, bound);
      } else {
        NotQueued(e, bound);
      }
      if 0 <= e.slot < |slots| && e in slots[e.slot] {
        var s := slots[e.slot];
        var k :| 0 <= k < |s| && s[k] == e;
        from := k;
        slots := slots[e.slot := s[..k] + s[k + 1..]];
        queued := queued - {e};
        RemovedSlots(e, k, bound);
      } else {
        assert queued == queued - {e};
      }
    }

    lemma SlotIndex(e: Elem, bound: int)
      requires Slots(bound) && e in queued
      ensures 0 <= e.slot < |slots| && e in slots[e.slot] && bound <= e.due
    {
      assert Slotted(e, bound);
    }

    // The scan is at `curr`: it is due and heads the slot, or nothing there is due.
    ghost predicate AtHead(curr: Elem?)
      reads `slots, `tic, `cycle, if 0 <= tic < |slots| then slots[tic] else [], if curr == null then {} else {curr}
    {
      0 <= tic < |slots| &&
      var s := slots[tic];
      if curr != null && curr.cycle == cycle then s != [] && s[0] == curr
      else s == [] || s[0].cycle != cycle
    }

    // In the current slot the elements of the current cycle are those due now.
    lemma DueNow(e: Elem)
      requires Clock() && Slots(Now()) && e in queued
      ensures Slotted(e, Now()) && SlotOk(e.slot)
      ensures e.due == Now() <==> e.slot == tic && e.cycle == cycle
      ensures e.slot == tic ==> cycle <= e.cycle
    {
      assert Slotted(e, Now()) && SlotOk(e.slot);
      Arith.Scaled(e.cycle, cycle, size);
    }

    // Stopping at the first other cycle is sound.
    lemma NothingDue(curr: Elem?)
      requires Clock() && Slots(Now()) && AtHead(curr) && (curr == null || curr.cycle != cycle)
      ensures Slots(Now() + 1)
    {
      forall e | e in queued ensures Slotted(e, Now() + 1) {
        DueNow(e);
        var s := slots[tic];
        if e.due == Now() {
          var k :| 0 <= k < |s| && s[k] == e;
          DueNow(s[0]);
        }
      }
    }

    lemma FirstDue(bound: int)
      requires Clock() && Slots(bound) && bound == Now()
      ensures AtHead(if slots[tic] == [] then null else slots[tic][0])
    {
    }

    /** One element that is due: a one-shot leaves the wheel, a recurring one goes
        to the slot of its next deadline, which may be the slot being scanned. */
    method Visit(curr: Elem) returns (next: Elem?)
      requires Clock() && Slots(Now()) && AtHead(curr) && curr.cycle == cycle
      modifies `slots, `queued, curr`cycle, curr`slot, curr`due
      ensures Clock() && Slots(Now()) && AtHead(next)
      ensures curr in old(queued) && old(curr.due) == Now()
      ensures queued == if curr.recurring then old(queued) else old(queued) - {curr}
      ensures curr.recurring ==> curr.due == Now() + Ticks(curr.interval) && curr.due > Now()
    {
      hide Slots;
      HeadDue(curr);
      next := Following(slots[tic], curr);
      ghost var was := slots[tic];
      ghost var from := Unqueue(curr, Now());
      assert from == 0 && slots[tic] == was[1..];
      assert AtHead(next);
      if curr.recurring {
        Steps(curr.interval);
        ghost var at := Insert(curr, Ticks(curr.interval), Now());
        DueNow(curr);
      }
    }

    lemma Steps(interval: int)
      requires 1 <= clk <= interval
      ensures Ticks(interval) >= 1
    {
      Arith.Scaled(interval / clk, 1, clk);
      assert interval == interval / clk * clk + interval % clk;
    }

    lemma HeadDue(curr: Elem)
      requires Clock() && Slots(Now()) && AtHead(curr) && curr.cycle == cycle
      ensures curr in queued && curr.due == Now() && curr.slot == tic && curr.interval >= clk && SlotOk(tic)
      ensures Following(slots[tic], curr) == if |slots[tic]| > 1 then slots[tic][1] else null
    {
      assert SlotOk(tic);
      assert curr in slots[tic];
      DueNow(curr);
    }

    /** The scan of the current slot in wheel_fn. */
    method Scan() returns (fired: seq<Elem>)
      requires Clock() && Slots(Now())
      modifies `slots, `queued, queued`cycle, queued`slot, queued`due
      ensures Clock() && Slots(Now() + 1) && queued <= old(queued)
      ensures forall j, k | 0 <= j < k < |fired| :: fired[j] != fired[k]
      ensures forall e :: e in fired <==> e in old(queued) && old(e.due) == Now()
      ensures forall e | e in old(queued) && e !in fired :: e in queued && e.due == old(e.due)
      ensures forall e | e in fired :: e in queued <==> e.recurring
      ensures forall e | e in fired && e.recurring :: e.due == Now() + Ticks(e.interval)
    {
      hide Slots, AtHead;
      FirstDue(Now());
      fired := [];
      var curr := if slots[tic] == [] then null else slots[tic][0];
      ghost var todo := queued;
      while curr != null
        invariant Clock() && Slots(Now()) && AtHead(curr) && queued <= old(queued)
        invariant forall j, k | 0 <= j < k < |fired| :: fired[j] != fired[k]
        invariant forall e | e in fired :: e in old(queued)
        invariant forall e | e in old(queued) && e !in fired :: e in queued && e.due == old(e.due)
        invariant forall e | e in fired :: old(e.due) == Now() && (e.recurring || e !in queued)
        invariant forall e | e in fired && e.recurring ::
          e in queued && e.due == Now() + Ticks(e.interval) && e.due > Now()
        invariant forall e | e in old(queued) :: e in todo || e in fired
        decreases |todo|
      {
        if cycle == curr.cycle {
          HeadDue(curr);
          assert curr in old(queued) && curr !in fired;
          todo := todo - set x: Elem | x in todo && x == curr;
          var next := Visit(curr);
          fired := fired + [curr];
          assert curr in fired;
          curr := next;
        } else {
          break;
        }
      }
      NothingDue(curr);
      forall e | e in old(queued) && old(e.due) == Now() ensures e in fired {
        if e !in fired { SlotIndex(e, Now() + 1); }
      }
    }

    // ---------- requests ----------

    // remove_glthread on the request glue.
    method Withdraw(e: Elem)
      requires Once(resched)
      modifies `resched
      ensures Once(resched) && forall x :: x in resched <==> x in old(resched) && x != e
      ensures old(resched) != [] && old(resched)[0] == e ==> resched == old(resched)[1..]
    {
      if e in resched {
        var k :| 0 <= k < |resched| && resched[k] == e;
        resched := resched[..k] + resched[k + 1..];
      }
    }

    /** _timer_reschedule: the request overwrites an earlier one of the element,
        and the element moves to the front of the list. */
    method Ask(e: Elem, interval: int, opcode: Opcode)
      requires Clock() && queued <= live && Slots(Now() + 1) && RequestsBut(e)
      requires e in live && opcode != Scheduled && (opcode != Delete ==> interval >= clk)
      modifies `resched, e`opcode, e`newInterval
      ensures Valid() && resched != [] && resched[0] == e && e.opcode == opcode && e.newInterval == interval
      ensures forall x :: x in resched <==> x == e || x in old(resched)
    {
      hide Slots, RequestsBut;
      OnList(e);
      e.opcode := opcode;
      e.newInterval := interval;
      Withdraw(e);
      Prepended(e, resched);
      resched := [e] + resched;
      Asked(e);
      assert queued <= live && Slots(Now() + 1);
    }

    static lemma Prepended(e: Elem, s: seq<Elem>)
      requires Once(s) && e !in s
      ensures Once([e] + s)
    {
    }

    lemma OnList(e: Elem)
      requires RequestsBut(e)
      ensures Once(resched)
    {
    }

    // The request of `e` is in order now, and the others still are.
    twostate lemma Asked(e: Elem)
      requires old(RequestsBut(e)) && e in old(live) && live == old(live)
      requires e.opcode != Scheduled && (e.opcode != Delete ==> e.newInterval >= clk)
      requires Once(resched) && forall x :: x in resched <==> x == e || x in old(resched)
      requires forall x | x in live && x != e :: x.opcode == old(x.opcode) && x.newInterval == old(x.newInterval)
      ensures RequestsBut(null)
    {
      forall x | x in live ensures Requested(x) {
        assert x != e ==> old(Requested(x));
      }
    }

    /** timer_register_app_event. */
    method Register(interval: int, recurring: bool) returns (e: Elem)
      requires Valid() && interval >= clk && interval % clk == 0
      modifies `resched, `live
      ensures Valid() && fresh(e) && live == old(live) + {e}
      ensures Abs(e) == Timer(Never, 0, recurring, Arm(interval / clk))
      ensures forall x | x in old(live) :: Abs(x) == old(Abs(x))
    {
      hide Slots;
      e := new Elem(recurring);
      live := live + {e};
      Ask(e, interval, Create);
    }

    /** timer_de_register_app_event. */
    method Deregister(e: Elem)
      requires Valid() && e in live
      modifies `resched, e`opcode, e`newInterval
      ensures Valid() && old(Abs(e)).Timer? && Abs(e) == old(Abs(e)).(request := Drop)
      ensures forall x | x in live && x != e :: Abs(x) == old(Abs(x))
    {
      Ask(e, 0, Delete);
    }

    /** timer_reschedule.  It replaces any outstanding request, one to drop included. */
    method Reschedule(e: Elem, interval: int)
      requires Valid() && e in live && interval >= clk && interval % clk == 0
      modifies `resched, e`opcode, e`newInterval
      ensures Valid() && old(Abs(e)).Timer? && Abs(e) == old(Abs(e)).(request := Arm(interval / clk))
      ensures forall x | x in live && x != e :: Abs(x) == old(Abs(x))
    {
      Ask(e, interval, Resched);
    }

    // A new or rescheduled element is queued for its new interval.
    method Rearm(e: Elem)
      requires Clock() && Slots(Now() + 1) && e !in queued && e.newInterval >= clk && Once(resched) &&
        resched != [] && resched[0] == e
      modifies `resched, `slots, `queued, e`opcode, e`interval, e`cycle, e`slot, e`due
      ensures Clock() && Slots(Now() + 1) && queued == old(queued) + {e} && e.due == Now() + Ticks(e.newInterval)
      ensures e.interval == e.newInterval && e.opcode == Scheduled && resched == old(resched)[1..]
    {
      hide Slots;
      e.interval := e.newInterval;
      Steps(e.interval);
      ghost var at := Insert(e, Ticks(e.interval), Now() + 1);
      Withdraw(e);
      e.opcode := Scheduled;
    }

    twostate lemma RequestsAfter(e: Elem)
      requires old(RequestsBut(null)) && old(resched) != [] && old(resched)[0] == e && resched == old(resched)[1..]
      requires (live == old(live) && e.opcode == Scheduled) || live == old(live) - {e}
      requires forall x | x in old(live) && x != e :: x.opcode == old(x.opcode) && x.newInterval == old(x.newInterval)
      ensures RequestsBut(null) && e !in resched
    {
      forall x | x in live ensures Requested(x) {
        assert old(Requested(x));
      }
    }

    // One element of the list of requests, with its switch over the opcodes.
    method Take(e: Elem)
      requires Clock() && queued <= live && Slots(Now() + 1) && RequestsBut(null) && resched != [] && resched[0] == e
      modifies `resched, `slots, `queued, `live, e`opcode, e`interval, e`cycle, e`slot, e`due
      ensures Clock() && queued <= live && Slots(Now() + 1) && RequestsBut(null) && resched == old(resched)[1..] &&
        e !in resched
      ensures old(Abs(e)).Timer? && Abs(e) == Absorb(old(Abs(e)), Now()) && live <= old(live)
      ensures forall x | x in old(live) && x != e :: Abs(x) == old(Abs(x)) && x in live
    {
      hide Slots, RequestsBut;
      FirstRequest(e);
      ghost var from := Unqueue(e, Now() + 1);
      match e.opcode
      case Create | Resched =>
        Rearm(e);
        RequestsAfter(e);
      case Delete =>
        Withdraw(e);
        live := live - {e};
        RequestsAfter(e);
    }

    lemma FirstRequest(e: Elem)
      requires RequestsBut(null) && resched != [] && resched[0] == e
      ensures e in live && e.opcode != Scheduled && Once(resched) && (e.opcode != Delete ==> e.newInterval >= clk)
    {
      assert Requested(e);
    }

    lemma NotRequested(e: Elem)
      requires RequestsBut(null) && e in live && e !in resched
      ensures Abs(e).Timer? && Abs(e).request == NoRequest
    {
      assert Requested(e);
    }

    /** process_wt_reschedule_slotlist. */
    method Drain()
      requires Clock() && queued <= live && Slots(Now() + 1) && RequestsBut(null)
      modifies this, live
      ensures Valid() && Now() == old(Now()) && resched == [] && live <= old(live)
      ensures forall e | e in old(live) :: Abs(e) == Absorb(old(Abs(e)), Now())
    {
      hide Slots, RequestsBut;
      forall e | e in live && e !in resched ensures Abs(e).Timer? && Abs(e).request == NoRequest {
        NotRequested(e);
      }
      if resched == [] {
        return;
      }
      while resched != []
        invariant Clock() && queued <= live && Slots(Now() + 1) && RequestsBut(null) && live <= old(live) &&
          Now() == old(Now())
        invariant forall e | e in resched :: e in old(resched)
        invariant forall e | e in old(live) && e in resched :: Abs(e) == old(Abs(e))
        invariant forall e | e in old(live) && e !in resched ::
          old(Abs(e)).Timer? && Abs(e) == Absorb(old(Abs(e)), Now())
        decreases |resched|
      {
        FirstRequest(resched[0]);
        Take(resched[0]);
      }
    }

    /** wheel_fn: every element behaves as if it were a timer of its own. */
    method Tick() returns (fired: seq<Elem>)
      requires Valid()
      modifies this, live
      ensures Valid() && Now() == old(Now()) + 1 && live <= old(live)
      ensures forall e | e in old(live) :: Abs(e) == FlatTimer.Tick(old(Abs(e)), Now())
      ensures forall e :: e in fired <==> e in old(live) && Fires(old(Abs(e)), Now())
      ensures forall j, k | 0 <= j < k < |fired| :: fired[j] != fired[k]
    {
      hide Slots;
      tic := tic + 1;
      if tic == size {
        tic := 0;
        cycle := cycle + 1;
      }
      assert Now() == old(Now()) + 1;
      fired := Scan();
      label draining:
      Drain();
    }

    /** wt_get_remaining_time. */
    method Remaining(e: Elem) returns (r: int)
      requires Valid() && e in live
      ensures Abs(e).request.Arm? ==> r == e.newInterval >= clk
      ensures e in queued && !Abs(e).request.Arm? ==> Abs(e).due == At(e.due) && r == (e.due - Now()) * clk && r >= clk
    {
      if e.opcode == Create || e.opcode == Resched {
        assert Requested(e);
        return e.newInterval;
      }
      if e in queued { assert Slotted(e, Now() + 1); }
      var diff := e.cycle * size + e.slot - Now();
      r := diff * clk;
      if e in queued { Arith.Scaled(0, diff, clk); }
    }

    // ---------- a run, watched for one element ----------

    // The elements to be used are there, but for those withdrawn.
    ghost predicate Team(others: seq<Elem>, gone: seq<bool>)
      reads `queued, `live, others
    {
      && |gone| == |others|
      && (forall i, j | 0 <= i < j < |others| :: others[i] != others[j])
      && (forall j | 0 <= j < |others| && !gone[j] :: others[j] in live && !Abs(others[j]).request.Drop?)
    }

    // None of them is the element watched.
    ghost predicate Crew(e: Elem, others: seq<Elem>, gone: seq<bool>)
      reads `queued, `live, others
    {
      Team(others, gone) && e !in others
    }

    // A command for an element other than the one watched.
    method Obey(c: Command, ghost e: Elem, others: seq<Elem>, gone: seq<bool>)
      returns (others': seq<Elem>, gone': seq<bool>)
      requires Valid() && Crew(e, others, gone)
      requires c.Start? || c.Restart? ==> c.interval >= clk && c.interval % clk == 0
      modifies `resched, `live, live`opcode, live`newInterval
      ensures Valid() && Crew(e, others', gone') && Abs(e) == old(Abs(e)) && Now() == old(Now())
      ensures forall x | x in live :: x in old(live) || fresh(x)
    {
      others', gone' := others, gone;
      match c
      case Start(interval, recurring) =>
        var x := Register(interval, recurring);
        others', gone' := others + [x], gone + [false];
      case Restart(j, interval) =>
        if j < |others| && !gone[j] {
          Reschedule(others[j], interval);
        }
      case Stop(j) =>
        if j < |others| && !gone[j] {
          Deregister(others[j]);
          gone' := gone[j := true];
        }
      case Wait =>
    }

    // A tick, seen by one element and the others.
    method Pass(e: Elem, others: seq<Elem>, gone: seq<bool>) returns (rang: bool)
      requires Valid() && Crew(e, others, gone)
      modifies this, live
      ensures Valid() && Crew(e, others, gone) && Now() == old(Now()) + 1 && live <= old(live)
      ensures Abs(e) == FlatTimer.Tick(old(Abs(e)), Now()) && rang == Fires(old(Abs(e)), Now())
    {
      ghost var t := Abs(e);
      var fired := Tick();
      rang := e in fired;
      forall j | 0 <= j < |others| && !gone[j] ensures others[j] in live && !Abs(others[j]).request.Drop? {
        Stays(old(Abs(others[j])), Now());
      }
    }

    // The commands that a run can be made of.
    predicate Proper(commands: seq<Command>) {
      forall c | c in commands && (c.Start? || c.Restart?) :: 1 <= clk <= c.interval && c.interval % clk == 0
    }

    /** A run of any length and content, in which the element watched gets no command:
        it behaves as the flat timer does, tick by tick, whatever is registered,
        rescheduled or withdrawn meanwhile.  `rings` has one entry a tick. */
    method Follow(e: Elem, others: seq<Elem>, gone: seq<bool>, commands: seq<Command>)
      returns (rings: seq<bool>, others': seq<Elem>, gone': seq<bool>)
      requires Valid() && Crew(e, others, gone) && Proper(commands)
      modifies this, live
      ensures Valid() && Crew(e, others', gone') && (forall x | x in live :: x in old(live) || fresh(x))
      ensures |rings| == TicksIn(commands) && Now() == old(Now()) + |rings|
      ensures Abs(e) == After(old(Abs(e)), old(Now()), |rings|)
      ensures forall n | 0 <= n < |rings| :: rings[n] == FiresAfter(old(Abs(e)), old(Now()), n + 1)
    {
      hide Valid, Crew, Abs, FlatTimer.Tick, FlatTimer.Fires;
      ghost var t, from := Abs(e), Now();
      others', gone' := others, gone;
      var i := 0;
      rings := [];
      while i < |commands|
        invariant 0 <= i <= |commands| && Valid() && Crew(e, others', gone')
        invariant forall x | x in live :: x in old(live) || fresh(x)
        invariant |rings| == TicksIn(commands[..i]) && Now() == from + |rings| && Abs(e) == After(t, from, |rings|)
        invariant forall n | 0 <= n < |rings| :: rings[n] == FiresAfter(t, from, n + 1)
      {
        var c := commands[i];
        assert commands[..i + 1][..i] == commands[..i];
        if c.Wait? {
          var rang := Pass(e, others', gone');
          rings := rings + [rang];
        } else {
          others', gone' := Obey(c, e, others', gone');
        }
        i := i + 1;
      }
      assert commands[..i] == commands;
    }

    /** Hence an element armed for `k` ticks rings exactly `k` ticks after the tick that
        absorbs the request, or at every multiple of `k` if it recurs. */
    method Watch(e: Elem, k: nat, others: seq<Elem>, gone: seq<bool>, commands: seq<Command>)
      returns (rings: seq<bool>, others': seq<Elem>, gone': seq<bool>)
      requires Valid() && e in live && Abs(e).request == Arm(k) && 1 <= k && Crew(e, others, gone) && Proper(commands)
      modifies this, live
      ensures Valid() && Crew(e, others', gone') && (forall x | x in live :: x in old(live) || fresh(x))
      ensures |rings| == TicksIn(commands) && e in live
      ensures rings == [] ==> Abs(e) == old(Abs(e))
      ensures rings != [] ==> rings[0] == old(Fires(Abs(e), Now() + 1))
      ensures forall n | 1 <= n < |rings| :: rings[n] <==> Rings(e, k, n)
      ensures rings != [] ==> (Fires(Abs(e), Now() + 1) <==> Rings(e, k, |rings|))
    {
      hide Valid, Crew, Abs, After, FlatTimer.Tick, FlatTimer.Fires, FiresAfter;
      ghost var t, from := Abs(e), Now();
      AbsRecurs(e);
      rings, others', gone' := Follow(e, others, gone, commands);
      StillThere(e);
      if rings == [] {
        AtOnce(t, from);
      } else {
        OnTime(t, from, k, |rings|);
        assert rings[0] == FiresAfter(t, from, 1);
      }
    }

    lemma StillThere(e: Elem)
      ensures Abs(e).Timer? <==> e in live
    {
    }

    // At the n-th tick after it is armed, the element rings.
    static predicate Rings(e: Elem, k: int, n: int)
      requires k >= 1
    {
      if e.recurring then n % k == 0 else n == k
    }

    /** And an element withdrawn rings at most once more, in the tick that takes the
        request, if it was due then: it is gone from that tick on. */
    method Retire(e: Elem, others: seq<Elem>, gone: seq<bool>, commands: seq<Command>)
      returns (rings: seq<bool>, others': seq<Elem>, gone': seq<bool>)
      requires Valid() && e in live && Abs(e).request == Drop && Crew(e, others, gone) && Proper(commands)
      modifies this, live
      ensures Valid() && Crew(e, others', gone') && (forall x | x in live :: x in old(live) || fresh(x))
      ensures |rings| == TicksIn(commands) && (e in live <==> rings == [])
      ensures rings != [] ==> rings[0] == old(Fires(Abs(e), Now() + 1))
      ensures forall n | 1 <= n < |rings| :: !rings[n]
    {
      hide Valid, Crew;
      ghost var t, from := Abs(e), Now();
      rings, others', gone' := Follow(e, others, gone, commands);
      forall n | 1 <= n <= |rings|
        ensures After(t, from, n) == Freed && !FiresAfter(t, from, n + 1)
      {
        Later(t, from, n - 1);
        StaysAway(t, from + 1, n - 1);
        StaysAway(t, from + 1, n);
      }
    }

    /** A whole life: registered, and withdrawn after the commands `before`.  It rings
        on time until the tick that takes the request, and never again. */
    method Lifetime(interval: int, recurring: bool, others: seq<Elem>, gone: seq<bool>, before: seq<Command>,
      after: seq<Command>) returns (e: Elem, rings: seq<bool>)
      requires Valid() && Team(others, gone) && Proper(before) && Proper(after)
      requires interval >= clk && interval % clk == 0
      modifies this, live
      ensures Valid() && e.recurring == recurring && |rings| == TicksIn(before) + TicksIn(after)
      ensures TicksIn(after) > 0 ==> e !in live
      ensures clk >= 1 && interval / clk >= 1 && forall n | 0 <= n < |rings| ::
        rings[n] <==> 1 <= n <= TicksIn(before) && Rings(e, interval / clk, n)
    {
      hide Slots, RequestsBut, Abs;
      Steps(interval);
      e := Register(interval, recurring);
      AbsRecurs(e);
      var first, others', gone' := Watch(e, interval / clk, others, gone, before);
      Deregister(e);
      var second;
      second, others', gone' := Retire(e, others', gone', after);
      rings := first + second;
    }

    lemma AbsRecurs(e: Elem)
      requires e in live
      ensures Abs(e).Timer? && Abs(e).recurring == e.recurring
    {
    }
  }

  datatype Command = Start(interval: int, recurring: bool) | Restart(j: nat, interval: int) | Stop(j: nat) | Wait

  // The number of ticks.
  function TicksIn(cs: seq<Command>): nat {
    if cs == [] then 0 else TicksIn(cs[..|cs| - 1]) + if cs[|cs| - 1].Wait? then 1 else 0
  }
}
