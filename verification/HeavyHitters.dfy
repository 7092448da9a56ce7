/** m61's heavy hitters: a weighted FREQUENT sketch over the places that allocate. */
module HeavyHitters {
  import opened Wrappers

  const ULLONG_MAX: nat := 0xFFFF_FFFF_FFFF_FFFF

  /** A place in the program: the address of its file name, and the line. */
  datatype Place = Place(file: nat, line: int)

  datatype Slot = Slot(counter: nat, place: Place)

  // Sums over the slots

  function SumOf(t: seq<Slot>, f: Slot -> nat): nat {
    if t == [] then 0 else f(t[0]) + SumOf(t[1..], f)
  }

  function Counter(): Slot -> nat { (s: Slot) => s.counter }
  function CounterFor(p: Place): Slot -> nat { (s: Slot) => if s.place == p then s.counter else 0 }
  function OneFor(p: Place): Slot -> nat { (s: Slot) => if s.place == p then 1 else 0 }

  function Total(t: seq<Slot>): nat { SumOf(t, Counter()) }

  /** What the sketch holds for a place, over all slots that carry it. */
  function Held(t: seq<Slot>, p: Place): nat { SumOf(t, CounterFor(p)) }

  /** How many slots carry a place. */
  function Slots(t: seq<Slot>, p: Place): nat { SumOf(t, OneFor(p)) }

  // updateCounters

  /** The slot in which the first loop ends: it carries the place or is empty, whichever comes first. */
  function FirstHit(t: seq<Slot>, p: Place, from: nat := 0): (r: Option<nat>)
    requires from <= |t|
    ensures r.Some? ==> from <= r.value < |t| && (t[r.value].place == p || t[r.value].counter == 0)
    ensures forall i :: from <= i < (if r.Some? then r.value else |t|) ==> t[i].place != p && t[i].counter != 0
    decreases |t| - from
  {
    if from == |t| then None else
    if t[from].place == p || t[from].counter == 0 then Some(from) else FirstHit(t, p, from + 1)
  }

  function Smallest(t: seq<Slot>): (m: nat)
    ensures m <= ULLONG_MAX && forall i :: 0 <= i < |t| ==> m <= t[i].counter
    ensures m == ULLONG_MAX || exists i :: 0 <= i < |t| && t[i].counter == m
  {
    if t == [] then ULLONG_MAX else
    var m := Smallest(t[..|t| - 1]);
    if t[|t| - 1].counter < m then t[|t| - 1].counter else m
  }

  function Lowered(t: seq<Slot>, d: nat): (r: seq<Slot>)
    requires forall i :: 0 <= i < |t| ==> d <= t[i].counter
    ensures |r| == |t| && forall i :: 0 <= i < |t| ==> r[i] == Slot(t[i].counter - d, t[i].place)
  {
    seq(|t|, i requires 0 <= i < |t| => Slot(t[i].counter - d, t[i].place))
  }

  function Raised(t: seq<Slot>, i: nat, p: Place, w: nat): seq<Slot>
    requires i < |t|
  {
    t[i := Slot(t[i].counter + w, p)]
  }

  function Minimum(a: nat, b: nat): nat { if a < b then a else b }

  /** By how much an update lowers every slot. */
  function Cut(t: seq<Slot>, p: Place, w: nat): nat {
    if FirstHit(t, p).Some? then 0 else Minimum(w, Smallest(t))
  }

  /** The update without the recursion: what the cut leaves of the weight goes to the first slot that it has emptied. */
  function Updated(t: seq<Slot>, p: Place, w: nat): seq<Slot> {
    match FirstHit(t, p)
    case Some(i) => Raised(t, i, p, w)
    case None =>
      var d := Minimum(w, Smallest(t));
      var t' := Lowered(t, d);
      if w > d && FirstHit(t', p).Some? then Raised(t', FirstHit(t', p).value, p, w - d) else t'
  }

  /** After a cut that leaves some weight a slot is empty, so that a single recursive call is enough. */
  lemma CutEmptiesASlot(t: seq<Slot>, p: Place, w: nat)
    requires FirstHit(t, p).None? && Smallest(t) < w <= ULLONG_MAX
    ensures FirstHit(Lowered(t, Smallest(t)), p).Some?
  {
    var i :| 0 <= i < |t| && t[i].counter == Smallest(t);
    assert Lowered(t, Smallest(t))[i].counter == 0;
  }

  /** The second loop of updateCounters. */
  method SubtractFromAll(tracker: array<Slot>, subtractValue: nat)
    requires forall i :: 0 <= i < tracker.Length ==> subtractValue <= tracker[i].counter
    modifies tracker
    ensures tracker[..] == Lowered(old(tracker[..]), subtractValue)
  {
    for i := 0 to tracker.Length
      invariant forall j :: 0 <= j < i ==> tracker[j] == Lowered(old(tracker[..]), subtractValue)[j]
      invariant forall j :: i <= j < tracker.Length ==> tracker[j] == old(tracker[j])
    {
      tracker[i] := tracker[i].(counter := tracker[i].counter - subtractValue);
    }
  }

  method UpdateCounters(tracker: array<Slot>, occurrence: nat, place: Place, ghost recursing: bool)
    requires occurrence <= ULLONG_MAX
    requires recursing ==> FirstHit(tracker[..], place).Some?
    modifies tracker
    ensures tracker[..] == Updated(old(tracker[..]), place, occurrence)
    decreases !recursing
  {
    ghost var t := tracker[..];
    var minimumValue := ULLONG_MAX;
    for i := 0 to tracker.Length
      invariant tracker[..] == t
      invariant minimumValue == Smallest(t[..i])
      invariant FirstHit(t, place, i) == FirstHit(t, place)
    {
      assert t[..i + 1][..i] == t[..i];
      if tracker[i].counter < minimumValue {
        minimumValue := tracker[i].counter;
      }
      if tracker[i].place == place {
        tracker[i] := tracker[i].(counter := tracker[i].counter + occurrence);
        return;
      } else if tracker[i].counter == 0 {
        tracker[i] := tracker[i].(place := place);
        tracker[i] := tracker[i].(counter := tracker[i].counter + occurrence);
        return;
      }
    }
    assert t[..tracker.Length] == t;
    var subtractValue := if occurrence > minimumValue then minimumValue else occurrence;
    SubtractFromAll(tracker, subtractValue);
    if occurrence > minimumValue {
      CutEmptiesASlot(t, place, occurrence);
      UpdateCounters(tracker, occurrence - minimumValue, place, true);
    }
  }

  // What an update does to the sums

  lemma {:induction false} SumOfRaised(t: seq<Slot>, i: nat, s: Slot, f: Slot -> nat)
    requires i < |t|
    ensures SumOf(t[i := s], f) + f(t[i]) == SumOf(t, f) + f(s)
  {
    var t' := t[i := s];
    if i == 0 {
      assert t'[1..] == t[1..];
    } else {
      assert t'[1..] == t[1..][i - 1 := s];
      SumOfRaised(t[1..], i - 1, s, f);
    }
  }

  lemma {:induction false} SumsOfLowered(t: seq<Slot>, d: nat, p: Place)
    requires forall i :: 0 <= i < |t| ==> d <= t[i].counter
    ensures Total(Lowered(t, d)) == Total(t) - |t| * d
    ensures Held(Lowered(t, d), p) == Held(t, p) - Slots(t, p) * d
    ensures Slots(Lowered(t, d), p) == Slots(t, p)
  {
    if t != [] {
      var rest, low := t[1..], Lowered(t, d);
      assert low[1..] == Lowered(rest, d) && low[0] == Slot(t[0].counter - d, t[0].place);
      SumsOfLowered(rest, d, p);
      OneMore(|rest|, |t|, d);
      if t[0].place == p {
        OneMore(Slots(rest, p), Slots(t, p), d);
      }
    }
  }

  lemma OneMore(n: nat, n': nat, d: nat)
    requires n' == n + 1
    ensures n' * d == n * d + d
  {
  }

  lemma {:induction false} SlotsBound(t: seq<Slot>, p: Place)
    ensures Slots(t, p) <= |t|
    ensures (forall i :: 0 <= i < |t| ==> t[i].place != p) ==> Slots(t, p) == 0 && Held(t, p) == 0
  {
    if t != [] {
      SlotsBound(t[1..], p);
    }
  }

  /** A miss lowers all slots, and leaves what remains of the weight in one that is then empty. */
  lemma SumOfMiss(t: seq<Slot>, p: Place, w: nat, f: Slot -> nat)
    requires w <= ULLONG_MAX && FirstHit(t, p).None?
    requires forall q :: f(Slot(0, q)) == 0
    ensures var d := Cut(t, p, w);
      && |Updated(t, p, w)| == |t|
      && SumOf(Updated(t, p, w), f) == SumOf(Lowered(t, d), f) + f(Slot(w - d, p))
  {
    var d := Cut(t, p, w);
    var t' := Lowered(t, d);
    if w > d {
      CutEmptiesASlot(t, p, w);
      var i := FirstHit(t', p).value;
      assert t'[i] == Slot(0, t'[i].place);
      SumOfRaised(t', i, Slot(w - d, p), f);
    }
  }

  lemma Distribute(k: nat, a: nat, b: nat)
    ensures k * (a + b) == k * a + k * b
    ensures (a + b) * k == a * k + b * k
  {
  }

  /** One update adds its weight to the total, but for the cut, which takes (k + 1) times its depth away. */
  lemma UpdateTotal(t: seq<Slot>, p: Place, w: nat)
    requires w <= ULLONG_MAX
    ensures |Updated(t, p, w)| == |t|
    ensures Total(Updated(t, p, w)) + (|t| + 1) * Cut(t, p, w) == Total(t) + w
  {
    match FirstHit(t, p)
    case Some(i) => SumOfRaised(t, i, Slot(t[i].counter + w, p), Counter());
    case None =>
      var d := Cut(t, p, w);
      SumOfMiss(t, p, w, Counter());
      SumsOfLowered(t, d, p);
      Distribute(d, |t|, 1);
  }

  /** By how much the sketch's share of a place falls behind its weight in one update. */
  function Loss(t: seq<Slot>, p: Place, w: nat, q: Place): nat {
    (Slots(t, q) + if p == q then 1 else 0) * Cut(t, p, w)
  }

  /** The loss is exact: one cut for every slot that carries the place, and one for the place that misses. */
  lemma UpdateHeld(t: seq<Slot>, p: Place, w: nat, q: Place)
    requires w <= ULLONG_MAX
    ensures Held(Updated(t, p, w), q) + Loss(t, p, w, q) == Held(t, q) + if p == q then w else 0
  {
    match FirstHit(t, p)
    case Some(i) =>
      SumOfRaised(t, i, Slot(t[i].counter + w, p), CounterFor(q));
      assert CounterFor(q)(t[i]) == if t[i].place == q then t[i].counter else 0;
    case None =>
      var d := Cut(t, p, w);
      SumOfMiss(t, p, w, CounterFor(q));
      SumsOfLowered(t, d, q);
      Distribute(d, Slots(t, q), if p == q then 1 else 0);
  }

  /** A place that misses is in no slot. */
  lemma MissMeansNoSlot(t: seq<Slot>, p: Place, w: nat)
    requires Cut(t, p, w) > 0
    ensures Slots(t, p) == 0
  {
    SlotsBound(t, p);
  }

  // Whole runs

  /** The sketch next to what it stands for: the weight of all updates and the depth of all cuts. */
  datatype Sketch = Sketch(slots: seq<Slot>, weight: nat, depth: nat)

  /** An update, or a report, which sorts the slots. */
  datatype Event = Hit(place: Place, weight: nat) | Report(sorted: seq<Slot>)

  predicate Possible(s: Sketch, e: Event) {
    match e
    case Hit(_, w) => s.weight + w <= ULLONG_MAX
    case Report(t) => multiset(t) == multiset(s.slots)
  }

  function Next(s: Sketch, e: Event): Sketch {
    match e
    case Hit(p, w) => Sketch(Updated(s.slots, p, w), s.weight + w, s.depth + Cut(s.slots, p, w))
    case Report(t) => s.(slots := t)
  }

  ghost predicate Allowed(s: Sketch, events: seq<Event>)
    decreases |events|
  {
    events == [] || (Possible(s, events[0]) && Allowed(Next(s, events[0]), events[1..]))
  }

  function After(s: Sketch, events: seq<Event>): Sketch
    decreases |events|
  {
    if events == [] then s else After(Next(s, events[0]), events[1..])
  }

  /** The true weight of a place. */
  function WeightOf(events: seq<Event>, p: Place): nat {
    if events == [] then 0 else
    (if events[0].Hit? && events[0].place == p then events[0].weight else 0) + WeightOf(events[1..], p)
  }

  /** The place never has two slots when an update comes. */
  ghost predicate NeverTwice(s: Sketch, events: seq<Event>, p: Place)
    decreases |events|
  {
    events == [] || (Slots(s.slots, p) <= 1 && NeverTwice(Next(s, events[0]), events[1..], p))
  }

  /** Every unit of weight is in a counter, or was cut away together with one unit of each of k counters. */
  predicate Balanced(s: Sketch) {
    s.weight == Total(s.slots) + (|s.slots| + 1) * s.depth
  }

  lemma {:induction false} RemoveFromSum(t: seq<Slot>, i: nat, f: Slot -> nat)
    requires i < |t|
    ensures SumOf(t, f) == f(t[i]) + SumOf(t[..i] + t[i + 1..], f)
  {
    var r := t[..i] + t[i + 1..];
    if i == 0 {
      assert r == t[1..];
    } else {
      assert r[1..] == t[1..][..i - 1] + t[1..][i..];
      RemoveFromSum(t[1..], i - 1, f);
    }
  }

  lemma RemoveFromMultiset(t: seq<Slot>, i: nat)
    requires i < |t|
    ensures multiset(t[..i] + t[i + 1..]) == multiset(t) - multiset{t[i]}
  {
    assert t == t[..i] + [t[i]] + t[i + 1..];
  }

  /** Sorting changes no sum. */
  lemma {:induction false} SumOfPermuted(t: seq<Slot>, t': seq<Slot>, f: Slot -> nat)
    requires multiset(t) == multiset(t')
    ensures SumOf(t, f) == SumOf(t', f)
    decreases |t|
  {
    assert |multiset(t)| == |t| && |multiset(t')| == |t'|;
    if t != [] {
      assert t[0] in multiset(t');
      var i :| 0 <= i < |t'| && t'[i] == t[0];
      var r := t'[..i] + t'[i + 1..];
      RemoveFromMultiset(t', i);
      RemoveFromMultiset(t, 0);
      assert t[..0] + t[1..] == t[1..];
      SumOfPermuted(t[1..], r, f);
      RemoveFromSum(t', i, f);
    }
  }

  lemma NextIsBalanced(s: Sketch, e: Event)
    requires Balanced(s) && Possible(s, e)
    ensures Balanced(Next(s, e)) && |Next(s, e).slots| == |s.slots|
  {
    match e
    case Hit(p, w) =>
      UpdateTotal(s.slots, p, w);
      Distribute(|s.slots| + 1, s.depth, Cut(s.slots, p, w));
    case Report(t) =>
      SumOfPermuted(s.slots, t, Counter());
      assert |multiset(t)| == |t| && |multiset(s.slots)| == |s.slots|;
  }

  /** N = sum of the counters + (k + 1) * D, after every run. */
  lemma {:induction false} RunIsBalanced(s: Sketch, events: seq<Event>)
    requires Balanced(s) && Allowed(s, events)
    ensures Balanced(After(s, events)) && |After(s, events).slots| == |s.slots|
    decreases |events|
  {
    if events != [] {
      NextIsBalanced(s, events[0]);
      RunIsBalanced(Next(s, events[0]), events[1..]);
    }
  }

  lemma Scale(a: nat, b: nat, d: nat)
    requires a <= b
    ensures a * d <= b * d
  {
  }

  lemma LossBound(t: seq<Slot>, q: Place, w: nat, p: Place)
    requires |t| > 0
    ensures Loss(t, q, w, p) <= |t| * Cut(t, q, w)
  {
    var d := Cut(t, q, w);
    SlotsBound(t, p);
    if d > 0 {
      var n := Slots(t, p) + if p == q then 1 else 0;
      if p == q {
        MissMeansNoSlot(t, p, w);
      }
      Scale(n, |t|, d);
    }
  }

  /** What a place loses in a run: each cut once for every slot that carries it, and once more if it misses itself. */
  function Lost(s: Sketch, events: seq<Event>, p: Place): nat
    decreases |events|
  {
    if events == [] then 0 else
    (if events[0].Hit? then Loss(s.slots, events[0].place, events[0].weight, p) else 0)
    + Lost(Next(s, events[0]), events[1..], p)
  }

  /** The counters of a place hold its weight but for exactly that. */
  lemma {:induction false} ExactHoldings(s: Sketch, events: seq<Event>, p: Place)
    requires Allowed(s, events)
    ensures Held(After(s, events).slots, p) + Lost(s, events, p) == Held(s.slots, p) + WeightOf(events, p)
    decreases |events|
  {
    if events != [] {
      match events[0] {
        case Hit(q, w) => UpdateHeld(s.slots, q, w, p);
        case Report(t) => SumOfPermuted(s.slots, t, CounterFor(p));
      }
      ExactHoldings(Next(s, events[0]), events[1..], p);
    }
  }

  lemma {:induction false} DepthGrows(s: Sketch, events: seq<Event>)
    ensures After(s, events).depth >= s.depth
    decreases |events|
  {
    if events != [] {
      DepthGrows(Next(s, events[0]), events[1..]);
    }
  }

  lemma NextKeepsSize(s: Sketch, e: Event)
    requires Possible(s, e)
    ensures |Next(s, e).slots| == |s.slots| && Next(s, e).depth >= s.depth
  {
    match e
    case Hit(p, w) =>
    case Report(t) => assert |multiset(t)| == |t| && |multiset(s.slots)| == |s.slots|;
  }

  lemma AddBounds(k: nat, a: int, b: int, d: nat, d': nat, sum: nat)
    requires a <= k * d && b <= k * d' && sum == d + d'
    ensures a + b <= k * sum
  {
    Distribute(k, d, d');
  }

  lemma FirstLoss(s: Sketch, events: seq<Event>, p: Place) returns (lost: nat, depth: nat)
    requires events != [] && Possible(s, events[0]) && |s.slots| > 0
    ensures Lost(s, events, p) == lost + Lost(Next(s, events[0]), events[1..], p)
    ensures Next(s, events[0]).depth == s.depth + depth
    ensures lost <= |s.slots| * depth
  {
    lost, depth := 0, 0;
    if events[0].Hit? {
      var q, w := events[0].place, events[0].weight;
      lost, depth := Loss(s.slots, q, w, p), Cut(s.slots, q, w);
      LossBound(s.slots, q, w, p);
    }
  }

  lemma {:induction false} LosesAtMostAll(s: Sketch, events: seq<Event>, p: Place, k: nat, d: nat)
    requires Allowed(s, events) && k == |s.slots| > 0 && After(s, events).depth == s.depth + d
    ensures Lost(s, events, p) <= k * d
    decreases |events|
  {
    if events != [] {
      var s', rest := Next(s, events[0]), events[1..];
      var lost, depth := FirstLoss(s, events, p);
      NextKeepsSize(s, events[0]);
      DepthGrows(s', rest);
      LosesAtMostAll(s', rest, p, k, d - depth);
      AddBounds(k, lost, Lost(s', rest, p), depth, d - depth, d);
    }
  }

  /** The number of a place's slots after its first. */
  function Further(t: seq<Slot>, p: Place): nat {
    if Slots(t, p) <= 1 then 0 else Slots(t, p) - 1
  }

  /** What a place loses in cuts for its second and further slots. */
  function LostTwice(s: Sketch, events: seq<Event>, p: Place): nat
    decreases |events|
  {
    if events == [] then 0 else
    (if events[0].Hit? then Further(s.slots, p) * Cut(s.slots, events[0].place, events[0].weight) else 0)
    + LostTwice(Next(s, events[0]), events[1..], p)
  }

  /** The cuts that other places make while this one has no slot. */
  function Spared(s: Sketch, events: seq<Event>, p: Place): nat
    decreases |events|
  {
    if events == [] then 0 else
    (if events[0].Hit? && events[0].place != p && Slots(s.slots, p) == 0
     then Cut(s.slots, events[0].place, events[0].weight) else 0)
    + Spared(Next(s, events[0]), events[1..], p)
  }

  lemma LossOfCut(t: seq<Slot>, q: Place, w: nat, p: Place)
    ensures var d := Cut(t, q, w);
      Loss(t, q, w, p) + (if q != p && Slots(t, p) == 0 then d else 0) == d + Further(t, p) * d
  {
    var d, n := Cut(t, q, w), Slots(t, p);
    if d > 0 {
      if p == q {
        MissMeansNoSlot(t, p, w);
      }
      if n >= 2 {
        OneMore(n - 1, n, d);
      }
    }
  }

  /** All cuts count once, but for those that spare the place and those that hit it more than once. */
  lemma {:induction false} LossesAndCuts(s: Sketch, events: seq<Event>, p: Place)
    requires Allowed(s, events)
    ensures Lost(s, events, p) + Spared(s, events, p)
            == After(s, events).depth - s.depth + LostTwice(s, events, p)
    decreases |events|
  {
    if events != [] {
      if events[0].Hit? {
        LossOfCut(s.slots, events[0].place, events[0].weight, p);
      }
      LossesAndCuts(Next(s, events[0]), events[1..], p);
    }
  }

  lemma {:induction false} NeverTwiceLosesOnce(s: Sketch, events: seq<Event>, p: Place)
    requires NeverTwice(s, events, p)
    ensures LostTwice(s, events, p) == 0
    decreases |events|
  {
    if events != [] {
      NeverTwiceLosesOnce(Next(s, events[0]), events[1..], p);
    }
  }

  /**
   * The error bounds of the sketch: the counters of a place never exceed its weight f, and hold at least f - k * D.
   * They hold exactly f - D, more what cuts spared the place, less what it lost for second and further slots; so they
   * hold at least f - D if and only if the latter is no more, as when the place never has two slots.
   */
  lemma ErrorBounds(k: nat, events: seq<Event>, p: Place)
    requires k > 0 && Allowed(Empty(k), events)
    ensures var held, f := Held(After(Empty(k), events).slots, p), WeightOf(events, p);
      var d := After(Empty(k), events).depth;
      && held <= f
      && held + k * d >= f
      && held + d + LostTwice(Empty(k), events, p) == f + Spared(Empty(k), events, p)
      && (held + d >= f <==> LostTwice(Empty(k), events, p) <= Spared(Empty(k), events, p))
      && (NeverTwice(Empty(k), events, p) ==> held + d >= f)
  {
    NothingInEmpty(k, Counter());
    NothingInEmpty(k, CounterFor(p));
    ExactHoldings(Empty(k), events, p);
    DepthGrows(Empty(k), events);
    LosesAtMostAll(Empty(k), events, p, k, After(Empty(k), events).depth);
    LossesAndCuts(Empty(k), events, p);
    if NeverTwice(Empty(k), events, p) {
      NeverTwiceLosesOnce(Empty(k), events, p);
    }
  }

  /** No counter wraps around while the total weight fits 64 bits. */
  lemma CountersFit(s: Sketch, i: nat)
    requires Balanced(s) && s.weight <= ULLONG_MAX && i < |s.slots|
    ensures s.slots[i].counter <= ULLONG_MAX
  {
    RemoveFromSum(s.slots, i, Counter());
  }

  function Empty(k: nat): Sketch {
    Sketch(seq(k, _ => Slot(0, Place(0, 0))), 0, 0)
  }

  lemma {:induction false} NothingInEmpty(k: nat, f: Slot -> nat)
    requires f(Slot(0, Place(0, 0))) == 0
    ensures SumOf(Empty(k).slots, f) == 0
  {
    if k > 0 {
      assert Empty(k).slots[1..] == Empty(k - 1).slots;
      NothingInEmpty(k - 1, f);
    }
  }

  /**
   * What the report prints for a slot, counter + (N - sum) / (k + 1), is counter + D. For a place that never has two
   * slots this is never less than the weight, and too large by at most D.
   */
  lemma ReportedCount(k: nat, events: seq<Event>, i: nat)
    requires k > 0 && Allowed(Empty(k), events)
    requires i < |After(Empty(k), events).slots|
    ensures var r := After(Empty(k), events);
      var p := r.slots[i].place;
      var count := r.slots[i].counter + (r.weight - Total(r.slots)) / (k + 1);
      && r.weight >= Total(r.slots)
      && count == r.slots[i].counter + r.depth
      && count <= WeightOf(events, p) + r.depth
      && (NeverTwice(Empty(k), events, p) && Slots(r.slots, p) <= 1 ==> count >= WeightOf(events, p))
  {
    var s, r := Empty(k), After(Empty(k), events);
    var p := r.slots[i].place;
    NothingInEmpty(k, Counter());
    NothingInEmpty(k, CounterFor(p));
    RunIsBalanced(s, events);
    ErrorBounds(k, events, p);
    AverageCut(r);
    RemoveFromSum(r.slots, i, CounterFor(p));
    RemoveFromSum(r.slots, i, OneFor(p));
    if Slots(r.slots, p) == 1 {
      OnlySlot(r.slots[..i] + r.slots[i + 1..], p);
    }
  }

  lemma AverageCut(r: Sketch)
    requires Balanced(r)
    ensures r.weight >= Total(r.slots) && (r.weight - Total(r.slots)) / (|r.slots| + 1) == r.depth
  {
    Quotient(|r.slots| + 1, r.depth);
  }

  lemma Quotient(k: nat, d: nat)
    requires k > 0
    ensures (k * d) / k == d
  {
    var q, m := (k * d) / k, (k * d) % k;
    Distribute(k, q, 1);
    if q < d {
      Scale(q + 1, d, k);
    } else if q > d {
      Scale(d, q, k);
      Scale(d + 1, q, k);
    }
  }

  lemma {:induction false} OnlySlot(t: seq<Slot>, p: Place)
    requires Slots(t, p) == 0
    ensures Held(t, p) == 0
  {
    if t != [] {
      OnlySlot(t[1..], p);
    }
  }

  lemma HitNext(s: Sketch, p: Place, w: nat, i: nat)
    requires i < |s.slots| && (s.slots[i].place == p || s.slots[i].counter == 0)
    requires forall j :: 0 <= j < i ==> s.slots[j].place != p && s.slots[j].counter != 0
    ensures Next(s, Hit(p, w)) == Sketch(Raised(s.slots, i, p, w), s.weight + w, s.depth)
  {
    assert FirstHit(s.slots, p).Some?;
  }

  lemma CutNext(s: Sketch, p: Place, i: nat)
    requires forall j :: 0 <= j < |s.slots| ==> s.slots[j].counter >= 1 && s.slots[j].place != p
    requires i < |s.slots| && s.slots[i].counter == 1
    ensures Next(s, Hit(p, 1)) == Sketch(Lowered(s.slots, 1), s.weight + 1, s.depth + 1)
  {
    assert Smallest(s.slots) == 1 && FirstHit(s.slots, p).None?;
    assert Cut(s.slots, p, 1) == 1;
  }

  lemma RunThen(s: Sketch, e: Event, s': Sketch, rest: seq<Event>, r: Sketch)
    requires Possible(s, e) && Next(s, e) == s' && LeadsTo(s', rest, r)
    ensures LeadsTo(s, [e] + rest, r)
  {
    assert ([e] + rest)[1..] == rest;
  }

  lemma WeightThen(e: Event, rest: seq<Event>, p: Place)
    ensures WeightOf([e] + rest, p) == (if e.Hit? && e.place == p then e.weight else 0) + WeightOf(rest, p)
  {
    assert ([e] + rest)[1..] == rest;
  }

  ghost predicate LeadsTo(s: Sketch, events: seq<Event>, r: Sketch) {
    Allowed(s, events) && After(s, events) == r
  }

  lemma {:induction false} RunConcat(s: Sketch, first: seq<Event>, mid: Sketch, rest: seq<Event>, r: Sketch, p: Place)
    requires LeadsTo(s, first, mid) && LeadsTo(mid, rest, r)
    ensures LeadsTo(s, first + rest, r)
    ensures WeightOf(first + rest, p) == WeightOf(first, p) + WeightOf(rest, p)
    decreases |first|
  {
    if first == [] {
      assert first + rest == rest;
    } else {
      assert first + rest == [first[0]] + (first[1..] + rest);
      RunConcat(Next(s, first[0]), first[1..], mid, rest, r, p);
      RunThen(s, first[0], Next(s, first[0]), first[1..] + rest, r);
      WeightThen(first[0], first[1..] + rest, p);
    }
  }

  lemma FillThree(a: Place, x: Place, y: Place)
    requires a != x && a != y && x != y && x != Place(0, 0) && y != Place(0, 0)
    ensures LeadsTo(Empty(3), [Hit(a, 1), Hit(x, 5), Hit(y, 9)],
                    Sketch([Slot(1, a), Slot(5, x), Slot(9, y)], 15, 0))
    ensures WeightOf([Hit(a, 1), Hit(x, 5), Hit(y, 9)], x) == 5
  {
    var zero := Slot(0, Place(0, 0));
    var s0 := Sketch([zero, zero, zero], 0, 0);
    var s1 := Sketch([Slot(1, a), zero, zero], 1, 0);
    var s2 := Sketch([Slot(1, a), Slot(5, x), zero], 6, 0);
    var s3 := Sketch([Slot(1, a), Slot(5, x), Slot(9, y)], 15, 0);
    var e1, e2 := [Hit(x, 5), Hit(y, 9)], [Hit(y, 9)];
    assert Empty(3) == s0;
    assert [Hit(a, 1)] + e1 == [Hit(a, 1), Hit(x, 5), Hit(y, 9)] && [Hit(x, 5)] + e2 == e1 && [Hit(y, 9)] + [] == e2;
    assert LeadsTo(s2, e2, s3) by { HitNext(s2, y, 9, 2); RunThen(s2, Hit(y, 9), s3, [], s3); }
    assert LeadsTo(s1, e1, s3) by { HitNext(s1, x, 5, 1); RunThen(s1, Hit(x, 5), s2, e2, s3); }
    assert LeadsTo(s0, [Hit(a, 1)] + e1, s3) by { HitNext(s0, a, 1, 0); RunThen(s0, Hit(a, 1), s1, e1, s3); }
    WeightThen(Hit(y, 9), [], x);
    WeightThen(Hit(x, 5), e2, x);
    WeightThen(Hit(a, 1), e1, x);
  }

  lemma CutTwice(a: Place, b: Place, c: Place, x: Place, y: Place)
    requires a != x && a != y && b != a && b != x && b != y && c != x && c != y && x != y
    ensures LeadsTo(Sketch([Slot(1, a), Slot(5, x), Slot(9, y)], 15, 0), [Hit(b, 1), Hit(x, 1), Hit(c, 1)],
                    Sketch([Slot(0, x), Slot(3, x), Slot(7, y)], 18, 2))
    ensures WeightOf([Hit(b, 1), Hit(x, 1), Hit(c, 1)], x) == 1
  {
    var s3 := Sketch([Slot(1, a), Slot(5, x), Slot(9, y)], 15, 0);
    var s4 := Sketch([Slot(0, a), Slot(4, x), Slot(8, y)], 16, 1);
    var s5 := Sketch([Slot(1, x), Slot(4, x), Slot(8, y)], 17, 1);
    var s6 := Sketch([Slot(0, x), Slot(3, x), Slot(7, y)], 18, 2);
    var e4, e5 := [Hit(x, 1), Hit(c, 1)], [Hit(c, 1)];
    assert [Hit(b, 1)] + e4 == [Hit(b, 1), Hit(x, 1), Hit(c, 1)] && [Hit(x, 1)] + e5 == e4 && [Hit(c, 1)] + [] == e5;
    assert LeadsTo(s5, e5, s6) by { CutNext(s5, c, 0); RunThen(s5, Hit(c, 1), s6, [], s6); }
    assert LeadsTo(s4, e4, s6) by { HitNext(s4, x, 1, 0); RunThen(s4, Hit(x, 1), s5, e5, s6); }
    assert LeadsTo(s3, [Hit(b, 1)] + e4, s6) by { CutNext(s3, b, 0); RunThen(s3, Hit(b, 1), s4, e4, s6); }
    WeightThen(Hit(c, 1), [], x);
    WeightThen(Hit(x, 1), e5, x);
    WeightThen(Hit(b, 1), e4, x);
  }

  /**
   * With two slots the textbook bound f - D fails: an empty slot in front is taken although a later one carries the
   * place, and the next cut lowers both. Here f is 6, D is 2 and 3 is left.
   */
  lemma TwoSlotsBreakTheBound(a: Place, b: Place, c: Place, x: Place, y: Place)
    requires a != x && a != y && b != a && b != x && b != y && c != x && c != y && x != y
    requires x != Place(0, 0) && y != Place(0, 0)
    ensures var events := [Hit(a, 1), Hit(x, 5), Hit(y, 9)] + [Hit(b, 1), Hit(x, 1), Hit(c, 1)];
      && LeadsTo(Empty(3), events, Sketch([Slot(0, x), Slot(3, x), Slot(7, y)], 18, 2))
      && WeightOf(events, x) == 6
      && Held([Slot(0, x), Slot(3, x), Slot(7, y)], x) == 3
  {
    FillThree(a, x, y);
    CutTwice(a, b, c, x, y);
    RunConcat(Empty(3), [Hit(a, 1), Hit(x, 5), Hit(y, 9)], Sketch([Slot(1, a), Slot(5, x), Slot(9, y)], 15, 0),
              [Hit(b, 1), Hit(x, 1), Hit(c, 1)], Sketch([Slot(0, x), Slot(3, x), Slot(7, y)], 18, 2), x);
    HeldByThree([Slot(0, x), Slot(3, x), Slot(7, y)], x);
  }

  lemma HeldByThree(t: seq<Slot>, p: Place)
    requires |t| == 3
    ensures Held(t, p) == CounterFor(p)(t[0]) + CounterFor(p)(t[1]) + CounterFor(p)(t[2])
  {
    var f := CounterFor(p);
    assert t[1..][1..] == t[2..];
    assert SumOf(t[2..], f) == f(t[2]);
    assert SumOf(t[1..], f) == f(t[1]) + SumOf(t[2..], f);
  }

  // sortHitTracker

  predicate Descending(t: seq<Slot>) {
    forall i, j :: 0 <= i < j < |t| ==> t[i].counter >= t[j].counter
  }

  /** The slots from position m on are in order and no larger than any before them. */
  ghost predicate Settled(a: array<Slot>, m: int)
    reads a
  {
    forall i, j :: 0 <= i < j < a.Length && m <= j ==> a[i].counter >= a[j].counter
  }

  /** No slot before position i is smaller than the one there. */
  ghost predicate SmallestSoFar(a: array<Slot>, i: nat)
    reads a
  {
    i < a.Length ==> forall j :: 0 <= j < i ==> a[j].counter >= a[i].counter
  }

  /** A swap among the unsettled slots carries the smallest one on. */
  method SwapWithNext(tracker: array<Slot>, i: nat, ghost unsettled: int)
    requires i + 1 < tracker.Length && i + 1 < unsettled && Settled(tracker, unsettled)
    requires SmallestSoFar(tracker, i) && tracker[i].counter < tracker[i + 1].counter
    modifies tracker
    ensures Settled(tracker, unsettled) && SmallestSoFar(tracker, i + 1)
    ensures multiset(tracker[..]) == multiset(old(tracker[..]))
  {
    tracker[i], tracker[i + 1] := tracker[i + 1], tracker[i];
  }

  /** The entries up to index i are in order. */
  ghost predicate DescendingUpTo(tracker: array<Slot>, i: nat)
    reads tracker
  {
    forall j, k :: 0 <= j < k <= i && k < tracker.Length ==> tracker[j].counter >= tracker[k].counter
  }

  /** One pass brings the smallest unsettled slot to its place; a pass without a swap finds everything in order. */
  method BubblePass(tracker: array<Slot>, ghost unsettled: int) returns (sorted: bool)
    requires Settled(tracker, unsettled)
    modifies tracker
    ensures multiset(tracker[..]) == multiset(old(tracker[..]))
    ensures Settled(tracker, unsettled - 1)
    ensures sorted ==> Settled(tracker, 0)
    ensures unsettled <= 0 ==> sorted
  {
    sorted := true;
    var i: nat := 0;
    while i + 1 < tracker.Length
      invariant i < tracker.Length || tracker.Length == 0
      invariant multiset(tracker[..]) == multiset(old(tracker[..]))
      invariant Settled(tracker, unsettled)
      invariant i + 1 >= unsettled ==> Settled(tracker, unsettled - 1)
      invariant SmallestSoFar(tracker, i)
      invariant sorted ==> DescendingUpTo(tracker, i)
      invariant unsettled <= 0 ==> sorted
    {
      if tracker[i].counter < tracker[i + 1].counter {
        SwapWithNext(tracker, i, unsettled);
        sorted := false;
      }
      i := i + 1;
    }
  }

  method SortHitTracker(tracker: array<Slot>)
    modifies tracker
    ensures Descending(tracker[..]) && multiset(tracker[..]) == multiset(old(tracker[..]))
  {
    var sorted := false;
    ghost var unsettled: int := tracker.Length;
    while !sorted
      invariant multiset(tracker[..]) == multiset(old(tracker[..]))
      invariant Settled(tracker, unsettled)
      invariant sorted ==> Settled(tracker, 0)
      invariant unsettled < 0 ==> sorted
      decreases !sorted, unsettled
    {
      sorted := BubblePass(tracker, unsettled);
      unsettled := unsettled - 1;
    }
  }
}
