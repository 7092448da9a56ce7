/** How io61's cache slots age, whom the ageing evicts, and which reads it makes possible. */
module CachedFileAges {
  import opened Wrappers
  import opened CachedFile
  import opened CachedFileProofs
  import opened CachedFileReads

  // Searches

  /** From s to s' every slot but the one that was found is one search older; nothing else has changed. */
  predicate OneSearchOlder(s: seq<Slot>, s': seq<Slot>, found: Option<nat>) {
    && |s'| == |s|
    && (forall i :: 0 <= i < |s| ==>
         s'[i] == s[i].(lifetime := s[i].lifetime + (if found == Some(i) then 0 else 1)))
  }

  /** A search finds the first slot that covers the position, makes it the current one, and ages the others. */
  lemma SearchAges(r: Reader, pos: int)
    requires WellFormed(r)
    ensures var (r', ok) := Get(r, pos);
      && r' == r.(slots := r'.slots, current := r'.current)
      && OneSearchOlder(r.slots, r'.slots, if ok then Some(r'.current as nat) else None)
      && (ok ==> 0 <= r'.current && Covers(r.slots[r'.current], pos)
                 && forall i :: 0 <= i < r'.current ==> !Covers(r.slots[i], pos))
      && (!ok ==> r'.current == r.current && forall i :: 0 <= i < NCACHES ==> !Covers(r.slots[i], pos))
  {
  }

  /** The reader has just passed on the byte after the one before pos; see SeekBack. */
  predicate StepsBack(r: Reader, pos: nat)
    requires WellFormed(r)
  {
    r.current != -1 && pos + 2 == Position(r)
  }

  /** The slot that covers pos is current and stands at pos. */
  predicate StandsIn(r: Reader, pos: nat, l: nat)
    requires WellFormed(r)
  {
    l < NCACHES && r.current == l && Covers(r.slots[l], pos) && r.slots[l].pos + r.slots[l].offset == pos
  }

  /**
   * A seek to a position that is in a slot reads nothing: that slot becomes the current one, and all others are one
   * search older.
   */
  lemma SeekAges(r: Reader, pos: nat, l: nat)
    requires Inv(r) && !StepsBack(r, pos) && l < NCACHES && Covers(r.slots[l], pos)
    requires forall i :: 0 <= i < l ==> !Covers(r.slots[i], pos)
    ensures Seek(r, pos).Some?
    ensures var r' := Seek(r, pos).value;
      && r' == r.(slots := r'.slots, current := l) && StandsIn(r', pos, l)
      && OneSearchOlder(r.slots, r'.slots[l := r'.slots[l].(offset := r.slots[l].offset)], Some(l))
  {
    assert SlotOk(r.file, r.slots[l]);
    SearchAges(r, pos);
  }

  lemma FetchFills(r: Reader, pos: nat, aged: seq<Slot>, v: nat, r2: Reader)
    requires Inv(r) && pos < |r.file| && (forall i :: 0 <= i < NCACHES ==> !Covers(r.slots[i], pos))
    requires OneSearchOlder(r.slots, aged, None) && v == Victim(aged) && r2 == Fetched(r, pos)
    ensures r2 == r.(slots := r2.slots, current := v, calls := r.calls + 1) && r2.slots == aged[v := r2.slots[v]]
    ensures FilledWith(r2.slots[v], pos, PreadCount(r, pos))
  {
    SearchAges(r, pos);
    assert Get(r, pos).0.slots == aged;
  }

  /** A seek to a position that is in no slot ages all of them and fills the victim, which starts anew. */
  lemma SeekFills(r: Reader, pos: nat, aged: seq<Slot>, v: nat)
    requires Inv(r) && !StepsBack(r, pos) && pos < |r.file|
    requires forall i :: 0 <= i < NCACHES ==> !Covers(r.slots[i], pos)
    requires OneSearchOlder(r.slots, aged, None) && v == Victim(aged)
    ensures Seek(r, pos).Some?
    ensures var r' := Seek(r, pos).value;
      && r' == r.(slots := r'.slots, current := v, calls := r.calls + 1)
      && StandsIn(r', pos, v) && r'.slots == aged[v := r'.slots[v]]
      && FilledWith(r'.slots[v], pos, PreadCount(r, pos))
  {
    FetchFills(r, pos, aged, v, Fetched(r, pos));
    var r2 := Fetched(r, pos);
    assert r2.slots[v := r2.slots[v].(offset := 0)] == r2.slots;
  }

  /** A seek to or past the end of the file finds nothing to fill a slot with, and empties the victim's all the same. */
  lemma SeekPastEnd(r: Reader, pos: nat, aged: seq<Slot>, v: nat)
    requires Inv(r) && r.current != -1 && !StepsBack(r, pos) && pos >= |r.file|
    requires OneSearchOlder(r.slots, aged, None) && v == Victim(aged)
    ensures Seek(r, pos).Some?
    ensures var r' := Seek(r, pos).value;
      && r'.calls == r.calls + 1 && r'.current == r.current && !r'.slots[v].active
      && (forall i :: 0 <= i < NCACHES && i != v && i != r.current ==> r'.slots[i] == aged[i])
  {
    forall i | 0 <= i < NCACHES
      ensures !Covers(r.slots[i], pos)
    {
      assert SlotOk(r.file, r.slots[i]);
    }
    SearchAges(r, pos);
    assert Get(r, pos).0.slots == aged;
    SeekTheorem(r, pos);
  }

  // Reading forwards

  /** As long as the current slot has bytes left, a character is read from it, and nothing else changes. */
  lemma ReadsFromSlot(r: Reader)
    requires Inv(r) && r.current >= 0 && r.slots[r.current].offset < r.slots[r.current].bufsize
    ensures Readc(r).1 == r.(slots := r.slots[r.current :=
                               r.slots[r.current].(offset := r.slots[r.current].offset + 1)])
  {
  }

  /** Otherwise one pread fetches what comes next, and nothing of that is read again. */
  lemma ReadsNextSlot(r: Reader)
    requires Inv(r) && (r.current >= 0 ==> r.slots[r.current].offset >= r.slots[r.current].bufsize)
    ensures Prepare(r).0.calls == r.calls + 1
    ensures Position(r) < |r.file| ==>
              var r1 := Prepare(r).0;
              r1.current == Victim(r.slots)
              && FilledWith(r1.slots[r1.current], Position(r), PreadCount(r, Position(r)))
  {
    PrepareOk(r);
    BuildOk(r, Position(r));
  }

  // Reading backwards

  ghost predicate FullPreads(r: Reader) { forall n: nat :: r.short(n) >= PAGESIZE }

  predicate InSomeSlot(r: Reader, x: nat) { exists i :: 0 <= i < |r.slots| && Covers(r.slots[i], x) }

  lemma SameWindows(r: Reader, r': Reader, x: nat)
    requires |r'.slots| == |r.slots| && InSomeSlot(r, x)
    requires forall i :: 0 <= i < |r.slots| ==>
               r'.slots[i].active == r.slots[i].active && r'.slots[i].pos == r.slots[i].pos
               && r'.slots[i].bufsize == r.slots[i].bufsize
    ensures InSomeSlot(r', x)
  {
    var i :| 0 <= i < |r.slots| && Covers(r.slots[i], x);
    assert Covers(r'.slots[i], x);
  }

  /** One step back at the edge of what is cached fetches the page that ends there. */
  lemma StepBackFetches(r: Reader, pos: nat, r1: Reader)
    requires Inv(r) && StepsBack(r, pos) && 0 < pos < |r.file| && FullPreads(r) && !InSomeSlot(r, pos - 1)
    requires r1 == SeekBack(r, pos)
    ensures WellFormed(r1) && r1.calls == r.calls + 1
    ensures forall x :: 0 <= x <= pos < x + PAGESIZE ==> InSomeSlot(r1, x)
  {
    SearchAges(r, pos - 1);
    var start := if pos < PAGESIZE then 0 else pos + 1 - PAGESIZE;
    assert r.short(r.calls) >= PAGESIZE;
    assert start + PreadCount(r, start) > pos;
    forall x | 0 <= x <= pos < x + PAGESIZE
      ensures InSomeSlot(r1, x)
    {
      assert Covers(r1.slots[r1.current], x);
    }
  }

  /**
   * Reading backwards byte by byte: where the step leaves what is cached, a single pread makes room for a page of steps
   * that need none.
   */
  lemma BackwardsByPages(r: Reader, pos: nat)
    requires Inv(r) && StepsBack(r, pos) && 0 < pos < |r.file| && FullPreads(r) && !InSomeSlot(r, pos - 1)
    ensures Seek(r, pos).Some? && Seek(r, pos).value.calls == r.calls + 1
    ensures forall x :: 0 <= x <= pos < x + PAGESIZE ==> InSomeSlot(Seek(r, pos).value, x)
  {
    SeekTheorem(r, pos);
    var r1, r' := SeekBack(r, pos), Seek(r, pos).value;
    StepBackFetches(r, pos, r1);
    assert InSomeSlot(r1, pos);
    SearchAges(r1, pos);
    forall x | 0 <= x <= pos < x + PAGESIZE
      ensures InSomeSlot(r', x)
    {
      SameWindows(r1, r', x);
    }
  }

  /** A step back into what is cached reads nothing. */
  lemma StepBackInside(r: Reader, pos: nat)
    requires Inv(r) && StepsBack(r, pos) && pos < |r.file| && InSomeSlot(r, pos) && (pos > 0 ==> InSomeSlot(r, pos - 1))
    ensures Seek(r, pos).Some? && (pos > 0 ==> Seek(r, pos).value.calls == r.calls)
  {
    SeekTheorem(r, pos);
    SearchAges(r, pos - 1);
    if pos > 0 {
      SameWindows(r, SeekBack(r, pos), pos);
      SearchAges(SeekBack(r, pos), pos);
    }
  }

  // Whom the ageing evicts

  /** Slot l is found by one search and nothing by the next. */
  predicate HitThenMiss(s: seq<Slot>, s1: seq<Slot>, s2: seq<Slot>, l: nat) {
    l < |s| && OneSearchOlder(s, s1, Some(l)) && OneSearchOlder(s1, s2, None)
  }

  /**
   * The comment on buildCacheForPos speaks of the least recently used element. A slot's age is the number of searches
   * that have passed it over since it was filled, and being used does not make it younger. So the slot that was used
   * last is the next to be evicted exactly if it was older than all others by more than that one search.
   */
  lemma JustUsedIsEvicted(s: seq<Slot>, s1: seq<Slot>, s2: seq<Slot>, l: nat)
    requires HitThenMiss(s, s1, s2, l)
    requires forall i :: 0 <= i < |s| ==> s[i].active && s[i].lifetime >= 0
    ensures Victim(s2) == l <==>
            forall j :: 0 <= j < |s| && j != l ==>
              s[l].lifetime > s[j].lifetime + 1 || (s[l].lifetime == s[j].lifetime + 1 && l < j)
  {
    VictimIs(s2, l);
    if Victim(s2) == l {
      forall j | 0 <= j < |s| && j != l
        ensures s[l].lifetime > s[j].lifetime + 1 || (s[l].lifetime == s[j].lifetime + 1 && l < j)
      {
        assert j !in Ahead(s2, l);
        assert !Before(s2, j, l);
      }
    } else {
      var j := Victim(s2);
      assert Before(s2, j, l);
    }
  }

  // A session that evicts the page just used

  /** Page i of the file, in full. */
  predicate HoldsPage(slot: Slot, i: nat, age: int) {
    slot.active && slot.pos == i * PAGESIZE && slot.bufsize == PAGESIZE && slot.lifetime == age
  }

  /** The first k pages have been sought one after the other: slot i holds page i, the others are empty. */
  predicate Sought(r: Reader, file: seq<Byte>, k: nat) {
    && Inv(r) && r.file == file && k <= NCACHES && r.current == k - 1
    && (forall i :: 0 <= i < k ==> HoldsPage(r.slots[i], i, k - 1 - i))
    && (forall i :: k <= i < NCACHES ==> !r.slots[i].active)
    && (k > 0 ==> Position(r) == (k - 1) * PAGESIZE)
  }

  /** Seeks to page k and all that there are slots for, and back to the first one. */
  function PagesFrom(k: nat): seq<Request>
    decreases NCACHES - k
  {
    if k >= NCACHES then [SeekTo(0)] else [SeekTo(k * PAGESIZE)] + PagesFrom(k + 1)
  }

  lemma NotYetCovered(r: Reader, file: seq<Byte>, k: nat, pos: nat)
    requires Sought(r, file, k) && pos >= k * PAGESIZE
    ensures forall i :: 0 <= i < NCACHES ==> !Covers(r.slots[i], pos)
  {
    forall i | 0 <= i < NCACHES
      ensures !Covers(r.slots[i], pos)
    {
      assert i < k ==> HoldsPage(r.slots[i], i, k - 1 - i);
    }
  }

  lemma FirstEmpty(slots: seq<Slot>, k: nat)
    requires k < |slots| && (forall i :: 0 <= i < |slots| ==> (slots[i].active <==> i < k))
    ensures Victim(slots) == k
  {
    FirstEmptyFrom(slots, 0, 0, -1, k);
  }

  lemma {:induction false} FirstEmptyFrom(slots: seq<Slot>, i: nat, oldest: nat, maxLifetime: int, k: nat)
    requires i <= k < |slots| && oldest < |slots| && (forall j :: 0 <= j < |slots| ==> (slots[j].active <==> j < k))
    ensures VictimFrom(slots, i, oldest, maxLifetime) == k
    decreases k - i
  {
    if i < k {
      FirstEmptyFrom(slots, i + 1, if slots[i].lifetime > maxLifetime then i else oldest,
                     if slots[i].lifetime > maxLifetime then slots[i].lifetime else maxLifetime, k);
    }
  }

  lemma OneMoreSought(r: Reader, file: seq<Byte>, k: nat, aged: seq<Slot>, r': Reader)
    requires Sought(r, file, k) && k < NCACHES && OneSearchOlder(r.slots, aged, None)
    requires Inv(r') && r'.file == file && r'.current == k && r'.slots == aged[k := r'.slots[k]]
    requires FilledWith(r'.slots[k], k * PAGESIZE, PAGESIZE) && Position(r') == k * PAGESIZE
    ensures Sought(r', file, k + 1)
  {
    forall i | 0 <= i < k + 1
      ensures HoldsPage(r'.slots[i], i, k - i)
    {
      assert i < k ==> HoldsPage(r.slots[i], i, k - 1 - i);
    }
  }

  lemma SeekNextPage(r: Reader, file: seq<Byte>, k: nat, pos: nat) returns (r': Reader)
    requires Sought(r, file, k) && k < NCACHES && FullPreads(r) && |file| > (NCACHES + 1) * PAGESIZE
    requires pos == k * PAGESIZE
    ensures Seek(r, pos) == Some(r') && Sought(r', file, k + 1) && r'.short == r.short
  {
    var aged := Get(r, pos).0.slots;
    NotYetCovered(r, file, k, pos);
    SearchAges(r, pos);
    FirstEmpty(aged, k);
    SeekFills(r, pos, aged, k);
    SeekTheorem(r, pos);
    r' := Seek(r, pos).value;
    assert r.short(r.calls) >= PAGESIZE;
    OneMoreSought(r, file, k, aged, r');
  }

  /** The session of requests leads from r to r', whatever number of turns block reads would get. */
  ghost predicate Leads(r: Reader, qs: seq<Request>, r': Reader)
    requires WellFormed(r)
  {
    forall turns :: CachedSession(r, qs, turns).Some? && CachedSession(r, qs, turns).value.1 == r'
  }

  lemma SeekThen(r: Reader, pos: nat, r1: Reader, qs: seq<Request>, rest: seq<Request>, r2: Reader)
    requires WellFormed(r) && WellFormed(r1) && Seek(r, pos) == Some(r1) && Leads(r1, rest, r2)
    requires qs == [SeekTo(pos)] + rest
    ensures Leads(r, qs, r2)
  {
    assert qs[0] == SeekTo(pos) && qs[1..] == rest;
  }

  /** Page 0 has been used last, and page i is in slot i. */
  predicate UsedFirstPage(r: Reader, file: seq<Byte>) {
    && Inv(r) && r.file == file && r.current == 0 && Position(r) == 0
    && (forall i :: 0 <= i < NCACHES ==> HoldsPage(r.slots[i], i, if i == 0 then NCACHES - 1 else NCACHES - i))
  }

  lemma UsesFirstPage(r: Reader, file: seq<Byte>) returns (r1: Reader)
    requires Sought(r, file, NCACHES)
    ensures Seek(r, 0) == Some(r1) && UsedFirstPage(r1, file) && r1.short == r.short
  {
    assert HoldsPage(r.slots[0], 0, NCACHES - 1);
    SeekAges(r, 0, 0);
    SeekTheorem(r, 0);
    r1 := Seek(r, 0).value;
    forall i | 0 <= i < NCACHES
      ensures HoldsPage(r1.slots[i], i, if i == 0 then NCACHES - 1 else NCACHES - i)
    {
      assert HoldsPage(r.slots[i], i, NCACHES - 1 - i);
    }
  }

  lemma {:induction false} PagesSought(r: Reader, file: seq<Byte>, k: nat) returns (r1: Reader)
    requires Sought(r, file, k) && FullPreads(r) && |file| > (NCACHES + 1) * PAGESIZE
    ensures Leads(r, PagesFrom(k), r1) && UsedFirstPage(r1, file)
    decreases NCACHES - k
  {
    if k == NCACHES {
      r1 := UsesFirstPage(r, file);
      SeekThen(r, 0, r1, PagesFrom(k), [], r1);
    } else {
      var r' := SeekNextPage(r, file, k, k * PAGESIZE);
      assert FullPreads(r') by { forall n: nat ensures r'.short(n) >= PAGESIZE { assert r.short(n) >= PAGESIZE; } }
      r1 := PagesSought(r', file, k + 1);
      SeekThen(r, k * PAGESIZE, r', PagesFrom(k), PagesFrom(k + 1), r1);
    }
  }

  lemma FirstPageIsVictim(r1: Reader, file: seq<Byte>, aged: seq<Slot>)
    requires UsedFirstPage(r1, file) && OneSearchOlder(r1.slots, aged, None)
    ensures Victim(aged) == 0
  {
    assert HoldsPage(r1.slots[0], 0, NCACHES - 1);
    forall i | 0 <= i < NCACHES
      ensures aged[i].active && aged[i].lifetime == (if i == 0 then NCACHES else NCACHES + 1 - i)
    {
      assert HoldsPage(r1.slots[i], i, if i == 0 then NCACHES - 1 else NCACHES - i);
    }
    VictimIs(aged, 0);
    assert forall j :: 0 <= j < NCACHES ==> !Before(aged, j, 0);
  }

  /**
   * Ten pages fill the slots; the first one is used again, and is lost all the same to the next page that is sought,
   * while pages that have not been used since they were read stay.
   */
  lemma JustUsedPageIsLost(file: seq<Byte>, short: nat -> nat) returns (r1: Reader, r2: Reader)
    requires |file| > (NCACHES + 1) * PAGESIZE && FullPreads(Opened(file, short))
    ensures Leads(Opened(file, short), PagesFrom(0), r1)
    ensures UsedFirstPage(r1, file) && Seek(r1, NCACHES * PAGESIZE) == Some(r2)
    ensures forall i :: 0 <= i < NCACHES ==> !Covers(r2.slots[i], 0)
    ensures forall i :: 1 <= i < NCACHES ==> Covers(r2.slots[i], i * PAGESIZE)
  {
    OpenedOk(file, short);
    r1 := PagesSought(Opened(file, short), file, 0);
    r2 := SeeksAnother(r1, file, NCACHES * PAGESIZE);
  }

  lemma SeeksAnother(r1: Reader, file: seq<Byte>, pos: nat) returns (r2: Reader)
    requires UsedFirstPage(r1, file) && pos == NCACHES * PAGESIZE < |file|
    ensures Seek(r1, pos) == Some(r2)
    ensures forall i :: 0 <= i < NCACHES ==> !Covers(r2.slots[i], 0)
    ensures forall i :: 1 <= i < NCACHES ==> Covers(r2.slots[i], i * PAGESIZE)
  {
    forall i | 0 <= i < NCACHES
      ensures !Covers(r1.slots[i], pos)
    {
      assert HoldsPage(r1.slots[i], i, if i == 0 then NCACHES - 1 else NCACHES - i);
    }
    var aged := Get(r1, pos).0.slots;
    SearchAges(r1, pos);
    FirstPageIsVictim(r1, file, aged);
    SeekFills(r1, pos, aged, 0);
    r2 := Seek(r1, pos).value;
    forall i | 1 <= i < NCACHES
      ensures Covers(r2.slots[i], i * PAGESIZE) && !Covers(r2.slots[i], 0)
    {
      assert HoldsPage(r1.slots[i], i, NCACHES - i);
    }
  }

  // A session that needs the ageing

  /** After one page has been read, seeks to the start and back make slot 1 old enough to be refilled. */
  lemma TwoSeeks(r: Reader) returns (r1: Reader, r2: Reader)
    requires Inv(r) && r.current == 1 && |r.file| > 2 * PAGESIZE
    requires r.slots[1] == Slot(true, r.file[PAGESIZE..2 * PAGESIZE], PAGESIZE, 0, PAGESIZE, 0)
    requires r.slots[0] == Slot(true, r.file[..PAGESIZE], 0, PAGESIZE, PAGESIZE, 0)
    ensures Seek(r, 0) == Some(r1) && Seek(r1, PAGESIZE) == Some(r2) && Inv(r2)
    ensures r2.file == r.file && r2.short == r.short && StandsIn(r2, PAGESIZE, 1)
    ensures r2.slots[1].lifetime == 1 && r2.slots[1].bufsize == PAGESIZE && r2.slots[1].offset == 0
  {
    SeekAges(r, 0, 0);
    SeekTheorem(r, 0);
    r1 := Seek(r, 0).value;
    SeekAges(r1, PAGESIZE, 1);
    SeekTheorem(r1, PAGESIZE);
    r2 := Seek(r1, PAGESIZE).value;
  }

  lemma AgedSlotSuffices(r: Reader) returns (k: nat)
    requires Inv(r) && FullPreads(r) && StandsIn(r, PAGESIZE, 1) && r.slots[1].lifetime == 1
    requires r.slots[1].bufsize == PAGESIZE && r.slots[1].offset == 0
    ensures Prepare(r) == (r, true) && Turns(Start(r, PAGESIZE + 1), 1, PAGESIZE + 1, k).done
  {
    StartCopies(r, PAGESIZE + 1);
    TerminatesAgedFullPages(Start(r, PAGESIZE + 1), 1, PAGESIZE, PAGESIZE + 1, 2 * PAGESIZE, PAGESIZE);
    k :| Turns(Start(r, PAGESIZE + 1), 1, PAGESIZE + 1, k).done;
  }

  /** The two reads of SecondReadHangs, with two seeks in between that end where they began. */
  function ReadSeekSeekRead(): seq<Request> {
    [GetBlock(PAGESIZE), SeekTo(0), SeekTo(PAGESIZE), GetBlock(PAGESIZE + 1)]
  }

  lemma SessionOfFour(r0: Reader, qs: seq<Request>, turns: nat -> nat, r: Reader, r1: Reader, r2: Reader)
    requires Inv(r0) && |qs| == 4 && qs[1].SeekTo? && qs[2].SeekTo? && WellFormed(r) && WellFormed(r1) && WellFormed(r2)
    requires CachedAnswer(r0, qs[0], turns(4)).Some? && CachedAnswer(r0, qs[0], turns(4)).value.1 == r
    requires Seek(r, qs[1].pos) == Some(r1) && Seek(r1, qs[2].pos) == Some(r2)
    requires CachedAnswer(r2, qs[3], turns(1)).Some?
    ensures CachedSession(r0, qs, turns).Some?
  {
    assert qs[1..][1..] == qs[2..] && qs[2..][1..] == qs[3..] && qs[3..][1..] == [];
    assert CachedSession(r2, qs[3..], turns).Some?;
    assert CachedSession(r1, qs[2..], turns).Some?;
    assert CachedSession(r, qs[1..], turns).Some?;
  }

  /**
   * With the two seeks the second read returns, since they have made slot 1 older; the answers are those of the
   * unbuffered reader.
   */
  lemma SeeksUnblockTheRead(file: seq<Byte>, short: nat -> nat) returns (turns: nat -> nat)
    requires |file| > 2 * PAGESIZE && FullPreads(Opened(file, short))
    ensures var o := CachedSession(Opened(file, short), ReadSeekSeekRead(), turns);
      o.Some? && o.value.0 == SlowSession(file, 0, ReadSeekSeekRead()).0
  {
    var r0, qs := Opened(file, short), ReadSeekSeekRead();
    assert forall n: nat :: short(n) == r0.short(n);
    OpenedOk(file, short);
    var r := OnePageRead(file, short);
    var r1, r2 := TwoSeeks(r);
    var k := AgedSlotSuffices(r2);
    turns := (i: nat) => if i == 1 then k else 1;
    assert CachedAnswer(r0, qs[0], 1) == Some((Block(file[..PAGESIZE]), r)) by { FirstBlock(r0, file, short, r); }
    SessionOfFour(r0, qs, turns, r, r1, r2);
    SessionAgrees(r0, qs, turns);
  }

  lemma FirstBlock(r0: Reader, file: seq<Byte>, short: nat -> nat, r: Reader)
    requires r0 == Opened(file, short) && |file| > 2 * PAGESIZE && FullPreads(r0) && WellFormed(r)
    requires var p := Prepare(r0).0;
      p.current == 0 && Turns(Start(p, PAGESIZE), 0, PAGESIZE, 1) == Progress(r, file[..PAGESIZE], true)
    ensures CachedAnswer(r0, GetBlock(PAGESIZE), 1) == Some((Block(file[..PAGESIZE]), r))
  {
    OpenedOk(file, short);
    PrepareOk(r0);
  }
}
