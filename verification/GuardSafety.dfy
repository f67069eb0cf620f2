/** Safety of the signing guard over every run of openings, authorizations, write faults and power losses. */
module GuardSafety {
  import opened Prelude
  import opened SigningGuard

  /** Every record in the file has reached stable storage. */
  predicate Durable(d: Disk) {
    d.Absent? || |d.bytes| <= HEADER_BYTES || d.synced == |d.bytes|
  }

  /** Every opening of the run that succeeds finds a durable journal. */
  predicate DurableOpens(hash: Hasher, w: World, events: seq<Event>)
    decreases |events|
  {
    events == [] ||
    (&& (events[0].Open? && Step(hash, w, events[0]).1 == Granted ==> Durable(w.disk))
     && DurableOpens(hash, Step(hash, w, events[0]).0, events[1..]))
  }

  /** Later grants never go back and never change a target. */
  ghost predicate Ordered(grants: seq<Intent>) {
    forall i, j :: 0 <= i < j < |grants| ==> grants[i] == grants[j] || Before(grants[i], grants[j])
  }

  /** The file is the image of `log`, possibly with a torn tail, and a healthy guard remembers `log`. */
  ghost predicate Shape(hash: Hasher, w: World, n: Bytes32, v: Bytes32, log: seq<Intent>) {
    match w.disk
    case Absent => log == [] && w.live.None?
    case Journal(bytes, synced) =>
      && synced <= |bytes|
      && (|bytes| < HEADER_BYTES ==> log == [] && w.live.None?)
      && (|bytes| >= HEADER_BYTES ==>
            && n != ZERO32 && v != ZERO32
            && Increasing(log)
            && End(|log|) <= |bytes| < End(|log| + 1)
            && bytes[..End(|log|)] == Image(hash, n, v, log)
            && (w.live.Some? ==> w.live.value.network == n && w.live.value.validator == v)
            && (w.live.Some? && !w.live.value.poisoned ==>
                  |bytes| == End(|log|) && w.live.value.position == PositionOf(hash, log)))
  }

  /** Everything granted is on stable storage, and a healthy guard only remembers stable records. */
  ghost predicate Stable(w: World, log: seq<Intent>, grants: seq<Intent>) {
    && Ordered(grants)
    && (w.disk.Absent? ==> grants == [])
    && (w.disk.Journal? ==>
          && (forall g :: g in grants ==> Held(log, w.disk.synced, g))
          && (w.live.Some? && !w.live.value.poisoned ==> Durable(w.disk))
          && (log != [] && |w.disk.bytes| == End(|log|) && !Durable(w.disk) ==>
                w.disk.synced + RECORD_BYTES <= |w.disk.bytes|))
  }

  ghost predicate Held(log: seq<Intent>, synced: nat, g: Intent) {
    exists k :: 0 <= k < |log| && log[k] == g && End(k + 1) <= synced
  }

  // ---------------------------------------------------------------- one event

  lemma OpenShape(hash: Hasher, w: World, e: Event, n: Bytes32, v: Bytes32, log: seq<Intent>)
    returns (n': Bytes32, v': Bytes32)
    requires e.Open? && Shape(hash, w, n, v, log)
    ensures Shape(hash, Step(hash, w, e).0, n', v', log)
    ensures w.disk.Journal? ==> Step(hash, w, e).0.disk == w.disk
    ensures w.disk.Absent? && Step(hash, w, e).0.disk.Journal? ==> |Step(hash, w, e).0.disk.bytes| <= HEADER_BYTES
  {
    hide ReplayFrom;
    n', v' := n, v;
    if w.live.None? && e.network != ZERO32 && e.validator != ZERO32 {
      if w.disk.Absent? {
        n', v' := e.network, e.validator;
        var bytes := Step(hash, w, e).0.disk.bytes;
        assert [] + Header(n', v') == Header(n', v');
        if |bytes| == HEADER_BYTES {
          assert bytes == Header(n', v') == Image(hash, n', v', []);
          assert bytes[..End(0)] == bytes;
          JournalReads(hash, n', v', [], bytes);
        }
      } else if |w.disk.bytes| >= HEADER_BYTES {
        HeaderBelongs(hash, n, v, log, w.disk.bytes);
        JournalReads(hash, n, v, log, w.disk.bytes);
      }
    }
  }

  lemma HeaderBelongs(hash: Hasher, n: Bytes32, v: Bytes32, log: seq<Intent>, bytes: Bytes)
    requires End(|log|) <= |bytes| && bytes[..End(|log|)] == Image(hash, n, v, log)
    ensures bytes[..5] == MAGIC && bytes[5..37] == n && bytes[37..69] == v
  {
    ImagePrefix(hash, n, v, log, 0);
    assert bytes[..HEADER_BYTES] == bytes[..End(|log|)][..HEADER_BYTES] == Header(n, v);
    assert bytes[..5] == bytes[..HEADER_BYTES][..5] == MAGIC;
    assert bytes[5..37] == bytes[..HEADER_BYTES][5..37] == n;
    assert bytes[37..69] == bytes[..HEADER_BYTES][37..69] == v;
  }

  lemma AuthorizeShape(hash: Hasher, w: World, e: Event, n: Bytes32, v: Bytes32, log: seq<Intent>)
    returns (log': seq<Intent>)
    requires e.Authorize? && Shape(hash, w, n, v, log)
    ensures Shape(hash, Step(hash, w, e).0, n, v, log')
    ensures log' == log || (log' == log + [e.intent] && Increasing(log') && w.live.Some? && !w.live.value.poisoned)
    ensures Step(hash, w, e).1 == Granted ==>
              w.live.Some? && !w.live.value.poisoned && log' != [] && log'[|log'| - 1] == e.intent
    ensures Step(hash, w, e).1 == Granted && log' != log ==> Durable(Step(hash, w, e).0.disk)
    ensures Step(hash, w, e).1 == Granted && log' == log ==> Step(hash, w, e).0 == w
    ensures w.disk.Journal? ==>
              var d := Step(hash, w, e).0.disk;
              d.Journal? && w.disk.synced <= d.synced && (Step(hash, w, e).1 != Granted ==> d.synced == w.disk.synced)
  {
    hide ReplayFrom, Body, Encoded;
    log' := log;
    if w.live.Some? && w.disk.Journal? {
      var l := w.live.value;
      if Judge(l, e.network, e.validator, e.intent).Extend? {
        var enc := Encoded(hash, e.intent, l.position.lastHash);
        var d := Step(hash, w, e).0.disk;
        IncreasingSnoc(hash, log, e.intent);
        assert (log + [e.intent])[..|log|] == log;
        assert w.disk.bytes == w.disk.bytes[..End(|log|)];
        assert Image(hash, n, v, log + [e.intent]) == w.disk.bytes + enc;
        if |d.bytes| == End(|log| + 1) {
          log' := log + [e.intent];
          assert d.bytes == w.disk.bytes + enc;
          assert d.bytes[..End(|log'|)] == d.bytes;
        } else {
          assert d.bytes[..End(|log|)] == w.disk.bytes;
        }
      } else if Judge(l, e.network, e.validator, e.intent).Repeat? {
        assert log != [];
      }
    }
  }

  /** Cutting a journal image anywhere leaves the image of a prefix and less than one more record. */
  lemma CutImage(hash: Hasher, n: Bytes32, v: Bytes32, log: seq<Intent>, bytes: Bytes, kept: nat) returns (m: nat)
    requires End(|log|) <= |bytes| < End(|log| + 1) && bytes[..End(|log|)] == Image(hash, n, v, log)
    requires HEADER_BYTES <= kept <= |bytes|
    ensures m <= |log| && End(m) <= kept < End(m + 1)
    ensures bytes[..kept][..End(m)] == Image(hash, n, v, log[..m])
  {
    m := (kept - HEADER_BYTES) / RECORD_BYTES;
    ImagePrefix(hash, n, v, log, m);
    assert bytes[..kept][..End(m)] == bytes[..End(|log|)][..End(m)];
  }

  lemma PowerLossShape(hash: Hasher, w: World, e: Event, n: Bytes32, v: Bytes32, log: seq<Intent>)
    returns (log': seq<Intent>)
    requires e.PowerLoss? && Shape(hash, w, n, v, log)
    ensures Shape(hash, Step(hash, w, e).0, n, v, log')
    ensures |log'| <= |log| && log' == log[..|log'|]
    ensures w.disk.Journal? ==> Survives(w.disk, e.kept) < End(|log'| + 1)
  {
    hide Image, PositionOf;
    log' := log;
    if w.disk.Journal? && |w.disk.bytes| >= HEADER_BYTES {
      var kept := Survives(w.disk, e.kept);
      if kept < HEADER_BYTES {
        log' := [];
      } else {
        var m := CutImage(hash, n, v, log, w.disk.bytes, kept);
        log' := log[..m];
      }
    }
  }

  lemma StepShape(hash: Hasher, w: World, e: Event, n: Bytes32, v: Bytes32, log: seq<Intent>)
    returns (n': Bytes32, v': Bytes32, log': seq<Intent>)
    requires Shape(hash, w, n, v, log)
    ensures Shape(hash, Step(hash, w, e).0, n', v', log')
  {
    n', v', log' := n, v, log;
    match e {
      case Open(_, _, _) => n', v' := OpenShape(hash, w, e, n, v, log);
      case Authorize(_, _, _, _) => log' := AuthorizeShape(hash, w, e, n, v, log);
      case Close =>
      case PowerLoss(_) => log' := PowerLossShape(hash, w, e, n, v, log);
    }
  }

  lemma {:induction false} RunShape(hash: Hasher, w: World, events: seq<Event>, n: Bytes32, v: Bytes32, log: seq<Intent>)
    returns (n': Bytes32, v': Bytes32, log': seq<Intent>)
    requires Shape(hash, w, n, v, log)
    ensures Shape(hash, After(hash, w, events), n', v', log')
    decreases |events|
  {
    hide Step, Shape;
    if events == [] {
      n', v', log' := n, v, log;
    } else {
      n', v', log' := StepShape(hash, w, events[0], n, v, log);
      n', v', log' := RunShape(hash, Step(hash, w, events[0]).0, events[1..], n', v', log');
    }
  }

  predicate TornTail(bytes: Bytes) {
    |bytes| < HEADER_BYTES || (|bytes| - HEADER_BYTES) % RECORD_BYTES != 0
  }

  lemma TornIff(bytes: Bytes, k: nat)
    requires End(k) <= |bytes| < End(k + 1)
    ensures TornTail(bytes) <==> |bytes| != End(k)
  {
  }

  lemma ShapeReads(hash: Hasher, w: World, n: Bytes32, v: Bytes32, log: seq<Intent>)
    requires Shape(hash, w, n, v, log) && w.disk.Journal? && |w.disk.bytes| >= HEADER_BYTES
    ensures TornTail(w.disk.bytes) <==> |w.disk.bytes| != End(|log|)
    ensures ReadJournal(hash, n, v, w.disk.bytes) ==
            if TornTail(w.disk.bytes) then BadJournal else Opened(PositionOf(hash, log))
  {
    JournalReads(hash, n, v, log, w.disk.bytes);
    TornIff(w.disk.bytes, |log|);
  }

  lemma OwnersOnly(hash: Hasher, w: World, n: Bytes32, v: Bytes32, log: seq<Intent>, network: Bytes32, validator: Bytes32)
    requires Shape(hash, w, n, v, log) && w.disk.Journal?
    requires ReadJournal(hash, network, validator, w.disk.bytes).Opened?
    ensures |w.disk.bytes| >= HEADER_BYTES && network == n && validator == v
  {
    HeaderBelongs(hash, n, v, log, w.disk.bytes);
  }

  /** In every run, whatever its faults: the journal of a healthy guard reads back to exactly the position
      in memory, and a journal with a torn tail is refused to every caller. */
  lemma ReplayMatchesMemory(hash: Hasher, events: seq<Event>, network: Bytes32, validator: Bytes32)
    ensures var w := After(hash, FRESH, events);
            && (w.live.Some? && !w.live.value.poisoned ==>
                  w.disk.Journal? &&
                  ReadJournal(hash, w.live.value.network, w.live.value.validator, w.disk.bytes) ==
                  Opened(w.live.value.position))
            && (w.disk.Journal? && TornTail(w.disk.bytes) ==>
                  !ReadJournal(hash, network, validator, w.disk.bytes).Opened?)
  {
    var n, v, log := RunShape(hash, FRESH, events, ZERO32, ZERO32, []);
    var w := After(hash, FRESH, events);
    if w.disk.Journal? && |w.disk.bytes| >= HEADER_BYTES {
      ShapeReads(hash, w, n, v, log);
    }
    if w.disk.Journal? && ReadJournal(hash, network, validator, w.disk.bytes).Opened? {
      OwnersOnly(hash, w, n, v, log, network, validator);
    }
  }

  // ---------------------------------------------------------------- safety

  /** What the event adds to the granted intents. */
  ghost function Granting(hash: Hasher, w: World, e: Event): seq<Intent> {
    if e.Authorize? && Step(hash, w, e).1 == Granted then [e.intent] else []
  }

  lemma HeldMonotone(log: seq<Intent>, log': seq<Intent>, synced: nat, synced': nat, grants: seq<Intent>)
    requires forall g :: g in grants ==> Held(log, synced, g)
    requires synced <= synced'
    requires forall k :: 0 <= k < |log| && End(k + 1) <= synced ==> k < |log'| && log'[k] == log[k]
    ensures forall g :: g in grants ==> Held(log', synced', g)
  {
    forall g | g in grants ensures Held(log', synced', g) {
      var k :| 0 <= k < |log| && log[k] == g && End(k + 1) <= synced;
      assert log'[k] == g;
    }
  }

  lemma HeldCut(log: seq<Intent>, log': seq<Intent>, synced: nat, kept: nat, grants: seq<Intent>)
    requires forall g :: g in grants ==> Held(log, synced, g)
    requires synced <= kept < End(|log'| + 1) && |log'| <= |log| && log' == log[..|log'|]
    ensures forall g :: g in grants ==> Held(log', kept, g)
  {
    forall g | g in grants ensures Held(log', kept, g) {
      var k :| 0 <= k < |log| && log[k] == g && End(k + 1) <= synced;
      assert k < |log'|;
      assert log'[k] == log[..|log'|][k] == g;
    }
  }

  lemma GrantLast(log: seq<Intent>, grants: seq<Intent>, synced: nat)
    requires log != [] && Increasing(log) && Ordered(grants)
    requires forall g :: g in grants ==> Held(log, synced, g)
    ensures Ordered(grants + [log[|log| - 1]])
  {
    var last := log[|log| - 1];
    forall i | 0 <= i < |grants| ensures grants[i] == last || Before(grants[i], last) {
      assert grants[i] in grants;
      var k :| 0 <= k < |log| && log[k] == grants[i];
    }
  }

  lemma AuthorizeStable(hash: Hasher, w: World, e: Event, n: Bytes32, v: Bytes32, log: seq<Intent>, grants: seq<Intent>)
    returns (log': seq<Intent>)
    requires e.Authorize? && Shape(hash, w, n, v, log) && Stable(w, log, grants)
    ensures Shape(hash, Step(hash, w, e).0, n, v, log')
    ensures Stable(Step(hash, w, e).0, log', grants + Granting(hash, w, e))
  {
    log' := AuthorizeShape(hash, w, e, n, v, log);
    if w.disk.Journal? {
      var d := Step(hash, w, e).0.disk;
      HeldMonotone(log, log', w.disk.synced, d.synced, grants);
      if Step(hash, w, e).1 == Granted {
        GrantLast(log', grants, d.synced);
        assert Held(log', d.synced, e.intent) by { assert log'[|log'| - 1] == e.intent; }
      }
    }
  }

  lemma StepStable(hash: Hasher, w: World, e: Event, n: Bytes32, v: Bytes32, log: seq<Intent>, grants: seq<Intent>)
    returns (n': Bytes32, v': Bytes32, log': seq<Intent>)
    requires Shape(hash, w, n, v, log) && Stable(w, log, grants)
    requires e.Open? && Step(hash, w, e).1 == Granted ==> Durable(w.disk)
    ensures Shape(hash, Step(hash, w, e).0, n', v', log')
    ensures Stable(Step(hash, w, e).0, log', grants + Granting(hash, w, e))
  {
    n', v', log' := n, v, log;
    assert grants + [] == grants;
    match e {
      case Open(_, _, _) => n', v' := OpenShape(hash, w, e, n, v, log);
      case Authorize(_, _, _, _) => log' := AuthorizeStable(hash, w, e, n, v, log, grants);
      case Close =>
      case PowerLoss(_) =>
        log' := PowerLossShape(hash, w, e, n, v, log);
        if w.disk.Journal? {
          HeldCut(log, log', w.disk.synced, Survives(w.disk, e.kept), grants);
        }
    }
  }

  lemma GrantsUnfold(hash: Hasher, w: World, events: seq<Event>, grants: seq<Intent>)
    requires events != []
    ensures grants + Granting(hash, w, events[0]) + Grants(hash, Step(hash, w, events[0]).0, events[1..]) ==
            grants + Grants(hash, w, events)
  {
  }

  lemma {:induction false} RunStable(hash: Hasher, w: World, events: seq<Event>, n: Bytes32, v: Bytes32,
                                     log: seq<Intent>, grants: seq<Intent>)
    returns (n': Bytes32, v': Bytes32, log': seq<Intent>)
    requires Shape(hash, w, n, v, log) && Stable(w, log, grants) && DurableOpens(hash, w, events)
    ensures Shape(hash, After(hash, w, events), n', v', log')
    ensures Stable(After(hash, w, events), log', grants + Grants(hash, w, events))
    decreases |events|
  {
    hide Step, Shape, Stable, Granting, Durable;
    if events == [] {
      n', v', log' := n, v, log;
      assert grants + [] == grants;
    } else {
      var now := Granting(hash, w, events[0]);
      n', v', log' := StepStable(hash, w, events[0], n, v, log, grants);
      n', v', log' := RunStable(hash, Step(hash, w, events[0]).0, events[1..], n', v', log', grants + now);
      GrantsUnfold(hash, w, events, grants);
    }
  }

  // ---------------------------------------------------------------- process crashes alone

  /** The machine never loses power: processes may crash, and writes may tear or fail to sync. */
  predicate PowerKept(events: seq<Event>) {
    forall i :: 0 <= i < |events| ==> !events[i].PowerLoss?
  }

  /** Every granted intent is in the file, stable or not. */
  ghost predicate Recorded(log: seq<Intent>, grants: seq<Intent>) {
    Ordered(grants) && forall g :: g in grants ==> g in log
  }

  lemma GrantRecorded(log: seq<Intent>, grants: seq<Intent>)
    requires log != [] && Increasing(log) && Recorded(log, grants)
    ensures Recorded(log, grants + [log[|log| - 1]])
  {
    var last := log[|log| - 1];
    forall i | 0 <= i < |grants| ensures grants[i] == last || Before(grants[i], last) {
      assert grants[i] in log;
      var k :| 0 <= k < |log| && log[k] == grants[i];
    }
  }

  lemma StepRecorded(hash: Hasher, w: World, e: Event, n: Bytes32, v: Bytes32, log: seq<Intent>, grants: seq<Intent>)
    returns (n': Bytes32, v': Bytes32, log': seq<Intent>)
    requires Shape(hash, w, n, v, log) && Recorded(log, grants) && !e.PowerLoss?
    ensures Shape(hash, Step(hash, w, e).0, n', v', log')
    ensures Recorded(log', grants + Granting(hash, w, e))
  {
    n', v', log' := n, v, log;
    assert grants + [] == grants;
    match e {
      case Open(_, _, _) => n', v' := OpenShape(hash, w, e, n, v, log);
      case Authorize(_, _, _, _) =>
        log' := AuthorizeShape(hash, w, e, n, v, log);
        assert Recorded(log', grants);
        if Step(hash, w, e).1 == Granted {
          GrantRecorded(log', grants);
        }
      case Close =>
    }
  }

  lemma {:induction false} RunRecorded(hash: Hasher, w: World, events: seq<Event>, n: Bytes32, v: Bytes32,
                                     log: seq<Intent>, grants: seq<Intent>)
    requires Shape(hash, w, n, v, log) && Recorded(log, grants) && PowerKept(events)
    ensures Ordered(grants + Grants(hash, w, events))
    decreases |events|
  {
    hide Step, Shape, Granting;
    if events == [] {
      assert grants + [] == grants;
    } else {
      var now := Granting(hash, w, events[0]);
      var n', v', log' := StepRecorded(hash, w, events[0], n, v, log, grants);
      RunRecorded(hash, Step(hash, w, events[0]).0, events[1..], n', v', log', grants + now);
      GrantsUnfold(hash, w, events, grants);
    }
  }

  /** A run that cannot lose a granted record: power is never lost, or openings find durable journals. */
  ghost predicate Preserved(hash: Hasher, events: seq<Event>) {
    PowerKept(events) || DurableOpens(hash, FRESH, events)
  }

  lemma FreshShape(hash: Hasher)
    ensures Shape(hash, FRESH, ZERO32, ZERO32, []) && Stable(FRESH, [], []) && Recorded([], [])
  {
  }

  lemma OrderedAgrees(g: seq<Intent>)
    requires Ordered(g)
    ensures forall i, j :: 0 <= i < |g| && 0 <= j < |g| && SameSlot(g[i], g[j]) ==> g[i].target == g[j].target
  {
    forall i, j | 0 <= i < |g| && 0 <= j < |g| && SameSlot(g[i], g[j]) ensures g[i].target == g[j].target {
      var lo, hi := if i < j then i else j, if i < j then j else i;
      assert lo < hi ==> g[lo] == g[hi] || Before(g[lo], g[hi]);
    }
  }

  /** Across every run of openings, authorizations, torn writes, sync errors, crashes and reopenings, and across
      power losses too when openings find durable journals, the guard never grants two targets for one height
      and round, and never goes back. */
  lemma NeverTwoTargets(hash: Hasher, events: seq<Event>)
    requires Preserved(hash, events)
    ensures Ordered(Grants(hash, FRESH, events))
    ensures var g := Grants(hash, FRESH, events);
            forall i, j :: 0 <= i < |g| && 0 <= j < |g| && SameSlot(g[i], g[j]) ==> g[i].target == g[j].target
  {
    hide Step, Grants, After, DurableOpens, PowerKept, Image, Shape;
    var g := Grants(hash, FRESH, events);
    assert [] + g == g;
    FreshShape(hash);
    if PowerKept(events) {
      RunRecorded(hash, FRESH, events, ZERO32, ZERO32, [], []);
    } else {
      var n, v, log := RunStable(hash, FRESH, events, ZERO32, ZERO32, [], []);
    }
    OrderedAgrees(g);
  }

  // ---------------------------------------------------------------- the durability condition is exact

  lemma {:induction false} RunsConcatenate(hash: Hasher, w: World, a: seq<Event>, b: seq<Event>)
    ensures After(hash, w, a + b) == After(hash, After(hash, w, a), b)
    ensures Grants(hash, w, a + b) == Grants(hash, w, a) + Grants(hash, After(hash, w, a), b)
    decreases |a|
  {
    hide Step;
    if a == [] {
      assert a + b == b;
    } else {
      assert (a + b)[1..] == a[1..] + b;
      RunsConcatenate(hash, Step(hash, w, a[0]).0, a[1..], b);
    }
  }

  lemma {:induction false} OpensConcatenate(hash: Hasher, w: World, a: seq<Event>, b: seq<Event>)
    ensures DurableOpens(hash, w, a + b) <==> DurableOpens(hash, w, a) && DurableOpens(hash, After(hash, w, a), b)
    decreases |a|
  {
    hide Step, Durable;
    if a == [] {
      assert a + b == b;
    } else {
      assert (a + b)[1..] == a[1..] + b;
      OpensConcatenate(hash, Step(hash, w, a[0]).0, a[1..], b);
    }
  }

  function OtherTarget(t: Bytes32): (r: Bytes32)
    ensures r != t && r != ZERO32
  {
    var one, two := [1] + ZeroBytes(31), [2] + ZeroBytes(31);
    assert one[0] != two[0] && ZERO32[0] == 0;
    if t == one then two else one
  }

  lemma OpensImage(hash: Hasher, w: World, n: Bytes32, v: Bytes32, log: seq<Intent>)
    requires n != ZERO32 && v != ZERO32 && Increasing(log) && w.live.None?
    requires w.disk.Journal? && w.disk.bytes == Image(hash, n, v, log)
    ensures Step(hash, w, Open(n, v, Clean)) ==
            (World(w.disk, Some(Live(n, v, PositionOf(hash, log), false))), Granted)
  {
    assert w.disk.bytes[..End(|log|)] == w.disk.bytes;
    JournalReads(hash, n, v, log, w.disk.bytes);
  }

  /** Losing the newest record leaves the journal one record shorter and durable. */
  lemma LosesNewest(hash: Hasher, disk: Disk, live: Option<Live>, n: Bytes32, v: Bytes32, log: seq<Intent>)
    requires log != [] && disk.Journal? && disk.bytes == Image(hash, n, v, log)
    requires disk.synced + RECORD_BYTES <= |disk.bytes|
    ensures var e := PowerLoss(End(|log| - 1));
            Step(hash, World(disk, live), e).0 ==
            World(Journal(Image(hash, n, v, log[..|log| - 1]), End(|log| - 1)), None)
  {
    ImagePrefix(hash, n, v, log, |log| - 1);
  }

  lemma HealthyGrants(hash: Hasher, disk: Disk, l: Live, i: Intent)
    requires disk.Journal? && !l.poisoned && i.Valid()
    requires l.position.last.None? || Before(l.position.last.value, i) || l.position.last.value == i
    ensures var e := Authorize(l.network, l.validator, i, Clean);
            && Step(hash, World(disk, Some(l)), e).1 == Granted
            && (l.position.last == Some(i) ==> Step(hash, World(disk, Some(l)), e).0 == World(disk, Some(l)))
  {
  }

  /** Re-grant the newest record, lose it and grant its slot to another target. */
  ghost function Regranting(n: Bytes32, v: Bytes32, log: seq<Intent>): seq<Event>
    requires log != []
  {
    var last := log[|log| - 1];
    [Authorize(n, v, last, Clean), PowerLoss(End(|log| - 1)), Open(n, v, Clean),
     Authorize(n, v, last.(target := OtherTarget(last.target)), Clean)]
  }

  /** Re-granting the newest, not yet stable record and then losing it frees its slot for another target. */
  lemma UndurableOpenForks(hash: Hasher, w: World, n: Bytes32, v: Bytes32, log: seq<Intent>, grants: seq<Intent>)
    requires Shape(hash, w, n, v, log) && Stable(w, log, grants) && w.live.None? && w.disk.Journal?
    requires |w.disk.bytes| == End(|log|) && !Durable(w.disk)
    ensures log != []
    ensures var began, last := Step(hash, w, Open(n, v, Clean)).0, log[|log| - 1];
            && DurableOpens(hash, began, Regranting(n, v, log))
            && Grants(hash, began, Regranting(n, v, log)) == [last, last.(target := OtherTarget(last.target))]
  {
    hide Image, ReplayFrom, ReadJournal, Grants, DurableOpens, After, Encoded, Body;
    var last := log[|log| - 1];
    var init := log[..|log| - 1];
    var other := last.(target := OtherTarget(last.target));
    var future := Regranting(n, v, log);
    assert w.disk.bytes == w.disk.bytes[..End(|log|)];
    OpensImage(hash, w, n, v, log);
    var w1 := Step(hash, w, Open(n, v, Clean)).0;
    HealthyGrants(hash, w.disk, w1.live.value, last);
    LosesNewest(hash, w.disk, w1.live, n, v, log);
    var w2 := Step(hash, w1, future[1]).0;
    assert Increasing(init);
    OpensImage(hash, w2, n, v, init);
    var w3 := Step(hash, w2, future[2]).0;
    assert init != [] ==> Before(init[|init| - 1], other);
    HealthyGrants(hash, w3.disk, w3.live.value, other);
    FourSteps(hash, w1, future[0], future[1], future[2], future[3]);
  }

  lemma OneStep(hash: Hasher, w: World, e: Event, rest: seq<Event>)
    ensures Grants(hash, w, [e] + rest) == Granting(hash, w, e) + Grants(hash, Step(hash, w, e).0, rest)
    ensures After(hash, w, [e] + rest) == After(hash, Step(hash, w, e).0, rest)
    ensures (e.Open? ==> Durable(w.disk)) && DurableOpens(hash, Step(hash, w, e).0, rest) ==>
              DurableOpens(hash, w, [e] + rest)
  {
    hide Step, Durable;
    assert ([e] + rest)[1..] == rest;
  }

  lemma EmptyRun(hash: Hasher, w: World)
    ensures Grants(hash, w, []) == [] && DurableOpens(hash, w, []) && After(hash, w, []) == w
  {
  }

  lemma FourSteps(hash: Hasher, w: World, a: Event, b: Event, c: Event, d: Event)
    requires !a.Open? && !b.Open? && !d.Open?
    ensures var wa := Step(hash, w, a).0;
            var wb := Step(hash, wa, b).0;
            var wc := Step(hash, wb, c).0;
            && Grants(hash, w, [a, b, c, d]) ==
               Granting(hash, w, a) + Granting(hash, wa, b) + Granting(hash, wb, c) + Granting(hash, wc, d)
            && (Durable(wb.disk) ==> DurableOpens(hash, w, [a, b, c, d]))
  {
    hide Step, Granting, After, Durable, Grants, DurableOpens;
    var wa := Step(hash, w, a).0;
    var wb := Step(hash, wa, b).0;
    var wc := Step(hash, wb, c).0;
    EmptyRun(hash, Step(hash, wc, d).0);
    OneStep(hash, wc, d, []);
    OneStep(hash, wb, c, [d]);
    OneStep(hash, wa, b, [c, d]);
    OneStep(hash, w, a, [b, c, d]);
    assert [d] + [] == [d] && [c] + [d] == [c, d] && [b] + [c, d] == [b, c, d] && [a] + [b, c, d] == [a, b, c, d];
  }

  /** An opening that succeeds keeps every continuation safe exactly when the journal it read was durable. */
  lemma OpeningIsSafeIffDurable(hash: Hasher, past: seq<Event>, n: Bytes32, v: Bytes32)
    requires DurableOpens(hash, FRESH, past)
    requires After(hash, FRESH, past).live.None?
    requires Step(hash, After(hash, FRESH, past), Open(n, v, Clean)).1 == Granted
    ensures Durable(After(hash, FRESH, past).disk) <==>
            forall future :: DurableOpens(hash, After(hash, FRESH, past + [Open(n, v, Clean)]), future) ==>
                             Ordered(Grants(hash, FRESH, past + [Open(n, v, Clean)] + future))
  {
    var w := After(hash, FRESH, past);
    var open := Open(n, v, Clean);
    RunsConcatenate(hash, FRESH, past, [open]);
    assert [open][1..] == [];
    assert After(hash, w, [open]) == Step(hash, w, open).0;
    if Durable(w.disk) {
      forall future | DurableOpens(hash, After(hash, FRESH, past + [open]), future)
        ensures Ordered(Grants(hash, FRESH, past + [open] + future))
      {
        assert DurableOpens(hash, w, [open]);
        OpensConcatenate(hash, FRESH, past, [open]);
        OpensConcatenate(hash, FRESH, past + [open], future);
        NeverTwoTargets(hash, past + [open] + future);
      }
    } else {
      var n0, v0, log := RunStable(hash, FRESH, past, ZERO32, ZERO32, [], []);
      assert [] + Grants(hash, FRESH, past) == Grants(hash, FRESH, past);
      OwnersOnly(hash, w, n0, v0, log, n, v);
      ShapeReads(hash, w, n, v, log);
      UndurableOpenForks(hash, w, n, v, log, Grants(hash, FRESH, past));
      var future, last := Regranting(n, v, log), log[|log| - 1];
      RunsConcatenate(hash, FRESH, past + [open], future);
      var g := Grants(hash, FRESH, past + [open] + future);
      assert g[|g| - 2] == last && g[|g| - 1] == last.(target := OtherTarget(last.target));
      assert !Ordered(g);
    }
  }

  // ---------------------------------------------------------------- a run that grants two targets

  /** A first record whose sync fails, and the end of that process. */
  function Unsynced(n: Bytes32, v: Bytes32, i: Intent): seq<Event> {
    [Open(n, v, Clean), Authorize(n, v, i, SyncError), Close]
  }

  lemma OpensFresh(hash: Hasher, n: Bytes32, v: Bytes32)
    requires n != ZERO32 && v != ZERO32
    ensures Step(hash, FRESH, Open(n, v, Clean)) ==
            (World(Journal(Image(hash, n, v, []), HEADER_BYTES), Some(Live(n, v, START, false))), Granted)
  {
    var bytes := [] + Header(n, v);
    assert bytes == Header(n, v) == Image(hash, n, v, []);
    assert bytes[..End(0)] == bytes;
    JournalReads(hash, n, v, [], bytes);
  }

  lemma SyncFails(hash: Hasher, n: Bytes32, v: Bytes32, i: Intent)
    requires i.Valid()
    ensures var w := World(Journal(Image(hash, n, v, []), HEADER_BYTES), Some(Live(n, v, START, false)));
            Step(hash, w, Authorize(n, v, i, SyncError)) ==
            (World(Journal(Image(hash, n, v, [i]), HEADER_BYTES), Some(Live(n, v, START, true))), JournalError)
  {
    assert [i][..0] == [];
  }

  /** The condition of the previous theorem can fail: from a fresh disk, whatever the identity and the intent, this
      run reaches a journal that opens although its record is not on stable storage. */
  lemma UnsyncedIsReached(hash: Hasher, n: Bytes32, v: Bytes32, i: Intent)
    requires n != ZERO32 && v != ZERO32 && i.Valid()
    ensures var past := Unsynced(n, v, i);
            var w := After(hash, FRESH, past);
            && DurableOpens(hash, FRESH, past) && Grants(hash, FRESH, past) == []
            && w == World(Journal(Image(hash, n, v, [i]), HEADER_BYTES), None) && !Durable(w.disk)
            && Step(hash, w, Open(n, v, Clean)).1 == Granted
  {
    hide ReadJournal, Image, Grants, DurableOpens, After;
    var open, sign := Open(n, v, Clean), Authorize(n, v, i, SyncError);
    OpensFresh(hash, n, v);
    SyncFails(hash, n, v, i);
    var w1 := Step(hash, FRESH, open).0;
    var w2 := Step(hash, w1, sign).0;
    var w3 := Step(hash, w2, Close).0;
    EmptyRun(hash, w3);
    OneStep(hash, w2, Close, []);
    OneStep(hash, w1, sign, [Close]);
    OneStep(hash, FRESH, open, [sign, Close]);
    assert [Close] + [] == [Close] && [sign] + [Close] == [sign, Close] && [open] + [sign, Close] == Unsynced(n, v, i);
    OpensImage(hash, w3, n, v, [i]);
  }

  /** And continued this way the run grants two targets for one height and round. */
  lemma GuardGrantsTwoTargets(hash: Hasher, n: Bytes32, v: Bytes32, i: Intent)
    requires n != ZERO32 && v != ZERO32 && i.Valid()
    ensures var other := i.(target := OtherTarget(i.target));
            && Grants(hash, FRESH, Unsynced(n, v, i) + [Open(n, v, Clean)] + Regranting(n, v, [i])) == [i, other]
            && SameSlot(i, other) && i.target != other.target
  {
    hide Step, Image, Grants, After, DurableOpens, OtherTarget;
    var past, open := Unsynced(n, v, i), Open(n, v, Clean);
    UnsyncedIsReached(hash, n, v, i);
    var w := After(hash, FRESH, past);
    UnsyncedShape(hash, w, n, v, i);
    UndurableOpenForks(hash, w, n, v, [i], []);
    RunsConcatenate(hash, FRESH, past, [open]);
    RunsConcatenate(hash, FRESH, past + [open], Regranting(n, v, [i]));
    OpenAlone(hash, w, open);
  }

  lemma UnsyncedShape(hash: Hasher, w: World, n: Bytes32, v: Bytes32, i: Intent)
    requires n != ZERO32 && v != ZERO32 && i.Valid() && w == World(Journal(Image(hash, n, v, [i]), HEADER_BYTES), None)
    ensures Shape(hash, w, n, v, [i]) && Stable(w, [i], [])
  {
    hide Image;
    assert w.disk.bytes[..End(1)] == w.disk.bytes;
  }

  lemma OpenAlone(hash: Hasher, w: World, e: Event)
    requires e.Open?
    ensures After(hash, w, [e]) == Step(hash, w, e).0 && Grants(hash, w, [e]) == []
  {
    assert [e][1..] == [];
  }

  // ---------------------------------------------------------------- what is granted

  /** An authorization is granted exactly by a healthy open guard, for its own identity, a valid intent, and either the
      intent it granted last or a later one whose record reaches stable storage. */
  lemma GrantedIff(hash: Hasher, w: World, n: Bytes32, v: Bytes32, i: Intent, fault: Fault)
    requires w.disk.Journal?
    ensures Step(hash, w, Authorize(n, v, i, fault)).1 == Granted <==>
            && w.live.Some? && !w.live.value.poisoned && w.live.value.network == n && w.live.value.validator == v
            && i.height != 0 && i.target != ZERO32
            && (|| w.live.value.position.last == Some(i)
                || (fault == Clean && (w.live.value.position.last.None? || Before(w.live.value.position.last.value, i))))
  {
  }

  /** A later intent is journalled and remembered; a failed append leaves the guard refusing everything. */
  lemma AppendedOrPoisoned(hash: Hasher, w: World, n: Bytes32, v: Bytes32, i: Intent, fault: Fault)
    requires w.disk.Journal? && w.live.Some? && Judge(w.live.value, n, v, i).Extend?
    ensures var (t, l) := (Step(hash, w, Authorize(n, v, i, fault)).0, w.live.value);
            && t.live.Some? && t.disk == Append(w.disk.bytes, w.disk.synced, Encoded(hash, i, l.position.lastHash), fault)
            && (fault == Clean ==> t.live.value == l.(position := Advance(hash, l.position, i)))
            && (fault != Clean ==>
                  t.live.value.poisoned
                  && forall m, u, j, f :: Step(hash, t, Authorize(m, u, j, f)).1 == GuardError)
  {
  }
}
