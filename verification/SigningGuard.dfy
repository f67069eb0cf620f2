/** The durable signing guard: an append-only hash-chained journal of signing intents
    (internal/v2/consensus/signing_guard.go). */
module SigningGuard {
  import opened Prelude
  import opened Codec

  const HEADER_BYTES := 69
  const RECORD_BYTES := 112

  /** "ZSG2", version 1. */
  const MAGIC: Bytes := [90, 83, 71, 50, 1]

  /** The domain-separated record hash, left uninterpreted. */
  type Hasher = Bytes -> Bytes32

  /** One signing intent. */
  datatype Intent = Intent(height: u64, round: u64, target: Bytes32) {
    predicate Valid() { height != 0 && target != ZERO32 }
  }

  predicate Before(a: Intent, b: Intent) {
    a.height < b.height || (a.height == b.height && a.round < b.round)
  }

  predicate SameSlot(a: Intent, b: Intent) {
    a.height == b.height && a.round == b.round
  }

  /** What a guard remembers of its journal. */
  datatype Position = Position(last: Option<Intent>, lastHash: Bytes32)

  const START := Position(None, ZERO32)

  // ---------------------------------------------------------------- the journal format

  function Header(network: Bytes32, validator: Bytes32): (r: Bytes)
    ensures |r| == HEADER_BYTES
  {
    MAGIC + network + validator
  }

  function Body(i: Intent, previous: Bytes32): (r: Bytes)
    ensures |r| == 80
  {
    U64Bytes(i.height) + U64Bytes(i.round) + i.target + previous
  }

  function Encoded(hash: Hasher, i: Intent, previous: Bytes32): (r: Bytes)
    ensures |r| == RECORD_BYTES
  {
    Body(i, previous) + hash(Body(i, previous))
  }

  /** Appending an intent moves the position to it. */
  function Advance(hash: Hasher, p: Position, i: Intent): Position {
    Position(Some(i), hash(Body(i, p.lastHash)))
  }

  datatype Opening = Opened(position: Position) | BadJournal | ForeignJournal

  /** Checks one raw record against the position it must extend. */
  function CheckRecord(hash: Hasher, raw: Bytes, p: Position): (r: Option<Position>)
    requires |raw| == RECORD_BYTES
  {
    var i := Intent(U64From(raw[..8]), U64From(raw[8..16]), raw[16..48]);
    if !i.Valid() || raw[48..80] != p.lastHash || raw[80..] != hash(raw[..80])
       || (p.last.Some? && !Before(p.last.value, i)) then
      None
    else
      Some(Position(Some(i), raw[80..]))
  }

  function ReplayFrom(hash: Hasher, bytes: Bytes, off: nat, p: Position): (r: Option<Position>)
    requires off <= |bytes|
    decreases |bytes| - off
  {
    if off == |bytes| then Some(p)
    else if off + RECORD_BYTES > |bytes| then None
    else
      var next := CheckRecord(hash, bytes[off..off + RECORD_BYTES], p);
      if next.None? then None else ReplayFrom(hash, bytes, off + RECORD_BYTES, next.value)
  }

  function ReadJournal(hash: Hasher, network: Bytes32, validator: Bytes32, bytes: Bytes): (r: Opening) {
    if |bytes| < HEADER_BYTES || bytes[..5] != MAGIC then BadJournal
    else if bytes[5..37] != network || bytes[37..69] != validator then ForeignJournal
    else
      var p := ReplayFrom(hash, bytes, HEADER_BYTES, START);
      if p.None? then BadJournal else Opened(p.value)
  }

  // ---------------------------------------------------------------- one process on one disk

  /** The journal file: its contents and how much of them has reached stable storage. */
  datatype Disk = Absent | Journal(bytes: Bytes, synced: nat)

  /** A guard that holds the journal lock. */
  datatype Live = Live(network: Bytes32, validator: Bytes32, position: Position, poisoned: bool)

  datatype World = World(disk: Disk, live: Option<Live>)

  /** How an append can end: durable, cut short, or complete but not known to be durable. */
  datatype Fault = Clean | ShortWrite(kept: nat) | SyncError

  datatype Event =
    | Open(network: Bytes32, validator: Bytes32, fault: Fault)
    | Authorize(network: Bytes32, validator: Bytes32, intent: Intent, fault: Fault)
    | Close
    | PowerLoss(kept: nat)

  datatype Reply = Granted | Conflict | GuardError | JournalError | Busy

  function Append(bytes: Bytes, synced: nat, extra: Bytes, fault: Fault): Disk {
    match fault
    case Clean => Journal(bytes + extra, |bytes| + |extra|)
    case ShortWrite(kept) => Journal(bytes + extra[..if kept < |extra| then kept else |extra|], synced)
    case SyncError => Journal(bytes + extra, synced)
  }

  datatype Verdict = Refuse(reply: Reply) | Repeat | Extend

  /** The checks before anything is written. */
  function Judge(l: Live, network: Bytes32, validator: Bytes32, i: Intent): Verdict {
    if l.poisoned || l.network != network || l.validator != validator || !i.Valid() then Refuse(GuardError)
    else if l.position.last.None? || Before(l.position.last.value, i) then Extend
    else if l.position.last.value == i then Repeat
    else Refuse(Conflict)
  }

  function AuthorizeStep(hash: Hasher, bytes: Bytes, synced: nat, l: Live,
                         network: Bytes32, validator: Bytes32, i: Intent, fault: Fault): (Disk, Live, Reply) {
    match Judge(l, network, validator, i)
    case Refuse(reply) => (Journal(bytes, synced), l, reply)
    case Repeat => (Journal(bytes, synced), l, Granted)
    case Extend =>
      var disk := Append(bytes, synced, Encoded(hash, i, l.position.lastHash), fault);
      if fault.Clean? then (disk, l.(position := Advance(hash, l.position, i)), Granted)
      else (disk, l.(poisoned := true), JournalError)
  }

  function OpenStep(hash: Hasher, disk: Disk, network: Bytes32, validator: Bytes32, fault: Fault): (Disk, Option<Live>, Reply) {
    if network == ZERO32 || validator == ZERO32 then (disk, None, GuardError)
    else
      var after := if disk.Absent? then Append([], 0, Header(network, validator), fault) else disk;
      if disk.Absent? && !fault.Clean? then (after, None, JournalError)
      else
        match ReadJournal(hash, network, validator, after.bytes)
        case Opened(p) => (after, Some(Live(network, validator, p, false)), Granted)
        case BadJournal => (after, None, JournalError)
        case ForeignJournal => (after, None, GuardError)
  }

  function Step(hash: Hasher, w: World, e: Event): (World, Reply) {
    match e
    case Open(network, validator, fault) =>
      if w.live.Some? then (w, Busy)
      else
        var (disk, live, reply) := OpenStep(hash, w.disk, network, validator, fault);
        (World(disk, live), reply)
    case Authorize(network, validator, i, fault) =>
      if w.live.None? || w.disk.Absent? then (w, GuardError)
      else
        var (disk, live, reply) := AuthorizeStep(hash, w.disk.bytes, w.disk.synced, w.live.value, network, validator, i, fault);
        (World(disk, Some(live)), reply)
    case Close => (w.(live := None), Granted)
    case PowerLoss(kept) =>
      if w.disk.Absent? then (w.(live := None), Granted)
      else
        var n := Survives(w.disk, kept);
        (World(Journal(w.disk.bytes[..n], n), None), Granted)
  }

  /** A power loss may drop any part of the file that was not yet stable. */
  function Survives(d: Disk, kept: nat): (n: nat)
    requires d.Journal?
    ensures n <= |d.bytes|
    ensures d.synced <= |d.bytes| ==> d.synced <= n
  {
    if |d.bytes| <= kept then |d.bytes|
    else if kept < d.synced then (if d.synced < |d.bytes| then d.synced else |d.bytes|)
    else kept
  }

  const FRESH := World(Absent, None)

  function After(hash: Hasher, w: World, events: seq<Event>): World
    decreases |events|
  {
    if events == [] then w else After(hash, Step(hash, w, events[0]).0, events[1..])
  }

  /** The intents granted along a run, in order. */
  function Grants(hash: Hasher, w: World, events: seq<Event>): seq<Intent>
    decreases |events|
  {
    if events == [] then []
    else
      var (w', reply) := Step(hash, w, events[0]);
      (if events[0].Authorize? && reply == Granted then [events[0].intent] else []) + Grants(hash, w', events[1..])
  }

  // ---------------------------------------------------------------- journals written by guards

  ghost predicate Increasing(log: seq<Intent>) {
    && (forall k :: 0 <= k < |log| ==> log[k].Valid())
    && (forall j, k :: 0 <= j < k < |log| ==> Before(log[j], log[k]))
  }

  ghost function PositionOf(hash: Hasher, log: seq<Intent>): Position {
    if log == [] then START else Advance(hash, PositionOf(hash, log[..|log| - 1]), log[|log| - 1])
  }

  /** The bytes of a journal that holds exactly `log`. */
  ghost function Image(hash: Hasher, network: Bytes32, validator: Bytes32, log: seq<Intent>): (r: Bytes)
    ensures |r| == HEADER_BYTES + RECORD_BYTES * |log|
  {
    if log == [] then Header(network, validator)
    else
      var init := log[..|log| - 1];
      Image(hash, network, validator, init) + Encoded(hash, log[|log| - 1], PositionOf(hash, init).lastHash)
  }

  ghost function End(k: nat): nat { HEADER_BYTES + RECORD_BYTES * k }

  lemma {:induction false} ImagePrefix(hash: Hasher, n: Bytes32, v: Bytes32, log: seq<Intent>, k: nat)
    requires k <= |log|
    ensures Image(hash, n, v, log)[..End(k)] == Image(hash, n, v, log[..k])
  {
    if k == |log| {
      assert log[..k] == log;
    } else {
      var init := log[..|log| - 1];
      ImagePrefix(hash, n, v, init, k);
      assert init[..k] == log[..k];
      assert Image(hash, n, v, log)[..End(k)] == Image(hash, n, v, init)[..End(k)];
    }
  }

  lemma ImageAt(hash: Hasher, n: Bytes32, v: Bytes32, log: seq<Intent>, k: nat)
    requires k < |log|
    ensures Image(hash, n, v, log)[End(k)..End(k + 1)] == Encoded(hash, log[k], PositionOf(hash, log[..k]).lastHash)
  {
    ImagePrefix(hash, n, v, log, k + 1);
    assert log[..k + 1][..k] == log[..k];
    var upto := Image(hash, n, v, log[..k + 1]);
    assert Image(hash, n, v, log)[End(k)..End(k + 1)] == Image(hash, n, v, log)[..End(k + 1)][End(k)..];
    assert upto == Image(hash, n, v, log[..k]) + Encoded(hash, log[k], PositionOf(hash, log[..k]).lastHash);
  }

  lemma RecordReads(hash: Hasher, i: Intent, p: Position)
    requires i.Valid() && (p.last.Some? ==> Before(p.last.value, i))
    ensures CheckRecord(hash, Encoded(hash, i, p.lastHash), p) == Some(Advance(hash, p, i))
  {
    var raw := Encoded(hash, i, p.lastHash);
    assert raw[..80] == Body(i, p.lastHash);
    assert raw[..8] == U64Bytes(i.height);
    assert raw[8..16] == U64Bytes(i.round);
    assert raw[16..48] == i.target;
    assert raw[48..80] == p.lastHash;
    assert raw[80..] == hash(Body(i, p.lastHash));
    U64RoundTrip(i.height);
    U64RoundTrip(i.round);
  }

  /** Replaying one written record advances the position to it. */
  lemma ReplayOne(hash: Hasher, n: Bytes32, v: Bytes32, log: seq<Intent>, bytes: Bytes, k: nat)
    requires Increasing(log) && k < |log|
    requires End(|log|) <= |bytes| && bytes[..End(|log|)] == Image(hash, n, v, log)
    ensures End(k + 1) <= |bytes|
    ensures CheckRecord(hash, bytes[End(k)..End(k + 1)], PositionOf(hash, log[..k])) ==
            Some(PositionOf(hash, log[..k + 1]))
  {
    hide CheckRecord, Encoded, Image;
    ImageAt(hash, n, v, log, k);
    assert bytes[End(k)..End(k + 1)] == bytes[..End(|log|)][End(k)..End(k + 1)];
    LastOf(hash, log, k);
    RecordReads(hash, log[k], PositionOf(hash, log[..k]));
    assert log[..k + 1][..k] == log[..k];
  }

  /** Replay walks any list of positions whose neighbours are one record apart. */
  lemma {:induction false} ReplayFollows(hash: Hasher, bytes: Bytes, ps: seq<Position>, k: nat)
    requires k < |ps| && End(|ps| - 1) <= |bytes| < End(|ps|)
    requires forall j :: k <= j < |ps| - 1 ==>
               CheckRecord(hash, bytes[End(j)..End(j + 1)], ps[j]) == Some(ps[j + 1])
    ensures ReplayFrom(hash, bytes, End(k), ps[k]) == if |bytes| == End(|ps| - 1) then Some(ps[|ps| - 1]) else None
    decreases |ps| - k
  {
    hide CheckRecord;
    if k < |ps| - 1 {
      assert CheckRecord(hash, bytes[End(k)..End(k + 1)], ps[k]) == Some(ps[k + 1]);
      ReplayFollows(hash, bytes, ps, k + 1);
    }
  }

  lemma ReplayReads(hash: Hasher, n: Bytes32, v: Bytes32, log: seq<Intent>, bytes: Bytes)
    requires Increasing(log)
    requires End(|log|) <= |bytes| < End(|log| + 1) && bytes[..End(|log|)] == Image(hash, n, v, log)
    ensures ReplayFrom(hash, bytes, HEADER_BYTES, START) ==
            if |bytes| == End(|log|) then Some(PositionOf(hash, log)) else None
  {
    hide CheckRecord, ReplayFrom, Image;
    var ps := seq(|log| + 1, k requires 0 <= k <= |log| => PositionOf(hash, log[..k]));
    forall j | 0 <= j < |ps| - 1
      ensures CheckRecord(hash, bytes[End(j)..End(j + 1)], ps[j]) == Some(ps[j + 1])
    {
      ReplayOne(hash, n, v, log, bytes, j);
    }
    ReplayFollows(hash, bytes, ps, 0);
    assert log[..|log|] == log;
  }

  lemma LastOf(hash: Hasher, log: seq<Intent>, k: nat)
    requires Increasing(log) && k < |log|
    ensures PositionOf(hash, log[..k]).last.Some? ==> Before(PositionOf(hash, log[..k]).last.value, log[k])
  {
    if k > 0 {
      assert log[..k][|log[..k]| - 1] == log[k - 1];
    }
  }

  /** A journal that ends on a record boundary reads back to the position that wrote it; any other is refused. */
  lemma JournalReads(hash: Hasher, n: Bytes32, v: Bytes32, log: seq<Intent>, bytes: Bytes)
    requires Increasing(log)
    requires End(|log|) <= |bytes| < End(|log| + 1) && bytes[..End(|log|)] == Image(hash, n, v, log)
    ensures ReadJournal(hash, n, v, bytes) == if |bytes| == End(|log|) then Opened(PositionOf(hash, log)) else BadJournal
  {
    ImagePrefix(hash, n, v, log, 0);
    assert bytes[..HEADER_BYTES] == bytes[..End(|log|)][..HEADER_BYTES] == Header(n, v);
    assert bytes[..5] == bytes[..HEADER_BYTES][..5] == MAGIC;
    assert bytes[5..37] == bytes[..HEADER_BYTES][5..37] == n;
    assert bytes[37..69] == bytes[..HEADER_BYTES][37..69] == v;
    ReplayReads(hash, n, v, log, bytes);
  }

  lemma IncreasingSnoc(hash: Hasher, log: seq<Intent>, i: Intent)
    requires Increasing(log) && i.Valid()
    requires PositionOf(hash, log).last.Some? ==> Before(PositionOf(hash, log).last.value, i)
    ensures Increasing(log + [i])
  {
    if log != [] {
      forall k | 0 <= k < |log| ensures Before(log[k], i) {
        assert Before(log[|log| - 1], i);
      }
    }
  }

  // ---------------------------------------------------------------- what a journal that opens must be

  lemma RecordParts(raw: Bytes, i: Intent, previous: Bytes32, digest: Bytes32)
    requires |raw| == RECORD_BYTES
    requires U64Bytes(i.height) == raw[..8] && U64Bytes(i.round) == raw[8..16] && i.target == raw[16..48]
    requires previous == raw[48..80] && digest == raw[80..]
    ensures raw[..80] == Body(i, previous) && raw == Body(i, previous) + digest
  {
    hide U64Bytes;
    assert raw[..80] == raw[..8] + raw[8..16] + raw[16..48] + raw[48..80];
    assert raw == raw[..80] + raw[80..];
  }

  /** A raw record that passes is the encoding of the intent it advances to, a valid one that comes later. */
  lemma CheckedRecord(hash: Hasher, raw: Bytes, p: Position) returns (i: Intent)
    requires |raw| == RECORD_BYTES && CheckRecord(hash, raw, p).Some?
    ensures raw == Encoded(hash, i, p.lastHash) && CheckRecord(hash, raw, p).value == Advance(hash, p, i)
    ensures i.Valid() && (p.last.Some? ==> Before(p.last.value, i))
  {
    i := Intent(U64From(raw[..8]), U64From(raw[8..16]), raw[16..48]);
    RecordParts(raw, i, p.lastHash, raw[80..]);
  }

  /** What replays from the end of an image is a longer image. */
  lemma {:induction false} ReplayedImage(hash: Hasher, n: Bytes32, v: Bytes32, bytes: Bytes, log: seq<Intent>)
    returns (all: seq<Intent>)
    requires Increasing(log) && End(|log|) <= |bytes| && bytes[..End(|log|)] == Image(hash, n, v, log)
    requires ReplayFrom(hash, bytes, End(|log|), PositionOf(hash, log)).Some?
    ensures Increasing(all) && bytes == Image(hash, n, v, all)
    ensures ReplayFrom(hash, bytes, End(|log|), PositionOf(hash, log)) == Some(PositionOf(hash, all))
    decreases |bytes| - End(|log|)
  {
    hide CheckRecord, Encoded, Body;
    var off, p := End(|log|), PositionOf(hash, log);
    all := log;
    if off == |bytes| {
      assert bytes[..off] == bytes;
    } else {
      var raw := bytes[off..off + RECORD_BYTES];
      var i := CheckedRecord(hash, raw, p);
      IncreasingSnoc(hash, log, i);
      var longer := log + [i];
      assert longer[..|log|] == log;
      assert bytes[..End(|longer|)] == bytes[..off] + raw;
      all := ReplayedImage(hash, n, v, bytes, longer);
    }
  }

  /** Opening succeeds exactly on the images of increasing logs: every byte of an accepted journal is accounted for. */
  lemma OpensIffImage(hash: Hasher, n: Bytes32, v: Bytes32, bytes: Bytes, p: Position)
    ensures ReadJournal(hash, n, v, bytes) == Opened(p) <==>
            exists log :: Increasing(log) && bytes == Image(hash, n, v, log) && p == PositionOf(hash, log)
  {
    hide ReplayFrom, Image;
    if ReadJournal(hash, n, v, bytes) == Opened(p) {
      var head := bytes[..HEADER_BYTES];
      assert head == bytes[..5] + bytes[5..37] + bytes[37..69] == Header(n, v);
      ImageStart(hash, n, v);
      var log := ReplayedImage(hash, n, v, bytes, []);
    }
    forall log | Increasing(log) && bytes == Image(hash, n, v, log) && p == PositionOf(hash, log)
      ensures ReadJournal(hash, n, v, bytes) == Opened(p) {
      assert bytes[..End(|log|)] == bytes;
      JournalReads(hash, n, v, log, bytes);
    }
  }

  lemma ImageStart(hash: Hasher, n: Bytes32, v: Bytes32)
    ensures Image(hash, n, v, []) == Header(n, v) && PositionOf(hash, []) == START && Increasing([])
  {
  }

  /** The body and the stored digest of record k. */
  ghost function BodyAt(bytes: Bytes, k: nat): Bytes
    requires End(k + 1) <= |bytes|
  {
    bytes[End(k)..End(k) + 80]
  }

  ghost function DigestAt(bytes: Bytes, k: nat): Bytes
    requires End(k + 1) <= |bytes|
  {
    bytes[End(k) + 80..End(k + 1)]
  }

  /** In an image every digest is the hash of its body, and every record names its predecessor's digest. */
  lemma ImageRecord(hash: Hasher, n: Bytes32, v: Bytes32, log: seq<Intent>, k: nat)
    requires k < |log|
    ensures var bytes := Image(hash, n, v, log);
            && DigestAt(bytes, k) == hash(BodyAt(bytes, k))
            && (k + 1 < |log| ==> bytes[End(k + 1) + 48..End(k + 1) + 80] == DigestAt(bytes, k))
  {
    hide Image, Encoded, Body;
    var bytes := Image(hash, n, v, log);
    ImageAt(hash, n, v, log, k);
    var p := PositionOf(hash, log[..k]).lastHash;
    EncodedParts(hash, log[k], p);
    var raw := bytes[End(k)..End(k + 1)];
    assert raw[..80] == BodyAt(bytes, k) && raw[80..] == DigestAt(bytes, k);
    if k + 1 < |log| {
      ImageAt(hash, n, v, log, k + 1);
      var next := bytes[End(k + 1)..End(k + 2)];
      assert log[..k + 1][..k] == log[..k] && log[..k + 1][k] == log[k];
      EncodedParts(hash, log[k + 1], PositionOf(hash, log[..k + 1]).lastHash);
      Subslice(bytes, End(k + 1), End(k + 2), 48, 80);
    }
  }

  lemma Subslice(bytes: Bytes, from: nat, to: nat, lo: nat, hi: nat)
    requires from <= to <= |bytes| && lo <= hi <= to - from
    ensures bytes[from..to][lo..hi] == bytes[from + lo..from + hi]
  {
    var a, b := bytes[from..to][lo..hi], bytes[from + lo..from + hi];
    assert |a| == |b| && forall i :: 0 <= i < |a| ==> a[i] == bytes[from..to][lo + i] == b[i];
  }

  lemma EncodedParts(hash: Hasher, i: Intent, previous: Bytes32)
    ensures var raw := Encoded(hash, i, previous);
            raw[..80] == Body(i, previous) && raw[80..] == hash(Body(i, previous)) && raw[48..80] == previous
  {
    var body := Body(i, previous);
    assert body[48..80] == previous;
    assert Encoded(hash, i, previous)[48..80] == body[48..80];
  }

  /** A journal changed inside one record alone is refused, unless two different bodies share a hash; only a last
      record rewritten together with its digest can stand. */
  lemma TamperedIsRefused(hash: Hasher, n: Bytes32, v: Bytes32, log: seq<Intent>, bytes: Bytes, k: nat)
    requires k < |log| && |bytes| == End(|log|) && bytes != Image(hash, n, v, log)
    requires bytes[..End(k)] == Image(hash, n, v, log)[..End(k)]
    requires bytes[End(k + 1)..] == Image(hash, n, v, log)[End(k + 1)..]
    requires k + 1 < |log| || DigestAt(bytes, k) == DigestAt(Image(hash, n, v, log), k)
    ensures var was := Image(hash, n, v, log);
            || !ReadJournal(hash, n, v, bytes).Opened?
            || (BodyAt(bytes, k) != BodyAt(was, k) && hash(BodyAt(bytes, k)) == hash(BodyAt(was, k)))
  {
    hide ReadJournal, Image;
    var was := Image(hash, n, v, log);
    var r := ReadJournal(hash, n, v, bytes);
    if r.Opened? {
      OpensIffImage(hash, n, v, bytes, r.position);
      var other :| Increasing(other) && bytes == Image(hash, n, v, other);
      ImageRecord(hash, n, v, other, k);
      ImageRecord(hash, n, v, log, k);
      if k + 1 < |log| {
        SameTail(bytes, was, k);
      }
      Pieces(bytes, k);
      Pieces(was, k);
    }
  }

  lemma SameTail(a: Bytes, b: Bytes, k: nat)
    requires |a| == |b| >= End(k + 2) && a[End(k + 1)..] == b[End(k + 1)..]
    ensures a[End(k + 1) + 48..End(k + 1) + 80] == b[End(k + 1) + 48..End(k + 1) + 80]
  {
    assert a[End(k + 1) + 48..End(k + 1) + 80] == a[End(k + 1)..][48..80];
    assert b[End(k + 1) + 48..End(k + 1) + 80] == b[End(k + 1)..][48..80];
  }

  lemma Pieces(bytes: Bytes, k: nat)
    requires End(k + 1) <= |bytes|
    ensures bytes == bytes[..End(k)] + BodyAt(bytes, k) + DigestAt(bytes, k) + bytes[End(k + 1)..]
  {
  }

  // ---------------------------------------------------------------- the guard itself

  lemma FieldsOf(raw: Bytes)
    requires |raw| == RECORD_BYTES
    ensures raw[..8] == raw[0..8] && raw[80..] == raw[80..112]
  {
  }

  /** The five fields of a record, read in order. */
  method ReadFields(raw: Bytes) returns (h: u64, r: u64, t: Bytes32, previous: Bytes32, digest: Bytes32)
    requires |raw| == RECORD_BYTES
    ensures h == U64From(raw[..8]) && r == U64From(raw[8..16]) && t == raw[16..48]
    ensures previous == raw[48..80] && digest == raw[80..]
  {
    hide U64Bytes, U64From;
    var reader := new Reader(raw);
    var height := reader.U64();
    var round := reader.U64();
    var target := reader.Take(32);
    var prev := reader.Take(32);
    var hash := reader.Take(32);
    FieldsOf(raw);
    return height.value, round.value, target.value, prev.value, hash.value;
  }

  class JournalFile {
    var present: bool
    var bytes: Bytes
    var synced: nat

    function Contents(): Disk reads this {
      if present then Journal(bytes, synced) else Absent
    }

    constructor ()
      ensures Contents() == Absent
    {
      present, bytes, synced := false, [], 0;
    }

    /** Appends and syncs; `fault` says how far the operating system gets. */
    method Write(extra: Bytes, fault: Fault)
      requires present
      modifies this
      ensures present && Contents() == Append(old(bytes), old(synced), extra, fault)
    {
      match fault {
        case Clean =>
          bytes := bytes + extra;
          synced := |bytes|;
        case ShortWrite(kept) =>
          bytes := bytes + extra[..if kept < |extra| then kept else |extra|];
        case SyncError =>
          bytes := bytes + extra;
      }
    }
  }

  class DurableSigningGuard {
    const hash: Hasher
    const file: JournalFile
    const network: Bytes32
    const validator: Bytes32
    var height: u64
    var round: u64
    var target: Bytes32
    var lastRecordHash: Bytes32
    var hasRecord: bool
    var closed: bool
    var poisoned: bool

    function Memory(): Live reads this {
      Live(network, validator,
           Position(if hasRecord then Some(Intent(height, round, target)) else None, lastRecordHash), poisoned)
    }

    constructor (hash: Hasher, file: JournalFile, network: Bytes32, validator: Bytes32)
      ensures this.hash == hash && this.file == file && this.network == network && this.validator == validator
      ensures Memory() == Live(network, validator, START, false) && !closed
    {
      this.hash, this.file, this.network, this.validator := hash, file, network, validator;
      height, round, target, lastRecordHash := 0, 0, ZERO32, ZERO32;
      hasRecord, closed, poisoned := false, false, false;
    }

    /** Opens the journal, creating it when absent; refuses foreign, corrupt and torn journals. */
    static method Open(hash: Hasher, file: JournalFile, network: Bytes32, validator: Bytes32, fault: Fault)
      returns (guard: DurableSigningGuard?, reply: Reply)
      modifies file
      ensures (file.Contents(), if guard == null then None else Some(guard.Memory()), reply) ==
              OpenStep(hash, old(file.Contents()), network, validator, fault)
      ensures guard != null ==> fresh(guard) && !guard.closed && guard.file == file
    {
      if network == ZERO32 || validator == ZERO32 {
        return null, GuardError;
      }
      if !file.present {
        file.present, file.bytes, file.synced := true, [], 0;
        file.Write(Header(network, validator), fault);
        if !fault.Clean? {
          return null, JournalError;
        }
      }
      var g := new DurableSigningGuard(hash, file, network, validator);
      var opening := g.Replay();
      match opening {
        case Opened(_) => return g, Granted;
        case BadJournal => return null, JournalError;
        case ForeignJournal => return null, GuardError;
      }
    }

    /** Reads the whole journal, checking the header, every hash link and the order of intents. */
    method Replay() returns (r: Opening)
      requires file.present && Memory().position == START
      modifies this
      ensures file.Contents() == old(file.Contents())
      ensures r == ReadJournal(hash, network, validator, file.bytes)
      ensures r.Opened? ==> Memory() == old(Memory()).(position := r.position)
      ensures closed == old(closed)
    {
      hide CheckRecord;
      var data := file.bytes;
      if |data| < HEADER_BYTES || data[..5] != MAGIC {
        return BadJournal;
      }
      if data[5..37] != network || data[37..69] != validator {
        return ForeignJournal;
      }
      var off := HEADER_BYTES;
      while off < |data|
        invariant HEADER_BYTES <= off <= |data|
        invariant data == file.bytes && file.Contents() == old(file.Contents())
        invariant Memory() == old(Memory()).(position := Memory().position) && closed == old(closed)
        invariant ReplayFrom(hash, data, HEADER_BYTES, START) == ReplayFrom(hash, data, off, Memory().position)
      {
        if off + RECORD_BYTES > |data| {
          return BadJournal;
        }
        var ok := ReadRecord(data[off..off + RECORD_BYTES]);
        if !ok {
          return BadJournal;
        }
        off := off + RECORD_BYTES;
      }
      return Opened(Memory().position);
    }

    method ReadRecord(raw: Bytes) returns (ok: bool)
      requires |raw| == RECORD_BYTES
      modifies this
      ensures ok <==> CheckRecord(hash, raw, old(Memory()).position).Some?
      ensures ok ==> Memory() == old(Memory()).(position := CheckRecord(hash, raw, old(Memory()).position).value)
      ensures closed == old(closed)
    {
      hide U64From;
      var h, r, t, previous, digest := ReadFields(raw);
      if h == 0 || t == ZERO32 || previous != lastRecordHash || digest != hash(raw[..80]) {
        return false;
      }
      if hasRecord && (h < height || (h == height && r <= round)) {
        return false;
      }
      height, round, target, lastRecordHash, hasRecord := h, r, t, digest, true;
      return true;
    }

    /** Persists one monotonic signing intent before granting it. */
    method Authorize(network: Bytes32, validator: Bytes32, height: u64, round: u64, target: Bytes32, fault: Fault)
      returns (reply: Reply)
      requires file.present
      modifies this, file
      ensures old(closed) ==> reply == GuardError && file.Contents() == old(file.Contents()) && Memory() == old(Memory())
      ensures !old(closed) ==>
                (file.Contents(), Memory(), reply) ==
                AuthorizeStep(hash, old(file.bytes), old(file.synced), old(Memory()), network, validator,
                              Intent(height, round, target), fault)
      ensures closed == old(closed)
    {
      hide U64Bytes;
      if closed || poisoned || this.network != network || this.validator != validator || height == 0 || target == ZERO32 {
        return GuardError;
      }
      if hasRecord {
        if height < this.height || (height == this.height && round < this.round) {
          return Conflict;
        }
        if height == this.height && round == this.round {
          return if target != this.target then Conflict else Granted;
        }
      }
      var w := new Writer();
      w.U64(height);
      w.U64(round);
      w.Fixed(target);
      w.Fixed(lastRecordHash);
      var digest := hash(w.buf);
      assert w.buf == Body(Intent(height, round, target), lastRecordHash);
      w.Fixed(digest);
      file.Write(w.buf, fault);
      if !fault.Clean? {
        poisoned := true;
        return JournalError;
      }
      this.height, this.round, this.target, lastRecordHash, hasRecord := height, round, target, digest, true;
      return Granted;
    }
  }
}
