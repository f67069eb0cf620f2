/** Canonical encodings of votes, certificates and validator sets
    (internal/v2/consensus/wire.go, validator_wire.go). */
module Wire {
  import opened Prelude
  import opened Codec
  import opened Consensus

  const MAX_CERTIFICATE_VOTES: u32 := 4096
  const VOTE_BYTES: nat := 249
  const MEMBER_BYTES: nat := 109

  // ---------------------------------------------------------------- fixed-width records

  function Flat(parts: seq<Bytes>): Bytes {
    if parts == [] then [] else Flat(parts[..|parts| - 1]) + parts[|parts| - 1]
  }

  lemma {:induction false} FlatLength(parts: seq<Bytes>, w: nat)
    requires forall k :: 0 <= k < |parts| ==> |parts[k]| == w
    ensures |Flat(parts)| == w * |parts|
  {
    if parts != [] {
      FlatLength(parts[..|parts| - 1], w);
      assert w * |parts| == w * (|parts| - 1) + w;
    }
  }

  lemma {:induction false} FlatAt(parts: seq<Bytes>, w: nat, k: nat)
    requires forall i :: 0 <= i < |parts| ==> |parts[i]| == w
    requires k < |parts|
    ensures 0 <= w * k <= w * k + w <= |Flat(parts)|
    ensures Flat(parts)[w * k..w * k + w] == parts[k]
  {
    var front := parts[..|parts| - 1];
    FlatLength(front, w);
    if k < |front| {
      FlatAt(front, w, k);
      assert Flat(parts)[w * k..w * k + w] == Flat(front)[w * k..w * k + w];
    }
  }

  lemma FlatSnoc(parts: seq<Bytes>, last: Bytes)
    ensures Flat(parts + [last]) == Flat(parts) + last
  {
    assert (parts + [last])[..|parts|] == parts;
  }

  // ---------------------------------------------------------------- votes

  predicate SizedVote(v: Vote) {
    |v.publicKey| == 65 && |v.signature| == 64
  }

  predicate WireVote(v: Vote) {
    SizedVote(v) && v.height != 0 && v.network != ZERO32 && v.headerHash != ZERO32 && v.voter != ZERO32
  }

  /** The one encoding of a vote. */
  function VoteBytes(v: Vote): (r: Bytes)
    requires SizedVote(v)
    ensures |r| == VOTE_BYTES
  {
    v.network + U64Bytes(v.height) + U64Bytes(v.round) + v.headerHash + v.voter
    + Framed(v.publicKey) + Framed(v.signature)
  }

  /** Where each field of an encoded vote stands. */
  ghost predicate VoteFields(data: Bytes, v: Vote) {
    && |data| == VOTE_BYTES
    && data[0..32] == v.network
    && U64From(data[32..40]) == v.height
    && U64From(data[40..48]) == v.round
    && data[48..80] == v.headerHash
    && data[80..112] == v.voter
    && FrameAt(data, 112, 65) == Some(v.publicKey)
    && FrameAt(data, 181, 64) == Some(v.signature)
  }

  lemma VoteLayout(v: Vote)
    requires SizedVote(v)
    ensures VoteFields(VoteBytes(v), v)
  {
    hide U64Bytes, Framed, FrameAt, U64From;
    var data := VoteBytes(v);
    assert data[32..40] == U64Bytes(v.height);
    assert data[40..48] == U64Bytes(v.round);
    U64RoundTrip(v.height);
    U64RoundTrip(v.round);
    assert data[112..181] == Framed(v.publicKey);
    assert data[181..249] == Framed(v.signature);
    FrameReads(data, 112, 65, v.publicKey);
    FrameReads(data, 181, 64, v.signature);
  }

  lemma VoteUnique(data: Bytes, v: Vote)
    requires SizedVote(v) && VoteFields(data, v)
    ensures data == VoteBytes(v)
  {
    hide U64Bytes, Framed, FrameAt, U64From;
    assert data == data[0..32] + data[32..40] + data[40..48] + data[48..80] + data[80..112]
                   + data[112..181] + data[181..249];
  }

  method MarshalVote(v: Vote) returns (r: Option<Bytes>)
    ensures r.Some? <==> WireVote(v)
    ensures r.Some? ==> r.value == VoteBytes(v)
  {
    if !WireVote(v) {
      return None;
    }
    var w := new Writer();
    w.Fixed(v.network);
    w.U64(v.height);
    w.U64(v.round);
    w.Fixed(v.headerHash);
    w.Fixed(v.voter);
    w.Frame(v.publicKey);
    w.Frame(v.signature);
    return Some(w.buf);
  }

  /** Parsing accepts exactly the encodings and returns the encoded vote. */
  method ParseVote(data: Bytes) returns (r: Option<Vote>)
    ensures r.Some? ==> WireVote(r.value) && VoteBytes(r.value) == data
    ensures forall v :: WireVote(v) && VoteBytes(v) == data ==> r == Some(v)
  {
    hide U64Bytes, Framed, FrameAt, U64From, VoteBytes;
    forall v | WireVote(v) && VoteBytes(v) == data ensures VoteFields(data, v) {
      VoteLayout(v);
    }
    var d := new Reader(data);
    var network := d.Take(32);
    if network.None? { return None; }
    var height := d.U64();
    if height.None? || height.value == 0 { return None; }
    var round := d.U64();
    if round.None? { return None; }
    var headerHash := d.Take(32);
    if headerHash.None? { return None; }
    var voter := d.Take(32);
    if voter.None? { return None; }
    var publicKey := d.Frame(65);
    if publicKey.None? || |publicKey.value| != 65 { return None; }
    var signature := d.Frame(64);
    if signature.None? || |signature.value| != 64 || d.off != |data| { return None; }
    if network.value == ZERO32 || headerHash.value == ZERO32 || voter.value == ZERO32 { return None; }
    var vote := Vote(network.value, height.value, round.value, headerHash.value, voter.value,
                     publicKey.value, signature.value);
    VoteUnique(data, vote);
    return Some(vote);
  }

  // ---------------------------------------------------------------- certificates

  predicate WireCertificate(c: Certificate) {
    && 0 < |c.votes| <= MAX_CERTIFICATE_VOTES
    && c.height != 0 && c.network != ZERO32 && c.headerHash != ZERO32
    && forall k :: 0 <= k < |c.votes| ==> WireVote(c.votes[k])
  }

  function VoteFrame(v: Vote): (r: Bytes)
    requires WireVote(v)
    ensures |r| == 253
  {
    Framed(VoteBytes(v))
  }

  function VoteFrames(votes: seq<Vote>): (r: seq<Bytes>)
    requires forall k :: 0 <= k < |votes| ==> WireVote(votes[k])
    ensures |r| == |votes|
    ensures forall k :: 0 <= k < |votes| ==> |r[k]| == 253 && r[k] == VoteFrame(votes[k])
  {
    seq(|votes|, k requires 0 <= k < |votes| => VoteFrame(votes[k]))
  }

  lemma VoteFramesSnoc(votes: seq<Vote>, last: Vote)
    requires WireVote(last) && forall k :: 0 <= k < |votes| ==> WireVote(votes[k])
    ensures forall k :: 0 <= k < |votes| + 1 ==> WireVote((votes + [last])[k])
    ensures Flat(VoteFrames(votes + [last])) == Flat(VoteFrames(votes)) + VoteFrame(last)
  {
    hide WireVote, VoteFrame, Flat;
    FlatSnoc(VoteFrames(votes), VoteFrame(last));
    assert VoteFrames(votes + [last]) == VoteFrames(votes) + [VoteFrame(last)];
  }

  /** The first 84 bytes of a certificate. */
  function CertificateHead(network: Bytes32, height: u64, round: u64, headerHash: Bytes32, count: u32): (r: Bytes)
    ensures |r| == 84
  {
    network + U64Bytes(height) + U64Bytes(round) + headerHash + U32Bytes(count)
  }

  function CertificateBytes(c: Certificate): Bytes
    requires WireCertificate(c)
  {
    CertificateHead(c.network, c.height, c.round, c.headerHash, |c.votes|) + Flat(VoteFrames(c.votes))
  }

  ghost predicate CertificateFields(data: Bytes, c: Certificate) {
    && WireCertificate(c)
    && |data| == 84 + 253 * |c.votes|
    && data[0..32] == c.network
    && U64From(data[32..40]) == c.height
    && U64From(data[40..48]) == c.round
    && data[48..80] == c.headerHash
    && U32From(data[80..84]) == |c.votes|
    && forall k :: 0 <= k < |c.votes| ==> VoteStandsAt(data, 84 + 253 * k, c.votes[k])
  }

  ghost predicate VoteStandsAt(data: Bytes, off: nat, v: Vote)
    requires WireVote(v)
  {
    off <= |data| && FrameAt(data, off, 512) == Some(VoteBytes(v))
  }

  lemma CertificateHeadLayout(data: Bytes, c: Certificate)
    requires |data| >= 84 && |c.votes| < U32_LIMIT
    requires data[..84] == CertificateHead(c.network, c.height, c.round, c.headerHash, |c.votes|)
    ensures data[0..32] == c.network && U64From(data[32..40]) == c.height
    ensures U64From(data[40..48]) == c.round && data[48..80] == c.headerHash
    ensures U32From(data[80..84]) == |c.votes|
  {
    hide U64Bytes, U64From, U32Bytes, U32From;
    var head := data[..84];
    assert data[0..32] == head[0..32] && data[32..40] == head[32..40] && data[40..48] == head[40..48];
    assert data[48..80] == head[48..80] && data[80..84] == head[80..84];
    assert head[32..40] == U64Bytes(c.height) && head[40..48] == U64Bytes(c.round);
    assert head[80..84] == U32Bytes(|c.votes|);
    U64RoundTrip(c.height);
    U64RoundTrip(c.round);
    U32RoundTrip(|c.votes|);
  }

  lemma CertificateLayout(c: Certificate)
    requires WireCertificate(c)
    ensures CertificateFields(CertificateBytes(c), c)
  {
    hide CertificateHead, U64From, U32From, FrameAt, Framed, VoteBytes, Flat, WireVote;
    var data := CertificateBytes(c);
    var frames := VoteFrames(c.votes);
    FlatLength(frames, 253);
    assert data[..84] == CertificateHead(c.network, c.height, c.round, c.headerHash, |c.votes|);
    CertificateHeadLayout(data, c);
    forall k | 0 <= k < |c.votes| ensures VoteStandsAt(data, 84 + 253 * k, c.votes[k]) {
      FlatAt(frames, 253, k);
      assert data[84 + 253 * k..84 + 253 * k + 253] == Flat(frames)[253 * k..253 * k + 253];
      WireVoteSized(c.votes[k]);
      FrameReads(data, 84 + 253 * k, 512, VoteBytes(c.votes[k]));
    }
  }

  method WriteHead(w: Writer, c: Certificate)
    requires |c.votes| < U32_LIMIT
    modifies w
    ensures w.buf == old(w.buf) + CertificateHead(c.network, c.height, c.round, c.headerHash, |c.votes|)
  {
    hide U64Bytes, U32Bytes;
    w.Fixed(c.network);
    w.U64(c.height);
    w.U64(c.round);
    w.Fixed(c.headerHash);
    w.U32(|c.votes|);
  }

  method MarshalCertificate(c: Certificate) returns (r: Option<Bytes>)
    ensures r.Some? <==> WireCertificate(c)
    ensures r.Some? ==> r.value == CertificateBytes(c)
  {
    hide CertificateHead, Framed, VoteBytes, WireVote, VoteFrames;
    if |c.votes| == 0 || |c.votes| > MAX_CERTIFICATE_VOTES || c.height == 0
       || c.network == ZERO32 || c.headerHash == ZERO32 {
      return None;
    }
    var w := new Writer();
    WriteHead(w, c);
    ghost var head := CertificateHead(c.network, c.height, c.round, c.headerHash, |c.votes|);
    var i := 0;
    while i < |c.votes|
      invariant 0 <= i <= |c.votes|
      invariant forall k :: 0 <= k < i ==> WireVote(c.votes[k])
      invariant w.buf == head + Flat(VoteFrames(c.votes[..i]))
    {
      var raw := MarshalVote(c.votes[i]);
      if raw.None? {
        return None;
      }
      w.Frame(raw.value);
      VoteFramesSnoc(c.votes[..i], c.votes[i]);
      assert c.votes[..i + 1] == c.votes[..i] + [c.votes[i]];
      i := i + 1;
    }
    assert c.votes[..i] == c.votes;
    return Some(w.buf);
  }

  /** The votes of a certificate, read one frame at a time from byte 84 on. */
  method ParseVotes(d: Reader, count: nat) returns (r: Option<seq<Vote>>)
    requires d.Valid() && d.off == 84
    modifies d`off
    ensures d.Valid()
    ensures r.Some? ==> |r.value| == count && d.off == 84 + 253 * count
    ensures r.Some? ==> forall k :: 0 <= k < count ==> WireVote(r.value[k])
    ensures r.Some? ==> d.data[84..d.off] == Flat(VoteFrames(r.value))
    ensures forall c :: CertificateFields(d.data, c) && |c.votes| == count ==> r == Some(c.votes)
  {
    hide FrameAt, Framed, VoteBytes, WireVote, U64From, U32From, VoteFrames;
    var votes: seq<Vote> := [];
    while |votes| < count
      invariant d.Valid() && |votes| <= count
      invariant d.off == 84 + 253 * |votes|
      invariant forall k :: 0 <= k < |votes| ==> WireVote(votes[k])
      invariant d.data[84..d.off] == Flat(VoteFrames(votes))
      invariant forall c :: CertificateFields(d.data, c) && |c.votes| == count ==> votes == c.votes[..|votes|]
    {
      ghost var off := d.off;
      forall c | CertificateFields(d.data, c) && |c.votes| == count
        ensures SizedVote(c.votes[|votes|]) && FrameAt(d.data, off, 512) == Some(VoteBytes(c.votes[|votes|])) {
        WireVoteSized(c.votes[|votes|]);
        assert VoteStandsAt(d.data, 84 + 253 * |votes|, c.votes[|votes|]);
      }
      var raw := d.Frame(512);
      if raw.None? {
        return None;
      }
      var vote := ParseVote(raw.value);
      if vote.None? {
        return None;
      }
      forall c | CertificateFields(d.data, c) && |c.votes| == count
        ensures votes + [vote.value] == c.votes[..|votes| + 1] {
        assert c.votes[..|votes| + 1] == c.votes[..|votes|] + [c.votes[|votes|]];
      }
      VoteFramesSnoc(votes, vote.value);
      assert d.data[84..d.off] == d.data[84..off] + d.data[off..d.off];
      votes := votes + [vote.value];
    }
    forall c | CertificateFields(d.data, c) && |c.votes| == count ensures votes == c.votes {
      assert c.votes[..count] == c.votes;
    }
    return Some(votes);
  }

  /** Parsing accepts exactly the encodings and returns the encoded certificate. */
  method ParseCertificate(data: Bytes) returns (r: Option<Certificate>)
    ensures r.Some? ==> WireCertificate(r.value) && CertificateBytes(r.value) == data
    ensures forall c :: WireCertificate(c) && CertificateBytes(c) == data ==> r == Some(c)
  {
    hide WireVote, U64From, U32From, U64Bytes, U32Bytes, CertificateBytes, Flat;
    forall c | WireCertificate(c) && CertificateBytes(c) == data ensures CertificateFields(data, c) {
      CertificateLayout(c);
    }
    var d := new Reader(data);
    var network := d.Take(32);
    if network.None? { return None; }
    var height := d.U64();
    if height.None? || height.value == 0 { return None; }
    var round := d.U64();
    if round.None? { return None; }
    var headerHash := d.Take(32);
    if headerHash.None? { return None; }
    var count := d.U32();
    if count.None? || count.value == 0 || count.value > MAX_CERTIFICATE_VOTES { return None; }
    var votes := ParseVotes(d, count.value);
    if votes.None? { return None; }
    if d.off != |data| || network.value == ZERO32 || headerHash.value == ZERO32 { return None; }
    var c := Certificate(network.value, height.value, round.value, headerHash.value, votes.value);
    CertificateWhole(data, c);
    return Some(c);
  }

  lemma CertificateWhole(data: Bytes, c: Certificate)
    requires WireCertificate(c) && |data| >= 84
    requires data[0..32] == c.network && data[32..40] == U64Bytes(c.height) && data[40..48] == U64Bytes(c.round)
    requires data[48..80] == c.headerHash && data[80..84] == U32Bytes(|c.votes|)
    requires data[84..] == Flat(VoteFrames(c.votes))
    ensures data == CertificateBytes(c)
  {
    hide WireVote, U64Bytes, U32Bytes, Flat;
    assert data == data[0..32] + data[32..40] + data[40..48] + data[48..80] + data[80..84] + data[84..];
  }

  // ---------------------------------------------------------------- validator sets

  function MemberBytes(v: Validator): (r: Bytes)
    requires |v.publicKey| == 65
    ensures |r| == MEMBER_BYTES
  {
    v.id + Framed(v.publicKey) + U64Bytes(v.power)
  }

  lemma MemberPartsSnoc(vs: seq<Validator>, last: Validator)
    requires |last.publicKey| == 65 && forall k :: 0 <= k < |vs| ==> |vs[k].publicKey| == 65
    ensures Flat(MemberParts(vs + [last])) == Flat(MemberParts(vs)) + MemberBytes(last)
  {
    hide MemberBytes, Flat;
    FlatSnoc(MemberParts(vs), MemberBytes(last));
    assert MemberParts(vs + [last]) == MemberParts(vs) + [MemberBytes(last)];
  }

  function MemberParts(vs: seq<Validator>): (r: seq<Bytes>)
    requires forall k :: 0 <= k < |vs| ==> |vs[k].publicKey| == 65
    ensures |r| == |vs|
    ensures forall k :: 0 <= k < |r| ==> |r[k]| == MEMBER_BYTES
    ensures forall k :: 0 <= k < |r| ==> r[k] == MemberBytes(vs[k])
  {
    seq(|vs|, k requires 0 <= k < |vs| => MemberBytes(vs[k]))
  }

  ghost predicate WireSet(crypto: Crypto, s: ValidatorSet) {
    ValidSet(crypto, s) && |s.validators| <= MAX_CERTIFICATE_VOTES
  }

  predicate SizedKeys(s: ValidatorSet) {
    |s.validators| <= MAX_CERTIFICATE_VOTES && forall k :: 0 <= k < |s.validators| ==> |s.validators[k].publicKey| == 65
  }

  lemma WireSetSized(crypto: Crypto, s: ValidatorSet)
    requires WireSet(crypto, s)
    ensures SizedKeys(s)
  {
    forall k | 0 <= k < |s.validators| ensures |s.validators[k].publicKey| == 65 {
      assert ValidMember(crypto, s.validators[k]);
    }
  }

  function SetHead(network: Bytes32, count: u32): (r: Bytes)
    ensures |r| == 36
  {
    network + U32Bytes(count)
  }

  function SetBytes(s: ValidatorSet): Bytes
    requires SizedKeys(s)
  {
    SetHead(s.network, |s.validators|) + Flat(MemberParts(s.validators))
  }

  ghost predicate MemberStandsAt(data: Bytes, off: nat, v: Validator) {
    && off + MEMBER_BYTES <= |data|
    && data[off..off + 32] == v.id
    && FrameAt(data, off + 32, 65) == Some(v.publicKey)
    && U64From(data[off + 101..off + 109]) == v.power
  }

  lemma MemberLayout(data: Bytes, off: nat, v: Validator)
    requires |v.publicKey| == 65 && off + MEMBER_BYTES <= |data|
    requires data[off..off + MEMBER_BYTES] == MemberBytes(v)
    ensures MemberStandsAt(data, off, v)
  {
    hide U64Bytes, Framed, FrameAt, U64From;
    var part := data[off..off + MEMBER_BYTES];
    assert data[off..off + 32] == part[..32];
    assert data[off + 32..off + 101] == part[32..101] == Framed(v.publicKey);
    assert data[off + 101..off + 109] == part[101..] == U64Bytes(v.power);
    FrameReads(data, off + 32, 65, v.publicKey);
    U64RoundTrip(v.power);
  }

  ghost predicate SetFields(data: Bytes, s: ValidatorSet) {
    && SizedKeys(s)
    && |data| == 36 + MEMBER_BYTES * |s.validators|
    && data[0..32] == s.network
    && U32From(data[32..36]) == |s.validators|
    && forall k :: 0 <= k < |s.validators| ==> MemberStandsAt(data, 36 + MEMBER_BYTES * k, s.validators[k])
  }

  lemma SetLayout(s: ValidatorSet)
    requires SizedKeys(s)
    ensures SetFields(SetBytes(s), s)
  {
    hide U64Bytes, Framed, FrameAt, U64From, U32From, U32Bytes, MemberBytes, MemberStandsAt, Flat;
    var data := SetBytes(s);
    var parts := MemberParts(s.validators);
    FlatLength(parts, MEMBER_BYTES);
    assert data[32..36] == U32Bytes(|s.validators|);
    U32RoundTrip(|s.validators|);
    forall k | 0 <= k < |s.validators| ensures MemberStandsAt(data, 36 + MEMBER_BYTES * k, s.validators[k]) {
      FlatAt(parts, MEMBER_BYTES, k);
      var off := 36 + MEMBER_BYTES * k;
      assert data[off..off + MEMBER_BYTES] == Flat(parts)[MEMBER_BYTES * k..MEMBER_BYTES * k + MEMBER_BYTES];
      MemberLayout(data, off, s.validators[k]);
    }
  }

  method WriteMember(w: Writer, v: Validator)
    requires |v.publicKey| == 65
    modifies w
    ensures w.buf == old(w.buf) + MemberBytes(v)
  {
    w.Fixed(v.id);
    w.Frame(v.publicKey);
    w.U64(v.power);
  }

  method WriteSetHead(w: Writer, s: ValidatorSet)
    requires |s.validators| < U32_LIMIT
    modifies w
    ensures w.buf == old(w.buf) + SetHead(s.network, |s.validators|)
  {
    hide U32Bytes;
    w.Fixed(s.network);
    w.U32(|s.validators|);
  }

  method MarshalSet(crypto: Crypto, s: ValidatorSet) returns (r: Option<Bytes>)
    ensures r.Some? <==> WireSet(crypto, s)
    ensures r.Some? ==> SizedKeys(s) && r.value == SetBytes(s)
  {
    hide SetHead, MemberBytes, ValidSet, ValidMember, MemberParts;
    var ok := Validate(crypto, s);
    if !ok || |s.validators| > MAX_CERTIFICATE_VOTES {
      return None;
    }
    WireSetSized(crypto, s);
    var w := new Writer();
    WriteSetHead(w, s);
    ghost var head := SetHead(s.network, |s.validators|);
    var i := 0;
    while i < |s.validators|
      invariant 0 <= i <= |s.validators|
      invariant w.buf == head + Flat(MemberParts(s.validators[..i]))
    {
      var v := s.validators[i];
      WriteMember(w, v);
      MemberPartsSnoc(s.validators[..i], v);
      assert s.validators[..i + 1] == s.validators[..i] + [v];
      i := i + 1;
    }
    assert s.validators[..i] == s.validators;
    return Some(w.buf);
  }

  /** One validator entry of a set. */
  method ParseMember(d: Reader) returns (r: Option<Validator>)
    requires d.Valid()
    modifies d`off
    ensures d.Valid() && old(d.off) <= d.off
    ensures r.Some? ==> |r.value.publicKey| == 65 && d.off == old(d.off) + MEMBER_BYTES
    ensures r.Some? ==> d.data[old(d.off)..d.off] == MemberBytes(r.value)
    ensures forall v :: MemberStandsAt(d.data, old(d.off), v) && |v.publicKey| == 65 ==> r == Some(v)
  {
    hide U64Bytes, Framed, FrameAt, U64From;
    ghost var off := d.off;
    var id := d.Take(32);
    if id.None? { return None; }
    var publicKey := d.Frame(65);
    if publicKey.None? || |publicKey.value| != 65 { return None; }
    var power := d.U64();
    if power.None? { return None; }
    assert d.data[off..d.off] == d.data[off..off + 32] + d.data[off + 32..off + 101] + d.data[off + 101..off + 109];
    return Some(Validator(id.value, publicKey.value, power.value));
  }

  method ParseMembers(d: Reader, count: nat) returns (r: Option<seq<Validator>>)
    requires d.Valid() && d.off == 36
    modifies d`off
    ensures d.Valid()
    ensures r.Some? ==> |r.value| == count && d.off == 36 + MEMBER_BYTES * count
    ensures r.Some? ==> forall k :: 0 <= k < count ==> |r.value[k].publicKey| == 65
    ensures r.Some? ==> d.data[36..d.off] == Flat(MemberParts(r.value))
    ensures forall s :: SetFields(d.data, s) && |s.validators| == count ==> r == Some(s.validators)
  {
    hide MemberBytes, U32From, MemberStandsAt, MemberParts;
    var vs: seq<Validator> := [];
    while |vs| < count
      invariant d.Valid() && |vs| <= count
      invariant d.off == 36 + MEMBER_BYTES * |vs|
      invariant forall k :: 0 <= k < |vs| ==> |vs[k].publicKey| == 65
      invariant d.data[36..d.off] == Flat(MemberParts(vs))
      invariant forall s :: SetFields(d.data, s) && |s.validators| == count ==> vs == s.validators[..|vs|]
    {
      ghost var off := d.off;
      forall s | SetFields(d.data, s) && |s.validators| == count
        ensures MemberStandsAt(d.data, off, s.validators[|vs|]) {
        assert MemberStandsAt(d.data, 36 + MEMBER_BYTES * |vs|, s.validators[|vs|]);
      }
      var v := ParseMember(d);
      if v.None? {
        return None;
      }
      forall s | SetFields(d.data, s) && |s.validators| == count
        ensures vs + [v.value] == s.validators[..|vs| + 1] {
        assert s.validators[..|vs| + 1] == s.validators[..|vs|] + [s.validators[|vs|]];
      }
      MemberPartsSnoc(vs, v.value);
      assert d.data[36..d.off] == d.data[36..off] + d.data[off..d.off];
      vs := vs + [v.value];
    }
    forall s | SetFields(d.data, s) && |s.validators| == count ensures vs == s.validators {
      assert s.validators[..count] == s.validators;
    }
    return Some(vs);
  }

  /** Parsing accepts exactly the encodings of valid sets and returns the encoded set. */
  method ParseSet(crypto: Crypto, data: Bytes) returns (r: Option<ValidatorSet>)
    ensures r.Some? ==> WireSet(crypto, r.value) && SizedKeys(r.value) && SetBytes(r.value) == data
    ensures forall s :: WireSet(crypto, s) && SizedKeys(s) && SetBytes(s) == data ==> r == Some(s)
  {
    hide ValidSet, U32From, U32Bytes, Flat;
    forall s | WireSet(crypto, s) && SizedKeys(s) && SetBytes(s) == data ensures SetFields(data, s) {
      SetLayout(s);
    }
    var d := new Reader(data);
    var network := d.Take(32);
    if network.None? { return None; }
    var count := d.U32();
    if count.None? || count.value == 0 || count.value > MAX_CERTIFICATE_VOTES {
      forall s | WireSet(crypto, s) && SizedKeys(s) && SetBytes(s) == data ensures false {
        WireSetNonempty(crypto, s);
      }
      return None;
    }
    var members := ParseMembers(d, count.value);
    if members.None? { return None; }
    var s := ValidatorSet(network.value, members.value);
    if d.off != |data| { return None; }
    assert data == data[0..32] + data[32..36] + data[36..d.off];
    var ok := Validate(crypto, s);
    return if ok then Some(s) else None;
  }

  lemma WireSetNonempty(crypto: Crypto, s: ValidatorSet)
    requires WireSet(crypto, s)
    ensures |s.validators| > 0
  {
  }

  // ---------------------------------------------------------------- one encoding per value

  lemma VoteEncodingUnique(v: Vote, w: Vote)
    requires WireVote(v) && WireVote(w) && VoteBytes(v) == VoteBytes(w)
    ensures v == w
  {
    VoteLayout(v);
    VoteLayout(w);
  }

  lemma CertificateEncodingUnique(c: Certificate, d: Certificate)
    requires WireCertificate(c) && WireCertificate(d) && CertificateBytes(c) == CertificateBytes(d)
    ensures c == d
  {
    hide WireVote, U64From, U32From, CertificateBytes, FrameAt, VoteBytes;
    CertificateLayout(c);
    CertificateLayout(d);
    var data := CertificateBytes(c);
    forall k | 0 <= k < |c.votes| ensures c.votes[k] == d.votes[k] {
      assert VoteStandsAt(data, 84 + 253 * k, c.votes[k]);
      assert VoteStandsAt(data, 84 + 253 * k, d.votes[k]);
      WireVoteSized(c.votes[k]);
      WireVoteSized(d.votes[k]);
      VoteEncodingUnique(c.votes[k], d.votes[k]);
    }
  }

  lemma WireVoteSized(v: Vote)
    requires WireVote(v)
    ensures SizedVote(v)
  {
  }

  lemma SetEncodingUnique(s: ValidatorSet, t: ValidatorSet)
    requires SizedKeys(s) && SizedKeys(t) && SetBytes(s) == SetBytes(t)
    ensures s == t
  {
    hide SetBytes, U32From, U64From, FrameAt;
    SetLayout(s);
    SetLayout(t);
    var data := SetBytes(s);
    forall k | 0 <= k < |s.validators| ensures s.validators[k] == t.validators[k] {
      assert MemberStandsAt(data, 36 + MEMBER_BYTES * k, s.validators[k]);
      assert MemberStandsAt(data, 36 + MEMBER_BYTES * k, t.validators[k]);
    }
  }

  // ---------------------------------------------------------------- what has an encoding

  /** Exactly votes of nonzero height and identities, with a 65-byte key and a 64-byte signature, have an encoding; and
      certificates of nonzero height and identities with one to 4096 such votes. */
  lemma EncodableIff(v: Vote, c: Certificate)
    ensures WireVote(v) <==>
            && |v.publicKey| == 65 && |v.signature| == 64 && v.height > 0
            && ZERO32 !in {v.network, v.headerHash, v.voter}
    ensures WireCertificate(c) <==>
            && 1 <= |c.votes| <= 4096 && c.height > 0 && ZERO32 !in {c.network, c.headerHash}
            && forall u :: u in c.votes ==> WireVote(u)
  {
  }

  /** Every certificate a committee of nonzero identities accepts from at most 4096 votes has an encoding. */
  lemma AcceptedIsEncodable(crypto: Crypto, s: ValidatorSet, c: Certificate)
    requires Certifies(crypto, s, c) && |c.votes| <= 4096
    requires forall i :: 0 <= i < |s.validators| ==> s.validators[i].id != ZERO32
    ensures WireCertificate(c)
  {
    hide TotalPower, ValidSet;
    ValidMembers(crypto, s);
    if c.votes == [] {
      assert Voters(c.votes) == {};
      PowerInNone(s.validators, {});
    }
    forall k | 0 <= k < |c.votes| ensures WireVote(c.votes[k]) {
      assert CountedVote(crypto, s, c, c.votes[k]);
      var m :| m in s.validators && m.id == c.votes[k].voter;
      var i :| 0 <= i < |s.validators| && s.validators[i] == m;
    }
  }
}
