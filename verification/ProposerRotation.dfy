/** The weighted proposer rotation (internal/v2/consensus/consensus.go, Proposer). */
module ProposerRotation {
  import opened Prelude
  import opened Sorting
  import opened Consensus
  import opened Modular

  /** The member whose interval of cumulative power contains the slot. */
  function SlotOwner(vs: seq<Validator>, slot: nat): Validator
    requires slot < TotalPower(vs)
  {
    if slot < vs[0].power then vs[0] else SlotOwner(vs[1..], slot - vs[0].power)
  }

  /** The slot of a round, with the 64-bit addition of the source. */
  function Slot(total: u64, height: u64, round: u64): (slot: nat)
    requires total > 0 && height > 0
    ensures slot < total
  {
    Mod(WrapAdd(Mod(height - 1, total), Mod(round, total)), total)
  }

  lemma SortedTotal(vs: seq<Validator>)
    ensures TotalPower(Sort(vs, ById)) == TotalPower(vs)
  {
    PowerInPermuted(Sort(vs, ById), vs, {});
  }

  lemma {:induction false} ValidTotal(vs: seq<Validator>)
    requires |vs| > 0 && forall i :: 0 <= i < |vs| ==> vs[i].power > 0
    ensures TotalPower(vs) > 0
  {
  }

  /** Who proposes when the members are listed as `vs`. */
  function Owner(vs: seq<Validator>, height: u64, round: u64): Validator
    requires 0 < TotalPower(vs) <= MAX_U64 && height > 0
  {
    SlotOwner(vs, Slot(TotalPower(vs), height, round))
  }

  /** The members in the order the rotation lists them. */
  function Roster(s: ValidatorSet): seq<Validator> {
    Sort(s.validators, ById)
  }

  lemma RosterFacts(crypto: Crypto, s: ValidatorSet)
    requires ValidSet(crypto, s)
    ensures 0 < TotalPower(Roster(s)) == TotalPower(s.validators) <= MAX_U64
    ensures DistinctIds(Roster(s))
    ensures forall v :: v in s.validators <==> v in Roster(s)
  {
    SortedTotal(s.validators);
    ValidTotal(s.validators);
    SortedDistinct(s.validators);
    SameElements(Roster(s), s.validators);
  }

  lemma {:induction false} OwnerAt(vs: seq<Validator>, i: nat, slot: nat)
    requires i < |vs| && TotalPower(vs[..i]) <= slot < TotalPower(vs[..i]) + vs[i].power
    ensures slot < TotalPower(vs) && SlotOwner(vs, slot) == vs[i]
  {
    if i > 0 {
      assert vs[..i][1..] == vs[1..][..i - 1];
      OwnerAt(vs[1..], i - 1, slot - vs[0].power);
    }
  }

  method SlotOf(total: u64, height: u64, round: u64) returns (slot: nat)
    requires total > 0 && height > 0
    ensures slot == Slot(total, height, round)
  {
    ModIsRemainder(height - 1, total);
    ModIsRemainder(round, total);
    var sum := WrapAdd((height - 1) % total, round % total);
    ModIsRemainder(sum, total);
    slot := sum % total;
  }

  /** Walking the cumulative powers finds the scheduled member; the walk never runs off the end. */
  method Proposer(crypto: Crypto, s: ValidatorSet, height: u64, round: u64) returns (r: Option<Validator>)
    ensures r.Some? <==> ValidSet(crypto, s) && height != 0
    ensures r.Some? ==> 0 < TotalPower(Roster(s)) <= MAX_U64 && r.value == Owner(Roster(s), height, round)
  {
    var ok := Validate(crypto, s);
    if !ok || height == 0 {
      return None;
    }
    RosterFacts(crypto, s);
    var members, total := IndexMembers(s.validators);
    var slot := SlotOf(total, height, round);
    var owner := WalkTo(Roster(s), slot);
    return Some(owner);
  }

  method WalkTo(sorted: seq<Validator>, slot: nat) returns (r: Validator)
    requires slot < TotalPower(sorted) <= MAX_U64
    ensures r == SlotOwner(sorted, slot)
  {
    var cumulative := 0;
    var i := 0;
    assert sorted[..|sorted|] == sorted;
    while i < |sorted|
      invariant 0 <= i <= |sorted|
      invariant cumulative == TotalPower(sorted[..i]) <= slot
    {
      TotalPowerSnoc(sorted, i);
      TotalPowerPrefix(sorted, i + 1);
      cumulative := WrapAdd(cumulative, sorted[i].power);
      if slot < cumulative {
        OwnerAt(sorted, i, slot);
        return sorted[i];
      }
      i := i + 1;
    }
    assert false;
  }

  /** The choice does not depend on the order of the validator slice. */
  lemma RosterIgnoresOrder(a: ValidatorSet, b: ValidatorSet)
    requires multiset(a.validators) == multiset(b.validators) && DistinctIds(a.validators)
    ensures Roster(a) == Roster(b)
  {
    ByIdTotal(a.validators);
    SortCanonical(a.validators, b.validators, ById);
  }

  // ---------------------------------------------------------------- fairness

  /** How many of start .. start+n-1 satisfy f. */
  ghost function Count(f: int -> bool, start: int, n: nat): nat {
    if n == 0 then 0 else Count(f, start, n - 1) + if f(start + n - 1) then 1 else 0
  }

  lemma {:induction false} CountSame(f: int -> bool, g: int -> bool, a: int, b: int, n: nat)
    requires forall x :: a <= x < a + n ==> f(x) == g(x + (b - a))
    ensures Count(f, a, n) == Count(g, b, n)
  {
    if n > 0 {
      CountSame(f, g, a, b, n - 1);
      assert f(a + n - 1) == g(a + n - 1 + (b - a));
    }
  }

  lemma {:induction false} CountFront(f: int -> bool, start: int, n: nat)
    requires n > 0
    ensures Count(f, start, n) == (if f(start) then 1 else 0) + Count(f, start + 1, n - 1)
  {
    if n > 1 { CountFront(f, start, n - 1); }
  }

  /** How many of the rounds start .. start+n-1 the validator proposes. */
  ghost function Turns(vs: seq<Validator>, height: u64, start: nat, n: nat, id: Bytes32): nat
    requires 0 < TotalPower(vs) <= MAX_U64 && height > 0
  {
    Count(Proposes(vs, height, id), start, n)
  }

  ghost function Proposes(vs: seq<Validator>, height: u64, id: Bytes32): int -> bool
    requires 0 < TotalPower(vs) <= MAX_U64 && height > 0
  {
    r => 0 <= r < U64_LIMIT && Owner(vs, height, r).id == id
  }

  ghost function InRange(total: nat, lo: nat, hi: nat): int -> bool
    requires total > 0
  {
    x => x >= 0 && lo <= Mod(x, total) < hi
  }

  lemma {:induction false} HitsFromZero(total: nat, lo: nat, hi: nat, n: nat)
    requires n <= total && total > 0 && lo <= hi
    ensures Count(InRange(total, lo, hi), 0, n) == if n <= lo then 0 else if n <= hi then n - lo else hi - lo
  {
    if n > 0 { HitsFromZero(total, lo, hi, n - 1); }
  }

  /** Any window of `total` consecutive numbers meets every residue once. */
  lemma {:induction false} HitsWindow(total: nat, lo: nat, hi: nat, x0: nat)
    requires total > 0 && lo <= hi <= total
    ensures Count(InRange(total, lo, hi), x0, total) == hi - lo
  {
    if x0 == 0 {
      HitsFromZero(total, lo, hi, total);
    } else {
      HitsWindow(total, lo, hi, x0 - 1);
      CountFront(InRange(total, lo, hi), x0 - 1, total);
      assert Mod(x0 - 1 + total, total) == Mod(x0 - 1, total);
    }
  }

  /** When the 64-bit sum of the two residues cannot wrap. */
  predicate NoWrap(total: u64, height: u64)
    requires total > 0 && height > 0
  {
    Mod(height - 1, total) <= U64_LIMIT - total
  }

  lemma SlotExact(total: u64, height: u64, round: u64)
    requires total > 0 && height > 0 && NoWrap(total, height)
    ensures Slot(total, height, round) == Mod(Mod(height - 1, total) + round, total)
  {
    ModOfSum(Mod(height - 1, total), round, total);
  }

  lemma {:induction false} PrefixOwners(vs: seq<Validator>, j: nat, slot: nat)
    requires j < |vs| && DistinctIds(vs) && slot < TotalPower(vs)
    ensures SlotOwner(vs, slot).id == vs[j].id <==> TotalPower(vs[..j]) <= slot < TotalPower(vs[..j]) + vs[j].power
  {
    if slot < vs[0].power {
    } else if j == 0 {
      OwnerInside(vs[1..], slot - vs[0].power);
    } else {
      assert vs[..j][1..] == vs[1..][..j - 1];
      PrefixOwners(vs[1..], j - 1, slot - vs[0].power);
    }
  }

  lemma {:induction false} OwnerInside(vs: seq<Validator>, slot: nat)
    requires slot < TotalPower(vs)
    ensures exists i :: 0 <= i < |vs| && SlotOwner(vs, slot) == vs[i]
  {
    if slot >= vs[0].power {
      OwnerInside(vs[1..], slot - vs[0].power);
      var i :| 0 <= i < |vs[1..]| && SlotOwner(vs[1..], slot - vs[0].power) == vs[1..][i];
      assert vs[i + 1] == SlotOwner(vs, slot);
    }
  }

  lemma SortedDistinct(vs: seq<Validator>)
    requires DistinctIds(vs)
    ensures DistinctIds(Sort(vs, ById))
  {
    var r := Sort(vs, ById);
    SameElements(r, vs);
    forall i, j | 0 <= i < j < |r| ensures r[i].id != r[j].id {
      if r[i].id == r[j].id {
        assert r[i] in vs && r[j] in vs;
        assert r[i] == r[j];
        assert r == r[..i] + [r[i]] + r[i + 1..j] + [r[j]] + r[j + 1..];
        assert multiset(r)[r[i]] >= 2;
        OnceOnly(vs, r[i]);
      }
    }
  }

  lemma {:induction false} OnceOnly(vs: seq<Validator>, v: Validator)
    requires DistinctIds(vs)
    ensures multiset(vs)[v] <= 1
  {
    if vs != [] {
      assert vs == [vs[0]] + vs[1..];
      OnceOnly(vs[1..], v);
      if v == vs[0] {
        assert v !in vs[1..];
      }
    }
  }

  // ---------------------------------------------------------------- exact counts, wrapping included

  /** Predicates that balance at every point have balanced counts. */
  lemma {:induction false} CountBalance(f: int -> bool, g: int -> bool, h: int -> bool, k: int -> bool, n: nat)
    requires forall x :: 0 <= x < n ==> Point(f(x)) + Point(g(x)) == Point(h(x)) + Point(k(x))
    ensures Count(f, 0, n) + Count(g, 0, n) == Count(h, 0, n) + Count(k, 0, n)
  {
    if n > 0 {
      CountBalance(f, g, h, k, n - 1);
      assert Point(f(n - 1)) + Point(g(n - 1)) == Point(h(n - 1)) + Point(k(n - 1));
    }
  }

  /** What depends only on the residue counts the same in every window of one period. */
  lemma {:induction false} ResidueCount(f: int -> bool, q: int -> bool, t: nat, s: nat)
    requires t > 0 && forall x :: 0 <= x < s + t ==> f(x) == q(Mod(x, t))
    ensures Count(f, s, t) == Count(q, 0, t)
  {
    if s == 0 {
      CountSame(f, q, 0, 0, t);
    } else {
      ResidueCount(f, q, t, s - 1);
      CountFront(f, s - 1, t);
      assert Mod(s - 1 + t, t) == Mod(s - 1, t);
      assert f(s - 1) == f(s - 1 + t);
    }
  }

  function Between(lo: int, hi: int): int -> bool {
    x => lo <= x < hi
  }

  /** How much of [lo, hi) lies in [from, to). */
  function Overlap(lo: int, hi: int, from: int, to: int): nat {
    var first, end := if lo < from then from else lo, if hi < to then hi else to;
    if first < end then end - first else 0
  }

  lemma {:induction false} BetweenCount(lo: int, hi: int, n: nat)
    ensures Count(Between(lo, hi), 0, n) == Overlap(lo, hi, 0, n)
  {
    if n > 0 {
      BetweenCount(lo, hi, n - 1);
    }
  }

  /** Slots below a+T-2^64 are visited once more than under an exact sum. */
  function Gain(total: nat, a: nat, lo: nat, hi: nat): nat {
    Overlap(lo, hi, 0, a + total - U64_LIMIT)
  }

  /** Slots from 2^64-T up to a are visited once less. */
  function Loss(total: nat, a: nat, lo: nat, hi: nat): nat {
    Overlap(lo, hi, U64_LIMIT - total, a)
  }

  /** The rounds, by residue, whose slot lies in [lo, hi). */
  ghost function Hits(total: u64, height: u64, lo: nat, hi: nat): int -> bool
    requires total > 0 && height > 0
  {
    b => 0 <= b < total && lo <= Slot(total, height, b) < hi
  }

  ghost function ExactHits(total: u64, a: nat, lo: nat, hi: nat): int -> bool
    requires total > 0
  {
    b => b >= 0 && lo <= Mod(a + b, total) < hi
  }

  /** The slot of every residue: the sum, the sum less T, or the wrapped sum. */
  lemma SlotCases(total: u64, height: u64, b: nat)
    requires 0 < total && height > 0 && b < total
    ensures var x := Mod(height - 1, total) + b;
            && Slot(total, height, b) == (if x < total then x else if x < U64_LIMIT then x - total else x - U64_LIMIT)
            && Mod(x, total) == (if x < total then x else x - total)
  {
    var x := Mod(height - 1, total) + b;
    assert x >= total ==> Mod(x, total) == Mod(x - total, total);
  }

  lemma HitsBalance(total: u64, height: u64, lo: nat, hi: nat, b: int)
    requires 0 < total && height > 0 && 0 <= b < total
    ensures var a := Mod(height - 1, total);
            var late := if lo + total < U64_LIMIT then U64_LIMIT - a else lo + total - a;
            Point(Hits(total, height, lo, hi)(b)) + Point(Between(late, hi + total - a)(b))
            == Point(ExactHits(total, a, lo, hi)(b)) + Point(Between(lo + U64_LIMIT - a, hi + U64_LIMIT - a)(b))
  {
    hide Slot, Mod;
    SlotCases(total, height, b);
  }

  lemma ExactHitsCount(total: u64, a: nat, lo: nat, hi: nat)
    requires total > 0 && lo <= hi <= total
    ensures Count(ExactHits(total, a, lo, hi), 0, total) == hi - lo
  {
    hide Count, Mod;
    CountSame(ExactHits(total, a, lo, hi), InRange(total, lo, hi), 0, a, total);
    HitsWindow(total, lo, hi, a);
  }

  /** How often a period visits the slots of an interval, whether or not the sum wraps. */
  lemma HitsCount(total: u64, height: u64, lo: nat, hi: nat)
    requires 0 < total && height > 0 && lo <= hi <= total
    ensures var a := Mod(height - 1, total);
            Count(Hits(total, height, lo, hi), 0, total) == hi - lo + Gain(total, a, lo, hi) - Loss(total, a, lo, hi)
  {
    hide Count, Slot, Mod, Point, Hits, ExactHits, Between;
    var a := Mod(height - 1, total);
    var late := if lo + total < U64_LIMIT then U64_LIMIT - a else lo + total - a;
    forall b | 0 <= b < total
      ensures Point(Hits(total, height, lo, hi)(b)) + Point(Between(late, hi + total - a)(b))
              == Point(ExactHits(total, a, lo, hi)(b)) + Point(Between(lo + U64_LIMIT - a, hi + U64_LIMIT - a)(b)) {
      HitsBalance(total, height, lo, hi, b);
    }
    CountBalance(Hits(total, height, lo, hi), Between(late, hi + total - a), ExactHits(total, a, lo, hi),
                 Between(lo + U64_LIMIT - a, hi + U64_LIMIT - a), total);
    ExactHitsCount(total, a, lo, hi);
    BetweenCount(late, hi + total - a, total);
    BetweenCount(lo + U64_LIMIT - a, hi + U64_LIMIT - a, total);
  }

  lemma OwnerBySlot(vs: seq<Validator>, height: u64, round: u64, j: nat, total: nat, lo: nat)
    requires DistinctIds(vs) && 0 < TotalPower(vs) == total <= MAX_U64 && height > 0
    requires j < |vs| && lo == TotalPower(vs[..j])
    ensures Owner(vs, height, round).id == vs[j].id <==> Hits(total, height, lo, lo + vs[j].power)(Mod(round, total))
  {
    hide SlotOwner, TotalPower;
    PrefixOwners(vs, j, Slot(total, height, round));
    assert Slot(total, height, Mod(round, total)) == Slot(total, height, round);
  }

  /** The exact number of turns of the j-th listed member over one period of rounds, for every height. */
  lemma TurnsExact(vs: seq<Validator>, height: u64, start: nat, j: nat)
    requires DistinctIds(vs) && 0 < TotalPower(vs) <= MAX_U64 && height > 0 && j < |vs|
    requires start + TotalPower(vs) <= U64_LIMIT
    ensures var total, lo := TotalPower(vs), TotalPower(vs[..j]);
            var a, hi := Mod(height - 1, total), lo + vs[j].power;
            Turns(vs, height, start, total, vs[j].id) == vs[j].power + Gain(total, a, lo, hi) - Loss(total, a, lo, hi)
  {
    hide Count, Mod, Slot, Owner, SlotOwner, Hits, Gain, Loss;
    var total, lo := TotalPower(vs), TotalPower(vs[..j]);
    var hi := lo + vs[j].power;
    var f, q := Proposes(vs, height, vs[j].id), Hits(total, height, lo, hi);
    forall r | 0 <= r < start + total ensures f(r) == q(Mod(r, total)) {
      OwnerBySlot(vs, height, r, j, total, lo);
    }
    ResidueCount(f, q, total, start);
    TotalPowerSnoc(vs, j);
    TotalPowerPrefix(vs, j + 1);
    HitsCount(total, height, lo, hi);
  }

  /** For every valid set, height and window of T rounds, each member's turns are its power, plus its share of the
      slots wrapping visits twice, less its share of the slots wrapping skips. */
  lemma RotationTurns(crypto: Crypto, s: ValidatorSet, height: u64, start: nat, j: nat)
    requires ValidSet(crypto, s) && height > 0 && start + TotalPower(s.validators) <= U64_LIMIT && j < |Roster(s)|
    ensures 0 < TotalPower(Roster(s)) == TotalPower(s.validators) <= MAX_U64
    ensures var vs, total := Roster(s), TotalPower(s.validators);
            var lo, a := TotalPower(vs[..j]), Mod(height - 1, total);
            var hi := lo + vs[j].power;
            Turns(vs, height, start, total, vs[j].id) == vs[j].power + Gain(total, a, lo, hi) - Loss(total, a, lo, hi)
  {
    hide Turns, Gain, Loss, Mod, TotalPower, Roster, ValidSet;
    RosterFacts(crypto, s);
    TurnsExact(Roster(s), height, start, j);
  }

  /** The rotation of a listing gives the j-th member exactly its power in turns. */
  ghost predicate FairTo(vs: seq<Validator>, height: u64, start: nat, j: nat)
    requires 0 < TotalPower(vs) <= MAX_U64 && height > 0 && j < |vs|
  {
    Turns(vs, height, start, TotalPower(vs), vs[j].id) == vs[j].power
  }

  /** What wrapping adds to the j-th member's slots is what it takes away. */
  ghost predicate Compensated(vs: seq<Validator>, height: u64, j: nat)
    requires 0 < TotalPower(vs) <= MAX_U64 && height > 0 && j < |vs|
  {
    var total, lo := TotalPower(vs), TotalPower(vs[..j]);
    var a, hi := Mod(height - 1, total), lo + vs[j].power;
    Gain(total, a, lo, hi) == Loss(total, a, lo, hi)
  }

  /** For every valid set, height and window of T rounds: the rotation is fair to everybody if and only if every
      member's interval overlaps the slots gained and the slots lost by wrapping equally. */
  lemma RotationIsFairIff(crypto: Crypto, s: ValidatorSet, height: u64, start: nat)
    requires ValidSet(crypto, s) && height > 0 && start + TotalPower(s.validators) <= U64_LIMIT
    ensures 0 < TotalPower(Roster(s)) == TotalPower(s.validators) <= MAX_U64
    ensures (forall j :: 0 <= j < |Roster(s)| ==> FairTo(Roster(s), height, start, j))
            <==> (forall j :: 0 <= j < |Roster(s)| ==> Compensated(Roster(s), height, j))
  {
    hide Turns, Gain, Loss, Mod, TotalPower, Roster, ValidSet;
    RosterFacts(crypto, s);
    var vs := Roster(s);
    forall j | 0 <= j < |vs| ensures FairTo(vs, height, start, j) <==> Compensated(vs, height, j) {
      TurnsExact(vs, height, start, j);
    }
  }

  /** Without wrapping, over any `total` consecutive rounds of a height every member proposes exactly `power` times. */
  lemma RotationIsFair(crypto: Crypto, s: ValidatorSet, height: u64, start: nat, v: Validator)
    requires ValidSet(crypto, s) && height > 0 && v in s.validators
    requires 0 < TotalPower(Roster(s)) <= MAX_U64 && start + TotalPower(Roster(s)) <= U64_LIMIT
    requires NoWrap(TotalPower(Roster(s)), height)
    ensures TotalPower(Roster(s)) == TotalPower(s.validators)
    ensures Turns(Roster(s), height, start, TotalPower(Roster(s)), v.id) == v.power
  {
    hide Turns, Mod, Roster, ValidSet, TotalPower;
    RosterFacts(crypto, s);
    var vs := Roster(s);
    var j :| 0 <= j < |vs| && vs[j] == v;
    TurnsExact(vs, height, start, j);
  }

  /** A sole member loses nothing to wrapping, at any power and height. */
  lemma SoleMemberIsAlwaysFair(v: Validator, height: u64, start: nat)
    requires v.power > 0 && height > 0 && start + v.power <= U64_LIMIT
    ensures TotalPower([v]) == v.power && FairTo([v], height, start, 0)
  {
    hide Turns, Mod;
    assert [v][1..] == [] && [v][..0] == [];
    TurnsExact([v], height, start, 0);
  }

  /** No total up to 2^63 can wrap. */
  lemma SmallTotalsNeverWrap(total: u64, height: u64)
    requires 0 < total <= U64_LIMIT / 2 && height > 0
    ensures NoWrap(total, height)
  {
  }

  /** The rotation visits every slot exactly when the two residues cannot wrap: otherwise two of any
      `total` consecutive rounds share a slot, so some slot is skipped. */
  lemma SlotsDistinctIffNoWrap(total: u64, height: u64, start: nat)
    requires total > 0 && height > 0 && start + total <= U64_LIMIT
    ensures NoWrap(total, height) <==>
            forall r1, r2 :: start <= r1 < r2 < start + total ==> Slot(total, height, r1) != Slot(total, height, r2)
  {
    var a := Mod(height - 1, total);
    if NoWrap(total, height) {
      forall r1, r2 | start <= r1 < r2 < start + total ensures Slot(total, height, r1) != Slot(total, height, r2) {
        SlotExact(total, height, r1);
        SlotExact(total, height, r2);
        NearbyResiduesDiffer(a + r1, a + r2, total);
      }
    } else {
      var r1 := WithResidue(start, total, total - a);
      var r2 := WithResidue(start, total, U64_LIMIT - a);
      assert Slot(total, height, r1) == 0 == Slot(total, height, r2);
    }
  }

  /** Totals above 2^63 can starve a validator: here the second of three never owns a slot at this height. */
  lemma WrappingSkipsASlot(vs: seq<Validator>, round: u64)
    requires |vs| == 3 && vs[0].power == MAX_U64 - 2 && vs[1].power == 1 && vs[2].power == 1 && DistinctIds(vs)
    ensures TotalPower(vs) == MAX_U64 && Owner(vs, MAX_U64, round).id != vs[1].id
  {
    assert vs[1..][1..][1..] == [] && vs[..1][1..] == [] && vs[..1][0] == vs[0];
    assert TotalPower(vs[..1]) == MAX_U64 - 2;
    var two, one := vs[1..], vs[1..][1..];
    assert TotalPower(one) == one[0].power + TotalPower(one[1..]) == 1;
    assert TotalPower(two) == two[0].power + TotalPower(one) == 2;
    assert Mod(MAX_U64 - 1, MAX_U64) == MAX_U64 - 1 && Mod(MAX_U64, MAX_U64) == 0;
    assert Slot(MAX_U64, MAX_U64, round) != MAX_U64 - 2;
    PrefixOwners(vs, 1, Slot(MAX_U64, MAX_U64, round));
  }

  // ---------------------------------------------------------------- a valid set with a starved member

  function Member(b: byte, power: u64): Validator {
    Validator(Name(b), Name(b) + ZeroBytes(33), power)
  }

  function Lopsided(): ValidatorSet {
    ValidatorSet(Name(9), [Member(1, MAX_U64 - 2), Member(2, 1), Member(3, 1)])
  }

  /** Keys carry their identity in front. */
  function PrefixKeys(): Crypto {
    Crypto((k: Bytes) => if |k| >= 32 then k[..32] else ZERO32, k => true, v => ZERO32, (h, r, p) => ZERO32,
           (k, d, s) => true, h => ZERO32, vs => ZERO32, c => ZERO32)
  }

  lemma LopsidedIsValid()
    ensures ValidSet(PrefixKeys(), Lopsided()) && DistinctIds(Lopsided().validators)
  {
    var crypto, s := PrefixKeys(), Lopsided();
    var vs := s.validators;
    assert s.network[0] != ZERO32[0];
    forall i | 0 <= i < 3 ensures ValidMember(crypto, vs[i]) {
      assert vs[i].publicKey[..32] == vs[i].id;
    }
    assert vs[0].id[0] == 1 && vs[1].id[0] == 2 && vs[2].id[0] == 3;
    WrappingSkipsASlot(vs, 0);
  }

  lemma ListedById(s: ValidatorSet)
    requires DistinctIds(s.validators) && forall i, j :: 0 <= i < j < |s.validators| ==> ById(s.validators[i], s.validators[j])
    ensures Roster(s) == s.validators
  {
    hide Sort, LexLess;
    var vs := s.validators;
    ByIdTotal(vs);
    SortSorted(vs, ById);
    forall i, j | 0 <= i < j < |vs| ensures !ById(vs[j], vs[i]) {
      LexTrichotomy(vs[i].id, vs[j].id);
    }
    SortedUnique(vs, Sort(vs, ById), ById);
  }

  /** A valid set, which the rotation accepts, whose second member never proposes at a height. */
  lemma WrappingStarvesAValidator(round: u64)
    ensures ValidSet(PrefixKeys(), Lopsided())
    ensures 0 < TotalPower(Roster(Lopsided())) <= MAX_U64
    ensures Owner(Roster(Lopsided()), MAX_U64, round).id != Lopsided().validators[1].id
  {
    hide ValidSet, Roster, Owner;
    LopsidedIsValid();
    var vs := Lopsided().validators;
    forall i, j | 0 <= i < j < |vs| ensures ById(vs[i], vs[j]) {
      assert vs[i].id[0] < vs[j].id[0];
    }
    ListedById(Lopsided());
    WrappingSkipsASlot(vs, round);
  }
}
