/** The satellite blacklist: lists of satellite ids to 64-bit masks and back. A `uint64_t` mask
    is the natural number it holds; its shifts, tests and unions are written on binary digits. */
module SvBlacklist {

  datatype Constellation = Glonass | Beidou | Qzss | Galileo | Unsupported

  datatype Source = Source(constellation: Constellation, svId: nat)

  datatype Masks = Masks(glo: nat, bds: nat, qzss: nat, gal: nat) {
    function Get(c: Constellation): nat {
      match c
      case Glonass => glo
      case Beidou => bds
      case Qzss => qzss
      case Galileo => gal
      case Unsupported => 0
    }
  }

  const CLEAR := Masks(0, 0, 0, 0)
  const TWO_TO_64: nat := 0x1_0000_0000_0000_0000
  const ALL_BITS: nat := TWO_TO_64 - 1

  function FirstId(c: Constellation): nat {
    match c
    case Glonass => 65
    case Beidou => 201
    case Qzss => 193
    case Galileo => 301
    case Unsupported => 0
  }

  // ----- binary digits ---------------------------------------------------------------------

  function Test(mask: nat, k: nat): bool {
    if k == 0 then mask % 2 == 1 else Test(mask / 2, k - 1)
  }

  function Pow2(k: nat): (p: nat)
    ensures p > 0
  {
    if k == 0 then 1 else 2 * Pow2(k - 1)
  }

  function BitOr(a: nat, b: nat): nat {
    if a == 0 then b
    else if b == 0 then a
    else 2 * BitOr(a / 2, b / 2) + (if a % 2 == 1 || b % 2 == 1 then 1 else 0)
  }

  /** What a machine gives for `1 << k` with k of 32 and more, which the language leaves
      undefined for a 32-bit int. */
  type Wide = nat -> nat

  /** `1 << k` computed in a 32-bit int and then widened to `uint64_t`: the sign bit spreads. */
  function IntShift(wide: Wide, k: nat): nat {
    if k < 31 then Pow2(k) else if k == 31 then 0xFFFF_FFFF_8000_0000 else wide(k) % TWO_TO_64
  }

  // ----- list to masks -----------------------------------------------------------------------

  predicate Counts(s: Source, c: Constellation) {
    c != Unsupported && s.constellation == c && s.svId != 0 && FirstId(c) <= s.svId < FirstId(c) + 64
  }

  predicate IsAll(s: Source, c: Constellation) {
    c != Unsupported && s.constellation == c && s.svId == 0
  }

  function AddSource(wide: Wide, mask: nat, s: Source, c: Constellation): nat {
    if IsAll(s, c) then ALL_BITS
    else if Counts(s, c) then BitOr(mask, IntShift(wide, s.svId - FirstId(c)))
    else mask
  }

  function MaskOf(wide: Wide, sources: seq<Source>, c: Constellation, mask: nat): nat {
    if sources == [] then mask else MaskOf(wide, sources[1..], c, AddSource(wide, mask, sources[0], c))
  }

  function ToMasks(wide: Wide, sources: seq<Source>, masks: Masks): Masks {
    if sources == [] then CLEAR
    else Masks(MaskOf(wide, sources, Glonass, masks.glo), MaskOf(wide, sources, Beidou, masks.bds),
               MaskOf(wide, sources, Qzss, masks.qzss), MaskOf(wide, sources, Galileo, masks.gal))
  }

  // ----- masks to list -------------------------------------------------------------------------

  /** The ids of the set bits, the lowest standing for `id`. */
  function Bits(mask: nat, id: nat, c: Constellation): seq<Source>
    decreases mask
  {
    if mask == 0 then []
    else (if mask % 2 == 1 then [Source(c, id)] else []) + Bits(mask / 2, id + 1, c)
  }

  function ToList(mask: nat, c: Constellation): seq<Source> {
    if mask == ALL_BITS then [Source(c, 0)] else Bits(mask, FirstId(c), c)
  }

  function FromMasks(m: Masks): seq<Source> {
    ToList(m.bds, Beidou) + ToList(m.gal, Galileo) + ToList(m.glo, Glonass) + ToList(m.qzss, Qzss)
  }

  // ----- facts about digits ----------------------------------------------------------------------

  lemma OrHalves(a: nat, b: nat)
    requires a != 0 && b != 0
    ensures BitOr(a, b) / 2 == BitOr(a / 2, b / 2)
    ensures BitOr(a, b) % 2 == 1 <==> a % 2 == 1 || b % 2 == 1
  {
  }

  lemma {:induction false} TestOr(a: nat, b: nat, k: nat)
    ensures Test(BitOr(a, b), k) == (Test(a, k) || Test(b, k))
  {
    if a == 0 || b == 0 {
      TestZero(k);
    } else {
      OrHalves(a, b);
      if k > 0 {
        TestOr(a / 2, b / 2, k - 1);
      }
    }
  }

  lemma {:induction false} TestZero(k: nat)
    ensures !Test(0, k)
  {
    if k > 0 {
      TestZero(k - 1);
    }
  }

  /** A run of ones from bit `low` up to below bit `high`; one bit is a run of length 1. */
  lemma {:induction false} TestRun(low: nat, high: nat, k: nat)
    requires low <= high
    ensures Pow2(low) <= Pow2(high)
    ensures Test(Pow2(high) - Pow2(low), k) <==> low <= k < high
  {
    if high == low {
      TestZero(k);
    } else if low > 0 {
      TestRun(low - 1, high - 1, if k > 0 then k - 1 else 0);
      assert (Pow2(high) - Pow2(low)) / 2 == Pow2(high - 1) - Pow2(low - 1);
    } else {
      TestRun(0, high - 1, if k > 0 then k - 1 else 0);
      assert (Pow2(high) - 1) / 2 == Pow2(high - 1) - 1;
    }
  }

  lemma {:induction false} Pow2Sum(a: nat, b: nat)
    ensures Pow2(a + b) == Pow2(a) * Pow2(b)
  {
    if a > 0 {
      Pow2Sum(a - 1, b);
    }
  }

  lemma Pow2Double(k: nat, value: nat)
    requires Pow2(k) == value
    ensures Pow2(k + k) == value * value
  {
    Pow2Sum(k, k);
  }

  lemma Pow2Values()
    ensures Pow2(31) == 0x8000_0000 && Pow2(32) == 0x1_0000_0000 && Pow2(64) == TWO_TO_64
  {
    Pow2Double(8, 0x100);
    Pow2Double(16, 0x1_0000);
    Pow2Double(32, 0x1_0000_0000);
  }

  /** What a defined shift of the source sets: its own bit, or all bits from 31 up. */
  lemma TestShift(wide: Wide, n: nat, k: nat)
    requires n < 32 && k < 64
    ensures Test(IntShift(wide, n), k) <==> (k == n || (n == 31 && k >= 31))
  {
    Pow2Values();
    if n < 31 {
      TestRun(n, n + 1, k);
    } else {
      TestRun(31, 64, k);
    }
  }

  lemma {:induction false} OrBound(a: nat, b: nat, n: nat)
    requires a < Pow2(n) && b < Pow2(n)
    ensures BitOr(a, b) < Pow2(n)
  {
    if a != 0 && b != 0 {
      OrBound(a / 2, b / 2, n - 1);
    }
  }

  lemma {:induction false} SameBits(a: nat, b: nat, n: nat)
    requires a < Pow2(n) && b < Pow2(n)
    requires forall k :: 0 <= k < n ==> Test(a, k) == Test(b, k)
    ensures a == b
  {
    if n > 0 {
      forall k | 0 <= k < n - 1 ensures Test(a / 2, k) == Test(b / 2, k) {
        assert Test(a, k + 1) == Test(b, k + 1);
      }
      SameBits(a / 2, b / 2, n - 1);
      assert Test(a, 0) == Test(b, 0);
    }
  }

  lemma {:induction false} HighBitsClear(mask: nat, n: nat, k: nat)
    requires mask < Pow2(n) && n <= k
    ensures !Test(mask, k)
  {
    if n == 0 {
      TestZero(k);
    } else {
      HighBitsClear(mask / 2, n - 1, k - 1);
    }
  }

  lemma BitsBelow31(mask: nat, k: nat)
    requires mask < 0x8000_0000 && Test(mask, k)
    ensures k < 31
  {
    Pow2Values();
    if k >= 31 {
      HighBitsClear(mask, 31, k);
    }
  }

  lemma BitsBelow64(mask: nat, k: nat)
    requires mask < TWO_TO_64 && Test(mask, k)
    ensures k < 64
  {
    Pow2Values();
    if k >= 64 {
      HighBitsClear(mask, 64, k);
    }
  }

  lemma Equal64(a: nat, b: nat)
    requires a < TWO_TO_64 && b < TWO_TO_64
    requires forall k :: 0 <= k < 64 ==> Test(a, k) == Test(b, k)
    ensures a == b
  {
    Pow2Values();
    SameBits(a, b, 64);
  }

  lemma TestAllBits(k: nat)
    requires k < 64
    ensures Test(ALL_BITS, k)
  {
    Pow2Values();
    TestRun(0, 64, k);
  }

  lemma ShiftBound(wide: Wide, n: nat)
    ensures IntShift(wide, n) < TWO_TO_64
  {
    Pow2Values();
    if n < 31 {
      TestRun(n, 31, 0);
    }
  }

  // ----- what a mask of a list contains -------------------------------------------------------------

  predicate HasAll(sources: seq<Source>, c: Constellation) {
    exists i :: 0 <= i < |sources| && IsAll(sources[i], c)
  }

  predicate Sets(wide: Wide, s: Source, c: Constellation, k: nat) {
    Counts(s, c)
    && var n := s.svId - FirstId(c);
       if n < 32 then n == k || (n == 31 && k >= 31) else Test(IntShift(wide, n), k)
  }

  predicate SetBy(wide: Wide, sources: seq<Source>, c: Constellation, k: nat) {
    exists i :: 0 <= i < |sources| && Sets(wide, sources[i], c, k)
  }

  lemma {:induction false} MaskBits(wide: Wide, sources: seq<Source>, c: Constellation, mask: nat, k: nat)
    requires k < 64
    ensures Test(MaskOf(wide, sources, c, mask), k)
      <==> Test(mask, k) || HasAll(sources, c) || SetBy(wide, sources, c, k)
  {
    if sources != [] {
      var head, rest := sources[0], sources[1..];
      var mask' := AddSource(wide, mask, head, c);
      MaskBits(wide, rest, c, mask', k);
      if IsAll(head, c) {
        TestAllBits(k);
      } else if Counts(head, c) {
        var n := head.svId - FirstId(c);
        if n < 32 {
          TestShift(wide, n, k);
        }
        TestOr(mask, IntShift(wide, n), k);
      }
      ConsExists(wide, sources, c, k);
    }
  }

  lemma ConsExists(wide: Wide, sources: seq<Source>, c: Constellation, k: nat)
    requires sources != []
    ensures HasAll(sources, c) <==> IsAll(sources[0], c) || HasAll(sources[1..], c)
    ensures SetBy(wide, sources, c, k) <==> Sets(wide, sources[0], c, k) || SetBy(wide, sources[1..], c, k)
  {
    forall i | 1 <= i < |sources| ensures sources[i] == sources[1..][i - 1] {
    }
    if HasAll(sources[1..], c) {
      var i :| 0 <= i < |sources[1..]| && IsAll(sources[1..][i], c);
      assert IsAll(sources[i + 1], c);
    }
    if SetBy(wide, sources[1..], c, k) {
      var i :| 0 <= i < |sources[1..]| && Sets(wide, sources[1..][i], c, k);
      assert Sets(wide, sources[i + 1], c, k);
    }
  }

  lemma {:induction false} MaskBound(wide: Wide, sources: seq<Source>, c: Constellation, mask: nat)
    requires mask < TWO_TO_64
    ensures MaskOf(wide, sources, c, mask) < TWO_TO_64
  {
    if sources != [] {
      if Counts(sources[0], c) {
        ShiftBound(wide, sources[0].svId - FirstId(c));
        Pow2Values();
        OrBound(mask, IntShift(wide, sources[0].svId - FirstId(c)), 64);
      }
      MaskBound(wide, sources[1..], c, AddSource(wide, mask, sources[0], c));
    }
  }

  // ----- what the list of a mask contains ---------------------------------------------------------

  predicate Ascending(sources: seq<Source>) {
    forall i, j :: 0 <= i < j < |sources| ==> sources[i].svId < sources[j].svId
  }

  lemma {:induction false} BitsMembers(mask: nat, id: nat, c: Constellation, s: Source)
    ensures s in Bits(mask, id, c) <==> s.constellation == c && id <= s.svId && Test(mask, s.svId - id)
    decreases mask
  {
    if mask == 0 {
      if id <= s.svId {
        TestZero(s.svId - id);
      }
    } else {
      BitsMembers(mask / 2, id + 1, c, s);
    }
  }

  lemma {:induction false} BitsAscending(mask: nat, id: nat, c: Constellation)
    ensures Ascending(Bits(mask, id, c))
    decreases mask
  {
    if mask != 0 {
      var rest := Bits(mask / 2, id + 1, c);
      BitsAscending(mask / 2, id + 1, c);
      forall i | 0 <= i < |rest| ensures id < rest[i].svId {
        BitsMembers(mask / 2, id + 1, c, rest[i]);
        assert rest[i] in rest;
      }
    }
  }

  // ----- list to mask to list --------------------------------------------------------------------

  /** The ids of one constellation in ascending order without duplicates, or the single id 0. */
  ghost predicate RoundTrips(wide: Wide, sources: seq<Source>, c: Constellation) {
    var back := ToList(MaskOf(wide, sources, c, 0), c);
    if HasAll(sources, c) then back == [Source(c, 0)]
    else Ascending(back) && forall s :: s in back <==> s in sources && Counts(s, c)
  }

  /** Some id of the constellation is at an offset from `low` to below `high`. */
  predicate Names(sources: seq<Source>, c: Constellation, low: nat, high: nat) {
    exists i :: 0 <= i < |sources| && Counts(sources[i], c) && low <= sources[i].svId - FirstId(c) < high
  }

  lemma BackMember(wide: Wide, sources: seq<Source>, c: Constellation, s: Source)
    requires c != Unsupported && !HasAll(sources, c)
    ensures s in Bits(MaskOf(wide, sources, c, 0), FirstId(c), c)
      <==> s.constellation == c && FirstId(c) <= s.svId < FirstId(c) + 64
           && SetBy(wide, sources, c, s.svId - FirstId(c))
  {
    var mask := MaskOf(wide, sources, c, 0);
    BitsMembers(mask, FirstId(c), c, s);
    MaskBound(wide, sources, c, 0);
    if s.constellation == c && FirstId(c) <= s.svId {
      var k := s.svId - FirstId(c);
      if k < 64 {
        MaskBits(wide, sources, c, 0, k);
        TestZero(k);
      } else {
        Pow2Values();
        HighBitsClear(mask, 64, k);
      }
    }
  }

  /** A full mask, when nothing asked for "all", comes back as an id nobody listed. */
  lemma FullMaskBreaks(wide: Wide, sources: seq<Source>, c: Constellation)
    requires c != Unsupported && !HasAll(sources, c) && MaskOf(wide, sources, c, 0) == ALL_BITS
    ensures !RoundTrips(wide, sources, c)
  {
    var back := ToList(MaskOf(wide, sources, c, 0), c);
    assert Source(c, 0) in back && !Counts(Source(c, 0), c);
  }

  lemma AllTripsBack(wide: Wide, sources: seq<Source>, c: Constellation)
    requires HasAll(sources, c)
    ensures MaskOf(wide, sources, c, 0) == ALL_BITS
  {
    forall k | 0 <= k < 64 ensures Test(MaskOf(wide, sources, c, 0), k) == Test(ALL_BITS, k) {
      MaskBits(wide, sources, c, 0, k);
      TestAllBits(k);
    }
    MaskBound(wide, sources, c, 0);
    Equal64(MaskOf(wide, sources, c, 0), ALL_BITS);
  }

  /** Below offset 31 every id sets its own bit and no other. */
  lemma LowListTripsBack(wide: Wide, sources: seq<Source>, c: Constellation)
    requires c != Unsupported && !HasAll(sources, c) && !Names(sources, c, 31, 64)
    ensures RoundTrips(wide, sources, c)
  {
    var mask := MaskOf(wide, sources, c, 0);
    var bits := Bits(mask, FirstId(c), c);
    assert mask != ALL_BITS by {
      TestAllBits(40);
      MaskBits(wide, sources, c, 0, 40);
      TestZero(40);
    }
    BitsAscending(mask, FirstId(c), c);
    forall s ensures s in bits <==> s in sources && Counts(s, c) {
      BackMember(wide, sources, c, s);
      if s in sources && Counts(s, c) {
        var i :| 0 <= i < |sources| && sources[i] == s;
        assert Sets(wide, sources[i], c, s.svId - FirstId(c));
      }
    }
  }

  /** A bit that comes back without its id being listed. */
  lemma SpuriousBreaks(wide: Wide, sources: seq<Source>, c: Constellation, i: nat, k: nat)
    requires c != Unsupported && !HasAll(sources, c) && i < |sources|
    requires k < 64 && Sets(wide, sources[i], c, k) && Source(c, FirstId(c) + k) !in sources
    ensures !RoundTrips(wide, sources, c)
  {
    var spurious := Source(c, FirstId(c) + k);
    BackMember(wide, sources, c, spurious);
    if MaskOf(wide, sources, c, 0) == ALL_BITS {
      FullMaskBreaks(wide, sources, c);
    }
  }

  /** An id that is listed and does not come back. */
  lemma LostBreaks(wide: Wide, sources: seq<Source>, c: Constellation, i: nat)
    requires c != Unsupported && !HasAll(sources, c) && i < |sources| && Counts(sources[i], c)
    requires !SetBy(wide, sources, c, sources[i].svId - FirstId(c))
    ensures !RoundTrips(wide, sources, c)
  {
    BackMember(wide, sources, c, sources[i]);
    if MaskOf(wide, sources, c, 0) == ALL_BITS {
      FullMaskBreaks(wide, sources, c);
    }
  }

  /** Where all shifts are defined, list to mask to list is right for one constellation if and
      only if the list asks for all satellites or does not name the one at offset 31, whose shift
      spreads its sign bit. */
  lemma DefinedRoundTripIff(wide: Wide, sources: seq<Source>, c: Constellation)
    requires c != Unsupported && !Names(sources, c, 32, 64)
    ensures RoundTrips(wide, sources, c) <==> HasAll(sources, c) || !Names(sources, c, 31, 32)
  {
    if HasAll(sources, c) {
      AllTripsBack(wide, sources, c);
    } else if Names(sources, c, 31, 32) {
      var i :| 0 <= i < |sources| && Counts(sources[i], c) && 31 <= sources[i].svId - FirstId(c) < 32;
      forall j | 0 <= j < |sources| ensures sources[j] != Source(c, FirstId(c) + 32) {
        assert Counts(sources[j], c) ==> !(32 <= sources[j].svId - FirstId(c) < 64);
      }
      SpuriousBreaks(wide, sources, c, i, 32);
    } else {
      LowListTripsBack(wide, sources, c);
    }
  }

  function Nothing(): Wide { k => 0 }

  function OneBit(j: nat): Wide { k => Pow2(j) }

  lemma NothingSets(s: Source, c: Constellation, k: nat)
    requires k < 64 && Counts(s, c) && 32 <= s.svId - FirstId(c)
    ensures !Sets(Nothing(), s, c, k)
  {
    TestZero(k);
  }

  lemma OneBitSets(s: Source, c: Constellation, j: nat)
    requires j < 31 && Counts(s, c) && 32 <= s.svId - FirstId(c)
    ensures Sets(OneBit(j), s, c, j)
  {
    Pow2Values();
    TestRun(j, 31, 0);
    TestRun(j, j + 1, j);
  }

  /** A list that names every id from offset 31 up names all ids, or some low one is missing. */
  lemma MissingLow(sources: seq<Source>, c: Constellation) returns (j: nat)
    requires c != Unsupported && !HasAll(sources, c)
    requires MaskOf(Nothing(), sources, c, 0) != ALL_BITS
    requires forall k :: 31 <= k < 64 ==> SetBy(Nothing(), sources, c, k)
    ensures j < 31 && Source(c, FirstId(c) + j) !in sources
  {
    var mask := MaskOf(Nothing(), sources, c, 0);
    MaskBound(Nothing(), sources, c, 0);
    if forall k :: 0 <= k < 64 ==> Test(mask, k) {
      forall k | 0 <= k < 64 ensures Test(mask, k) == Test(ALL_BITS, k) {
        TestAllBits(k);
      }
      Equal64(mask, ALL_BITS);
    }
    j :| 0 <= j < 64 && !Test(mask, j);
    MaskBits(Nothing(), sources, c, 0, j);
    if Source(c, FirstId(c) + j) in sources {
      var i :| 0 <= i < |sources| && sources[i] == Source(c, FirstId(c) + j);
      assert Sets(Nothing(), sources[i], c, j);
    }
  }

  /** A list with an undefined shift: some machine does not bring it back. */
  lemma UndefinedBreaks(sources: seq<Source>, c: Constellation) returns (wide: Wide)
    requires c != Unsupported && !HasAll(sources, c) && Names(sources, c, 32, 64)
    ensures !RoundTrips(wide, sources, c)
  {
    wide := Nothing();
    var i :| 0 <= i < |sources| && Counts(sources[i], c) && 32 <= sources[i].svId - FirstId(c) < 64;
    if RoundTrips(wide, sources, c) {
      var n := sources[i].svId - FirstId(c);
      if !SetBy(wide, sources, c, n) {
        LostBreaks(wide, sources, c, i);
      }
      var m :| 0 <= m < |sources| && Sets(wide, sources[m], c, n);
      if 32 <= sources[m].svId - FirstId(c) {
        NothingSets(sources[m], c, n);
      }
      if MaskOf(wide, sources, c, 0) == ALL_BITS {
        FullMaskBreaks(wide, sources, c);
      }
      forall k | 31 <= k < 64 ensures SetBy(wide, sources, c, k) {
        assert Sets(wide, sources[m], c, k);
      }
      var j := MissingLow(sources, c);
      wide := OneBit(j);
      OneBitSets(sources[i], c, j);
      SpuriousBreaks(wide, sources, c, i, j);
    }
  }

  /** List to mask to list is right for one constellation, whatever the undefined shifts give, if
      and only if the list asks for all satellites or names none from offset 31 up. */
  lemma ListRoundTripIff(sources: seq<Source>, c: Constellation)
    requires c != Unsupported
    ensures (forall wide: Wide :: RoundTrips(wide, sources, c)) <==> HasAll(sources, c) || !Names(sources, c, 31, 64)
  {
    if HasAll(sources, c) || !Names(sources, c, 31, 64) {
      forall wide: Wide ensures RoundTrips(wide, sources, c) {
        if HasAll(sources, c) {
          AllTripsBack(wide, sources, c);
        } else {
          LowListTripsBack(wide, sources, c);
        }
      }
    } else if Names(sources, c, 32, 64) {
      var wide := UndefinedBreaks(sources, c);
      assert !RoundTrips(wide, sources, c);
    } else {
      var i :| 0 <= i < |sources| && Counts(sources[i], c) && 31 <= sources[i].svId - FirstId(c) < 64;
      assert Names(sources, c, 31, 32);
      DefinedRoundTripIff(Nothing(), sources, c);
      assert !RoundTrips(Nothing(), sources, c);
    }
  }

  /** The satellite at offset 31 comes back as all satellites from offset 31 up. */
  lemma SignBitExample(wide: Wide)
    ensures Source(Glonass, 100) in ToList(MaskOf(wide, [Source(Glonass, 96)], Glonass, 0), Glonass)
  {
    var sources := [Source(Glonass, 96)];
    BackMember(wide, sources, Glonass, Source(Glonass, 100));
    assert Sets(wide, sources[0], Glonass, 35);
    assert MaskOf(wide, sources, Glonass, 0) != ALL_BITS by {
      MaskBits(wide, sources, Glonass, 0, 0);
      TestAllBits(0);
      TestZero(0);
    }
  }

  // ----- mask to list to mask --------------------------------------------------------------------

  predicate Ordinary(mask: nat) { mask < 0x8000_0000 || mask == ALL_BITS }

  lemma ListHasNoAll(mask: nat, c: Constellation)
    requires c != Unsupported && mask != ALL_BITS
    ensures !HasAll(ToList(mask, c), c)
  {
    var list := ToList(mask, c);
    forall i | 0 <= i < |list| ensures !IsAll(list[i], c) {
      BitsMembers(mask, FirstId(c), c, list[i]);
      assert list[i] in list;
    }
  }

  /** The list holds exactly the offsets of the set bits. */
  lemma ListedIff(mask: nat, c: Constellation, k: nat)
    requires c != Unsupported && mask != ALL_BITS && mask < TWO_TO_64 && k < 64
    ensures Test(mask, k) <==> Source(c, FirstId(c) + k) in ToList(mask, c)
    ensures forall s :: s in ToList(mask, c) ==> Counts(s, c) && Test(mask, s.svId - FirstId(c))
  {
    BitsMembers(mask, FirstId(c), c, Source(c, FirstId(c) + k));
    forall s | s in ToList(mask, c) ensures Counts(s, c) && Test(mask, s.svId - FirstId(c)) {
      BitsMembers(mask, FirstId(c), c, s);
      BitsBelow64(mask, s.svId - FirstId(c));
    }
  }

  lemma OrdinaryTripsBack(wide: Wide, mask: nat, c: Constellation)
    requires c != Unsupported && Ordinary(mask)
    ensures MaskOf(wide, ToList(mask, c), c, 0) == mask
  {
    var list := ToList(mask, c);
    if mask == ALL_BITS {
      assert IsAll(list[0], c);
      AllTripsBack(wide, list, c);
    } else {
      forall k | 0 <= k < 64 ensures Test(MaskOf(wide, list, c, 0), k) == Test(mask, k) {
        OrdinaryBit(wide, mask, c, k);
      }
      MaskBound(wide, list, c, 0);
      Equal64(MaskOf(wide, list, c, 0), mask);
    }
  }

  lemma OrdinaryBit(wide: Wide, mask: nat, c: Constellation, k: nat)
    requires c != Unsupported && mask < 0x8000_0000 && k < 64
    ensures Test(MaskOf(wide, ToList(mask, c), c, 0), k) == Test(mask, k)
  {
    var list := ToList(mask, c);
    ListHasNoAll(mask, c);
    MaskBits(wide, list, c, 0, k);
    TestZero(k);
    LowSetBy(wide, mask, c, k);
  }

  lemma LowSetBy(wide: Wide, mask: nat, c: Constellation, k: nat)
    requires c != Unsupported && mask < 0x8000_0000 && k < 64
    ensures SetBy(wide, ToList(mask, c), c, k) <==> Test(mask, k)
  {
    var list := ToList(mask, c);
    ListedIff(mask, c, k);
    if SetBy(wide, list, c, k) {
      var i :| 0 <= i < |list| && Sets(wide, list[i], c, k);
      assert list[i] in list;
      BitsBelow31(mask, list[i].svId - FirstId(c));
    }
    if Test(mask, k) {
      BitsBelow31(mask, k);
      var i :| 0 <= i < |list| && list[i] == Source(c, FirstId(c) + k);
      assert Sets(wide, list[i], c, k);
    }
  }

  lemma {:induction false} SomeHighBit(mask: nat, n: nat) returns (k: nat)
    requires Pow2(n) <= mask
    ensures n <= k && Test(mask, k)
    decreases mask
  {
    if n > 0 {
      k := SomeHighBit(mask / 2, n - 1);
      k := k + 1;
    } else if mask % 2 == 1 {
      k := 0;
    } else {
      k := SomeHighBit(mask / 2, 0);
      k := k + 1;
    }
  }

  /** If a bit from 31 up comes back although the undefined shifts set nothing, the sign bit did it,
      and so all bits from 31 up came back. */
  lemma SignBitDidIt(mask: nat, c: Constellation, n: nat)
    requires c != Unsupported && mask < ALL_BITS && 31 <= n < 64 && Test(mask, n)
    requires MaskOf(Nothing(), ToList(mask, c), c, 0) == mask
    ensures forall k :: 31 <= k < 64 ==> SetBy(Nothing(), ToList(mask, c), c, k)
  {
    var list := ToList(mask, c);
    ListHasNoAll(mask, c);
    MaskBits(Nothing(), list, c, 0, n);
    TestZero(n);
    var m :| 0 <= m < |list| && Sets(Nothing(), list[m], c, n);
    if 32 <= list[m].svId - FirstId(c) {
      NothingSets(list[m], c, n);
    }
    forall k | 31 <= k < 64 ensures SetBy(Nothing(), list, c, k) {
      assert Sets(Nothing(), list[m], c, k);
    }
  }

  /** A mask with a bit from 31 up, other than the full one: some machine gets it wrong. */
  lemma HighMaskBreaks(mask: nat, c: Constellation) returns (wide: Wide)
    requires c != Unsupported && 0x8000_0000 <= mask < ALL_BITS
    ensures MaskOf(wide, ToList(mask, c), c, 0) != mask
  {
    var list := ToList(mask, c);
    wide := Nothing();
    if MaskOf(wide, list, c, 0) == mask {
      ListHasNoAll(mask, c);
      var n := HighBit(mask);
      SignBitDidIt(mask, c, n);
      var j := MissingLow(list, c);
      MaskBits(wide, list, c, 0, 32);
      ListedIff(mask, c, 32);
      ListedIff(mask, c, j);
      var i :| 0 <= i < |list| && list[i] == Source(c, FirstId(c) + 32);
      wide := OneBit(j);
      OneBitSets(list[i], c, j);
      MaskBits(wide, list, c, 0, j);
    }
  }

  lemma HighBit(mask: nat) returns (n: nat)
    requires 0x8000_0000 <= mask < TWO_TO_64
    ensures 31 <= n < 64 && Test(mask, n)
  {
    Pow2Values();
    n := SomeHighBit(mask, 31);
    BitsBelow64(mask, n);
  }

  /** Mask to list to mask is the identity, whatever the undefined shifts give, exactly on the
      ordinary masks: those below 2^31 and the full one. */
  lemma MaskRoundTripIff(mask: nat, c: Constellation)
    requires c != Unsupported && mask < TWO_TO_64
    ensures (forall wide: Wide :: MaskOf(wide, ToList(mask, c), c, 0) == mask) <==> Ordinary(mask)
  {
    if Ordinary(mask) {
      forall wide: Wide ensures MaskOf(wide, ToList(mask, c), c, 0) == mask {
        OrdinaryTripsBack(wide, mask, c);
      }
    } else {
      var wide := HighMaskBreaks(mask, c);
      assert MaskOf(wide, ToList(mask, c), c, 0) != mask;
    }
  }

  // ----- all constellations together ---------------------------------------------------------------

  lemma {:induction false} MaskOfConcat(wide: Wide, a: seq<Source>, b: seq<Source>, c: Constellation, mask: nat)
    ensures MaskOf(wide, a + b, c, mask) == MaskOf(wide, b, c, MaskOf(wide, a, c, mask))
  {
    if a == [] {
      assert a + b == b;
    } else {
      assert (a + b)[1..] == a[1..] + b && a[0] == a[0];
      MaskOfConcat(wide, a[1..], b, c, AddSource(wide, mask, a[0], c));
    }
  }

  lemma {:induction false} MaskOfForeign(wide: Wide, sources: seq<Source>, c: Constellation, mask: nat)
    requires forall i :: 0 <= i < |sources| ==> sources[i].constellation != c
    ensures MaskOf(wide, sources, c, mask) == mask
  {
    if sources != [] {
      MaskOfForeign(wide, sources[1..], c, mask);
    }
  }

  lemma ListIsOwn(mask: nat, c: Constellation)
    ensures forall i :: 0 <= i < |ToList(mask, c)| ==> ToList(mask, c)[i].constellation == c
  {
    var list := ToList(mask, c);
    forall i | 0 <= i < |list| ensures list[i].constellation == c {
      BitsMembers(mask, FirstId(c), c, list[i]);
      assert list[i] in list;
    }
  }

  /** Adding the list of one constellation to masks changes that constellation's mask only. */
  lemma AddList(wide: Wide, before: seq<Source>, mask: nat, own: Constellation, c: Constellation)
    requires Ordinary(mask) && own != Unsupported
    ensures c != own ==> MaskOf(wide, before + ToList(mask, own), c, 0) == MaskOf(wide, before, c, 0)
    ensures c == own && MaskOf(wide, before, c, 0) == 0 ==> MaskOf(wide, before + ToList(mask, own), c, 0) == mask
  {
    OrdinaryTripsBack(wide, mask, own);
    ListIsOwn(mask, own);
    MaskOfConcat(wide, before, ToList(mask, own), c, 0);
    if c != own {
      MaskOfForeign(wide, ToList(mask, own), c, MaskOf(wide, before, c, 0));
    }
  }

  predicate OrdinaryMasks(m: Masks) {
    Ordinary(m.glo) && Ordinary(m.bds) && Ordinary(m.qzss) && Ordinary(m.gal)
  }

  /** The whole configuration survives being turned into a list and back. */
  lemma MasksRoundTrip(wide: Wide, m: Masks)
    requires OrdinaryMasks(m)
    ensures ToMasks(wide, FromMasks(m), CLEAR) == m
  {
    var l1 := [] + ToList(m.bds, Beidou);
    var l2 := l1 + ToList(m.gal, Galileo);
    var l3 := l2 + ToList(m.glo, Glonass);
    var l4 := l3 + ToList(m.qzss, Qzss);
    assert l4 == FromMasks(m);
    forall c | c != Unsupported ensures MaskOf(wide, l4, c, 0) == m.Get(c) {
      AddList(wide, [], m.bds, Beidou, c);
      AddList(wide, l1, m.gal, Galileo, c);
      AddList(wide, l2, m.glo, Glonass, c);
      AddList(wide, l3, m.qzss, Qzss, c);
    }
    assert MaskOf(wide, l4, Glonass, 0) == m.Get(Glonass) && MaskOf(wide, l4, Beidou, 0) == m.Get(Beidou);
    assert MaskOf(wide, l4, Qzss, 0) == m.Get(Qzss) && MaskOf(wide, l4, Galileo, 0) == m.Get(Galileo);
  }

  /** Without "all" entries and offsets from 31 up, the list comes back as exactly its meaningful
      ids. */
  lemma ListRoundTrip(wide: Wide, sources: seq<Source>, s: Source)
    requires forall c :: c != Unsupported ==> !HasAll(sources, c) && !Names(sources, c, 31, 64)
    ensures s in FromMasks(ToMasks(wide, sources, CLEAR)) <==> s in sources && Counts(s, s.constellation)
  {
    var m := ToMasks(wide, sources, CLEAR);
    forall c | c != Unsupported
      ensures s in ToList(m.Get(c), c) <==> s in sources && Counts(s, c)
    {
      assert m.Get(c) == MaskOf(wide, sources, c, 0);
      LowListTripsBack(wide, sources, c);
    }
    assert m == Masks(m.Get(Glonass), m.Get(Beidou), m.Get(Qzss), m.Get(Galileo));
    assert s in FromMasks(m)
      <==> s in ToList(m.bds, Beidou) || s in ToList(m.gal, Galileo)
           || s in ToList(m.glo, Glonass) || s in ToList(m.qzss, Qzss);
  }

  /** The number of the satellite at bit 0. */
  function Bit0(c: Constellation): nat {
    match c
    case Beidou => 201
    case Galileo => 301
    case Glonass => 65
    case Qzss => 193
    case Unsupported => 0
  }

  /** The place of a constellation in the list. */
  function Rank(c: Constellation): nat {
    match c
    case Beidou => 0
    case Galileo => 1
    case Glonass => 2
    case Qzss => 3
    case Unsupported => 4
  }

  lemma FirstIsBit0(c: Constellation)
    ensures FirstId(c) == Bit0(c)
  {
  }

  lemma ListedOf(mask: nat, c: Constellation, s: Source)
    requires c != Unsupported && mask < TWO_TO_64
    ensures s in ToList(mask, c)
      <==> s.constellation == c
           && if mask == 0xFFFF_FFFF_FFFF_FFFF then s.svId == 0
              else Bit0(c) <= s.svId < Bit0(c) + 64 && Test(mask, s.svId - Bit0(c))
  {
    FirstIsBit0(c);
    var first := FirstId(c);
    if mask != ALL_BITS {
      BitsMembers(mask, first, c, s);
      if first <= s.svId && Test(mask, s.svId - first) {
        BitsBelow64(mask, s.svId - first);
      }
      assert ToList(mask, c) == Bits(mask, first, c);
    } else {
      assert ToList(mask, c) == [Source(c, 0)];
    }
  }

  /** A satellite is listed exactly if its constellation's mask has its bit, GLONASS 65, QZSS 193, Beidou
      201 and Galileo 301 being bit 0; the full mask is listed as number 0 alone. */
  lemma ListSpelled(m: Masks, s: Source)
    requires forall c :: m.Get(c) < TWO_TO_64
    ensures s in FromMasks(m)
      <==> s.constellation != Unsupported
           && var mask, first := m.Get(s.constellation), Bit0(s.constellation);
              if mask == 0xFFFF_FFFF_FFFF_FFFF then s.svId == 0
              else first <= s.svId < first + 64 && Test(mask, s.svId - first)
  {
    assert m == Masks(m.Get(Glonass), m.Get(Beidou), m.Get(Qzss), m.Get(Galileo));
    ListedOf(m.bds, Beidou, s);
    ListedOf(m.gal, Galileo, s);
    ListedOf(m.glo, Glonass, s);
    ListedOf(m.qzss, Qzss, s);
  }

  predicate InOrder(list: seq<Source>) {
    forall i, j :: 0 <= i < j < |list| ==>
      var a, b := list[i], list[j];
      Rank(a.constellation) < Rank(b.constellation)
      || (a.constellation == b.constellation && a.svId < b.svId)
  }

  lemma OrderedConcat(a: seq<Source>, mask: nat, c: Constellation)
    requires InOrder(a) && forall i :: 0 <= i < |a| ==> Rank(a[i].constellation) < Rank(c)
    ensures InOrder(a + ToList(mask, c))
    ensures forall i :: 0 <= i < |a + ToList(mask, c)| ==>
      Rank((a + ToList(mask, c))[i].constellation) <= Rank(c)
  {
    ListIsOwn(mask, c);
    BitsAscending(mask, FirstId(c), c);
  }

  /** The list goes by constellation, Beidou, Galileo, GLONASS, QZSS, and in each by ascending number. */
  lemma ListInOrder(m: Masks)
    ensures InOrder(FromMasks(m))
  {
    var l1 := [] + ToList(m.bds, Beidou);
    var l2 := l1 + ToList(m.gal, Galileo);
    var l3 := l2 + ToList(m.glo, Glonass);
    assert FromMasks(m) == l3 + ToList(m.qzss, Qzss);
    OrderedConcat([], m.bds, Beidou);
    OrderedConcat(l1, m.gal, Galileo);
    OrderedConcat(l2, m.glo, Glonass);
    OrderedConcat(l3, m.qzss, Qzss);
  }

  // ----- the conversions as the source runs them ------------------------------------------------------

  /** `convertToGnssSvIdConfig`: the masks of `config` are added to, or cleared by an empty list. */
  method ConvertToGnssSvIdConfig(wide: Wide, sources: seq<Source>, config: Masks) returns (valid: bool, masks: Masks)
    ensures masks == ToMasks(wide, sources, config)
    ensures valid <==> sources == [] || masks != CLEAR
  {
    masks := config;
    if |sources| == 0 {
      return true, Masks(0, 0, 0, 0);
    }
    ghost var rest := sources;
    for i := 0 to |sources|
      invariant rest == sources[i..]
      invariant forall c :: c != Unsupported ==>
        MaskOf(wide, rest, c, masks.Get(c)) == MaskOf(wide, sources, c, config.Get(c))
    {
      var s := sources[i];
      assert s == rest[0];
      var mask := AddSource(wide, masks.Get(s.constellation), s, s.constellation);
      match s.constellation {
        case Glonass => masks := masks.(glo := mask);
        case Beidou => masks := masks.(bds := mask);
        case Qzss => masks := masks.(qzss := mask);
        case Galileo => masks := masks.(gal := mask);
        case Unsupported =>
      }
      rest := rest[1..];
    }
    assert forall c :: c != Unsupported ==> masks.Get(c) == MaskOf(wide, sources, c, config.Get(c));
    assert masks == Masks(masks.Get(Glonass), masks.Get(Beidou), masks.Get(Qzss), masks.Get(Galileo));
    valid := masks.glo != 0 || masks.bds != 0 || masks.gal != 0 || masks.qzss != 0;
  }

  /** `convertGnssSvIdMaskToList`: shifts the mask out bit by bit. */
  method ConvertGnssSvIdMaskToList(mask: nat, sources: seq<Source>, c: Constellation) returns (list: seq<Source>)
    ensures list == sources + ToList(mask, c)
  {
    if mask == ALL_BITS {
      return sources + [Source(c, 0)];
    }
    list := sources;
    var rest, bitNumber := mask, 0;
    while rest > 0
      invariant list + Bits(rest, bitNumber + FirstId(c), c) == sources + Bits(mask, FirstId(c), c)
      decreases rest
    {
      ghost var later := Bits(rest / 2, bitNumber + FirstId(c) + 1, c);
      if rest % 2 == 1 {
        var source := Source(c, bitNumber + FirstId(c));
        assert (list + [source]) + later == list + ([source] + later);
        list := list + [source];
      }
      bitNumber := bitNumber + 1;
      rest := rest / 2;
    }
  }

  /** `convertFromGnssSvIdConfig`, with whether it set the blacklist flag. */
  method ConvertFromGnssSvIdConfig(config: Masks) returns (list: seq<Source>, flagged: bool)
    ensures list == FromMasks(config)
    ensures flagged <==> config != CLEAR
  {
    list, flagged := [], false;
    if config.bds != 0 {
      list := ConvertGnssSvIdMaskToList(config.bds, list, Beidou);
      flagged := true;
    }
    if config.gal != 0 {
      list := ConvertGnssSvIdMaskToList(config.gal, list, Galileo);
      flagged := true;
    }
    if config.glo != 0 {
      list := ConvertGnssSvIdMaskToList(config.glo, list, Glonass);
      flagged := true;
    }
    if config.qzss != 0 {
      list := ConvertGnssSvIdMaskToList(config.qzss, list, Qzss);
      flagged := true;
    }
  }
}
