/** Room search requests: which rooms a request matches, and the narrowing of ranked-match
    requests that one title gets before its search runs. */
module RoomSearch {
  import opened Prelude

  const U32_MAX: nat := 0xFFFF_FFFF

  // Operators of integer and binary filters.
  const EQ: nat := 1
  const NE: nat := 2
  const LT: nat := 3
  const LE: nat := 4
  const GT: nat := 5
  const GE: nat := 6

  const INT_ATTR_1: nat := 0x4C
  const INT_ATTR_8: nat := 0x53
  const BIN_ATTR_1: nat := 0x54

  const FLAG_HIDDEN: bv32 := 0x10000000
  const FLAG_NAT_TYPE_RESTRICTION: bv32 := 0x04000000

  /** Small integers travel as optional wider ones; a missing or oversized one is malformed. */
  datatype IntFilter = IntFilter(op: Option<nat>, attr: Option<IntAttr>)
  datatype IntAttr = IntAttr(id: Option<nat>, num: nat)
  datatype BinFilter = BinFilter(op: Option<nat>, attr: Option<BinAttr>)
  datatype BinAttr = BinAttr(id: Option<nat>, data: seq<byte>)

  datatype Request = Request(worldId: nat, lobbyId: nat, startIndex: nat, max: nat,
                             flagFilter: bv32, flagAttr: bv32,
                             intFilter: seq<IntFilter>, binFilter: seq<BinFilter>)

  /** What a room shows to searches. */
  datatype Listing = Listing(flagAttr: bv32, ints: seq<nat>, bin: seq<byte>)

  predicate ValidListing(l: Listing) { |l.ints| == 8 && |l.bin| == 64 }

  datatype Verdict = Malformed | Panics | Decided(matches: bool)

  predicate Verified(o: Option<nat>, max: nat) { o.Some? && o.value <= max }

  predicate Compare(op: nat, found: nat, num: nat) {
    if op == EQ then found == num
    else if op == NE then found != num
    else if op == LT then found < num
    else if op == LE then found <= num
    else if op == GT then found > num
    else found >= num
  }

  // ----- Matching -----

  /** One integer filter; a filter without attribute is skipped. */
  function IntVerdict(l: Listing, f: IntFilter): Verdict
    requires ValidListing(l)
  {
    if !Verified(f.op, 255) then Malformed
    else if f.attr.None? then Decided(true)
    else if !Verified(f.attr.value.id, 65535) then Malformed
    else
      var id := f.attr.value.id.value;
      if !(INT_ATTR_1 <= id <= INT_ATTR_8) || !(EQ <= f.op.value <= GE) then Decided(false)
      else Decided(Compare(f.op.value, l.ints[id - INT_ATTR_1], f.attr.value.num))
  }

  /** One binary filter; of the operators only EQ and NE are supported, on the others the server panics. */
  function BinVerdict(l: Listing, f: BinFilter): Verdict
    requires ValidListing(l)
  {
    if !Verified(f.op, 255) then Malformed
    else if f.attr.None? then Decided(true)
    else if !Verified(f.attr.value.id, 65535) then Malformed
    else if f.attr.value.id.value != BIN_ATTR_1 || !(EQ <= f.op.value <= GE) then Decided(false)
    else if LT <= f.op.value then Panics
    else
      var n := Min(|f.attr.value.data|, |l.bin|);
      var equal := l.bin[..n] == f.attr.value.data[..n];
      Decided(if f.op.value == EQ then equal else !equal)
  }

  /** The filter loops: the first filter that is malformed or fails decides. */
  function IntFilters(l: Listing, fs: seq<IntFilter>): Verdict
    requires ValidListing(l)
  {
    if fs == [] then Decided(true)
    else
      var v := IntVerdict(l, fs[0]);
      if v == Decided(true) then IntFilters(l, fs[1..]) else v
  }

  function BinFilters(l: Listing, fs: seq<BinFilter>): Verdict
    requires ValidListing(l)
  {
    if fs == [] then Decided(true)
    else
      var v := BinVerdict(l, fs[0]);
      if v == Decided(true) then BinFilters(l, fs[1..]) else v
  }

  /** `is_match_all`. */
  function MatchesAll(l: Listing, r: Request): Verdict
    requires ValidListing(l)
  {
    var v := IntFilters(l, r.intFilter);
    if v == Decided(true) then BinFilters(l, r.binFilter) else v
  }

  /** Hidden rooms never match, and the NAT restriction flag is ignored. */
  predicate FlagsAllow(flags: bv32, filter: bv32, attr: bv32) {
    && flags & FLAG_HIDDEN == 0
    && flags & (filter & !FLAG_NAT_TYPE_RESTRICTION) == attr & !FLAG_NAT_TYPE_RESTRICTION
  }

  /** `is_match`. */
  function Matches(l: Listing, r: Request): Verdict
    requires ValidListing(l)
  {
    if FlagsAllow(l.flagAttr, r.flagFilter, r.flagAttr) then MatchesAll(l, r) else Decided(false)
  }

  /** Which filter decides: the verdict is the first one that is not a pass, if there is any. */
  ghost predicate FirstOf(verdicts: seq<Verdict>, v: Verdict) {
    if exists i :: 0 <= i < |verdicts| && verdicts[i] != Decided(true) then exists i :: DecidesAt(verdicts, v, i)
    else v == Decided(true)
  }

  ghost predicate DecidesAt(verdicts: seq<Verdict>, v: Verdict, i: nat) {
    && i < |verdicts| && verdicts[i] == v && v != Decided(true)
    && (forall j :: 0 <= j < i ==> verdicts[j] == Decided(true))
  }

  ghost function IntVerdicts(l: Listing, fs: seq<IntFilter>): seq<Verdict>
    requires ValidListing(l)
  {
    seq(|fs|, i requires 0 <= i < |fs| => IntVerdict(l, fs[i]))
  }

  ghost function BinVerdicts(l: Listing, fs: seq<BinFilter>): seq<Verdict>
    requires ValidListing(l)
  {
    seq(|fs|, i requires 0 <= i < |fs| => BinVerdict(l, fs[i]))
  }

  lemma {:induction false} IntFiltersFirst(l: Listing, fs: seq<IntFilter>)
    requires ValidListing(l)
    ensures FirstOf(IntVerdicts(l, fs), IntFilters(l, fs))
    decreases |fs|
  {
    if fs != [] {
      IntFiltersFirst(l, fs[1..]);
      var vs := IntVerdicts(l, fs);
      var rest := IntVerdicts(l, fs[1..]);
      assert vs == [IntVerdict(l, fs[0])] + rest;
      FirstCons(IntVerdict(l, fs[0]), rest, IntFilters(l, fs[1..]));
    }
  }

  lemma {:induction false} BinFiltersFirst(l: Listing, fs: seq<BinFilter>)
    requires ValidListing(l)
    ensures FirstOf(BinVerdicts(l, fs), BinFilters(l, fs))
    decreases |fs|
  {
    if fs != [] {
      BinFiltersFirst(l, fs[1..]);
      var vs := BinVerdicts(l, fs);
      var rest := BinVerdicts(l, fs[1..]);
      assert vs == [BinVerdict(l, fs[0])] + rest;
      FirstCons(BinVerdict(l, fs[0]), rest, BinFilters(l, fs[1..]));
    }
  }

  lemma {:induction false} FirstCons(v: Verdict, rest: seq<Verdict>, w: Verdict)
    requires FirstOf(rest, w)
    ensures FirstOf([v] + rest, if v == Decided(true) then w else v)
  {
    var vs := [v] + rest;
    if v != Decided(true) {
      assert vs[0] == v && DecidesAt(vs, v, 0);
    } else if i: nat :| DecidesAt(rest, w, i) {
      assert vs[i + 1] == w && DecidesAt(vs, w, i + 1);
    } else {
      assert forall i :: 0 <= i < |vs| ==> vs[i] == Decided(true);
    }
  }

  lemma {:induction false} FirstConcat(a: seq<Verdict>, b: seq<Verdict>, v: Verdict, w: Verdict)
    requires FirstOf(a, v) && FirstOf(b, w)
    ensures FirstOf(a + b, if v == Decided(true) then w else v)
  {
    var vs := a + b;
    if i: nat :| DecidesAt(a, v, i) {
      assert vs[i] == v && DecidesAt(vs, v, i);
    } else if i: nat :| DecidesAt(b, w, i) {
      assert vs[|a| + i] == w && DecidesAt(vs, w, |a| + i);
    } else {
      assert forall i :: 0 <= i < |vs| ==> vs[i] == Decided(true);
    }
  }

  /** A room matches when every filter passes; otherwise the first filter that does not decides
      between no match and a malformed request. */
  lemma {:induction false} MatchesAllByFirst(l: Listing, r: Request)
    requires ValidListing(l)
    ensures FirstOf(IntVerdicts(l, r.intFilter) + BinVerdicts(l, r.binFilter), MatchesAll(l, r))
  {
    IntFiltersFirst(l, r.intFilter);
    BinFiltersFirst(l, r.binFilter);
    FirstConcat(IntVerdicts(l, r.intFilter), BinVerdicts(l, r.binFilter),
                IntFilters(l, r.intFilter), BinFilters(l, r.binFilter));
  }

  // ----- Narrowing of ranked-match requests -----

  const NPWR02973_00 := "NPWR02973_00"
  const LOWER_INDEX: nat := 3
  const UPPER_INDEX: nat := 4
  const FIRST_DAN_MAX_RANK: nat := 10

  function SaturatingAdd(a: nat, b: nat): nat { Min(a + b, U32_MAX) }
  function SaturatingSub(a: nat, b: nat): nat { if a < b then 0 else a - b }
  function Max(a: nat, b: nat): nat { if a < b then b else a }

  function Midpoint(lower: nat, upper: nat): nat
    requires lower <= upper
  {
    lower + (upper - lower) / 2
  }

  /** The two bounds moved two ranks toward their midpoint, or None when nothing changes. */
  function Narrow(lower: nat, upper: nat): Option<(nat, nat)> {
    if lower > upper then None
    else
      var rank := Midpoint(lower, upper);
      if rank <= FIRST_DAN_MAX_RANK then None
      else
        var l, u := Min(SaturatingAdd(lower, 2), rank), Max(SaturatingSub(upper, 2), rank);
        if (l, u) == (lower, upper) then None else Some((l, u))
  }

  predicate HasBound(r: Request, i: nat) { i < |r.intFilter| && r.intFilter[i].attr.Some? }

  function Bound(r: Request, i: nat): nat
    requires HasBound(r, i)
  {
    r.intFilter[i].attr.value.num
  }

  function WithBound(r: Request, i: nat, num: nat): Request
    requires HasBound(r, i)
  {
    var f := r.intFilter[i];
    r.(intFilter := r.intFilter[i := f.(attr := Some(f.attr.value.(num := num)))])
  }

  /** `build_npwr02973_adjusted_request`. */
  function Adjusted(comId: string, r: Request): Option<Request> {
    if comId != NPWR02973_00 || !HasBound(r, LOWER_INDEX) || !HasBound(r, UPPER_INDEX) then None
    else
      match Narrow(Bound(r, LOWER_INDEX), Bound(r, UPPER_INDEX))
      case None => None
      case Some((l, u)) => Some(WithBound(WithBound(r, LOWER_INDEX, l), UPPER_INDEX, u))
  }

  /** Narrowing keeps the midpoint and stays inside the old range, strictly smaller. */
  lemma {:induction false} NarrowInside(lower: nat, upper: nat)
    requires upper <= U32_MAX && Narrow(lower, upper).Some?
    ensures var (l, u) := Narrow(lower, upper).value;
            && lower <= l <= u <= upper
            && u - l < upper - lower
            && Midpoint(l, u) == Midpoint(lower, upper)
            && l - lower <= 2 && upper - u <= 2
  {
  }

  /** How often a range can be narrowed before nothing changes. */
  function Narrowings(lower: nat, upper: nat): nat
    requires upper <= U32_MAX
    decreases if lower <= upper then upper - lower else 0
  {
    match Narrow(lower, upper)
    case None => 0
    case Some((l, u)) => NarrowInside(lower, upper); 1 + Narrowings(l, u)
  }

  /** The range that repeated narrowing ends in. */
  function Narrowest(lower: nat, upper: nat): (nat, nat)
    requires upper <= U32_MAX
    decreases if lower <= upper then upper - lower else 0
  {
    match Narrow(lower, upper)
    case None => (lower, upper)
    case Some((l, u)) => NarrowInside(lower, upper); Narrowest(l, u)
  }

  /** Above the first dan, repeated narrowing ends at the midpoint after a quarter of the
      width, rounded up. */
  lemma {:induction false} NarrowingsExact(lower: nat, upper: nat)
    requires lower <= upper <= U32_MAX && Midpoint(lower, upper) > FIRST_DAN_MAX_RANK
    ensures Narrowings(lower, upper) == (upper - lower + 3) / 4
    ensures Narrowest(lower, upper) == (Midpoint(lower, upper), Midpoint(lower, upper))
    decreases upper - lower
  {
    if Narrow(lower, upper).Some? {
      NarrowInside(lower, upper);
      var (l, u) := Narrow(lower, upper).value;
      assert upper - lower >= 4 ==> u - l == upper - lower - 4;
      assert upper - lower < 4 ==> u == l;
      NarrowingsExact(l, u);
    }
  }

  /** A comparison survives lowering its bound exactly for the operators GT and GE. */
  lemma {:induction false} LowerBoundOps(op: nat, low: nat, high: nat)
    requires EQ <= op <= GE && low < high
    ensures (forall v: nat :: Compare(op, v, high) ==> Compare(op, v, low)) <==> op == GT || op == GE
  {
    assert op == EQ || op == LE ==> Compare(op, high, high) && !Compare(op, high, low);
    assert op == NE || op == LT ==> Compare(op, low, high) && !Compare(op, low, low);
  }

  /** A comparison survives raising its bound exactly for the operators LT and LE. */
  lemma {:induction false} UpperBoundOps(op: nat, low: nat, high: nat)
    requires EQ <= op <= GE && low < high
    ensures (forall v: nat :: Compare(op, v, low) ==> Compare(op, v, high)) <==> op == LT || op == LE
  {
    assert op == EQ || op == GE ==> Compare(op, low, low) && !Compare(op, low, high);
    assert op == NE || op == GT ==> Compare(op, high, low) && !Compare(op, high, high);
  }

  predicate HasOp(r: Request, i: nat, ops: set<nat>) {
    i < |r.intFilter| && r.intFilter[i].op.Some? && r.intFilter[i].op.value in ops
  }

  /** Apart from the two bounds the request is the client's. */
  lemma {:induction false} AdjustedOnlyBounds(comId: string, r: Request)
    requires Adjusted(comId, r).Some?
    ensures var r' := Adjusted(comId, r).value;
            && |r'.intFilter| == |r.intFilter| && HasBound(r, LOWER_INDEX) && HasBound(r, UPPER_INDEX)
            && r' == r.(intFilter := r'.intFilter)
            && HasBound(r', LOWER_INDEX) && HasBound(r', UPPER_INDEX)
            && Narrow(Bound(r, LOWER_INDEX), Bound(r, UPPER_INDEX))
               == Some((Bound(r', LOWER_INDEX), Bound(r', UPPER_INDEX)))
            && (forall i :: 0 <= i < |r.intFilter| && i != LOWER_INDEX && i != UPPER_INDEX ==>
                  r'.intFilter[i] == r.intFilter[i])
  {
  }

  /** With a lower-bound operator on the lower filter and an upper-bound operator on the upper
      one, whatever room the narrowed request finds, the client's own request finds too. */
  lemma {:induction false} AdjustedFindsNothingNew(comId: string, r: Request, l: Listing)
    requires ValidListing(l) && Adjusted(comId, r).Some?
    requires HasBound(r, UPPER_INDEX) && Bound(r, UPPER_INDEX) <= U32_MAX
    requires HasOp(r, LOWER_INDEX, {GT, GE}) && HasOp(r, UPPER_INDEX, {LT, LE})
    ensures Matches(l, Adjusted(comId, r).value) == Decided(true) ==> Matches(l, r) == Decided(true)
  {
    AdjustedOnlyBounds(comId, r);
    NarrowInside(Bound(r, LOWER_INDEX), Bound(r, UPPER_INDEX));
    TighterFindsNothingNew(l, r, Adjusted(comId, r).value);
  }

  /** `f'` is `f` with a bound that is at least as demanding. */
  predicate Tighter(f': IntFilter, f: IntFilter) {
    || f' == f
    || (&& f'.attr.Some? && f.attr.Some? && f.op.Some?
        && f' == f.(attr := Some(f.attr.value.(num := f'.attr.value.num)))
        && (|| (f.op.value in {GT, GE} && f'.attr.value.num >= f.attr.value.num)
            || (f.op.value in {LT, LE} && f'.attr.value.num <= f.attr.value.num)))
  }

  lemma {:induction false} TighterVerdict(l: Listing, f': IntFilter, f: IntFilter)
    requires ValidListing(l) && Tighter(f', f) && IntVerdict(l, f') == Decided(true)
    ensures IntVerdict(l, f) == Decided(true)
  {
  }

  lemma {:induction false} TighterIntFilters(l: Listing, fs': seq<IntFilter>, fs: seq<IntFilter>)
    requires ValidListing(l) && |fs'| == |fs| && forall i :: 0 <= i < |fs| ==> Tighter(fs'[i], fs[i])
    requires IntFilters(l, fs') == Decided(true)
    ensures IntFilters(l, fs) == Decided(true)
  {
    if fs != [] {
      TighterVerdict(l, fs'[0], fs[0]);
      TighterIntFilters(l, fs'[1..], fs[1..]);
    }
  }

  lemma {:induction false} TighterFindsNothingNew(l: Listing, r: Request, r': Request)
    requires ValidListing(l) && r' == r.(intFilter := r'.intFilter)
    requires |r'.intFilter| == |r.intFilter|
    requires forall i :: 0 <= i < |r.intFilter| ==> Tighter(r'.intFilter[i], r.intFilter[i])
    ensures Matches(l, r') == Decided(true) ==> Matches(l, r) == Decided(true)
  {
    if IntFilters(l, r'.intFilter) == Decided(true) {
      TighterIntFilters(l, r'.intFilter, r.intFilter);
    }
  }
}
