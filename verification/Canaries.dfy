/** Guard-byte layouts and their comparison, from benches/m1/adversarial.rs. */
module Canaries {
  import opened Outcomes
  import opened Numbers
  import opened Octets

  const MAX_REGIONS: nat := 1024
  const USIZE_MAX: nat := U64_MAX    // a 64-bit host

  /** A region as the layout document spells it: all numbers are u64. */
  datatype RawRegion = RawRegion(expectedByte: u64, length: u64, name: string, offset: u64)

  datatype Region = Region(expectedByte: byte, length: u64, name: string, offset: u64)

  datatype LayoutFault = RegionCount | UnsafeName | RepeatedName | NotSortedOrDisjoint | RangeOverflow

  datatype Fault = RegionOverflow | BeforeIsShort | AfterIsShort | BaselineDiffers | CountOverflow

  predicate SafeName(s: string) {
    && s != [] && |s| <= 96
    && forall c :: c in s ==> 'a' <= c <= 'z' || '0' <= c <= '9' || c == '.' || c == '-' || c == '_'
  }

  // ---- layouts

  /** What one region must be on its own. */
  predicate RegionOk(r: RawRegion) {
    SafeName(r.name) && r.length > 0 && r.expectedByte <= 255 && r.offset + r.length <= USIZE_MAX
  }

  /** Region `i` ends before region `j` starts, and they differ in name. */
  predicate Apart(values: seq<RawRegion>, i: nat, j: nat)
    requires i < j < |values|
  {
    values[i].offset + values[i].length <= values[j].offset && values[i].name != values[j].name
  }

  /** An admitted layout, pair by pair. */
  predicate LayoutOk(values: seq<RawRegion>) {
    && (forall i :: 0 <= i < |values| ==> RegionOk(values[i]))
    && (forall i, j :: 0 <= i < j < |values| ==> Apart(values, i, j))
  }

  predicate Parsed(v: RawRegion, r: Region) {
    r.expectedByte as nat == v.expectedByte && r.length == v.length && r.name == v.name && r.offset == v.offset
  }

  method ParseCanaryLayout(values: seq<RawRegion>) returns (r: Result<seq<Region>, LayoutFault>)
    ensures r.Ok? <==> 1 <= |values| <= MAX_REGIONS && LayoutOk(values)
    ensures r.Ok? ==> |r.value| == |values| && forall i :: 0 <= i < |values| ==> Parsed(values[i], r.value[i])
  {
    hide SafeName;
    if |values| == 0 || |values| > MAX_REGIONS {
      return Err(RegionCount);
    }
    var regions, names, priorEnd := [], {}, 0;
    for i := 0 to |values|
      invariant |regions| == i && forall k :: 0 <= k < i ==> Parsed(values[k], regions[k])
      invariant names == set k | 0 <= k < i :: values[k].name
      invariant forall k :: 0 <= k < i ==> RegionOk(values[k])
      invariant forall k, l :: 0 <= k < l < i ==> Apart(values, k, l)
      invariant priorEnd == if i == 0 then 0 else values[i - 1].offset + values[i - 1].length
      invariant forall k :: 0 <= k < i ==> values[k].offset + values[k].length <= priorEnd
    {
      var v := values[i];
      if !SafeName(v.name) {
        assert !RegionOk(values[i]);
        return Err(UnsafeName);
      }
      if v.name in names {
        var k :| 0 <= k < i && values[k].name == v.name;
        assert !Apart(values, k, i);
        return Err(RepeatedName);
      }
      if v.length == 0 || v.offset < priorEnd || v.expectedByte > 255 {
        assert v.offset < priorEnd ==> !Apart(values, i - 1, i);
        assert v.offset >= priorEnd ==> !RegionOk(values[i]);
        return Err(NotSortedOrDisjoint);
      }
      if v.offset + v.length > USIZE_MAX {
        assert !RegionOk(values[i]);
        return Err(RangeOverflow);
      }
      names := names + {v.name};
      priorEnd := v.offset + v.length;
      regions := regions + [Region(v.expectedByte as byte, v.length, v.name, v.offset)];
    }
    r := Ok(regions);
  }

  // ---- comparison

  function End(r: Region): nat { r.offset + r.length }

  /** How many bytes differ from the expected one. */
  function CountOther(s: Bytes, expected: byte): nat {
    if s == [] then 0 else CountOther(s[..|s| - 1], expected) + if s[|s| - 1] != expected then 1 else 0
  }

  function CompareRegion(r: Region, before: Bytes, after: Bytes): Result<nat, Fault> {
    if End(r) > USIZE_MAX then Err(RegionOverflow)
    else if End(r) > |before| then Err(BeforeIsShort)
    else if End(r) > |after| then Err(AfterIsShort)
    else if exists p :: r.offset <= p < End(r) && before[p] != r.expectedByte then Err(BaselineDiffers)
    else Ok(CountOther(after[r.offset..End(r)], r.expectedByte))
  }

  function Compared(regions: seq<Region>, before: Bytes, after: Bytes): Result<nat, Fault> {
    if regions == [] then Ok(0)
    else
      var front := Compared(regions[..|regions| - 1], before, after);
      if front.Err? then front
      else
        var changed := CompareRegion(regions[|regions| - 1], before, after);
        if changed.Err? then changed
        else if front.value + changed.value > U64_MAX then Err(CountOverflow)
        else Ok(front.value + changed.value)
  }

  lemma {:induction false} FirstFaultStays(regions: seq<Region>, before: Bytes, after: Bytes, k: nat)
    requires k <= |regions| && Compared(regions[..k], before, after).Err?
    ensures Compared(regions, before, after) == Compared(regions[..k], before, after)
    decreases |regions|
  {
    if k < |regions| {
      assert regions[..|regions| - 1][..k] == regions[..k];
      FirstFaultStays(regions[..|regions| - 1], before, after, k);
    } else {
      assert regions[..k] == regions;
    }
  }

  method CompareCanaries(regions: seq<Region>, before: Bytes, after: Bytes) returns (r: Result<nat, Fault>)
    ensures r == Compared(regions, before, after)
  {
    var corruptions := 0;
    for i := 0 to |regions|
      invariant Compared(regions[..i], before, after) == Ok(corruptions)
    {
      var region := regions[i];
      assert regions[..i + 1][..i] == regions[..i];
      if Compared(regions[..i + 1], before, after).Err? { FirstFaultStays(regions, before, after, i + 1); }
      var end := region.offset + region.length;
      if end > USIZE_MAX {
        return Err(RegionOverflow);
      }
      if end > |before| {
        return Err(BeforeIsShort);
      }
      if end > |after| {
        return Err(AfterIsShort);
      }
      if exists p :: region.offset <= p < end && before[p] != region.expectedByte {
        return Err(BaselineDiffers);
      }
      var changed := CountOther(after[region.offset..end], region.expectedByte);
      if corruptions + changed > U64_MAX {
        return Err(CountOverflow);
      }
      corruptions := corruptions + changed;
    }
    assert regions[..|regions|] == regions;
    r := Ok(corruptions);
  }

  // ---- the count is exact

  predicate Guards(regions: seq<Region>, p: nat) {
    exists i :: 0 <= i < |regions| && regions[i].offset <= p < End(regions[i])
  }

  /** The guard positions whose byte changed. */
  function Corrupted(regions: seq<Region>, before: Bytes, after: Bytes): set<nat>
    requires |before| == |after|
  {
    set p | 0 <= p < |after| && Guards(regions, p) && before[p] != after[p]
  }

  /** The regions are sorted and disjoint, as every parsed layout is. */
  predicate Disjoint(regions: seq<Region>) {
    forall i, j :: 0 <= i < j < |regions| ==> End(regions[i]) <= regions[j].offset
  }

  /** Region `r` lies in both snapshots and its baseline is intact. */
  predicate Intact(r: Region, before: Bytes, after: Bytes) {
    && End(r) <= |before| && End(r) <= |after|
    && forall p :: r.offset <= p < End(r) ==> before[p] == r.expectedByte
  }

  function Others(s: Bytes, low: nat, high: nat, expected: byte): set<nat>
    requires low <= high <= |s|
  {
    set p | low <= p < high && s[p] != expected
  }

  lemma {:induction false} CountIsCardinality(s: Bytes, low: nat, high: nat, expected: byte)
    requires low <= high <= |s|
    ensures CountOther(s[low..high], expected) == |Others(s, low, high, expected)|
    ensures |Others(s, low, high, expected)| <= high - low
    decreases high - low
  {
    if low < high {
      var window := s[low..high];
      assert window[..|window| - 1] == s[low..high - 1] && window[|window| - 1] == s[high - 1];
      CountIsCardinality(s, low, high - 1, expected);
      var front := Others(s, low, high - 1, expected);
      if s[high - 1] != expected {
        assert Others(s, low, high, expected) == front + {high - 1};
      } else {
        assert Others(s, low, high, expected) == front;
      }
    } else {
      assert Others(s, low, high, expected) == {};
    }
  }

  lemma CorruptedGrows(regions: seq<Region>, r: Region, before: Bytes, after: Bytes)
    requires |before| == |after| && Intact(r, before, after)
    requires forall i :: 0 <= i < |regions| ==> End(regions[i]) <= r.offset
    ensures End(r) <= |after|
    ensures |Corrupted(regions + [r], before, after)|
         == |Corrupted(regions, before, after)| + |Others(after, r.offset, End(r), r.expectedByte)|
  {
    var all := regions + [r];
    assert all[|regions|] == r && forall i :: 0 <= i < |regions| ==> all[i] == regions[i];
    var front, last := Corrupted(regions, before, after), Others(after, r.offset, End(r), r.expectedByte);
    forall p: nat ensures Guards(all, p) <==> Guards(regions, p) || r.offset <= p < End(r) {
      if Guards(regions, p) {
        var i :| 0 <= i < |regions| && regions[i].offset <= p < End(regions[i]);
        assert all[i].offset <= p < End(all[i]);
      }
      if r.offset <= p < End(r) { assert all[|regions|].offset <= p < End(all[|regions|]); }
    }
    assert Corrupted(all, before, after) == front + last;
    assert front !! last;
  }

  lemma CorruptedFits(regions: seq<Region>, before: Bytes, after: Bytes)
    requires |before| == |after|
    ensures |Corrupted(regions, before, after)| <= |after|
  {
    InitialSegment(|after|, Corrupted(regions, before, after));
  }

  lemma {:induction false} InitialSegment(n: nat, s: set<nat>)
    requires forall p :: p in s ==> p < n
    ensures |s| <= n
  {
    if n > 0 {
      InitialSegment(n - 1, s - {n - 1});
    } else {
      assert s == {};
    }
  }

  lemma RegionIsExact(r: Region, before: Bytes, after: Bytes)
    requires |before| == |after| <= USIZE_MAX
    ensures CompareRegion(r, before, after).Ok? <==> Intact(r, before, after)
    ensures Intact(r, before, after) ==> End(r) <= |after|
    ensures Intact(r, before, after) ==>
              CompareRegion(r, before, after).value == |Others(after, r.offset, End(r), r.expectedByte)|
    ensures CompareRegion(r, before, after).Err? ==> !CompareRegion(r, before, after).error.CountOverflow?
  {
    if Intact(r, before, after) { CountIsCardinality(after, r.offset, End(r), r.expectedByte); }
  }

  lemma NothingCorrupted(before: Bytes, after: Bytes)
    requires |before| == |after|
    ensures Corrupted([], before, after) == {}
  {}

  /** For a layout of disjoint regions and snapshots of one length, the comparison
      succeeds exactly when every region is in range with an intact baseline; its
      count is then the number of distinct guard positions whose byte changed, at
      most the snapshot length, so the overflow error is never reached. */
  lemma {:induction false} CountIsExact(regions: seq<Region>, before: Bytes, after: Bytes)
    requires Disjoint(regions) && |before| == |after| <= USIZE_MAX
    ensures Compared(regions, before, after).Ok? <==> forall i :: 0 <= i < |regions| ==> Intact(regions[i], before, after)
    ensures Compared(regions, before, after).Ok? ==>
              Compared(regions, before, after).value == |Corrupted(regions, before, after)| <= |after|
    ensures Compared(regions, before, after).Err? ==> !Compared(regions, before, after).error.CountOverflow?
  {
    hide CompareRegion, Intact, Corrupted, Others;
    CorruptedFits(regions, before, after);
    if regions == [] {
      NothingCorrupted(before, after);
    } else {
      var n := |regions| - 1;
      var front, r := regions[..n], regions[n];
      assert regions == front + [r];
      CountIsExact(front, before, after);
      RegionIsExact(r, before, after);
      if Intact(r, before, after) { CorruptedGrows(front, r, before, after); }
      assert Compared(front, before, after).Err? ==> exists i :: 0 <= i < n && !Intact(front[i], before, after);
      assert forall i :: 0 <= i < n ==> front[i] == regions[i];
    }
  }

  /** Bytes outside the regions never matter, for any regions at all. */
  lemma {:induction false} OnlyGuardsMatter(regions: seq<Region>, before: Bytes, after: Bytes, before': Bytes, after': Bytes)
    requires |before'| == |before| && |after'| == |after|
    requires forall p :: 0 <= p < |before| && Guards(regions, p) ==> before'[p] == before[p]
    requires forall p :: 0 <= p < |after| && Guards(regions, p) ==> after'[p] == after[p]
    ensures Compared(regions, before', after') == Compared(regions, before, after)
  {
    if regions != [] {
      var n := |regions| - 1;
      var front, r := regions[..n], regions[n];
      forall p: nat | Guards(front, p) ensures Guards(regions, p) {
        var i :| 0 <= i < n && front[i].offset <= p < End(front[i]);
        assert regions[i].offset <= p < End(regions[i]);
      }
      OnlyGuardsMatter(front, before, after, before', after');
      assert forall p: nat :: r.offset <= p < End(r) ==> Guards(regions, p);
      if End(r) <= |before| && End(r) <= |after| {
        assert after'[r.offset..End(r)] == after[r.offset..End(r)];
      }
    }
  }

  /** Every parsed layout is one the exact count applies to. */
  lemma ParsedLayoutsAreDisjoint(values: seq<RawRegion>, regions: seq<Region>)
    requires LayoutOk(values) && |regions| == |values|
    requires forall i :: 0 <= i < |values| ==> Parsed(values[i], regions[i])
    ensures Disjoint(regions)
  {
    forall i, j | 0 <= i < j < |regions| ensures End(regions[i]) <= regions[j].offset {
      assert Apart(values, i, j) && Parsed(values[i], regions[i]) && Parsed(values[j], regions[j]);
    }
  }
}
