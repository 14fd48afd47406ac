/**
  Particle initialisation: one block per frame. The host turns the frame counts of the regions into an
  inclusive scan; each block finds its region and frame in it by binary search, pushes a new frame onto
  the region's list and fills the frame's slots, giving every new particle the next global id.
 */
module ParticleInit {
  import opened Arith
  import opened Sums
  import opened FrameLists

  const UINT32: nat := 0x1_0000_0000
  const INT_LIMIT: nat := 0x8000_0000

  // ----- frame arithmetic of one region -----

  function NumFrames(numParticles: nat, frameSize: nat): nat
    requires frameSize > 0
  {
    (numParticles + frameSize - 1) / frameSize
  }

  function SizeLastFrame(numParticles: nat, frameSize: nat): nat
    requires frameSize > 0
  {
    if numParticles != 0 then (numParticles - 1) % frameSize + 1 else 0
  }

  /** How many particles the block for the given frame of a region creates. */
  function ParticlesInFrame(numParticles: nat, frameSize: nat, frame: nat): nat
    requires frameSize > 0
  {
    if frame == NumFrames(numParticles, frameSize) - 1 then SizeLastFrame(numParticles, frameSize) else frameSize
  }

  /** All frames but the last are full and the last one is not empty. */
  lemma LastFrameHoldsTheRest(n: nat, frameSize: nat)
    requires frameSize > 0 && n > 0
    ensures NumFrames(n, frameSize) >= 1
    ensures n == (NumFrames(n, frameSize) - 1) * frameSize + SizeLastFrame(n, frameSize)
    ensures 1 <= SizeLastFrame(n, frameSize) <= frameSize
  {
    var q, r := (n - 1) / frameSize, (n - 1) % frameSize;
    assert n - 1 == q * frameSize + r;
    assert n + frameSize - 1 == (q + 1) * frameSize + r;
    QuotientIs(n + frameSize - 1, frameSize, q + 1, r);
  }

  lemma NoFramesForNoParticles(frameSize: nat)
    requires frameSize > 0
    ensures NumFrames(0, frameSize) == 0
  {
    QuotientIs(frameSize - 1, frameSize, 0, frameSize - 1);
  }

  /** Particle number g of a region belongs to frame g / frameSize, slot g % frameSize, and to no other. */
  lemma SlotOfParticle(n: nat, frameSize: nat, g: nat, frame: nat, slot: nat)
    requires frameSize > 0 && frame < NumFrames(n, frameSize) && slot < frameSize
    ensures slot < ParticlesInFrame(n, frameSize, frame) && frame * frameSize + slot == g
            <==> g < n && frame == g / frameSize && slot == g % frameSize
  {
    if n == 0 {
      NoFramesForNoParticles(frameSize);
      assert false;
    }
    LastFrameHoldsTheRest(n, frameSize);
    var last := NumFrames(n, frameSize) - 1;
    if frame * frameSize + slot == g {
      QuotientIs(g, frameSize, frame, slot);
      if frame < last {
        ProductGrows(frame + 1, last, frameSize);
      }
    }
  }

  lemma FrameOfParticleExists(n: nat, frameSize: nat, g: nat)
    requires frameSize > 0 && g < n
    ensures g / frameSize < NumFrames(n, frameSize)
  {
    LastFrameHoldsTheRest(n, frameSize);
    var q, last := g / frameSize, NumFrames(n, frameSize) - 1;
    assert g == q * frameSize + g % frameSize;
    if q > last {
      ProductGrows(last + 1, q, frameSize);
    }
  }

  function FrameSizes(n: nat, frameSize: nat, frames: nat): seq<int>
    requires frameSize > 0
  {
    if frames == 0 then [] else FrameSizes(n, frameSize, frames - 1) + [ParticlesInFrame(n, frameSize, frames - 1)]
  }

  lemma {:induction false} FullFramesSum(n: nat, frameSize: nat, frames: nat)
    requires frameSize > 0 && frames < NumFrames(n, frameSize)
    ensures Sum(FrameSizes(n, frameSize, frames)) == frames * frameSize
  {
    if frames > 0 {
      FullFramesSum(n, frameSize, frames - 1);
      SumSnoc(FrameSizes(n, frameSize, frames - 1), frameSize);
    }
  }

  /** The live counts of a region's frames add up to the region's particle count. */
  lemma FramesHoldAllParticles(n: nat, frameSize: nat)
    requires frameSize > 0
    ensures Sum(FrameSizes(n, frameSize, NumFrames(n, frameSize))) == n
  {
    if n == 0 {
      NoFramesForNoParticles(frameSize);
    } else {
      LastFrameHoldsTheRest(n, frameSize);
      var k := NumFrames(n, frameSize) - 1;
      FullFramesSum(n, frameSize, k);
      SumSnoc(FrameSizes(n, frameSize, k), SizeLastFrame(n, frameSize));
    }
  }

  // ----- the scan and the search in it -----

  /** In-place inclusive prefix sum in 32-bit arithmetic. */
  method InclusiveScanHost(data: array<nat>, size: int) returns (total: nat)
    requires size <= data.Length
    requires forall i :: 0 <= i < data.Length ==> data[i] < UINT32
    modifies data
    ensures forall i :: 0 <= i < size ==> data[i] == Sum(old(data[..])[..i + 1]) % UINT32
    ensures forall i :: 0 <= i < data.Length && size <= i ==> data[i] == old(data[i])
    ensures total == if size <= 0 then 0 else Sum(old(data[..])[..size]) % UINT32
  {
    if size <= 0 {
      return 0;
    }
    ghost var was := data[..];
    assert was[..1] == [was[0]] && Sum([was[0]]) == was[0] by {
      assert [was[0]][..0] == [];
    }
    for i := 1 to size
      invariant forall k :: 0 <= k < i ==> data[k] == Sum(was[..k + 1]) % UINT32
      invariant forall k :: i <= k < data.Length ==> data[k] == was[k]
    {
      PrefixSumNext(was, i);
      data[i] := (data[i] + data[i - 1]) % UINT32;
    }
    total := data[size - 1];
  }

  ghost predicate IsScanOf(scan: seq<nat>, counts: seq<nat>) {
    |scan| == |counts| && forall i :: 0 <= i < |scan| ==> scan[i] == Sum(counts[..i + 1])
  }

  /** The region whose frames include frame number `block` of the concatenation of all regions' frames. */
  function RegionOf(counts: seq<nat>, block: nat): (r: nat)
    requires block < Sum(counts)
    ensures r < |counts| && Sum(counts[..r]) <= block < Sum(counts[..r]) + counts[r]
  {
    var n := |counts| - 1;
    if block >= Sum(counts[..n]) then n
    else
      var r := RegionOf(counts[..n], block);
      assert counts[..n][..r] == counts[..r];
      r
  }

  /** (region, frame within the region) pairs and block numbers correspond one to one. */
  lemma BlocksAreFrames(counts: seq<nat>, block: nat, r: nat, frame: nat)
    requires r < |counts|
    ensures Sum(counts[..r]) >= 0
    ensures frame < counts[r] && block == Sum(counts[..r]) + frame
            <==> block < Sum(counts) && RegionOf(counts, block) == r && frame == block - Sum(counts[..r])
  {
    PrefixSumsGrow(counts, 0, r);
    PrefixSumNext(counts, r);
    PrefixSumsGrow(counts, r + 1, |counts|);
    assert counts[..|counts|] == counts;
    if frame < counts[r] && block == Sum(counts[..r]) + frame {
      var q := RegionOf(counts, block);
      if q < r {
        PrefixSumNext(counts, q);
        PrefixSumsGrow(counts, q + 1, r);
      } else if r < q {
        PrefixSumsGrow(counts, r + 1, q);
      }
    }
  }

  datatype FrameLocation = FrameLocation(regionIdx: int, localFrameIdx: int, framesInRegion: int)

  /** Upper-bound binary search in the inclusive scan. */
  method FindFrameLocation(blockIdx: int, scan: seq<nat>, numRegions: int, ghost counts: seq<nat>)
    returns (loc: FrameLocation)
    requires numRegions == |scan| && IsScanOf(scan, counts)
    requires 0 <= blockIdx < Sum(counts) < INT_LIMIT
    ensures loc.regionIdx == RegionOf(counts, blockIdx)
    ensures loc.localFrameIdx == blockIdx - Sum(counts[..loc.regionIdx])
    ensures loc.framesInRegion == counts[loc.regionIdx]
    ensures 0 <= loc.localFrameIdx < loc.framesInRegion
  {
    var left, right := 0, numRegions;
    ghost var target := RegionOf(counts, blockIdx);
    while left < right
      invariant 0 <= left <= target <= right <= numRegions
      decreases right - left
    {
      var mid := left + (right - left) / 2;
      PrefixSumNext(counts, target);
      if scan[mid] <= blockIdx {
        if target <= mid {
          PrefixSumsGrow(counts, target + 1, mid + 1);
        }
        left := mid + 1;
      } else {
        if mid < target {
          PrefixSumsGrow(counts, mid + 1, target);
        }
        right := mid;
      }
    }
    var start := if left == 0 then 0 else scan[left - 1];
    PrefixSumNext(counts, left);
    loc := FrameLocation(left, blockIdx - start, scan[left] - start);
  }
}
