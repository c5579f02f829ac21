/** `bound_orphan_buffer`: the deferred blocks kept between deliveries. */
module Orphans {
  import opened Blocks
  import Serve

  const MAX_ORPHAN_BLOCKS: nat := 20_000
  const MAX_ORPHAN_BYTES: nat := 64 * 1024 * 1024

  ghost predicate Carries(s: seq<Block>, h: Hash) { exists i :: 0 <= i < |s| && s[i].hash == h }

  /** The input without later copies of a hash already seen. */
  ghost function FirstCopies(s: seq<Block>): (t: seq<Block>) {
    if s == [] then []
    else
      var init, b := s[..|s| - 1], s[|s| - 1];
      FirstCopies(init) + (if Carries(init, b.hash) then [] else [b])
  }

  ghost predicate Distinct(t: seq<Block>) {
    forall i, j :: 0 <= i < j < |t| ==> t[i].hash != t[j].hash
  }

  ghost predicate IsFirst(s: seq<Block>, i: nat) {
    i < |s| && !Carries(s[..i], s[i].hash)
  }

  /** Exactly the first copy of every hash, and no hash twice. */
  lemma {:induction false} FirstCopiesMeans(s: seq<Block>)
    ensures forall b :: b in FirstCopies(s) <==> exists i: nat :: IsFirst(s, i) && s[i] == b
    ensures Distinct(FirstCopies(s))
    ensures forall h :: Carries(FirstCopies(s), h) <==> Carries(s, h)
  {
    if s != [] {
      var init, last := s[..|s| - 1], s[|s| - 1];
      FirstCopiesMeans(init);
      assert forall i :: 0 <= i < |init| ==> s[..i] == init[..i];
      assert forall i: nat :: IsFirst(s, i) <==> IsFirst(init, i) || (i == |init| && !Carries(init, last.hash));
      forall b ensures b in FirstCopies(s) <==> exists i: nat :: IsFirst(s, i) && s[i] == b {
        if b in FirstCopies(init) {
          var i: nat :| IsFirst(init, i) && init[i] == b;
          assert IsFirst(s, i);
        }
        if i: nat :| IsFirst(s, i) && s[i] == b { assert i < |init| ==> IsFirst(init, i) && init[i] == b; }
        if !Carries(init, last.hash) { assert IsFirst(s, |init|); }
      }
      forall h ensures Carries(FirstCopies(s), h) <==> Carries(s, h) { CarriesLast(FirstCopies(init), init, last, h); }
    }
  }

  lemma CarriesLast(f: seq<Block>, init: seq<Block>, last: Block, h: Hash)
    ensures Carries(f + [last], h) <==> Carries(f, h) || last.hash == h
    ensures Carries(init + [last], h) <==> Carries(init, h) || last.hash == h
    ensures f + [] == f
  {
    assert (f + [last])[|f|] == last && (init + [last])[|init|] == last;
    assert forall i :: 0 <= i < |f| ==> (f + [last])[i] == f[i];
    assert forall i :: 0 <= i < |init| ==> (init + [last])[i] == init[i];
  }

  function InsertAfter(t: seq<Block>, b: Block): (u: seq<Block>) {
    if t == [] || t[|t| - 1].header.height <= b.header.height then t + [b]
    else InsertAfter(t[..|t| - 1], b) + [t[|t| - 1]]
  }

  /** `sort_by_key` on the height, which is stable. */
  function ByHeight(s: seq<Block>): (t: seq<Block>) {
    if s == [] then [] else InsertAfter(ByHeight(s[..|s| - 1]), s[|s| - 1])
  }

  ghost predicate HeightSorted(t: seq<Block>) {
    forall i, j :: 0 <= i < j < |t| ==> t[i].header.height <= t[j].header.height
  }

  /** The blocks of one height, in their order. */
  ghost function OfHeight(s: seq<Block>, h: nat): (t: seq<Block>) {
    if s == [] then []
    else OfHeight(s[..|s| - 1], h) + (if s[|s| - 1].header.height == h then [s[|s| - 1]] else [])
  }

  lemma {:induction false} OfHeightMembers(s: seq<Block>, h: nat, b: Block)
    ensures b in OfHeight(s, h) <==> b in s && b.header.height == h
  {
    if s != [] {
      OfHeightMembers(s[..|s| - 1], h, b);
      assert s == s[..|s| - 1] + [s[|s| - 1]];
    }
  }

  lemma {:induction false} InsertSorts(t: seq<Block>, b: Block)
    requires HeightSorted(t)
    ensures HeightSorted(InsertAfter(t, b)) && forall x :: x in InsertAfter(t, b) ==> x in t || x == b
  {
    if t != [] && t[|t| - 1].header.height > b.header.height {
      var init, last := t[..|t| - 1], t[|t| - 1];
      InsertSorts(init, b);
      var v := InsertAfter(init, b);
      forall i | 0 <= i < |v| ensures v[i].header.height <= last.header.height { assert v[i] in v; }
    }
  }

  lemma {:induction false} InsertOfHeight(t: seq<Block>, b: Block, h: nat)
    ensures OfHeight(InsertAfter(t, b), h) == OfHeight(t, h) + (if b.header.height == h then [b] else [])
  {
    var u := InsertAfter(t, b);
    if t == [] || t[|t| - 1].header.height <= b.header.height {
      assert u[..|u| - 1] == t;
    } else {
      InsertOfHeight(t[..|t| - 1], b, h);
      assert u[..|u| - 1] == InsertAfter(t[..|t| - 1], b);
    }
  }

  /** The order is by height, and within a height it is the order of arrival. */
  lemma {:induction false} ByHeightIsStable(s: seq<Block>)
    ensures HeightSorted(ByHeight(s)) && forall h :: OfHeight(ByHeight(s), h) == OfHeight(s, h)
    ensures forall b :: b in ByHeight(s) <==> b in s
  {
    if s != [] {
      var init, b := s[..|s| - 1], s[|s| - 1];
      ByHeightIsStable(init);
      InsertSorts(ByHeight(init), b);
      forall h ensures OfHeight(ByHeight(s), h) == OfHeight(s, h) { InsertOfHeight(ByHeight(init), b, h); }
    }
    forall b ensures b in ByHeight(s) <==> b in s {
      OfHeightMembers(s, b.header.height, b);
      OfHeightMembers(ByHeight(s), b.header.height, b);
    }
  }

  lemma {:induction false} InsertDistinct(t: seq<Block>, b: Block)
    requires HeightSorted(t) && Distinct(t) && !Carries(t, b.hash)
    ensures Distinct(InsertAfter(t, b))
  {
    if t != [] && t[|t| - 1].header.height > b.header.height {
      var init, last := t[..|t| - 1], t[|t| - 1];
      InsertDistinct(init, b);
      InsertSorts(init, b);
      var v := InsertAfter(init, b);
      forall i | 0 <= i < |v| ensures v[i].hash != last.hash { assert v[i] in v; }
    }
  }

  lemma {:induction false} ByHeightDistinct(s: seq<Block>)
    requires Distinct(s)
    ensures Distinct(ByHeight(s))
  {
    if s != [] {
      var init, b := s[..|s| - 1], s[|s| - 1];
      ByHeightDistinct(init);
      ByHeightIsStable(init);
      CarriesMember(ByHeight(init), b.hash);
      InsertDistinct(ByHeight(init), b);
    }
  }

  ghost predicate Fits(r: Rules, t: seq<Block>) {
    |t| <= MAX_ORPHAN_BLOCKS && Serve.Bytes(r, t) <= MAX_ORPHAN_BYTES
  }

  /** `out` is what the buffer keeps: the longest prefix of the height-ordered first copies that fits. */
  ghost predicate Kept(r: Rules, blocks: seq<Block>, out: seq<Block>) {
    var t := ByHeight(FirstCopies(blocks));
    && out <= t && Fits(r, out)
    && (|out| < |t| ==> !Fits(r, t[..|out| + 1]))
  }

  /** At most 20 000 blocks and 64 MiB are kept, and a block is dropped only when the next would exceed one
      of the two. */
  lemma BufferCaps(r: Rules, blocks: seq<Block>, out: seq<Block>)
    requires Kept(r, blocks, out)
    ensures |out| <= 20_000 && Serve.Bytes(r, out) <= 67_108_864
    ensures var t := ByHeight(FirstCopies(blocks));
      |out| < |t| ==> |out| == 20_000 || Serve.Bytes(r, out) + r.sizeOf(t[|out|]) > 67_108_864
  {
    hide ByHeight, FirstCopies;
    var t := ByHeight(FirstCopies(blocks));
    if |out| < |t| { assert t[..|out| + 1][..|out|] == out; }
  }

  method Dedup(blocks: seq<Block>) returns (deduped: seq<Block>)
    ensures deduped == FirstCopies(blocks)
  {
    var seen: set<Hash> := {};
    deduped := [];
    var i := 0;
    while i < |blocks|
      invariant 0 <= i <= |blocks|
      invariant forall h :: h in seen <==> Carries(blocks[..i], h)
      invariant deduped == FirstCopies(blocks[..i])
    {
      var b := blocks[i];
      assert blocks[..i + 1][..i] == blocks[..i] && blocks[..i + 1] == blocks[..i] + [b];
      forall h ensures Carries(blocks[..i + 1], h) <==> Carries(blocks[..i], h) || b.hash == h {
        CarriesLast([], blocks[..i], b, h);
      }
      if b.hash !in seen {
        seen := seen + {b.hash};
        deduped := deduped + [b];
      }
      i := i + 1;
    }
    assert blocks[..i] == blocks;
  }

  method BoundOrphanBuffer(r: Rules, blocks: seq<Block>) returns (out: seq<Block>)
    ensures Kept(r, blocks, out)
  {
    hide FirstCopies, ByHeight;
    var deduped := Dedup(blocks);
    var sorted := ByHeight(deduped);
    out := [];
    var total := 0;
    while |out| < |sorted|
      invariant |out| <= |sorted| && out == sorted[..|out|]
      invariant Fits(r, out) && total == Serve.Bytes(r, out)
    {
      var b := sorted[|out|];
      assert sorted[..|out| + 1] == out + [b] && (out + [b])[..|out|] == out;
      if |out| >= MAX_ORPHAN_BLOCKS { break; }
      var sz := r.sizeOf(b);
      if total + sz > MAX_ORPHAN_BYTES { break; }
      total := total + sz;
      out := out + [b];
    }
  }

  /** Lowest first: whatever is kept is no higher than anything dropped for want of room, and a dropped
      block of the same height arrived later. */
  lemma NeverDropsLower(r: Rules, blocks: seq<Block>, out: seq<Block>, b: Block, c: Block)
    requires Kept(r, blocks, out) && c in out && b in FirstCopies(blocks) && b !in out
    ensures c.header.height <= b.header.height
    ensures OfHeight(out, b.header.height) <= OfHeight(FirstCopies(blocks), b.header.height)
  {
    hide Fits, ByHeight, FirstCopies, OfHeight;
    var f := FirstCopies(blocks);
    var t := ByHeight(f);
    ByHeightIsStable(f);
    var i :| 0 <= i < |t| && t[i] == b;
    var j :| 0 <= j < |out| && out[j] == c;
    assert forall k :: 0 <= k < |out| ==> t[k] == out[k] && out[k] in out;
    assert t[j] == c;
    OfHeightPrefix(t, |out|, b.header.height);
    assert out == t[..|out|];
    assert OfHeight(t, b.header.height) == OfHeight(f, b.header.height);
  }

  lemma {:induction false} OfHeightPrefix(t: seq<Block>, k: nat, h: nat)
    requires k <= |t|
    ensures OfHeight(t[..k], h) <= OfHeight(t, h)
  {
    if k == |t| {
      assert t[..k] == t;
    } else {
      OfHeightPrefix(t[..|t| - 1], k, h);
      assert t[..|t| - 1][..k] == t[..k];
    }
  }

  /** The buffer never holds two copies of a hash, and keeps everything when it all fits. */
  lemma KeptIsDistinct(r: Rules, blocks: seq<Block>, out: seq<Block>)
    requires Kept(r, blocks, out)
    ensures HeightSorted(out) && Distinct(out)
    ensures Fits(r, ByHeight(FirstCopies(blocks))) ==> forall h :: Carries(out, h) <==> Carries(blocks, h)
  {
    hide ByHeight, FirstCopies, OfHeight;
    var f := FirstCopies(blocks);
    FirstCopiesMeans(blocks);
    ByHeightIsStable(f);
    var t := ByHeight(f);
    ByHeightDistinct(f);
    if Fits(r, t) {
      if |out| < |t| { BytesPrefix(r, t, |out| + 1); }
      assert out == t;
      forall h ensures Carries(out, h) <==> Carries(f, h) { CarriesMember(out, h); CarriesMember(f, h); }
    }
  }

  lemma CarriesMember(s: seq<Block>, h: Hash)
    ensures Carries(s, h) <==> exists b :: b in s && b.hash == h
  {
  }

  lemma {:induction false} BytesPrefix(r: Rules, t: seq<Block>, k: nat)
    requires k <= |t|
    ensures Serve.Bytes(r, t[..k]) <= Serve.Bytes(r, t)
  {
    assert t == t[..k] + t[k..];
    Serve.BytesAppend(r, t[..k], t[k..]);
  }
}
