/** `serve_blocks`: answer a peer with whole height-groups under an item cap and a byte budget, always
    including the first group the peer can advance on. */
module Serve {
  import opened Blocks
  import opened Gate
  import opened Stores

  const MAX_BLOCKS_PER_REQUEST: nat := 512
  const MAX_RESPONSE_BYTES: nat := 60 * 1024
  const U32: nat := 0x1_0000_0000
  const NOISE_MESSAGE_LIMIT: nat := 65_535
  const MESSAGE_WRAPPER: nat := 12
  const NOISE_AUTH_TAG: nat := 16

  datatype Row = Row(height: nat, hash: Hash)

  predicate Before(a: Row, b: Row) {
    a.height < b.height || (a.height == b.height && a.hash < b.hash)
  }

  ghost predicate Sorted(rows: seq<Row>) {
    forall i, j :: 0 <= i < j < |rows| ==> Before(rows[i], rows[j])
  }

  /** The row's place among sorted rows. */
  function Insert(rows: seq<Row>, x: Row): (s: seq<Row>)
    ensures |s| == |rows| + 1
    ensures forall y :: y in s <==> y in rows || y == x
  {
    if rows == [] then [x]
    else if Before(x, rows[0]) then [x] + rows
    else
      assert forall y :: y in rows <==> y == rows[0] || y in rows[1..];
      [rows[0]] + Insert(rows[1..], x)
  }

  lemma {:induction false} InsertSorts(rows: seq<Row>, x: Row)
    requires Sorted(rows) && x !in rows
    ensures Sorted(Insert(rows, x))
  {
    if rows == [] {
    } else if Before(x, rows[0]) {
      assert forall i :: 0 <= i < |rows| ==> rows[0] == rows[i] || Before(rows[0], rows[i]);
    } else {
      assert rows[0] in rows && rows[0] != x;
      InsertSorts(rows[1..], x);
      var t := Insert(rows[1..], x);
      forall j | 0 <= j < |t| ensures Before(rows[0], t[j]) {
        assert t[j] in t;
        if t[j] != x {
          var k :| 0 <= k < |rows[1..]| && rows[1..][k] == t[j];
          assert rows[k + 1] == t[j];
        }
      }
    }
  }

  ghost predicate IsRow(blocks: DagMap, lo: nat, hi: nat, x: Row) {
    x.hash in blocks && blocks[x.hash].header.height == x.height && lo <= x.height <= hi
  }

  /** `hashes_in_height_range`, then the deterministic sort: height first, then hash. */
  method SortedRows(blocks: DagMap, lo: nat, hi: nat) returns (rows: seq<Row>)
    ensures Sorted(rows) && |rows| <= |blocks|
    ensures forall x :: x in rows <==> IsRow(blocks, lo, hi, x)
  {
    rows := [];
    var todo := blocks.Keys;
    while todo != {}
      invariant todo <= blocks.Keys && |rows| + |todo| <= |blocks|
      invariant Sorted(rows)
      invariant forall x :: x in rows <==> IsRow(blocks, lo, hi, x) && x.hash !in todo
      decreases todo
    {
      var k :| k in todo;
      var x := Row(blocks[k].header.height, k);
      if lo <= x.height <= hi {
        InsertSorts(rows, x);
        rows := Insert(rows, x);
      }
      todo := todo - {k};
    }
  }

  /** The blocks the rows name, in the rows' order. */
  function BlocksOf(blocks: DagMap, rows: seq<Row>): (bs: seq<Block>)
    requires forall x :: x in rows ==> x.hash in blocks
    ensures |bs| == |rows| && forall i :: 0 <= i < |rows| ==> bs[i] == blocks[rows[i].hash]
  {
    seq(|rows|, i requires 0 <= i < |rows| => blocks[rows[i].hash])
  }

  function Bytes(r: Rules, bs: seq<Block>): (n: nat) {
    if bs == [] then 0 else Bytes(r, bs[..|bs| - 1]) + r.sizeOf(bs[|bs| - 1])
  }

  lemma {:induction false} BytesAppend(r: Rules, a: seq<Block>, b: seq<Block>)
    ensures Bytes(r, a + b) == Bytes(r, a) + Bytes(r, b)
  {
    if b == [] {
      assert a + b == a;
    } else {
      assert (a + b)[..|a + b| - 1] == a + b[..|b| - 1];
      BytesAppend(r, a, b[..|b| - 1]);
    }
  }

  /** Some row of the range cannot be read. */
  ghost predicate Unread(rows: seq<Row>, i: nat, j: nat, readable: set<Hash>)
    requires j <= |rows|
  {
    exists k :: i <= k < j && rows[k].hash !in readable
  }

  lemma UnreadGrows(rows: seq<Row>, i: nat, j: nat, readable: set<Hash>)
    requires i <= j < |rows|
    ensures Unread(rows, i, j + 1, readable) <==> Unread(rows, i, j, readable) || rows[j].hash !in readable
  {
    if Unread(rows, i, j, readable) {
      var k :| i <= k < j && rows[k].hash !in readable;
      assert i <= k < j + 1;
    }
  }

  lemma NoGroupYet(r: Rules, blocks: DagMap, rows: seq<Row>, start: nat)
    requires start <= |rows| && forall x :: x in rows ==> x.hash in blocks
    ensures rows[start..start] == [] && BlocksOf(blocks, rows[start..start]) == [] && Bytes(r, []) == 0
    ensures forall readable :: !Unread(rows, start, start, readable)
  {
  }

  lemma GroupGrows(r: Rules, blocks: DagMap, rows: seq<Row>, start: nat, next: nat, group: seq<Block>)
    requires start <= next < |rows| && (forall x :: x in rows ==> x.hash in blocks)
    requires group == BlocksOf(blocks, rows[start..next])
    ensures group + [blocks[rows[next].hash]] == BlocksOf(blocks, rows[start..next + 1])
    ensures Bytes(r, group + [blocks[rows[next].hash]]) == Bytes(r, group) + r.sizeOf(blocks[rows[next].hash])
  {
    assert rows[start..next + 1] == rows[start..next] + [rows[next]];
    assert (group + [blocks[rows[next].hash]])[..|group|] == group;
  }

  /** The whole sibling group starting at row `i`. */
  method GatherGroup(r: Rules, blocks: DagMap, rows: seq<Row>, start: nat, readable: set<Hash>)
    returns (group: seq<Block>, bytes: nat, next: nat, unreadable: bool)
    requires start < |rows| && Sorted(rows) && forall x :: x in rows ==> x.hash in blocks
    ensures start < next <= |rows|
    ensures forall j :: start <= j < next ==> rows[j].height == rows[start].height
    ensures next < |rows| ==> rows[next].height > rows[start].height
    ensures unreadable <==> Unread(rows, start, next, readable)
    ensures !unreadable ==> group == BlocksOf(blocks, rows[start..next]) && bytes == Bytes(r, group)
  {
    HeightsRise(rows, start);
    NoGroupYet(r, blocks, rows, start);
    hide Sorted, Before, BlocksOf, Bytes, Unread;
    var h := rows[start].height;
    group, bytes, next, unreadable := [], 0, start, false;
    while next < |rows| && rows[next].height == h
      invariant start <= next <= |rows| && (next == start ==> rows[start].height == h)
      invariant forall j :: start <= j < next ==> rows[j].height == h
      invariant unreadable <==> Unread(rows, start, next, readable)
      invariant !unreadable ==> group == BlocksOf(blocks, rows[start..next]) && bytes == Bytes(r, group)
    {
      UnreadGrows(rows, start, next, readable);
      var hash := rows[next].hash;
      if hash in readable {
        if !unreadable { GroupGrows(r, blocks, rows, start, next, group); }
        bytes := bytes + r.sizeOf(blocks[hash]);
        group := group + [blocks[hash]];
      } else {
        unreadable := true;
      }
      next := next + 1;
    }
  }

  function RowOf(b: Block): (x: Row) { Row(b.header.height, b.hash) }

  /** Every stored block with a height in [lo, hi), in height-then-hash order, and nothing else. */
  ghost predicate Complete(blocks: DagMap, lo: nat, hi: nat, out: seq<Block>) {
    && (forall i, j :: 0 <= i < j < |out| ==> Before(RowOf(out[i]), RowOf(out[j])))
    && (forall b :: b in out <==> b.hash in blocks && blocks[b.hash] == b && lo <= b.header.height < hi)
  }

  lemma SliceComplete(blocks: DagMap, rows: seq<Row>, lo: nat, hi: nat, i: nat, j: nat, a: nat, b: nat)
    requires forall k :: k in blocks ==> blocks[k].hash == k
    requires Sorted(rows) && (forall x :: x in rows <==> IsRow(blocks, lo, hi, x)) && i <= j <= |rows|
    requires lo <= a <= b <= hi + 1
    requires forall k :: 0 <= k < |rows| ==> (i <= k < j <==> a <= rows[k].height < b)
    ensures forall x :: x in rows[i..j] ==> x.hash in blocks
    ensures Complete(blocks, a, b, BlocksOf(blocks, rows[i..j]))
  {
    var s := rows[i..j];
    forall x | x in s ensures IsRow(blocks, lo, hi, x) { assert x in rows; }
    var out := BlocksOf(blocks, s);
    forall k | 0 <= k < |s| ensures RowOf(out[k]) == s[k] && a <= s[k].height < b {
      assert s[k] in s && s[k] == rows[i + k];
    }
    forall c: Block | c.hash in blocks && blocks[c.hash] == c && a <= c.header.height < b ensures c in out {
      assert RowOf(c) in rows;
      var k :| 0 <= k < |rows| && rows[k] == RowOf(c);
      assert out[k - i] == c;
    }
  }

  /** The first height to serve: the anchor's own, so that a sibling of the anchor is delivered too. */
  function ResolveStartInclusive(c: Chain, from: Hash, readable: set<Hash>): (h: Option<nat>) {
    if from == ZERO_HASH then Some(0)
    else if from in c.blocks && from in readable then Some(c.blocks[from].header.height)
    else None
  }

  function MaxItems(count: nat): (m: nat) {
    if count < MAX_BLOCKS_PER_REQUEST then count else MAX_BLOCKS_PER_REQUEST
  }

  function LastHeight(c: Chain, start: nat, count: nat): (h: nat) {
    if start + MaxItems(count) < c.latest then start + MaxItems(count) else c.latest
  }

  /** Why nothing at height `stop` was added. */
  ghost predicate Stopped(r: Rules, c: Chain, start: nat, count: nat, readable: set<Hash>, out: seq<Block>, stop: nat) {
    || stop == LastHeight(c, start, count) + 1
    || AtHeight(c.blocks, stop) == {}
    || (exists k :: k in AtHeight(c.blocks, stop) && k !in readable)
    || (stop > start + 1 && exists g ::
          Complete(c.blocks, stop, stop + 1, g)
          && ((|out| + |g|) % U32 > MaxItems(count) || Bytes(r, out) + Bytes(r, g) > MAX_RESPONSE_BYTES))
  }

  ghost predicate Positive(r: Rules) { forall b :: r.sizeOf(b) > 0 }

  /** What an answer from height `start` is: the complete groups of consecutive heights up to `stop`,
      at most two of them or within both caps, and stopped only for a stated reason. */
  ghost predicate Response(r: Rules, c: Chain, start: nat, count: nat, readable: set<Hash>, out: seq<Block>,
                           stop: nat) {
    && start <= stop <= LastHeight(c, start, count) + 1
    && Complete(c.blocks, start, stop, out)
    && (forall h :: start <= h < stop ==> AtHeight(c.blocks, h) != {})
    && (Positive(r) && |c.blocks| < U32 ==>
          stop <= start + 2 || (|out| <= MaxItems(count) && Bytes(r, out) <= MAX_RESPONSE_BYTES))
    && Stopped(r, c, start, count, readable, out, stop)
  }

  method ServeBlocks(r: Rules, storage: BlockStore, from: Hash, count: nat, readable: set<Hash>)
    returns (out: seq<Block>)
    requires ChainOk(storage.View())
    ensures from == ZERO_HASH ==> exists stop: nat :: Response(r, storage.View(), 0, count, readable, out, stop)
    ensures from != ZERO_HASH && from in storage.blocks && from in readable ==>
      exists stop: nat ::
        Response(r, storage.View(), storage.blocks[from].header.height, count, readable, out, stop)
    ensures from != ZERO_HASH && (from !in storage.blocks || from !in readable) ==> out == []
  {
    hide Response;
    var c := storage.View();
    var resolved := ResolveStartInclusive(c, from, readable);
    if resolved.None? { return []; }
    var start := resolved.value;
    if start > c.latest { return []; }
    var end := LastHeight(c, start, count);
    var rows := SortedRows(c.blocks, start, end);
    out := ServeRows(r, c, rows, start, count, readable);
    assert storage.View() == c;
    ghost var stop: nat :| Response(r, c, start, count, readable, out, stop);
    assert Response(r, storage.View(), start, count, readable, out, stop);
  }

  /** With no row at height `h`, the store has no block there. */
  lemma NoRowNoBlock(blocks: DagMap, rows: seq<Row>, lo: nat, hi: nat, h: nat)
    requires (forall x :: x in rows <==> IsRow(blocks, lo, hi, x)) && lo <= h <= hi
    requires forall k :: 0 <= k < |rows| ==> rows[k].height != h
    ensures AtHeight(blocks, h) == {}
  {
    forall k | k in blocks && lo <= blocks[k].header.height <= hi
      ensures Row(blocks[k].header.height, k) in rows
    {
      assert IsRow(blocks, lo, hi, Row(blocks[k].header.height, k));
    }
  }

  /** The sorted rows of the window a request may cover. */
  ghost predicate Window(c: Chain, start: nat, count: nat, rows: seq<Row>) {
    && ChainOk(c) && start <= c.latest
    && Sorted(rows) && |rows| <= |c.blocks|
    && (forall x :: x in rows <==> IsRow(c.blocks, start, LastHeight(c, start, count), x))
  }

  ghost predicate WithinCaps(r: Rules, c: Chain, count: nat, out: seq<Block>) {
    Positive(r) && |c.blocks| < U32 ==> |out| <= MaxItems(count) && Bytes(r, out) <= MAX_RESPONSE_BYTES
  }

  /** The first `i` rows, which are those below height `expected`, are in `out`. */
  ghost predicate Walked(r: Rules, c: Chain, start: nat, count: nat, rows: seq<Row>, i: nat, expected: nat,
                         out: seq<Block>) {
    && i <= |rows| && start <= expected <= LastHeight(c, start, count) + 1
    && (forall x :: x in rows ==> x.hash in c.blocks)
    && out == BlocksOf(c.blocks, rows[..i])
    && (forall k :: 0 <= k < |rows| ==> (k < i <==> rows[k].height < expected))
    && (out == [] <==> expected == start)
    && (forall h :: start <= h < expected ==> AtHeight(c.blocks, h) != {})
    && (expected <= start + 2 || WithinCaps(r, c, count, out))
  }

  function Budget(r: Rules, out: seq<Block>): (b: nat) {
    if Bytes(r, out) <= MAX_RESPONSE_BYTES then MAX_RESPONSE_BYTES - Bytes(r, out) else 0
  }

  lemma WalkStart(r: Rules, c: Chain, start: nat, count: nat, rows: seq<Row>)
    requires Window(c, start, count, rows)
    ensures Walked(r, c, start, count, rows, 0, start, []) && Budget(r, []) == MAX_RESPONSE_BYTES
  {
    forall k | 0 <= k < |rows| ensures start <= rows[k].height { assert rows[k] in rows; }
    assert rows[..0] == [];
  }

  /** What `GatherGroup` brings back from row `i`. */
  ghost predicate Gathered(blocks: DagMap, rows: seq<Row>, i: nat, next: nat, group: seq<Block>) {
    && i < next <= |rows| && (forall x :: x in rows ==> x.hash in blocks)
    && (forall j :: i <= j < next ==> rows[j].height == rows[i].height)
    && (next < |rows| ==> rows[next].height > rows[i].height)
    && group == BlocksOf(blocks, rows[i..next])
  }

  /** Either of the first two groups goes out unconditionally, a later one only within both caps. */
  lemma WalkStep(r: Rules, c: Chain, start: nat, count: nat, rows: seq<Row>, i: nat, expected: nat, out: seq<Block>,
                 next: nat, group: seq<Block>)
    requires Window(c, start, count, rows) && Walked(r, c, start, count, rows, i, expected, out)
    requires i < |rows| && rows[i].height == expected && Gathered(c.blocks, rows, i, next, group)
    requires expected <= start + 1 ||
             ((|out| + |group|) % U32 <= MaxItems(count) && Bytes(r, group) <= Budget(r, out))
    ensures Walked(r, c, start, count, rows, next, expected + 1, out + group)
    ensures Budget(r, out + group) == if Bytes(r, group) <= Budget(r, out) then Budget(r, out) - Bytes(r, group) else 0
  {
    hide IsRow, ChainOk, AtHeight, Bytes, WithinCaps, Before, Sorted;
    WindowRows(c, start, count, rows);
    BytesAppend(r, out, group);
    assert rows[..next] == rows[..i] + rows[i..next];
    RowHere(c, start, count, rows, i);
    HeightsRise(rows, next);
    assert out + group == BlocksOf(c.blocks, rows[..next]);
    if expected > start + 1 { CapsHold(r, c, count, out, group); }
  }

  lemma CapsHold(r: Rules, c: Chain, count: nat, out: seq<Block>, group: seq<Block>)
    requires group != [] && |out| + |group| <= |c.blocks|
    requires (|out| + |group|) % U32 <= MaxItems(count) && Bytes(r, group) <= Budget(r, out)
    ensures WithinCaps(r, c, count, out + group)
  {
    hide Bytes;
    BytesAppend(r, out, group);
    if Positive(r) && |c.blocks| < U32 {
      BytesPositive(r, group);
      SmallMod(|out| + |group|, U32);
    }
  }

  lemma SmallMod(n: nat, m: nat)
    requires n < m
    ensures n % m == n
  {
  }

  lemma RowHere(c: Chain, start: nat, count: nat, rows: seq<Row>, j: nat)
    requires Window(c, start, count, rows) && j < |rows|
    ensures rows[j].hash in AtHeight(c.blocks, rows[j].height) && rows[j].height <= LastHeight(c, start, count)
  {
    assert rows[j] in rows;
  }

  /** The walk ends: no row left, a height gap, an unreadable row, or a cap. */
  lemma WalkStop(r: Rules, c: Chain, start: nat, count: nat, readable: set<Hash>, rows: seq<Row>, i: nat,
                 expected: nat, out: seq<Block>)
    requires Window(c, start, count, rows) && Walked(r, c, start, count, rows, i, expected, out)
    requires (i < |rows| && rows[i].height == expected) ==> Stopped(r, c, start, count, readable, out, expected)
    ensures Response(r, c, start, count, readable, out, expected)
  {
    hide Stopped, Complete, IsRow;
    WalkSplits(r, c, start, count, rows, i, expected, out);
    SliceComplete(c.blocks, rows, start, LastHeight(c, start, count), 0, i, start, expected);
    assert rows[0..i] == rows[..i];
    if !(i < |rows| && rows[i].height == expected) { GapStops(r, c, start, count, readable, rows, i, expected, out); }
  }

  lemma GapStops(r: Rules, c: Chain, start: nat, count: nat, readable: set<Hash>, rows: seq<Row>, i: nat,
                 expected: nat, out: seq<Block>)
    requires Window(c, start, count, rows) && Walked(r, c, start, count, rows, i, expected, out)
    requires i == |rows| || rows[i].height != expected
    ensures Stopped(r, c, start, count, readable, out, expected)
  {
    hide Complete, WithinCaps;
    if expected <= LastHeight(c, start, count) {
      if i < |rows| { HeightsRise(rows, i); }
      NoRowNoBlock(c.blocks, rows, start, LastHeight(c, start, count), expected);
    }
  }

  /** The walk over the sorted rows. */
  method ServeRows(r: Rules, c: Chain, rows: seq<Row>, start: nat, count: nat, readable: set<Hash>)
    returns (out: seq<Block>)
    requires Window(c, start, count, rows)
    ensures exists stop: nat :: Response(r, c, start, count, readable, out, stop)
  {
    hide Walked, Response, Stopped, Window, Sorted, Bytes, Budget;
    var maxItems := MaxItems(count);
    WindowRows(c, start, count, rows);
    WalkStart(r, c, start, count, rows);
    out := [];
    var budget := MAX_RESPONSE_BYTES;
    var expected := start;
    var i := 0;
    var progressed := false;
    while i < |rows|
      invariant 0 <= i <= |rows| && start <= expected
      invariant Walked(r, c, start, count, rows, i, expected, out)
      invariant budget == Budget(r, out)
      invariant progressed <==> expected > start + 1
      invariant out == [] <==> expected == start
    {
      var h := rows[i].height;
      if h != expected { break; }
      var group, groupBytes, next, unreadable := GatherGroup(r, c.blocks, rows, i, readable);
      if unreadable {
        UnreadableStops(r, c, start, count, readable, rows, i, next, out);
        break;
      }
      assert Gathered(c.blocks, rows, i, next, group);
      var firstProgress := h > start && !progressed;
      if !firstProgress && out != []
         && ((|out| + |group|) % U32 > maxItems || groupBytes > budget) {
        CapStops(r, c, start, count, readable, rows, i, expected, out, next, group);
        break;
      }
      WalkStep(r, c, start, count, rows, i, expected, out, next, group);
      budget := if groupBytes <= budget then budget - groupBytes else 0;
      out := out + group;
      if h > start { progressed := true; }
      expected := h + 1;
      i := next;
    }
    WalkStop(r, c, start, count, readable, rows, i, expected, out);
  }

  lemma UnreadableStops(r: Rules, c: Chain, start: nat, count: nat, readable: set<Hash>, rows: seq<Row>, i: nat,
                        next: nat, out: seq<Block>)
    requires Window(c, start, count, rows) && i < next <= |rows|
    requires forall j :: i <= j < next ==> rows[j].height == rows[i].height
    requires exists j :: i <= j < next && rows[j].hash !in readable
    ensures Stopped(r, c, start, count, readable, out, rows[i].height)
  {
    var j :| i <= j < next && rows[j].hash !in readable;
    RowHere(c, start, count, rows, j);
  }

  lemma CapStops(r: Rules, c: Chain, start: nat, count: nat, readable: set<Hash>, rows: seq<Row>, i: nat, expected: nat,
                 out: seq<Block>, next: nat, group: seq<Block>)
    requires Window(c, start, count, rows) && Walked(r, c, start, count, rows, i, expected, out)
    requires i < |rows| && rows[i].height == expected > start + 1 && Gathered(c.blocks, rows, i, next, group)
    requires (|out| + |group|) % U32 > MaxItems(count) || Bytes(r, group) > Budget(r, out)
    ensures Stopped(r, c, start, count, readable, out, expected)
  {
    hide Complete, Walked, Window, Gathered, AtHeight, Bytes;
    GroupIsWhole(r, c, start, count, rows, i, expected, out, next, group);
  }

  lemma GroupIsWhole(r: Rules, c: Chain, start: nat, count: nat, rows: seq<Row>, i: nat, expected: nat,
                     out: seq<Block>, next: nat, group: seq<Block>)
    requires Window(c, start, count, rows) && Walked(r, c, start, count, rows, i, expected, out)
    requires i < |rows| && rows[i].height == expected && Gathered(c.blocks, rows, i, next, group)
    ensures Complete(c.blocks, expected, expected + 1, group)
  {
    hide Complete, Walked, Sorted, IsRow, ChainOk, LastHeight, BlocksOf;
    WalkSplits(r, c, start, count, rows, i, expected, out);
    GroupComplete(c.blocks, rows, start, LastHeight(c, start, count), i, next);
  }

  lemma WindowRows(c: Chain, start: nat, count: nat, rows: seq<Row>)
    requires Window(c, start, count, rows)
    ensures Sorted(rows) && forall x :: x in rows ==> x.hash in c.blocks
  {
  }

  lemma WalkSplits(r: Rules, c: Chain, start: nat, count: nat, rows: seq<Row>, i: nat, expected: nat, out: seq<Block>)
    requires Window(c, start, count, rows) && Walked(r, c, start, count, rows, i, expected, out)
    ensures forall k :: k in c.blocks ==> c.blocks[k].hash == k
    ensures forall k :: 0 <= k < |rows| ==> start <= rows[k].height && (k < i <==> rows[k].height < expected)
  {
    forall k | 0 <= k < |rows| ensures start <= rows[k].height { assert rows[k] in rows; }
  }

  lemma HeightsRise(rows: seq<Row>, i: nat)
    requires Sorted(rows)
    ensures forall k :: i <= k < |rows| ==> rows[i].height <= rows[k].height
  {
  }

  lemma BytesPositive(r: Rules, bs: seq<Block>)
    requires Positive(r) && bs != []
    ensures Bytes(r, bs) > 0
  {
    assert r.sizeOf(bs[|bs| - 1]) > 0;
  }

  /** The rows of one height are its whole group. */
  lemma GroupComplete(blocks: DagMap, rows: seq<Row>, lo: nat, hi: nat, i: nat, next: nat)
    requires forall k :: k in blocks ==> blocks[k].hash == k
    requires Sorted(rows) && (forall x :: x in rows <==> IsRow(blocks, lo, hi, x)) && i < next <= |rows|
    requires forall j :: i <= j < next ==> rows[j].height == rows[i].height
    requires next < |rows| ==> rows[next].height > rows[i].height
    requires forall k :: 0 <= k < |rows| ==> (k < i <==> rows[k].height < rows[i].height)
    ensures forall x :: x in rows[i..next] ==> x.hash in blocks
    ensures Complete(blocks, rows[i].height, rows[i].height + 1, BlocksOf(blocks, rows[i..next]))
  {
    assert rows[i] in rows;
    SliceComplete(blocks, rows, lo, hi, i, next, rows[i].height, rows[i].height + 1);
  }

  /** The answer's order is fixed by the stored set alone. */
  lemma {:induction false} CompleteIsUnique(blocks: DagMap, lo: nat, hi: nat, a: seq<Block>, b: seq<Block>)
    requires Complete(blocks, lo, hi, a) && Complete(blocks, lo, hi, b)
    ensures a == b
  {
    OrderedUnique(a, b);
  }

  ghost predicate Ordered(bs: seq<Block>) {
    forall i, j :: 0 <= i < j < |bs| ==> Before(RowOf(bs[i]), RowOf(bs[j]))
  }

  lemma SomeMember(bs: seq<Block>)
    ensures bs != [] ==> exists b :: b in bs
  {
    if bs != [] { assert bs[0] in bs; }
  }

  lemma {:induction false} OrderedUnique(a: seq<Block>, b: seq<Block>)
    requires Ordered(a) && Ordered(b) && forall x :: x in a <==> x in b
    ensures a == b
  {
    SomeMember(a);
    SomeMember(b);
    if a != [] && b != [] {
      var x, y := a[|a| - 1], b[|b| - 1];
      assert x in b && y in a;
      assert x == y;
      var a', b' := a[..|a| - 1], b[..|b| - 1];
      forall z ensures z in a' <==> z in b' {
        if z in a' { assert z in a && Before(RowOf(z), RowOf(x)); }
        if z in b' { assert z in b && Before(RowOf(z), RowOf(y)); }
      }
      OrderedUnique(a', b');
    }
  }

  /** Every stored block's stored parents are strictly lower. */
  ghost predicate HeightOrdered(blocks: DagMap) {
    forall k, p :: k in blocks && p in blocks[k].Parents() && p in blocks ==>
      blocks[p].header.height < blocks[k].header.height
  }

  /** A served parent comes before its child if and only if it is lower, or level with a smaller hash; so
      always where parents are lower than children. */
  lemma ParentsServedFirst(blocks: DagMap, lo: nat, hi: nat, out: seq<Block>, i: nat, j: nat)
    requires Complete(blocks, lo, hi, out) && i < |out| && j < |out| && out[i].hash in out[j].Parents()
    ensures i < j <==> Before(RowOf(out[i]), RowOf(out[j]))
    ensures HeightOrdered(blocks) ==> i < j
  {
    assert out[i] in out && out[j] in out;
    if j < i { assert Before(RowOf(out[j]), RowOf(out[i])); }
  }

  lemma {:induction false} RowsExist(blocks: DagMap, keys: set<Hash>, lo: nat, hi: nat) returns (rows: seq<Row>)
    requires keys <= blocks.Keys
    ensures Sorted(rows) && forall x :: x in rows <==> IsRow(blocks, lo, hi, x) && x.hash in keys
    decreases keys
  {
    if keys == {} {
      rows := [];
    } else {
      var k :| k in keys;
      rows := RowsExist(blocks, keys - {k}, lo, hi);
      var x := Row(blocks[k].header.height, k);
      if lo <= x.height <= hi {
        InsertSorts(rows, x);
        rows := Insert(rows, x);
      }
    }
  }

  /** The blocks of any range of heights can be served in order. */
  lemma CompleteExists(blocks: DagMap, lo: nat, hi: nat) returns (out: seq<Block>)
    requires (forall k :: k in blocks ==> blocks[k].hash == k) && lo <= hi
    ensures Complete(blocks, lo, hi + 1, out)
  {
    hide Complete;
    var rows := RowsExist(blocks, blocks.Keys, lo, hi);
    assert forall x :: x in rows <==> IsRow(blocks, lo, hi, x);
    forall k | 0 <= k < |rows| ensures lo <= rows[k].height <= hi { assert rows[k] in rows; }
    SliceComplete(blocks, rows, lo, hi, 0, |rows|, lo, hi + 1);
    out := BlocksOf(blocks, rows[0..|rows|]);
  }

  /** Progress: a readable, contiguous store answers a request for at least one block with the anchor's
      height and, unless that is the tip, the next one, whatever the caps say. */
  lemma AnswerReachesNextHeight(r: Rules, c: Chain, start: nat, count: nat, readable: set<Hash>, out: seq<Block>,
                                stop: nat)
    requires Response(r, c, start, count, readable, out, stop) && c.blocks.Keys <= readable
    requires count >= 1 && start <= c.latest && forall h :: 0 <= h <= c.latest ==> AtHeight(c.blocks, h) != {}
    ensures if start == c.latest then stop == start + 1 else stop >= start + 2
  {
  }

  /** An answer of more than two groups fits one encrypted message, wrapper and tag included. */
  lemma LongAnswersFitOneMessage(r: Rules, c: Chain, start: nat, count: nat, readable: set<Hash>, out: seq<Block>,
                                 stop: nat)
    requires Response(r, c, start, count, readable, out, stop) && Positive(r) && |c.blocks| < 4_294_967_296
    ensures stop > start + 2 ==> |out| <= 512 && Bytes(r, out) + MESSAGE_WRAPPER + NOISE_AUTH_TAG < NOISE_MESSAGE_LIMIT
  {
  }

  /** Exactly one block at each height of the range. */
  ghost predicate Linear(blocks: DagMap, lo: nat, hi: nat) {
    forall h: nat :: lo <= h < hi ==> Single(blocks, h)
  }

  ghost predicate Single(blocks: DagMap, h: nat) { exists k :: AtHeight(blocks, h) == {k} }

  /** The blocks of a linear range, one a height. */
  lemma {:induction false} LinearCount(blocks: DagMap, lo: nat, hi: nat, out: seq<Block>)
    requires (forall k :: k in blocks ==> blocks[k].hash == k) && lo <= hi
    requires Linear(blocks, lo, hi) && Complete(blocks, lo, hi, out)
    ensures |out| == hi - lo
    decreases hi - lo
  {
    if lo == hi {
      SomeMember(out);
    } else {
      assert Single(blocks, hi - 1);
      var k :| AtHeight(blocks, hi - 1) == {k};
      assert k in AtHeight(blocks, hi - 1);
      var b, init := blocks[k], out[..|out| - 1];
      assert b in out;
      LastOfRange(blocks, lo, hi, out, b);
      LinearCount(blocks, lo, hi - 1, init);
    }
  }

  /** The only block of the last height comes last. */
  lemma LastOfRange(blocks: DagMap, lo: nat, hi: nat, out: seq<Block>, b: Block)
    requires Complete(blocks, lo, hi, out) && lo < hi && b in out && AtHeight(blocks, hi - 1) == {b.hash}
    ensures |out| > 0 && out[|out| - 1] == b && Complete(blocks, lo, hi - 1, out[..|out| - 1])
  {
    assert b.hash in AtHeight(blocks, hi - 1);
    var j :| 0 <= j < |out| && out[j] == b;
    var z, init := out[|out| - 1], out[..|out| - 1];
    OnlyThere(blocks, lo, hi, out, z, b);
    assert z == b by { assert j == |out| - 1 || Before(RowOf(b), RowOf(z)); }
    forall x: Block ensures x in init <==> x.hash in blocks && blocks[x.hash] == x && lo <= x.header.height < hi - 1 {
      if x in init {
        var i :| 0 <= i < |init| && init[i] == x;
        assert Before(RowOf(out[i]), RowOf(z)) && x in out;
        OnlyThere(blocks, lo, hi, out, x, b);
      }
      if x in out && x != b {
        var i :| 0 <= i < |out| && out[i] == x;
        assert init[i] == x;
      }
    }
  }

  lemma OnlyThere(blocks: DagMap, lo: nat, hi: nat, out: seq<Block>, x: Block, b: Block)
    requires Complete(blocks, lo, hi, out) && x in out && b in out && 0 < hi && AtHeight(blocks, hi - 1) == {b.hash}
    ensures x.header.height < hi && (x.header.height == hi - 1 <==> x == b)
  {
    assert b.hash in AtHeight(blocks, hi - 1);
    assert x.header.height == hi - 1 <==> x.hash in AtHeight(blocks, hi - 1);
  }

  /** The answer to a range is a prefix of the answer to a longer one. */
  lemma {:induction false} RangePrefix(blocks: DagMap, lo: nat, mid: nat, hi: nat, out: seq<Block>, all: seq<Block>)
    requires (forall k :: k in blocks ==> blocks[k].hash == k) && lo <= mid <= hi && Linear(blocks, lo, hi)
    requires Complete(blocks, lo, mid, out) && Complete(blocks, lo, hi, all)
    ensures out <= all && |out| == mid - lo && |all| == hi - lo
    decreases hi - mid
  {
    LinearCount(blocks, lo, mid, out);
    LinearCount(blocks, lo, hi, all);
    if mid == hi {
      CompleteIsUnique(blocks, lo, hi, out, all);
    } else {
      assert Single(blocks, hi - 1);
      var k :| AtHeight(blocks, hi - 1) == {k};
      assert k in AtHeight(blocks, hi - 1);
      LastOfRange(blocks, lo, hi, all, blocks[k]);
      RangePrefix(blocks, lo, mid, hi - 1, out, all[..|all| - 1]);
    }
  }

  /** On a readable chain of one block a height, a request for `count` blocks, at least two and with room
      above the anchor, is answered with exactly the next `count` (never more than 512), if they fit the
      60 KiB budget. */
  lemma LinearAnswer(r: Rules, c: Chain, start: nat, count: nat, readable: set<Hash>, out: seq<Block>, stop: nat,
                     want: seq<Block>)
    requires ChainOk(c) && c.blocks.Keys <= readable && Positive(r) && |c.blocks| < 4_294_967_296
    requires var m := if count <= 512 then count else 512;
      && 2 <= count && start + m <= c.latest && Linear(c.blocks, start, start + m + 1)
      && Complete(c.blocks, start, start + m, want) && Bytes(r, want) <= 60 * 1024
    requires Response(r, c, start, count, readable, out, stop)
    ensures out == want && |out| == if count <= 512 then count else 512
  {
    hide Complete, Bytes;
    var m := if count <= 512 then count else 512;
    assert LastHeight(c, start, count) == start + m;
    assert forall h: nat :: start <= h <= start + m ==> Single(c.blocks, h);
    LinearCount(c.blocks, start, stop, out);
    LinearCount(c.blocks, start, start + m, want);
    if stop < start + m {
      TooEarly(r, c, start, count, m, readable, out, stop, want);
    }
    CompleteIsUnique(c.blocks, start, start + m, out, want);
  }

  /** Nothing stops the answer before it has its blocks. */
  lemma TooEarly(r: Rules, c: Chain, start: nat, count: nat, m: nat, readable: set<Hash>, out: seq<Block>, stop: nat,
                 want: seq<Block>)
    requires ChainOk(c) && c.blocks.Keys <= readable && start <= stop < start + m && 2 <= m == MaxItems(count) <= 512
    requires start + m <= c.latest && Linear(c.blocks, start, start + m + 1)
    requires Complete(c.blocks, start, start + m, want) && Bytes(r, want) <= MAX_RESPONSE_BYTES
    requires Complete(c.blocks, start, stop, out)
    ensures !Stopped(r, c, start, count, readable, out, stop)
  {
    hide Bytes, Complete, ChainOk, Linear;
    KeyedByHash(c);
    SingleHere(c.blocks, start, start + m + 1, stop);
    forall g | Complete(c.blocks, stop, stop + 1, g)
      ensures (|out| + |g|) % U32 <= MaxItems(count) && Bytes(r, out) + Bytes(r, g) <= MAX_RESPONSE_BYTES
    {
      RoomForOne(r, c.blocks, start, stop, m, out, g, want);
    }
  }

  lemma KeyedByHash(c: Chain)
    requires ChainOk(c)
    ensures forall k :: k in c.blocks ==> c.blocks[k].hash == k
  {
  }

  lemma SingleHere(blocks: DagMap, lo: nat, hi: nat, h: nat)
    requires Linear(blocks, lo, hi) && lo <= h < hi
    ensures AtHeight(blocks, h) != {} && Linear(blocks, lo, h) && Linear(blocks, h, h + 1) && Linear(blocks, lo, hi - 1)
  {
    assert Single(blocks, h);
  }

  /** The block of the next height still fits both caps. */
  lemma RoomForOne(r: Rules, blocks: DagMap, start: nat, stop: nat, m: nat, out: seq<Block>, g: seq<Block>,
                   want: seq<Block>)
    requires (forall k :: k in blocks ==> blocks[k].hash == k) && start <= stop < start + m <= start + 512
    requires Linear(blocks, start, start + m + 1) && Complete(blocks, start, start + m, want)
    requires Complete(blocks, start, stop, out) && Complete(blocks, stop, stop + 1, g)
    ensures (|out| + |g|) % U32 <= m && Bytes(r, out) + Bytes(r, g) <= Bytes(r, want)
  {
    hide Bytes, Complete, AtHeight, Linear;
    SingleHere(blocks, start, start + m + 1, start + m);
    OneMoreHeight(blocks, start, stop, out, g);
    RangePrefix(blocks, start, stop + 1, start + m, out + g, want);
    assert want == (out + g) + want[|out + g|..];
    BytesAppend(r, out + g, want[|out + g|..]);
    BytesAppend(r, out, g);
    SmallMod(|out| + |g|, U32);
  }

  lemma OneMoreHeight(blocks: DagMap, lo: nat, h: nat, out: seq<Block>, g: seq<Block>)
    requires lo <= h && Complete(blocks, lo, h, out) && Complete(blocks, h, h + 1, g)
    ensures Complete(blocks, lo, h + 1, out + g)
  {
    var all := out + g;
    forall i, j | 0 <= i < j < |all| ensures Before(RowOf(all[i]), RowOf(all[j])) {
      if i < |out| { assert out[i] in out; }
      if j >= |out| { assert g[j - |out|] in g; }
    }
  }
}
