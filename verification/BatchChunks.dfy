/** Greedy chunking of a batch download into native-messaging frames. */
module BatchChunks {
  const BYTES_LIMIT := 700 * 1024
  const ITEMS_LIMIT := 1000

  /** A wire item, with the length of its JSON form in UTF-8 bytes. */
  datatype Item = Item(id: int, bytes: nat)

  function Bytes(c: seq<Item>): nat {
    if c == [] then 0 else c[0].bytes + Bytes(c[1..])
  }

  function Flatten(chunks: seq<seq<Item>>): seq<Item> {
    if chunks == [] then [] else chunks[0] + Flatten(chunks[1..])
  }

  /** What the native host accepts as one frame; an oversized item travels alone. */
  predicate Fits(c: seq<Item>) {
    |c| == 1 || (0 < |c| <= ITEMS_LIMIT && Bytes(c) <= BYTES_LIMIT)
  }

  predicate AllFit(chunks: seq<seq<Item>>) {
    forall i :: 0 <= i < |chunks| ==> Fits(chunks[i])
  }

  /** No chunk has room for the item that follows it. */
  predicate Tight(chunks: seq<seq<Item>>)
    requires AllFit(chunks)
  {
    forall i :: 0 <= i < |chunks| - 1 ==> !Fits(chunks[i] + [chunks[i + 1][0]])
  }

  lemma {:induction false} BytesAppend(a: seq<Item>, b: seq<Item>)
    ensures Bytes(a + b) == Bytes(a) + Bytes(b)
  {
    if a == [] {
      assert a + b == b;
    } else {
      assert (a + b)[1..] == a[1..] + b;
      BytesAppend(a[1..], b);
    }
  }

  lemma {:induction false} FlattenAppend(chunks: seq<seq<Item>>, c: seq<Item>)
    ensures Flatten(chunks + [c]) == Flatten(chunks) + c
  {
    if chunks == [] {
      assert chunks + [c] == [c];
    } else {
      assert (chunks + [c])[1..] == chunks[1..] + [c];
      FlattenAppend(chunks[1..], c);
    }
  }

  /** The chunks are tight and the last of them has no room for `next`. */
  predicate TightBefore(chunks: seq<seq<Item>>, next: Item) {
    AllFit(chunks) && Tight(chunks) && (chunks != [] ==> !Fits(chunks[|chunks| - 1] + [next]))
  }

  lemma PushTight(chunks: seq<seq<Item>>, c: seq<Item>)
    requires Fits(c) && TightBefore(chunks, c[0])
    ensures AllFit(chunks + [c]) && Tight(chunks + [c])
    ensures Flatten(chunks + [c]) == Flatten(chunks) + c
  {
    FlattenAppend(chunks, c);
    var more := chunks + [c];
    assert forall i :: 0 <= i < |more| ==> more[i] == if i < |chunks| then chunks[i] else c;
    assert more[|chunks|][0] == c[0];
  }

  /** Adding an item to the current chunk, by the loop's test. */
  lemma RoomFor(current: seq<Item>, item: Item)
    requires current != [] ==> Fits(current)
    ensures Bytes(current + [item]) == Bytes(current) + item.bytes
    ensures Fits(current + [item]) <==>
      current == [] || (Bytes(current) + item.bytes <= BYTES_LIMIT && |current| < ITEMS_LIMIT)
  {
    BytesAppend(current, [item]);
  }

  method ChunkBatchWireItems(items: seq<Item>) returns (chunks: seq<seq<Item>>)
    ensures Flatten(chunks) == items
    ensures AllFit(chunks) && Tight(chunks)
  {
    chunks := [];
    var current: seq<Item> := [];
    var currentBytes := 0;
    for i := 0 to |items|
      invariant Flatten(chunks) + current == items[..i]
      invariant currentBytes == Bytes(current)
      invariant current != [] ==> Fits(current)
      invariant if current == [] then chunks == [] else TightBefore(chunks, current[0])
    {
      var itemBytes := items[i].bytes;
      RoomFor(current, items[i]);
      if |current| > 0 && (currentBytes + itemBytes > BYTES_LIMIT || |current| >= ITEMS_LIMIT) {
        PushTight(chunks, current);
        chunks := chunks + [current];
        current := [];
        currentBytes := 0;
      }
      current := current + [items[i]];
      currentBytes := currentBytes + itemBytes;
    }
    if |current| > 0 {
      PushTight(chunks, current);
      chunks := chunks + [current];
    }
  }

  /** A run of consecutive items of a fitting chunk fits. */
  lemma RunFits(a: seq<Item>, m: seq<Item>, b: seq<Item>)
    requires Fits(a + m + b) && m != []
    ensures Fits(m)
  {
    BytesAppend(a + m, b);
    BytesAppend(a, m);
  }

  /** Tight chunks are as few as any: whatever items another chunking has still to place beyond
      those of `g` (they come first), it needs at least as many chunks. */
  lemma {:induction false} TightIsFewest(g: seq<seq<Item>>, p: seq<seq<Item>>, ahead: seq<Item>)
    requires AllFit(g) && Tight(g) && AllFit(p)
    requires Flatten(p) == ahead + Flatten(g)
    ensures |g| <= |p|
    decreases |p|
  {
    if g == [] {
    } else if p == [] {
      assert false;
    } else {
      var c, rest := p[0], Flatten(p[1..]);
      assert AllFit(p[1..]) && AllFit(g[1..]) && Tight(g[1..]) by {
        assert forall i :: 0 <= i < |p| - 1 ==> p[1..][i] == p[i + 1];
        assert forall i :: 0 <= i < |g| - 1 ==> g[1..][i] == g[i + 1];
      }
      if |c| <= |ahead| {
        assert rest == (c + rest)[|c|..] == ahead[|c|..] + Flatten(g);
        TightIsFewest(g, p[1..], ahead[|c|..]);
      } else {
        var x := c[|ahead|..];
        assert c == ahead + x by { assert (c + rest)[..|ahead|] == (ahead + Flatten(g))[..|ahead|]; }
        assert x + rest == Flatten(g) by { assert x + rest == (c + rest)[|ahead|..]; }
        if |x| > |g[0]| {
          OverfullChunk(g, ahead, x, rest);
        }
        assert g[0][..|x|] == x by { assert (x + rest)[..|x|] == (g[0] + Flatten(g[1..]))[..|x|]; }
        assert rest == g[0][|x|..] + Flatten(g[1..]) by { assert rest == (x + rest)[|x|..]; }
        TightIsFewest(g[1..], p[1..], g[0][|x|..]);
      }
    }
  }

  /** A chunk that reaches past the first tight chunk would not fit. */
  lemma OverfullChunk(g: seq<seq<Item>>, ahead: seq<Item>, x: seq<Item>, rest: seq<Item>)
    requires AllFit(g) && Tight(g) && g != [] && x + rest == Flatten(g) && |x| > |g[0]|
    ensures !Fits(ahead + x)
  {
    var n := |g[0]|;
    assert |Flatten(g[1..])| > 0;
    assert g[1..] != [];
    var m := g[0] + [g[1][0]];
    assert Flatten(g) == g[0] + (g[1] + Flatten(g[1..][1..]));
    assert x[..n + 1] == m by { assert (x + rest)[..n + 1] == x[..n + 1]; }
    if Fits(ahead + x) {
      assert ahead + x == ahead + m + x[n + 1..];
      RunFits(ahead, m, x[n + 1..]);
    }
  }

  /** No order-preserving partition into frames the host accepts uses fewer of them. */
  lemma GreedyIsOptimal(chunks: seq<seq<Item>>, other: seq<seq<Item>>)
    requires AllFit(chunks) && Tight(chunks) && AllFit(other)
    requires Flatten(other) == Flatten(chunks)
    ensures |chunks| <= |other|
  {
    TightIsFewest(chunks, other, []);
  }
}
