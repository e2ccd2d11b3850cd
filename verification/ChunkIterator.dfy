/** Handing out a list in chunks, to one caller and to interleaved callers. */
module ChunkIterator {
  import opened Types

  class ChunkIterator<T> {
    var items: seq<T>

    constructor (items: seq<T>)
      ensures this.items == items
    {
      this.items := items;
    }

    /** A caller on its own: nothing once the list is exhausted, else the next
        `chunkSize` items or what is left of them. */
    method Next(chunkSize: nat) returns (chunk: Option<seq<T>>)
      modifies this
      ensures chunk.None? <==> old(items) == []
      ensures chunk.Some? ==> chunk.value + items == old(items) && |chunk.value| == Min(|old(items)|, chunkSize)
      ensures chunk.None? ==> items == []
    {
      if items == [] {
        return None;
      }
      if chunkSize == 0 {
        return Some([]);
      }
      var size := Min(|items|, chunkSize);
      var tail := items[size..];
      items := items[..size];
      items, tail := tail, items;
      chunk := Some(tail);
    }
  }

  // ---- Interleaved callers ----

  /** A call between its steps: the emptiness check and the split take the lock separately. */
  datatype Call<T> = Requested(size: nat) | FoundItems(size: nat) | Returned(chunk: Option<seq<T>>)

  /** A chunk split off for a caller that asked for `size` items. */
  datatype Split<T> = Split(caller: nat, size: nat, chunk: seq<T>)

  datatype World<T> = World(items: seq<T>, calls: map<nat, Call<T>>, splits: seq<Split<T>>)

  datatype Event = Request(size: nat) | Check | TakeChunk

  ghost predicate Step<T>(w: World<T>, c: nat, e: Event, w': World<T>) {
    match e
    case Request(size) => c !in w.calls && w' == w.(calls := w.calls[c := Requested(size)])
    case Check =>
      && c in w.calls && w.calls[c].Requested?
      && w' == w.(calls := w.calls[c :=
           if w.items == [] then Returned(None)
           else if w.calls[c].size == 0 then Returned(Some([]))
           else FoundItems(w.calls[c].size)])
    case TakeChunk =>
      && c in w.calls && w.calls[c].FoundItems?
      && var n := Min(|w.items|, w.calls[c].size);
         w' == World(w.items[n..], w.calls[c := Returned(Some(w.items[..n]))],
                     w.splits + [Split(c, w.calls[c].size, w.items[..n])])
  }

  /** A check turns its caller away exactly if there are no items. */
  lemma CheckOutcome<T>(w: World<T>, c: nat, w': World<T>)
    requires Step(w, c, Check, w')
    ensures w'.items == w.items && w'.splits == w.splits
    ensures w'.calls[c] == Returned(None) <==> w.items == []
    ensures w'.calls[c] == Returned(Some([])) <==> w.items != [] && w.calls[c].size == 0
    ensures w'.calls[c] == FoundItems(w.calls[c].size) <==> w.items != [] && w.calls[c].size > 0
  {
  }

  ghost predicate Follows<T(!new)>(w: World<T>, w': World<T>) {
    exists c, e :: Step(w, c, e, w')
  }

  ghost predicate IsRun<T(!new)>(ws: seq<World<T>>) {
    ws != [] && forall i :: 0 <= i < |ws| - 1 ==> Follows(ws[i], ws[i + 1])
  }

  function Flatten<T>(splits: seq<Split<T>>): seq<T> {
    if splits == [] then [] else Flatten(splits[..|splits| - 1]) + splits[|splits| - 1].chunk
  }

  predicate GotItems<T(==)>(call: Call<T>) {
    call.Returned? && call.chunk.Some? && call.chunk.value != []
  }

  ghost predicate Partition<T>(original: seq<T>, w: World<T>) {
    && Flatten(w.splits) + w.items == original
    && (forall s <- w.splits :: 0 < s.size && |s.chunk| <= s.size)
    && (forall c <- w.calls :: w.calls[c].FoundItems? ==> w.calls[c].size > 0)
    && (w.items == [] || |w.items| + |w.splits| <= |original|)
    && (forall c <- w.calls :: w.calls[c] == Returned(None) ==> w.items == [])
  }

  predicate Delivered<T(==)>(s: Split<T>, calls: map<nat, Call<T>>) {
    s.caller in calls && calls[s.caller] == Returned(Some(s.chunk))
  }

  /** Every split is what its one caller got, and nobody got items otherwise. */
  ghost predicate Deliveries<T>(w: World<T>) {
    && (forall s <- w.splits :: Delivered(s, w.calls))
    && (forall i, j :: 0 <= i < j < |w.splits| ==> w.splits[i].caller != w.splits[j].caller)
    && (forall c <- w.calls :: GotItems(w.calls[c]) ==> exists s <- w.splits :: s.caller == c)
  }

  lemma StepPartition<T>(original: seq<T>, w: World<T>, c: nat, e: Event, w': World<T>)
    requires Partition(original, w) && Step(w, c, e, w')
    ensures Partition(original, w')
  {
    if e.TakeChunk? {
      var n := Min(|w.items|, w.calls[c].size);
      assert w'.splits[..|w'.splits| - 1] == w.splits;
      assert w.items == w.items[..n] + w.items[n..];
    }
  }

  lemma StepDeliveries<T>(w: World<T>, c: nat, e: Event, w': World<T>)
    requires Deliveries(w) && Step(w, c, e, w')
    ensures Deliveries(w')
  {
    forall s <- w.splits
      ensures s.caller != c && Delivered(s, w'.calls)
    {
      assert Delivered(s, w.calls);
    }
    forall d <- w'.calls | GotItems(w'.calls[d])
      ensures exists s <- w'.splits :: s.caller == d
    {
      if d == c {
        assert w'.splits[|w.splits|].caller == c;
      } else {
        var s :| s in w.splits && s.caller == d;
        assert s in w'.splits;
      }
    }
  }

  /** In every interleaving the chunks in the order they were split off, followed
      by the remaining items, are the original list; no chunk exceeds its request;
      as many splits as there are items exhaust the list; and a caller is turned
      away only when nothing is left. */
  lemma ChunksPartitionItems<T(!new)>(original: seq<T>, ws: seq<World<T>>, n: nat)
    requires IsRun(ws) && n < |ws| && ws[0] == World(original, map[], [])
    ensures Partition(original, ws[n]) && Deliveries(ws[n])
    ensures Flatten(ws[n].splits) + ws[n].items == original
    ensures |ws[n].splits| >= |original| ==> ws[n].items == []
  {
    if n == 0 {
    } else {
      ChunksPartitionItems(original, ws, n - 1);
      assert Follows(ws[n - 1], ws[n - 1 + 1]);
      var c, e :| Step(ws[n - 1], c, e, ws[n]);
      StepPartition(original, ws[n - 1], c, e, ws[n]);
      StepDeliveries(ws[n - 1], c, e, ws[n]);
    }
  }
}
