/**
 * The per-stream write queue (src/basic/write_queue.cpp). The source keeps three counters per item, the
 * index of the item being sent and a running total. The specification keeps the queued items and two
 * positions in their concatenation: everything before `acked` is acknowledged, everything before `sent`
 * was handed to the connection.
 */
module WriteQueues {
  import opened Basics

  type Callback = nat

  datatype Item = Item(data: seq<byte>, cb: Callback)

  datatype Queue = Queue(items: seq<Item>, acked: nat, sent: nat, limit: nat)

  function Bytes(items: seq<Item>): seq<byte> {
    if items == [] then [] else items[0].data + Bytes(items[1..])
  }

  lemma {:induction false} BytesAppend(a: seq<Item>, b: seq<Item>)
    ensures Bytes(a + b) == Bytes(a) + Bytes(b)
  {
    if a == [] {
      assert a + b == b;
    } else {
      assert (a + b)[1..] == a[1..] + b;
      BytesAppend(a[1..], b);
      Assoc(a[0].data, Bytes(a[1..]), Bytes(b));
    }
  }

  predicate NonEmptyItems(items: seq<Item>) {
    forall i :: 0 <= i < |items| ==> items[i].data != []
  }

  predicate ValidQueue(q: Queue) {
    && NonEmptyItems(q.items)
    && q.acked <= q.sent <= |Bytes(q.items)|
    && (q.items != [] ==> q.acked < |q.items[0].data|)
  }

  function EmptyQueue(limit: nat): Queue { Queue([], 0, 0, limit) }

  function Unsent(q: Queue): seq<byte>
    requires ValidQueue(q)
  {
    Bytes(q.items)[q.sent..]
  }

  predicate CanEnqueue(q: Queue, n: nat)
    requires ValidQueue(q)
  {
    n + |Unsent(q)| <= q.limit
  }

  function Enqueue(q: Queue, data: seq<byte>, cb: Callback): Queue {
    q.(items := q.items + [Item(data, cb)])
  }

  /** Where the item that holds byte `pos` ends. */
  function ItemEnd(items: seq<Item>, pos: nat): (e: nat)
    requires pos < |Bytes(items)|
    ensures pos < e <= |Bytes(items)|
  {
    if pos < |items[0].data| then |items[0].data| else |items[0].data| + ItemEnd(items[1..], pos - |items[0].data|)
  }

  /** A chunk never crosses an item boundary and never exceeds the window. */
  function ChunkSize(q: Queue, window: nat): (n: nat)
    requires ValidQueue(q)
    ensures n <= window && n <= |Unsent(q)|
    ensures n == 0 <==> window == 0 || Unsent(q) == []
  {
    if window == 0 || q.sent == |Bytes(q.items)| then 0 else Min(ItemEnd(q.items, q.sent) - q.sent, window)
  }

  function Chunk(q: Queue, window: nat): (c: seq<byte>)
    requires ValidQueue(q)
    ensures |c| == ChunkSize(q, window)
  {
    Unsent(q)[..ChunkSize(q, window)]
  }

  function Dequeue(q: Queue, window: nat): (r: Queue)
    requires ValidQueue(q)
    ensures ValidQueue(r) && Unsent(q) == Chunk(q, window) + Unsent(r)
  {
    q.(sent := q.sent + ChunkSize(q, window))
  }

  /** Byte `pos` begins an item, or everything ends before it. */
  ghost predicate Boundary(items: seq<Item>, pos: nat) {
    exists k :: 0 <= k <= |items| && |Bytes(items[..k])| == pos
  }

  lemma {:induction false} ItemEndIsBoundary(items: seq<Item>, pos: nat)
    requires pos < |Bytes(items)|
    ensures Boundary(items, ItemEnd(items, pos))
    ensures forall p :: pos < p < ItemEnd(items, pos) && NonEmptyItems(items) ==> !Boundary(items, p)
  {
    var n := |items[0].data|;
    assert Bytes(items) == items[0].data + Bytes(items[1..]);
    if pos < n {
      assert items[..1] == [items[0]] && items[..1][1..] == [] && |Bytes(items[..1])| == n;
      forall p | pos < p < n ensures !Boundary(items, p) {
        forall k | 0 <= k <= |items| ensures |Bytes(items[..k])| != p {
          if k > 0 { assert items[..k][0] == items[0]; }
        }
      }
    } else {
      ItemEndIsBoundary(items[1..], pos - n);
      var k :| 0 <= k <= |items[1..]| && |Bytes(items[1..][..k])| == ItemEnd(items[1..], pos - n);
      PrefixBytes(items, k + 1);
      forall p | pos < p < ItemEnd(items, pos) && NonEmptyItems(items) ensures !Boundary(items, p) {
        if j :| 0 <= j <= |items| && |Bytes(items[..j])| == p {
          PrefixBytes(items, j);
          assert Boundary(items[1..], p - n);
        }
      }
    }
  }

  lemma PrefixBytes(items: seq<Item>, k: nat)
    requires 0 < k <= |items|
    ensures |Bytes(items[..k])| == |items[0].data| + |Bytes(items[1..][..k - 1])|
  {
    assert items[..k][0] == items[0] && items[..k][1..] == items[1..][..k - 1];
  }

  /** A chunk is as long as the window lets it be within its item: it uses the window up or reaches the item's end. */
  lemma ChunkIsMaximal(q: Queue, window: nat)
    requires ValidQueue(q) && Unsent(q) != []
    ensures var n := ChunkSize(q, window);
            && (n == window || Boundary(q.items, q.sent + n))
            && forall p :: q.sent < p < q.sent + n ==> !Boundary(q.items, p)
  {
    ItemEndIsBoundary(q.items, q.sent);
  }

  datatype Ack = Inconsistent | Partial(q: Queue) | Completed(q: Queue, cb: Callback, size: nat)

  /** Only the oldest item can be acknowledged, and only bytes of it that were sent. */
  function AckSent(q: Queue, n: nat): (r: Ack)
    requires ValidQueue(q)
  {
    if q.items == [] || n == 0 || q.acked + n > Min(q.sent, |q.items[0].data|) then Inconsistent
    else if q.acked + n < |q.items[0].data| then Partial(q.(acked := q.acked + n))
    else Completed(Queue(q.items[1..], 0, q.sent - |q.items[0].data|, q.limit), q.items[0].cb, |q.items[0].data|)
  }

  lemma AckKeeps(q: Queue, n: nat)
    requires ValidQueue(q) && !AckSent(q, n).Inconsistent?
    ensures ValidQueue(AckSent(q, n).q) && Unsent(AckSent(q, n).q) == Unsent(q)
  {
    assert Bytes(q.items) == q.items[0].data + Bytes(q.items[1..]);
  }

  lemma EnqueueKeeps(q: Queue, data: seq<byte>, cb: Callback)
    requires ValidQueue(q) && data != []
    ensures ValidQueue(Enqueue(q, data, cb)) && Unsent(Enqueue(q, data, cb)) == Unsent(q) + data
  {
    BytesAppend(q.items, [Item(data, cb)]);
    assert Bytes([Item(data, cb)]) == data;
  }

  // ---------------------------------------------------------------------------------------------
  // Acknowledgements replayed in sending order.

  function Sum(sizes: seq<nat>): nat {
    if sizes == [] then 0 else sizes[0] + Sum(sizes[1..])
  }

  lemma {:induction false} SumAppend(a: seq<nat>, b: seq<nat>)
    ensures Sum(a + b) == Sum(a) + Sum(b)
  {
    if a == [] {
      assert a + b == b;
    } else {
      assert (a + b)[1..] == a[1..] + b;
      SumAppend(a[1..], b);
    }
  }

  /** `sizes`, laid out from position `from` in the first item, respect the item boundaries. */
  predicate Cuts(items: seq<Item>, from: nat, sizes: seq<nat>)
    decreases |sizes|
  {
    sizes == [] ||
    (items != [] && sizes[0] > 0 && from + sizes[0] <= |items[0].data| &&
     if from + sizes[0] == |items[0].data| then Cuts(items[1..], 0, sizes[1..])
       else Cuts(items, from + sizes[0], sizes[1..]))
  }

  /** `pending` are the sizes of the chunks handed out and not yet acknowledged, oldest first. */
  predicate Outstanding(q: Queue, pending: seq<nat>) {
    q.acked + Sum(pending) == q.sent && Cuts(q.items, q.acked, pending)
  }

  lemma {:induction false} CutsExtend(items: seq<Item>, from: nat, sizes: seq<nat>, more: seq<Item>)
    requires Cuts(items, from, sizes)
    ensures Cuts(items + more, from, sizes)
    decreases |sizes|
  {
    if sizes != [] {
      assert (items + more)[1..] == items[1..] + more;
      if from + sizes[0] == |items[0].data| {
        CutsExtend(items[1..], 0, sizes[1..], more);
      } else {
        CutsExtend(items, from + sizes[0], sizes[1..], more);
      }
    }
  }

  lemma {:induction false} CutsAppend(items: seq<Item>, from: nat, sizes: seq<nat>, n: nat)
    requires Cuts(items, from, sizes) && (items != [] ==> from < |items[0].data|) && NonEmptyItems(items)
    requires from + Sum(sizes) < |Bytes(items)| && 0 < n <= ItemEnd(items, from + Sum(sizes)) - (from + Sum(sizes))
    ensures Cuts(items, from, sizes + [n])
    decreases |sizes|
  {
    if sizes == [] {
      assert (sizes + [n])[1..] == [];
    } else {
      assert (sizes + [n])[1..] == sizes[1..] + [n];
      if from + sizes[0] == |items[0].data| {
        assert Bytes(items) == items[0].data + Bytes(items[1..]);
        CutsAppend(items[1..], 0, sizes[1..], n);
      } else {
        CutsAppend(items, from + sizes[0], sizes[1..], n);
      }
    }
  }

  lemma DequeueOutstanding(q: Queue, window: nat, pending: seq<nat>)
    requires ValidQueue(q) && Outstanding(q, pending) && ChunkSize(q, window) > 0
    ensures Outstanding(Dequeue(q, window), pending + [ChunkSize(q, window)])
  {
    CutsAppend(q.items, q.acked, pending, ChunkSize(q, window));
    SumAppend(pending, [ChunkSize(q, window)]);
  }

  /** Acknowledging the oldest outstanding chunk is always consistent. */
  lemma AckOutstanding(q: Queue, pending: seq<nat>)
    requires ValidQueue(q) && pending != [] && Outstanding(q, pending)
    ensures !AckSent(q, pending[0]).Inconsistent?
    ensures Outstanding(AckSent(q, pending[0]).q, pending[1..])
  {
  }

  lemma EnqueueOutstanding(q: Queue, data: seq<byte>, cb: Callback, pending: seq<nat>)
    requires Outstanding(q, pending)
    ensures Outstanding(Enqueue(q, data, cb), pending)
  {
    CutsExtend(q.items, q.acked, pending, [Item(data, cb)]);
  }

  // ---------------------------------------------------------------------------------------------
  // Runs: any mix of enqueueing, dequeueing and in-order acknowledgement.

  datatype Op = Enq(data: seq<byte>, cb: Callback) | Deq(window: nat) | AckOldest

  /**
   * `accepted` items enqueued so far, `chunks` handed out, `pending` not yet acknowledged, `completed` callbacks
   * fired.
   */
  datatype Run = Run(q: Queue, accepted: seq<Item>, chunks: seq<seq<byte>>, pending: seq<nat>,
                     completed: seq<(Callback, nat)>, failed: bool)

  function RunStep(r: Run, op: Op): Run
    requires ValidQueue(r.q)
  {
    match op
    case Enq(data, cb) =>
      if data == [] || !CanEnqueue(r.q, |data|) then r
      else r.(q := Enqueue(r.q, data, cb), accepted := r.accepted + [Item(data, cb)])
    case Deq(w) =>
      if ChunkSize(r.q, w) == 0 then r
      else r.(q := Dequeue(r.q, w), chunks := r.chunks + [Chunk(r.q, w)], pending := r.pending + [ChunkSize(r.q, w)])
    case AckOldest =>
      if r.pending == [] then r
      else
        match AckSent(r.q, r.pending[0])
        case Inconsistent => r.(failed := true)
        case Partial(q) => r.(q := q, pending := r.pending[1..])
        case Completed(q, cb, n) => r.(q := q, pending := r.pending[1..], completed := r.completed + [(cb, n)])
  }

  function Receipt(it: Item): (Callback, nat) { (it.cb, |it.data|) }

  predicate RunInv(r: Run) {
    && ValidQueue(r.q) && Outstanding(r.q, r.pending) && !r.failed
    && |r.completed| + |r.q.items| == |r.accepted|
    && r.q.items == r.accepted[|r.completed|..]
    && (forall i :: 0 <= i < |r.completed| ==> r.completed[i] == Receipt(r.accepted[i]))
    && Concat(r.chunks) + Unsent(r.q) == Bytes(r.accepted)
    && |Unsent(r.q)| <= r.q.limit
  }

  lemma EnqStepKeeps(r: Run, data: seq<byte>, cb: Callback)
    requires RunInv(r) && data != [] && CanEnqueue(r.q, |data|)
    ensures RunInv(RunStep(r, Enq(data, cb)))
  {
    var it := Item(data, cb);
    EnqueueKeeps(r.q, data, cb);
    EnqueueOutstanding(r.q, data, cb, r.pending);
    BytesAppend(r.accepted, [it]);
    assert Bytes([it]) == data + Bytes([it][1..]);
    assert Concat(r.chunks) + (Unsent(r.q) + data) == Concat(r.chunks) + Unsent(r.q) + data;
    assert (r.accepted + [it])[|r.completed|..] == r.accepted[|r.completed|..] + [it];
  }

  lemma DeqStepKeeps(r: Run, w: nat)
    requires RunInv(r) && ChunkSize(r.q, w) > 0
    ensures RunInv(RunStep(r, Deq(w)))
  {
    DequeueOutstanding(r.q, w, r.pending);
    var c, q' := Chunk(r.q, w), Dequeue(r.q, w);
    ConcatAppend(r.chunks, [c]);
    assert Concat([c]) == c + Concat([c][1..]);
    assert Concat(r.chunks) + c + Unsent(q') == Concat(r.chunks) + (c + Unsent(q'));
  }

  lemma AckStepKeeps(r: Run)
    requires RunInv(r) && r.pending != []
    ensures RunInv(RunStep(r, AckOldest))
  {
    AckOutstanding(r.q, r.pending);
    AckKeeps(r.q, r.pending[0]);
    var k := |r.completed|;
    assert r.q.items[0] == r.accepted[k];
    assert r.q.items[1..] == r.accepted[k + 1..];
  }

  lemma RunStepKeeps(r: Run, op: Op)
    requires RunInv(r)
    ensures RunInv(RunStep(r, op)) && RunStep(r, op).q.limit == r.q.limit
  {
    match op
    case Enq(data, cb) => if data != [] && CanEnqueue(r.q, |data|) { EnqStepKeeps(r, data, cb); }
    case Deq(w) => if ChunkSize(r.q, w) > 0 { DeqStepKeeps(r, w); }
    case AckOldest => if r.pending != [] { AckStepKeeps(r); }
  }

  function RunAll(r: Run, ops: seq<Op>): Run
    requires RunInv(r)
    decreases |ops|
  {
    if ops == [] then r else RunStepKeeps(r, ops[0]); RunAll(RunStep(r, ops[0]), ops[1..])
  }

  /**
   * Over every run: acknowledgements in sending order are never found inconsistent, callbacks fire in the order of
   * enqueueing, each with its item's full size, and the chunks handed out concatenate to a prefix of the bytes
   * accepted.
   */
  lemma {:induction false} QueueRuns(limit: nat, r: Run, ops: seq<Op>)
    requires RunInv(r) && r.q.limit == limit
    ensures var e := RunAll(r, ops);
            && RunInv(e) && !e.failed && e.q.limit == limit
            && Concat(e.chunks) <= Bytes(e.accepted)
            && |Bytes(e.accepted)| - |Concat(e.chunks)| <= limit
            && |e.completed| <= |e.accepted|
            && (forall i :: 0 <= i < |e.completed| ==> e.completed[i] == Receipt(e.accepted[i]))
    decreases |ops|
  {
    if ops != [] {
      RunStepKeeps(r, ops[0]);
      QueueRuns(limit, RunStep(r, ops[0]), ops[1..]);
    }
  }

  /** Every run of a new queue. */
  lemma EveryQueueRun(limit: nat, ops: seq<Op>)
    ensures var e := RunAll(Run(EmptyQueue(limit), [], [], [], [], false), ops);
            && !e.failed
            && Concat(e.chunks) <= Bytes(e.accepted) && |Bytes(e.accepted)| - |Concat(e.chunks)| <= limit
            && |e.completed| <= |e.accepted|
            && (forall i :: 0 <= i < |e.completed| ==> e.completed[i] == Receipt(e.accepted[i]))
  {
    QueueRuns(limit, Run(EmptyQueue(limit), [], [], [], [], false), ops);
  }

  // ---------------------------------------------------------------------------------------------
  // Sending everything the window allows.

  datatype Pumped = Pumped(q: Queue, window: nat, chunks: seq<seq<byte>>)

  /** The loop of `YamuxStream::doWrite`. */
  function Pump(q: Queue, window: nat): (p: Pumped)
    requires ValidQueue(q)
    ensures ValidQueue(p.q) && p.q.items == q.items && p.q.acked == q.acked && p.q.limit == q.limit
    decreases |Unsent(q)|
  {
    if ChunkSize(q, window) == 0 then Pumped(q, window, [])
    else
      var p := Pump(Dequeue(q, window), window - ChunkSize(q, window));
      p.(chunks := [Chunk(q, window)] + p.chunks)
  }

  lemma SplitPrefix(u: seq<byte>, c: seq<byte>, rest: seq<byte>, n: nat)
    requires u == c + rest && |c| <= n <= |u|
    ensures u[..n] == c + rest[..n - |c|] && u[n..] == rest[n - |c|..]
  {
  }

  /** Chunk by chunk, the loop sends exactly the longest prefix of the unsent bytes that fits the window. */
  lemma {:induction false} PumpSendsPrefix(q: Queue, window: nat)
    requires ValidQueue(q)
    ensures var p := Pump(q, window);
            var n := Min(window, |Unsent(q)|);
            && Concat(p.chunks) == Unsent(q)[..n] && Unsent(p.q) == Unsent(q)[n..] && p.window == window - n
    decreases |Unsent(q)|
  {
    if ChunkSize(q, window) > 0 {
      var n, c := Min(window, |Unsent(q)|), Chunk(q, window);
      var q', w' := Dequeue(q, window), window - |c|;
      var u, u' := Unsent(q), Unsent(q');
      assert u == c + u';
      PumpSendsPrefix(q', w');
      var p' := Pump(q', w');
      assert Pump(q, window) == p'.(chunks := [c] + p'.chunks);
      assert Min(w', |u'|) == n - |c|;
      SplitPrefix(u, c, u', n);
      ConcatCons(c, p'.chunks);
    }
  }

  lemma {:induction false} PumpChunksNonEmpty(q: Queue, window: nat)
    requires ValidQueue(q)
    ensures forall i :: 0 <= i < |Pump(q, window).chunks| ==> Pump(q, window).chunks[i] != []
    decreases |Unsent(q)|
  {
    if ChunkSize(q, window) > 0 { PumpChunksNonEmpty(Dequeue(q, window), window - ChunkSize(q, window)); }
  }

  lemma ConcatCons(c: seq<byte>, cs: seq<seq<byte>>)
    ensures Concat([c] + cs) == c + Concat(cs)
  {
    assert ([c] + cs)[1..] == cs;
  }

  function Sizes(chunks: seq<seq<byte>>): seq<nat> {
    if chunks == [] then [] else [|chunks[0]|] + Sizes(chunks[1..])
  }

  lemma {:induction false} PumpOutstanding(q: Queue, window: nat, pending: seq<nat>)
    requires ValidQueue(q) && Outstanding(q, pending)
    ensures Outstanding(Pump(q, window).q, pending + Sizes(Pump(q, window).chunks))
    decreases |Unsent(q)|
  {
    if ChunkSize(q, window) == 0 {
      assert pending + [] == pending;
    } else {
      var n, q' := ChunkSize(q, window), Dequeue(q, window);
      DequeueOutstanding(q, window, pending);
      PumpOutstanding(q', window - n, pending + [n]);
      var p' := Pump(q', window - n);
      assert Pump(q, window).q == p'.q;
      SizesCons(Chunk(q, window), p'.chunks);
      assert pending + [n] + Sizes(p'.chunks) == pending + ([n] + Sizes(p'.chunks));
    }
  }

  lemma SizesCons(c: seq<byte>, cs: seq<seq<byte>>)
    ensures Sizes([c] + cs) == [|c|] + Sizes(cs)
  {
    assert ([c] + cs)[1..] == cs;
  }

  // ---------------------------------------------------------------------------------------------
  // The object.

  datatype Entry = Entry(data: seq<byte>, acknowledged: nat, unacknowledged: nat, unsent: nat, cb: Callback)

  predicate Balanced(e: Entry) {
    e.acknowledged + e.unacknowledged + e.unsent == |e.data| && e.data != []
  }

  function ItemOf(e: Entry): Item { Item(e.data, e.cb) }

  function ItemsOf(es: seq<Entry>): (r: seq<Item>)
    ensures |r| == |es|
  {
    if es == [] then [] else [ItemOf(es[0])] + ItemsOf(es[1..])
  }

  function SentOf(es: seq<Entry>): nat {
    if es == [] then 0 else es[0].acknowledged + es[0].unacknowledged + SentOf(es[1..])
  }

  function UnsentOf(es: seq<Entry>): nat {
    if es == [] then 0 else es[0].unsent + UnsentOf(es[1..])
  }

  lemma {:induction false} EntriesAppend(a: seq<Entry>, b: seq<Entry>)
    ensures ItemsOf(a + b) == ItemsOf(a) + ItemsOf(b)
    ensures SentOf(a + b) == SentOf(a) + SentOf(b)
    ensures UnsentOf(a + b) == UnsentOf(a) + UnsentOf(b)
  {
    if a == [] {
      assert a + b == b;
    } else {
      assert (a + b)[1..] == a[1..] + b;
      EntriesAppend(a[1..], b);
    }
  }

  lemma OneEntry(e: Entry)
    ensures ItemsOf([e]) == [ItemOf(e)] && SentOf([e]) == e.acknowledged + e.unacknowledged && UnsentOf([e]) == e.unsent
  {
    assert [e][1..] == [];
  }

  /** Entries that were sent completely. */
  predicate AllSent(es: seq<Entry>) {
    forall i :: 0 <= i < |es| ==> Balanced(es[i]) && es[i].unsent == 0 && (i > 0 ==> es[i].acknowledged == 0)
  }

  /** Entries of which nothing was sent. */
  predicate Untouched(es: seq<Entry>) {
    forall i :: 0 <= i < |es| ==> Balanced(es[i]) && es[i].unsent == |es[i].data|
  }

  lemma {:induction false} AllSentCounts(es: seq<Entry>)
    requires forall i :: 0 <= i < |es| ==> Balanced(es[i]) && es[i].unsent == 0
    ensures SentOf(es) == |Bytes(ItemsOf(es))| && UnsentOf(es) == 0
  {
    if es != [] {
      AllSentCounts(es[1..]);
      assert ItemsOf(es)[1..] == ItemsOf(es[1..]);
    }
  }

  lemma {:induction false} UntouchedCounts(es: seq<Entry>)
    requires Untouched(es)
    ensures SentOf(es) == 0 && UnsentOf(es) == |Bytes(ItemsOf(es))|
  {
    if es != [] {
      UntouchedCounts(es[1..]);
      assert ItemsOf(es)[1..] == ItemsOf(es[1..]);
    }
  }

  /**
   * Items before the active one are fully sent, those after it untouched; only the first can be partly acknowledged.
   */
  predicate Shaped(es: seq<Entry>, active: nat) {
    && active <= |es|
    && AllSent(es[..active])
    && (active < |es| ==> Balanced(es[active]) && es[active].unsent > 0 && Untouched(es[active + 1..])
                          && (active > 0 ==> es[active].acknowledged == 0))
    && (es != [] ==> es[0].acknowledged < |es[0].data|)
  }

  function Abstract(es: seq<Entry>, limit: nat): Queue {
    Queue(ItemsOf(es), if es == [] then 0 else es[0].acknowledged, SentOf(es), limit)
  }

  lemma {:induction false} ItemEndAt(a: seq<Item>, it: Item, c: seq<Item>, d: nat)
    requires d < |it.data|
    ensures |Bytes(a)| + d < |Bytes(a + [it] + c)| && ItemEnd(a + [it] + c, |Bytes(a)| + d) == |Bytes(a)| + |it.data|
  {
    var all := a + [it] + c;
    if a == [] {
      assert all[0] == it;
    } else {
      assert all[1..] == a[1..] + [it] + c;
      ItemEndAt(a[1..], it, c, d);
    }
  }

  lemma {:induction false} ItemsNonEmpty(es: seq<Entry>)
    requires forall i :: 0 <= i < |es| ==> Balanced(es[i])
    ensures NonEmptyItems(ItemsOf(es))
  {
    if es != [] {
      ItemsNonEmpty(es[1..]);
      assert ItemsOf(es)[1..] == ItemsOf(es[1..]);
    }
  }

  lemma BytesAround(a: seq<Item>, it: Item, c: seq<Item>)
    ensures Bytes(a + [it] + c) == Bytes(a) + it.data + Bytes(c)
  {
    BytesAppend(a, [it]);
    BytesAppend(a + [it], c);
    assert Bytes([it]) == it.data + Bytes([it][1..]);
  }

  /** The counters around the active entry `e`: its predecessors `a` are sent, its successors `c` are not. */
  lemma AroundActive(a: seq<Entry>, e: Entry, c: seq<Entry>)
    requires AllSent(a) && Untouched(c)
    ensures var es := a + [e] + c;
            && ItemsOf(es) == ItemsOf(a) + [ItemOf(e)] + ItemsOf(c)
            && SentOf(es) == |Bytes(ItemsOf(a))| + e.acknowledged + e.unacknowledged
            && UnsentOf(es) == e.unsent + |Bytes(ItemsOf(c))|
  {
    AllSentCounts(a);
    UntouchedCounts(c);
    OneEntry(e);
    EntriesAppend(a, [e]);
    EntriesAppend(a + [e], c);
  }

  lemma AllBalanced(es: seq<Entry>, active: nat)
    requires Shaped(es, active)
    ensures forall i :: 0 <= i < |es| ==> Balanced(es[i])
  {
    forall i | 0 <= i < |es|
      ensures Balanced(es[i])
    {
      if i < active {
        assert es[..active][i] == es[i];
      } else if i > active {
        assert es[active + 1..][i - active - 1] == es[i];
      }
    }
  }

  lemma SplitAt(es: seq<Entry>, active: nat)
    requires active < |es|
    ensures es == es[..active] + [es[active]] + es[active + 1..]
  {
  }

  lemma ShapedIsValid(es: seq<Entry>, active: nat, limit: nat)
    requires Shaped(es, active)
    ensures ValidQueue(Abstract(es, limit)) && |Unsent(Abstract(es, limit))| == UnsentOf(es)
    ensures UnsentOf(es) == 0 <==> active == |es|
  {
    if active == |es| {
      assert es[..active] == es;
      AllSentCounts(es);
    } else {
      SplitAt(es, active);
      AroundActive(es[..active], es[active], es[active + 1..]);
      BytesAround(ItemsOf(es[..active]), ItemOf(es[active]), ItemsOf(es[active + 1..]));
    }
    AllBalanced(es, active);
    ItemsNonEmpty(es);
    if es != [] {
      assert SentOf(es) >= es[0].acknowledged;
      assert ItemsOf(es)[0] == ItemOf(es[0]);
    }
  }

  function Sending(e: Entry, n: nat): Entry
    requires n <= e.unsent
  {
    e.(unsent := e.unsent - n, unacknowledged := e.unacknowledged + n)
  }

  /** A chunk of a queue that splits as `a`, `it`, `c` with the position `done` bytes into `it`. */
  lemma ChunkInside(q: Queue, a: seq<Item>, it: Item, c: seq<Item>, done: nat, window: nat)
    requires ValidQueue(q) && q.items == a + [it] + c && q.sent == |Bytes(a)| + done && done < |it.data| && window > 0
    ensures var n := Min(|it.data| - done, window);
            Chunk(q, window) == it.data[done..done + n]
  {
    var n := Min(|it.data| - done, window);
    ItemEndAt(a, it, c, done);
    BytesAround(a, it, c);
    assert Unsent(q) == it.data[done..] + Bytes(c);
    assert (it.data[done..] + Bytes(c))[..n] == it.data[done..done + n];
  }

  lemma TakeChunk(es: seq<Entry>, active: nat, limit: nat, window: nat)
    requires Shaped(es, active) && active < |es| && window > 0
    ensures var e, n := es[active], Min(es[active].unsent, window);
            var q, done := Abstract(es, limit), e.acknowledged + e.unacknowledged;
            ValidQueue(q) && done + n <= |e.data| && Chunk(q, window) == e.data[done..done + n]
  {
    var a, e, c := es[..active], es[active], es[active + 1..];
    ShapedIsValid(es, active, limit);
    SplitAt(es, active);
    AroundActive(a, e, c);
    ChunkInside(Abstract(es, limit), ItemsOf(a), ItemOf(e), ItemsOf(c), e.acknowledged + e.unacknowledged, window);
  }

  lemma TakeShape(es: seq<Entry>, active: nat, n: nat)
    requires Shaped(es, active) && active < |es| && 0 < n <= es[active].unsent
    ensures Shaped(es[active := Sending(es[active], n)], if n == es[active].unsent then active + 1 else active)
  {
    var e := Sending(es[active], n);
    var es' := es[active := e];
    assert es'[..active] == es[..active] && es'[active + 1..] == es[active + 1..];
    if n == es[active].unsent {
      assert es'[..active + 1] == es[..active] + [e];
      if active + 1 < |es| {
        assert es[active + 1..][0] == es'[active + 1];
        assert es'[active + 2..] == es[active + 1..][1..];
      }
    }
  }

  lemma TakeCounts(es: seq<Entry>, active: nat, n: nat)
    requires Shaped(es, active) && active < |es| && n <= es[active].unsent
    ensures var es' := es[active := Sending(es[active], n)];
            ItemsOf(es') == ItemsOf(es) && SentOf(es') == SentOf(es) + n && UnsentOf(es') == UnsentOf(es) - n
  {
    var a, e, c := es[..active], es[active], es[active + 1..];
    var e' := Sending(e, n);
    SplitAt(es, active);
    assert es[active := e'] == a + [e'] + c;
    AroundActive(a, e, c);
    AroundActive(a, e', c);
  }

  /** The counters of the source stand for the specification value `q`. */
  ghost predicate RepresentsQueue(es: seq<Entry>, active: nat, totalUnsent: nat, q: Queue) {
    Shaped(es, active) && totalUnsent == UnsentOf(es) && q == Abstract(es, q.limit)
  }

  class WriteQueue {
    const sizeLimit: nat
    var activeIndex: nat
    var totalUnsent: nat
    var queue: seq<Entry>

    /** The specification value this object stands for. */
    ghost var state: Queue

    ghost predicate Valid()
      reads this
    {
      RepresentsQueue(queue, activeIndex, totalUnsent, state) && ValidQueue(state) && state.limit == sizeLimit
    }

    constructor (sizeLimit: nat)
      ensures Valid() && state == EmptyQueue(sizeLimit) && this.sizeLimit == sizeLimit
    {
      this.sizeLimit := sizeLimit;
      activeIndex, totalUnsent, queue, state := 0, 0, [], EmptyQueue(sizeLimit);
    }

    method HasRoom(size: nat) returns (ok: bool)
      requires Valid()
      ensures ok == CanEnqueue(state, size)
    {
      ShapedIsValid(queue, activeIndex, sizeLimit);
      ok := size + totalUnsent <= sizeLimit;
    }

    method Add(data: seq<byte>, cb: Callback)
      requires Valid() && data != [] && CanEnqueue(state, |data|)
      modifies this
      ensures Valid() && state == Enqueue(old(state), data, cb)
    {
      var e := Entry(data, 0, 0, |data|, cb);
      OneEntry(e);
      EntriesAppend(queue, [e]);
      AddShape(queue, activeIndex, e);
      ShapedIsValid(queue + [e], activeIndex, sizeLimit);
      totalUnsent := totalUnsent + |data|;
      queue, state := queue + [e], Enqueue(state, data, cb);
    }

    /** The counter updates of `dequeue`. */
    method MarkSent(n: nat)
      requires Valid() && activeIndex < |queue| && 0 < n <= queue[activeIndex].unsent
      modifies this
      ensures Valid() && state == old(state).(sent := old(state).sent + n)
    {
      TakeShape(queue, activeIndex, n);
      TakeCounts(queue, activeIndex, n);
      var item := Sending(queue[activeIndex], n);
      var after, next := queue[activeIndex := item], if item.unsent == 0 then activeIndex + 1 else activeIndex;
      ShapedIsValid(after, next, sizeLimit);
      queue, activeIndex, totalUnsent, state := after, next, totalUnsent - n, state.(sent := state.sent + n);
    }

    method Take(window: nat) returns (remaining: nat, out: seq<byte>)
      requires Valid()
      modifies this
      ensures Valid() && state == Dequeue(old(state), window)
      ensures out == Chunk(old(state), window) && remaining == window - |out|
    {
      hide ValidQueue, UnsentOf, Unsent;
      ShapedIsValid(queue, activeIndex, sizeLimit);
      if totalUnsent == 0 || window == 0 || activeIndex >= |queue| {
        return window, [];
      }
      TakeChunk(queue, activeIndex, sizeLimit, window);
      var item := queue[activeIndex];
      out := item.data[item.acknowledged + item.unacknowledged..];
      if |out| > window {
        out := out[..window];
      }
      MarkSent(|out|);
      remaining := window - |out|;
    }

    /** `ackDataSent`. On inconsistency nothing changes; a completed item yields its callback and size. */
    method AckDataSent(size: nat) returns (consistent: bool, receipt: Option<(Callback, nat)>)
      requires Valid()
      modifies this
      ensures Valid()
      ensures var r := AckSent(old(state), size);
              && consistent == !r.Inconsistent?
              && receipt == (if r.Completed? then Some((r.cb, r.size)) else None)
              && state == if r.Inconsistent? then old(state) else r.q
    {
      hide ValidQueue, UnsentOf;
      if |queue| == 0 || size == 0 {
        return false, None;
      }
      var item := queue[0];
      FirstSent(queue, activeIndex);
      if size > item.unacknowledged {
        return false, None;
      }
      item := Acking(item, size);
      if item.acknowledged != |item.data| {
        AckPartly(queue, activeIndex, totalUnsent, state, size);
        queue, state := queue[0 := item], AckSent(state, size).q;
        return true, None;
      }
      AckWholly(queue, activeIndex, totalUnsent, state, size);
      queue, state := queue[1..], AckSent(state, size).q;
      if |queue| == 0 {
        activeIndex := 0;
      } else if activeIndex > 0 {
        activeIndex := activeIndex - 1;
      }
      return true, Some((item.cb, |item.data|));
    }

    method GetAllCallbacks() returns (cbs: seq<Callback>)
      requires Valid()
      ensures cbs == Callbacks(state.items)
    {
      cbs := [];
      var i := 0;
      assert queue[0..] == queue;
      while i < |queue|
        invariant 0 <= i <= |queue|
        invariant cbs + Callbacks(ItemsOf(queue[i..])) == Callbacks(ItemsOf(queue))
      {
        assert queue[i..][1..] == queue[i + 1..];
        assert ItemsOf(queue[i..])[1..] == ItemsOf(queue[i + 1..]);
        cbs := cbs + [queue[i].cb];
        i := i + 1;
      }
    }

    method Clear()
      modifies this
      ensures Valid() && state == EmptyQueue(sizeLimit)
    {
      activeIndex, totalUnsent, queue, state := 0, 0, [], EmptyQueue(sizeLimit);
    }
  }

  function Callbacks(items: seq<Item>): seq<Callback> {
    if items == [] then [] else [items[0].cb] + Callbacks(items[1..])
  }

  lemma AddShape(es: seq<Entry>, active: nat, e: Entry)
    requires Shaped(es, active) && Balanced(e) && e.unsent == |e.data|
    ensures Shaped(es + [e], active)
  {
    assert (es + [e])[..active] == es[..active];
    if active < |es| {
      assert (es + [e])[active + 1..] == es[active + 1..] + [e];
    } else {
      assert (es + [e])[active + 1..] == [];
    }
  }

  /** How much of the oldest item is sent. */
  lemma FirstSent(es: seq<Entry>, active: nat)
    requires Shaped(es, active) && es != []
    ensures Balanced(es[0]) && es[0].acknowledged + es[0].unacknowledged == Min(SentOf(es), |es[0].data|)
    ensures es[0].unsent == 0 <==> active > 0
  {
    if active == 0 {
      UntouchedCounts(es[1..]);
    } else {
      assert es[..active][0] == es[0];
    }
  }

  lemma AckShape(es: seq<Entry>, active: nat, e: Entry)
    requires Shaped(es, active) && es != [] && e.data == es[0].data && e.cb == es[0].cb && e.unsent == es[0].unsent
    requires e.acknowledged + e.unacknowledged == es[0].acknowledged + es[0].unacknowledged && e.acknowledged < |e.data|
    ensures Shaped(es[0 := e], active)
    ensures ItemsOf(es[0 := e]) == ItemsOf(es) && SentOf(es[0 := e]) == SentOf(es) &&
            UnsentOf(es[0 := e]) == UnsentOf(es)
  {
    var es' := es[0 := e];
    assert es'[1..] == es[1..];
    if active > 0 {
      assert es'[..active] == es[..active][0 := e];
      if active < |es| { assert es'[active + 1..] == es[active + 1..]; }
    } else {
      assert es'[..active] == es[..active];
    }
  }

  lemma PopShape(es: seq<Entry>, active: nat)
    requires Shaped(es, active) && es != [] && es[0].unsent == 0
    ensures active > 0 && Shaped(es[1..], active - 1)
    ensures ItemsOf(es[1..]) == ItemsOf(es)[1..] && ItemsOf(es)[0] == ItemOf(es[0])
    ensures SentOf(es[1..]) == SentOf(es) - |es[0].data| && UnsentOf(es[1..]) == UnsentOf(es)
    ensures es[1..] != [] ==> es[1].acknowledged == 0
  {
    FirstSent(es, active);
    assert es[1..][..active - 1] == es[..active][1..];
    if active < |es| {
      assert es[1..][active..] == es[active + 1..];
    }
    if |es| > 1 {
      if active == 1 { assert es[1].acknowledged == 0; } else { assert es[..active][1] == es[1]; }
    }
  }

  function Acking(e: Entry, n: nat): Entry
    requires n <= e.unacknowledged
  {
    e.(unacknowledged := e.unacknowledged - n, acknowledged := e.acknowledged + n)
  }

  lemma AckPartly(es: seq<Entry>, active: nat, unsent: nat, q: Queue, n: nat)
    requires RepresentsQueue(es, active, unsent, q) && ValidQueue(q) && es != []
    requires 0 < n <= es[0].unacknowledged && es[0].acknowledged + n < |es[0].data|
    ensures AckSent(q, n).Partial? && ValidQueue(AckSent(q, n).q)
    ensures RepresentsQueue(es[0 := Acking(es[0], n)], active, unsent, AckSent(q, n).q)
  {
    FirstSent(es, active);
    AckShape(es, active, Acking(es[0], n));
    AckKeeps(q, n);
  }

  lemma AckWholly(es: seq<Entry>, active: nat, unsent: nat, q: Queue, n: nat)
    requires RepresentsQueue(es, active, unsent, q) && ValidQueue(q) && es != []
    requires 0 < n <= es[0].unacknowledged && es[0].acknowledged + n == |es[0].data|
    ensures AckSent(q, n) == Completed(AckSent(q, n).q, es[0].cb, |es[0].data|) && ValidQueue(AckSent(q, n).q)
    ensures active > 0 && RepresentsQueue(es[1..], active - 1, unsent, AckSent(q, n).q)
  {
    FirstSent(es, active);
    PopShape(es, active);
    AckKeeps(q, n);
  }
}
