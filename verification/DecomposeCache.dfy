/**
  The decomposition result cache: an ordered dictionary trimmed from its oldest
  end. The reference it is proved against knows only the history of calls.

  Decomposing is an oracle: a call carries the result it would produce on a miss.
  A decomposition that raises stores nothing and is not a call here.
 */
module DecomposeCache {
  import opened Collections

  /** The digest of strategy and goal. */
  type Key = string

  datatype Call<R> = Call(key: Key, made: R)

  datatype Cache<R> = Cache(order: seq<Key>, results: map<Key, R>)

  function Elems(s: seq<Key>): set<Key> {
    set x | x in s
  }

  function Without(s: seq<Key>, k: Key): seq<Key> {
    if |s| == 0 then [] else if s[0] == k then Without(s[1..], k) else [s[0]] + Without(s[1..], k)
  }

  /** A hit moves the key to the newest end; a miss stores the result made and may evict the oldest. */
  function Access<R>(c: Cache<R>, capacity: int, call: Call<R>): (Cache<R>, R) {
    if call.key in c.results then
      (Cache(Without(c.order, call.key) + [call.key], c.results), c.results[call.key])
    else
      var order := c.order + [call.key];
      var results := c.results[call.key := call.made];
      if |order| > capacity then (Cache(order[1..], results - {order[0]}), call.made)
      else (Cache(order, results), call.made)
  }

  function Run<R>(capacity: int, h: seq<Call<R>>): Cache<R> {
    if |h| == 0 then Cache([], map[]) else Access(Run(capacity, h[..|h| - 1]), capacity, h[|h| - 1]).0
  }

  // ---- the reference, defined on the history alone

  /** The position of the last call with a key, or -1. */
  function LastUse<R>(h: seq<Call<R>>, k: Key): (i: int)
    ensures -1 <= i < |h|
    ensures i >= 0 ==> h[i].key == k
    ensures forall j :: i < j < |h| ==> h[j].key != k
  {
    if |h| == 0 then -1
    else if h[|h| - 1].key == k then |h| - 1
    else LastUse(h[..|h| - 1], k)
  }

  /** The distinct keys called after the last call with k. */
  function UsedSince<R>(h: seq<Call<R>>, k: Key): set<Key> {
    set j | LastUse(h, k) < j < |h| :: h[j].key
  }

  /** A key is among the `capacity` most recently used distinct ones. */
  predicate Recent<R>(h: seq<Call<R>>, capacity: int, k: Key) {
    LastUse(h, k) >= 0 && |UsedSince(h, k)| < capacity
  }

  /** The result of the last call with k that found it not recent. */
  function Stored<R>(h: seq<Call<R>>, capacity: int, k: Key): R
    requires LastUse(h, k) >= 0
    decreases |h|
  {
    var i := LastUse(h, k);
    if Recent(h[..i], capacity, k) then Stored(h[..i], capacity, k) else h[i].made
  }

  /** What the cache is promised to hold after a history. */
  ghost predicate IsRecency<R(!new)>(c: Cache<R>, capacity: int, h: seq<Call<R>>) {
    && Distinct(c.order)
    && (forall a, b :: 0 <= a < b < |c.order| ==> LastUse(h, c.order[a]) < LastUse(h, c.order[b]))
    && (forall k :: k in c.order <==> Recent(h, capacity, k))
    && c.results.Keys == Elems(c.order)
    && (forall k :: k in c.results ==> LastUse(h, k) >= 0 && c.results[k] == Stored(h, capacity, k))
  }

  // ---- proof

  /** The key at position a has been followed by exactly the keys after it in the order. */
  ghost predicate Follows<R>(order: seq<Key>, h: seq<Call<R>>, a: nat)
    requires a < |order|
  {
    LastUse(h, order[a]) >= 0 && UsedSince(h, order[a]) == Elems(order[a + 1..])
  }

  ghost predicate Tracks<R>(order: seq<Key>, h: seq<Call<R>>) {
    Distinct(order) && forall a :: 0 <= a < |order| ==> Follows(order, h, a)
  }

  ghost predicate RestIsOld<R>(order: seq<Key>, capacity: int, h: seq<Call<R>>) {
    forall k :: LastUse(h, k) >= 0 && k !in order ==> |UsedSince(h, k)| >= capacity
  }

  ghost predicate Inv<R>(order: seq<Key>, capacity: int, h: seq<Call<R>>) {
    && Tracks(order, h)
    && RestIsOld(order, capacity, h)
    && (|order| > 0 ==> |order| <= capacity)
  }

  lemma {:induction false} DistinctSize(s: seq<Key>)
    requires Distinct(s)
    ensures |Elems(s)| == |s|
  {
    if |s| > 0 {
      DistinctSize(s[1..]);
      assert Elems(s) == Elems(s[1..]) + {s[0]};
    }
  }

  lemma {:induction false} ElemsAppend(s: seq<Key>, t: seq<Key>)
    ensures Elems(s + t) == Elems(s) + Elems(t)
  {
  }

  lemma {:induction false} Grows(s: set<Key>, x: Key)
    ensures |s + {x}| >= |s|
  {
    if x in s { assert s + {x} == s; }
  }

  lemma {:induction false} CallShifts<R>(h: seq<Call<R>>, call: Call<R>, k: Key)
    ensures LastUse(h + [call], k) == if call.key == k then |h| else LastUse(h, k)
    ensures UsedSince(h + [call], k) == if call.key == k then {} else UsedSince(h, k) + {call.key}
  {
    var g := h + [call];
    assert g[..|h|] == h;
    if call.key != k {
      var i := LastUse(h, k);
      forall x | x in UsedSince(h, k) + {call.key} ensures x in UsedSince(g, k) {
        if x == call.key {
          assert g[|h|].key == x;
        } else {
          var j :| i < j < |h| && h[j].key == x;
          assert g[j].key == x;
        }
      }
    }
  }

  lemma {:induction false} WithoutSplits(s: seq<Key>, k: Key, p: nat)
    requires Distinct(s) && p < |s| && s[p] == k
    ensures Without(s, k) == s[..p] + s[p + 1..]
  {
    if p == 0 {
      WithoutNothing(s[1..], k);
    } else {
      WithoutSplits(s[1..], k, p - 1);
      assert s[1..][..p - 1] == s[1..p];
      assert s[1..][p..] == s[p + 1..];
    }
  }

  lemma {:induction false} WithoutNothing(s: seq<Key>, k: Key)
    requires k !in s
    ensures Without(s, k) == s
  {
    if |s| > 0 { WithoutNothing(s[1..], k); }
  }

  /** A key's own call puts it at the newest end. */
  lemma {:induction false} NewestFollows<R>(order: seq<Key>, h: seq<Call<R>>, call: Call<R>)
    requires |order| > 0 && order[|order| - 1] == call.key
    ensures Follows(order, h + [call], |order| - 1)
  {
    CallShifts(h, call, call.key);
    assert Elems(order[|order|..]) == {};
  }

  /** Another key's call adds that key to those that follow. */
  lemma {:induction false} OtherFollows<R>(order: seq<Key>, a: nat, next: seq<Key>, b: nat, h: seq<Call<R>>,
                                           call: Call<R>)
    requires a < |order| && b < |next| && Follows(order, h, a)
    requires order[a] == next[b] != call.key
    requires Elems(next[b + 1..]) == Elems(order[a + 1..]) + {call.key}
    ensures Follows(next, h + [call], b)
  {
    CallShifts(h, call, order[a]);
  }

  lemma {:induction false} HitTracks<R>(order: seq<Key>, h: seq<Call<R>>, call: Call<R>, p: nat)
    requires Tracks(order, h) && p < |order| && order[p] == call.key
    ensures Tracks(order[..p] + order[p + 1..] + [call.key], h + [call])
  {
    var k := call.key;
    var next := order[..p] + order[p + 1..] + [k];
    forall b | 0 <= b < |next| ensures Follows(next, h + [call], b) {
      if b == |next| - 1 {
        NewestFollows(next, h, call);
      } else if b < p {
        var mid := order[b + 1..p];
        assert next[b + 1..] == mid + order[p + 1..] + [k];
        assert order[b + 1..] == mid + [k] + order[p + 1..];
        OtherFollows(order, b, next, b, h, call);
      } else {
        assert next[b + 1..] == order[b + 2..] + [k];
        OtherFollows(order, b + 1, next, b, h, call);
      }
    }
  }

  lemma {:induction false} AppendTracks<R>(order: seq<Key>, h: seq<Call<R>>, call: Call<R>)
    requires Tracks(order, h) && call.key !in order
    ensures Tracks(order + [call.key], h + [call])
  {
    var next := order + [call.key];
    forall b | 0 <= b < |next| ensures Follows(next, h + [call], b) {
      if b == |order| {
        NewestFollows(next, h, call);
      } else {
        assert next[b + 1..] == order[b + 1..] + [call.key];
        OtherFollows(order, b, next, b, h, call);
      }
    }
  }

  lemma {:induction false} DropTracks<R>(order: seq<Key>, h: seq<Call<R>>)
    requires |order| > 0 && Tracks(order, h)
    ensures Tracks(order[1..], h)
  {
    forall b | 0 <= b < |order| - 1 ensures Follows(order[1..], h, b) {
      assert Follows(order, h, b + 1);
      assert order[1..][b + 1..] == order[b + 2..];
    }
  }

  /** Old keys stay old; a key leaving the order must have aged enough. */
  lemma {:induction false} StaysOld<R>(order: seq<Key>, next: seq<Key>, capacity: int, h: seq<Call<R>>, call: Call<R>)
    requires RestIsOld(order, capacity, h) && call.key in next
    requires forall k :: k in order && k !in next ==> |UsedSince(h + [call], k)| >= capacity
    ensures RestIsOld(next, capacity, h + [call])
  {
    forall k | LastUse(h + [call], k) >= 0 && k !in next ensures |UsedSince(h + [call], k)| >= capacity {
      CallShifts(h, call, k);
      if k !in order { Grows(UsedSince(h, k), call.key); }
    }
  }

  lemma {:induction false} HitKeeps<R>(order: seq<Key>, capacity: int, h: seq<Call<R>>, call: Call<R>)
    requires Inv(order, capacity, h) && call.key in order
    ensures Inv(Without(order, call.key) + [call.key], capacity, h + [call])
    ensures Elems(Without(order, call.key) + [call.key]) == Elems(order)
  {
    var p :| 0 <= p < |order| && order[p] == call.key;
    WithoutSplits(order, call.key, p);
    HitTracks(order, h, call, p);
    var next := order[..p] + order[p + 1..] + [call.key];
    assert order == order[..p] + [call.key] + order[p + 1..];
    StaysOld(order, next, capacity, h, call);
  }

  lemma {:induction false} MissFits<R>(order: seq<Key>, capacity: int, h: seq<Call<R>>, call: Call<R>)
    requires Inv(order, capacity, h) && call.key !in order && |order| < capacity
    ensures Inv(order + [call.key], capacity, h + [call])
  {
    AppendTracks(order, h, call);
    StaysOld(order, order + [call.key], capacity, h, call);
  }

  /** The evicted key has been followed by `capacity` others. */
  lemma {:induction false} MissEvicts<R>(order: seq<Key>, capacity: int, h: seq<Call<R>>, call: Call<R>)
    requires Inv(order, capacity, h) && call.key !in order && |order| >= capacity
    ensures Inv((order + [call.key])[1..], capacity, h + [call])
  {
    var full := order + [call.key];
    var next := full[1..];
    AppendTracks(order, h, call);
    DropTracks(full, h + [call]);
    assert Follows(full, h + [call], 0);
    DistinctSize(next);
    if |order| > 0 {
      assert next[|next| - 1] == call.key;
      assert full == [full[0]] + next;
      assert forall k :: k in order ==> k in full;
      assert full[0 + 1..] == next;
      StaysOld(order, next, capacity, h, call);
    } else {
      forall k | LastUse(h + [call], k) >= 0 && k !in next ensures |UsedSince(h + [call], k)| >= capacity {
        CallShifts(h, call, k);
        if k != call.key { Grows(UsedSince(h, k), call.key); }
      }
    }
  }

  lemma {:induction false} AccessKeeps<R>(c: Cache<R>, capacity: int, h: seq<Call<R>>, call: Call<R>)
    requires Inv(c.order, capacity, h) && c.results.Keys == Elems(c.order)
    ensures var d := Access(c, capacity, call).0;
      && Inv(d.order, capacity, h + [call]) && d.results.Keys == Elems(d.order)
  {
    var full := c.order + [call.key];
    if call.key in c.results {
      assert call.key in Elems(c.order);
      HitKeeps(c.order, capacity, h, call);
    } else {
      assert call.key !in Elems(c.order);
      ElemsAppend(c.order, [call.key]);
      if |full| > capacity {
        MissEvicts(c.order, capacity, h, call);
        assert full == [full[0]] + full[1..];
        assert Distinct(full) && full[0] !in full[1..];
        ElemsAppend([full[0]], full[1..]);
        assert (Elems(c.order) + {call.key}) - {full[0]} == Elems(full[1..]);
      } else {
        MissFits(c.order, capacity, h, call);
      }
    }
  }

  /** Cached means recent. */
  lemma {:induction false} InvIsRecency<R>(order: seq<Key>, capacity: int, h: seq<Call<R>>)
    requires Inv(order, capacity, h)
    ensures forall k :: k in order <==> Recent(h, capacity, k)
    ensures forall a, b :: 0 <= a < b < |order| ==> LastUse(h, order[a]) < LastUse(h, order[b])
  {
    forall k ensures k in order <==> Recent(h, capacity, k) {
      if k in order {
        var a :| 0 <= a < |order| && order[a] == k;
        assert Follows(order, h, a);
        assert Distinct(order[a + 1..]);
        DistinctSize(order[a + 1..]);
      }
    }
    forall a, b | 0 <= a < b < |order| ensures LastUse(h, order[a]) < LastUse(h, order[b]) {
      assert Follows(order, h, a);
      assert order[b] == order[a + 1..][b - a - 1];
      assert order[b] in UsedSince(h, order[a]);
    }
  }

  lemma {:induction false} RunKeeps<R>(capacity: int, h: seq<Call<R>>)
    ensures Inv(Run(capacity, h).order, capacity, h)
    ensures Run(capacity, h).results.Keys == Elems(Run(capacity, h).order)
  {
    if |h| > 0 {
      RunKeeps(capacity, h[..|h| - 1]);
      assert h == h[..|h| - 1] + [h[|h| - 1]];
      AccessKeeps(Run(capacity, h[..|h| - 1]), capacity, h[..|h| - 1], h[|h| - 1]);
    }
  }

  /** A call with another key leaves what a key is stored with. */
  lemma {:induction false} StoredStays<R>(h: seq<Call<R>>, capacity: int, call: Call<R>, k: Key)
    requires call.key != k && LastUse(h, k) >= 0
    ensures LastUse(h + [call], k) == LastUse(h, k) && Stored(h + [call], capacity, k) == Stored(h, capacity, k)
  {
    CallShifts(h, call, k);
    assert (h + [call])[..LastUse(h, k)] == h[..LastUse(h, k)];
  }

  /** A call with the key itself stores afresh unless the key was recent. */
  lemma {:induction false} StoredOwn<R>(h: seq<Call<R>>, capacity: int, call: Call<R>)
    ensures LastUse(h + [call], call.key) == |h|
    ensures Stored(h + [call], capacity, call.key)
            == if Recent(h, capacity, call.key) then Stored(h, capacity, call.key) else call.made
  {
    CallShifts(h, call, call.key);
    assert (h + [call])[..|h|] == h;
  }

  lemma {:induction false} CachedIsRecent<R>(capacity: int, h: seq<Call<R>>, c: Cache<R>, k: Key)
    requires c == Run(capacity, h)
    ensures k in c.results <==> Recent(h, capacity, k)
  {
    RunKeeps(capacity, h);
    InvIsRecency(c.order, capacity, h);
    assert k in c.results <==> k in Elems(c.order);
  }

  /** Every cached result is the one stored by the key's last call that missed. */
  lemma {:induction false} RunStores<R>(capacity: int, h: seq<Call<R>>, k: Key)
    requires k in Run(capacity, h).results
    ensures LastUse(h, k) >= 0 && Run(capacity, h).results[k] == Stored(h, capacity, k)
  {
    var earlier := h[..|h| - 1];
    var call := h[|h| - 1];
    assert h == earlier + [call];
    CachedIsRecent(capacity, earlier, Run(capacity, earlier), call.key);
    if k == call.key {
      StoredOwn(earlier, capacity, call);
      if k in Run(capacity, earlier).results { RunStores(capacity, earlier, k); }
    } else {
      RunStores(capacity, earlier, k);
      StoredStays(earlier, capacity, call, k);
    }
  }

  /**
    After any history the cache holds exactly the `capacity` most recently used
    keys, oldest first, each with the result of its last call that missed.
   */
  lemma {:induction false} CacheIsRecency<R(!new)>(capacity: int, h: seq<Call<R>>)
    ensures IsRecency(Run(capacity, h), capacity, h)
  {
    var c := Run(capacity, h);
    RunKeeps(capacity, h);
    InvIsRecency(c.order, capacity, h);
    forall k | k in c.results ensures LastUse(h, k) >= 0 && c.results[k] == Stored(h, capacity, k) {
      RunStores(capacity, h, k);
    }
  }

  /** A call answers with the stored result when its key is recent, and with a newly made one when not. */
  lemma {:induction false} AnswerIs<R>(capacity: int, h: seq<Call<R>>, call: Call<R>)
    ensures Access(Run(capacity, h), capacity, call).1
            == if Recent(h, capacity, call.key) then Stored(h, capacity, call.key) else call.made
  {
    RunKeeps(capacity, h);
    InvIsRecency(Run(capacity, h).order, capacity, h);
    assert call.key in Run(capacity, h).results <==> call.key in Elems(Run(capacity, h).order);
    if call.key in Run(capacity, h).results { RunStores(capacity, h, call.key); }
  }

  /** The module-level cache, mutated in place by each call. */
  class ResultCache<R> {
    const capacity: int
    var order: seq<Key>
    var results: map<Key, R>

    ghost function Contents(): Cache<R>
      reads this
    {
      Cache(order, results)
    }

    constructor (capacity: int)
      ensures Contents() == Run(capacity, []) && this.capacity == capacity
    {
      this.capacity := capacity;
      order, results := [], map[];
    }

    method Decompose(key: Key, made: R) returns (answer: R)
      modifies this
      ensures (Contents(), answer) == Access(old(Contents()), capacity, Call(key, made))
    {
      if key in results {
        order := Without(order, key) + [key];
        return results[key];
      }
      results := results[key := made];
      order := order + [key];
      if |order| > capacity {
        results := results - {order[0]};
        order := order[1..];
      }
      answer := made;
    }
  }
}
