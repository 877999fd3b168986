/**
 * The infinite-scroll list pager: the items loaded so far, the last page loaded, whether the
 * listing is exhausted, the last error, and whether a fetch is in flight. A fetch is two
 * events: starting it hands out a ticket carrying the generation it belongs to, and its
 * response or failure later consumes the ticket. A reset starts a new generation, so the
 * answers to fetches started before it are dropped.
 */
module InfiniteScroll {
  import opened Wrappers
  import opened Seqs

  const NetworkError := "网络错误，请重试"

  /** What a list page saves so that it can be rebuilt without fetching again. */
  datatype Snapshot<T> = Snapshot(items: seq<T>, page: int, exhausted: bool)

  /** A fetch in flight: the generation it was started in, the page it asks for, and
      whether it replaces the list instead of extending it. */
  datatype Ticket = Ticket(generation: nat, target: int, isReset: bool)

  /** The keys of the items in `s`. */
  function Keys<T, K(==)>(s: seq<T>, key: T -> K): (ks: set<K>)
    ensures forall i :: 0 <= i < |s| ==> key(s[i]) in ks
    ensures forall k :: k in ks ==> exists i :: 0 <= i < |s| && key(s[i]) == k
  {
    set i | 0 <= i < |s| :: key(s[i])
  }

  /** The items of a new batch whose key is not among `seen`, in batch order. Keys are
      compared only against `seen`: two items of the batch with the same new key are both
      kept. */
  function Unseen<T(==), K(==)>(batch: seq<T>, seen: set<K>, key: T -> K): (r: seq<T>)
    ensures |r| <= |batch|
    ensures forall i :: 0 <= i < |r| ==> key(r[i]) !in seen && r[i] in batch
    ensures forall i :: 0 <= i < |batch| && key(batch[i]) !in seen ==> batch[i] in r
  {
    if batch == [] then []
    else (if key(batch[0]) in seen then [] else [batch[0]]) + Unseen(batch[1..], seen, key)
  }

  /** `Unseen` is what `filter` keeps: an ordered subsequence of the batch holding each
      item with an unseen key as often as the batch does, and nothing else. */
  lemma {:induction false} UnseenIsFilter<T, K>(batch: seq<T>, seen: set<K>, key: T -> K)
    ensures Subsequence(Unseen(batch, seen, key), batch)
    ensures forall x :: x in batch ==>
      multiset(Unseen(batch, seen, key))[x] == if key(x) in seen then 0 else multiset(batch)[x]
  {
    if batch != [] {
      UnseenIsFilter(batch[1..], seen, key);
      var r, tail := Unseen(batch, seen, key), Unseen(batch[1..], seen, key);
      assert batch == [batch[0]] + batch[1..];
      if key(batch[0]) !in seen {
        assert r == [batch[0]] + tail;
        assert r[0] == batch[0] && r[1..] == tail;
      } else {
        assert r == tail;
      }
    }
  }

  /** A batch none of whose keys has been seen is kept whole, duplicates included. */
  lemma {:induction false} UnseenKeepsFreshBatch<T, K>(batch: seq<T>, seen: set<K>, key: T -> K)
    requires forall i :: 0 <= i < |batch| ==> key(batch[i]) !in seen
    ensures Unseen(batch, seen, key) == batch
  {
    if batch != [] {
      UnseenKeepsFreshBatch(batch[1..], seen, key);
    }
  }

  /** A batch all of whose keys have been seen adds nothing. */
  lemma {:induction false} UnseenDropsSeenBatch<T, K>(batch: seq<T>, seen: set<K>, key: T -> K)
    requires forall i :: 0 <= i < |batch| ==> key(batch[i]) in seen
    ensures Unseen(batch, seen, key) == []
  {
    if batch != [] {
      UnseenDropsSeenBatch(batch[1..], seen, key);
    }
  }

  /** The list after a successful fetch: a reset fetch replaces it; otherwise the batch is
      appended, without the items whose key is already in the list when there is a key. */
  function Merged<T(==), K(==)>(prev: seq<T>, batch: seq<T>, isReset: bool, keyOf: Option<T -> K>): (r: seq<T>)
    ensures isReset ==> r == batch
    ensures !isReset ==> prev <= r
    ensures !isReset && keyOf.None? ==> r == prev + batch
    ensures !isReset && keyOf.Some? ==>
      forall i :: |prev| <= i < |r| ==> keyOf.value(r[i]) !in Keys(prev, keyOf.value)
    ensures !isReset && keyOf.Some? ==> r == prev + Unseen(batch, Keys(prev, keyOf.value), keyOf.value)
  {
    if isReset then batch
    else match keyOf
      case None => prev + batch
      case Some(key) => prev + Unseen(batch, Keys(prev, key), key)
  }

  /** With a key, receiving the same page twice adds its items once. */
  lemma RepeatedBatchAddsNothing<T, K>(prev: seq<T>, batch: seq<T>, key: T -> K)
    ensures var once := Merged(prev, batch, false, Some(key));
      Merged(once, batch, false, Some(key)) == once
  {
    var seen := Keys(prev, key);
    var once := prev + Unseen(batch, seen, key);
    assert Merged(prev, batch, false, Some(key)) == once;
    forall i | 0 <= i < |batch| ensures key(batch[i]) in Keys(once, key) {
      if key(batch[i]) in seen {
        var j :| 0 <= j < |prev| && key(prev[j]) == key(batch[i]);
        assert once[j] == prev[j];
      } else {
        var u := Unseen(batch, seen, key);
        assert batch[i] in u;
        var j :| 0 <= j < |u| && u[j] == batch[i];
        assert once[|prev| + j] == batch[i];
      }
    }
    UnseenDropsSeenBatch(batch, Keys(once, key), key);
  }

  /** With a key, an append never brings in an item whose key the list already had, and
      keeps every batch item whose key is new. */
  lemma AppendKeepsNewKeys<T, K>(prev: seq<T>, batch: seq<T>, key: T -> K, i: int)
    requires 0 <= i < |batch| && key(batch[i]) !in Keys(prev, key)
    ensures batch[i] in Merged(prev, batch, false, Some(key))[|prev|..]
  {
    var r := Merged(prev, batch, false, Some(key));
    assert r[|prev|..] == Unseen(batch, Keys(prev, key), key);
  }

  class Pager<T(==), K(==)> {
    /** `getItemKey`, when the page supplies one. */
    const keyOf: Option<T -> K>
    var items: seq<T>
    /** `pageRef`: the last page loaded. */
    var page: int
    /** `exhaustedRef`, mirrored by `isExhausted`. */
    var exhausted: bool
    /** `errorRef`, mirrored by `error`; "" when there is none. */
    var error: string
    /** `fetchingRef`: a fetch is in flight. */
    var fetching: bool
    /** `isLoading` */
    var loading: bool
    /** `isInitialLoading` */
    var initialLoading: bool
    /** `generationRef` */
    var generation: nat
    /** `hadInitialStateRef`: the first mount must skip its page-1 fetch. */
    var hadInitialState: bool
    /** `prevResetKeyRef` */
    var resetKey: string

    /** `isLoading` is set and cleared together with the fetching flag. */
    ghost predicate Valid()
      reads this
    {
      loading == fetching
    }

    /** The hook's first render: the list comes from the snapshot when there is one. */
    constructor (initial: Option<Snapshot<T>>, keyOf: Option<T -> K>, resetKey: string)
      ensures Valid()
      ensures initial.Some? ==>
        items == initial.value.items && page == initial.value.page && exhausted == initial.value.exhausted
      ensures initial.None? ==> items == [] && page == 1 && !exhausted
      ensures initialLoading <==> initial.None?
      ensures hadInitialState <==> initial.Some?
      ensures error == "" && !fetching && generation == 0
      ensures this.keyOf == keyOf && this.resetKey == resetKey
    {
      this.keyOf := keyOf;
      this.resetKey := resetKey;
      match initial {
        case Some(s) =>
          items, page, exhausted := s.items, s.page, s.exhausted;
        case None =>
          items, page, exhausted := [], 1, false;
      }
      error := "";
      fetching, loading := false, false;
      initialLoading := initial.None?;
      generation := 0;
      hadInitialState := initial.Some?;
    }

    /** `doFetch`: ignored while a fetch is in flight; otherwise marks the fetch as started,
        clears the error, starts a new generation for a reset fetch, and hands out the
        ticket. */
    method StartFetch(target: int, isReset: bool) returns (t: Option<Ticket>)
      modifies this
      ensures old(fetching) ==> t.None? && unchanged(this)
      ensures !old(fetching) ==>
        && Valid()
        && generation == (if isReset then old(generation) + 1 else old(generation))
        && t == Some(Ticket(generation, target, isReset))
        && fetching && error == ""
        && initialLoading == (isReset || old(initialLoading))
        && items == old(items) && page == old(page) && exhausted == old(exhausted)
        && hadInitialState == old(hadInitialState) && resetKey == old(resetKey)
    {
      if fetching {
        return None;
      }
      fetching := true;
      loading := true;
      if isReset {
        initialLoading := true;
      }
      error := "";
      if isReset {
        generation := generation + 1;
      }
      t := Some(Ticket(generation, target, isReset));
    }

    /** A fetch answered with a batch: dropped when its generation is stale; otherwise the
        list is replaced or extended, the page becomes the fetched one, the listing is
        exhausted exactly when the answer says there is no more, and the fetch is over. */
    method Complete(t: Ticket, batch: seq<T>, hasMore: bool)
      requires Valid()
      modifies this
      ensures Valid()
      ensures t.generation != old(generation) ==> unchanged(this)
      ensures t.generation == old(generation) ==>
        && items == Merged(old(items), batch, t.isReset, keyOf)
        && page == t.target && exhausted == !hasMore
        && !fetching && !initialLoading
        && error == old(error) && generation == old(generation)
        && hadInitialState == old(hadInitialState) && resetKey == old(resetKey)
    {
      if t.generation != generation {
        return;
      }
      items := Merged(items, batch, t.isReset, keyOf);
      exhausted := !hasMore;
      page := t.target;
      fetching := false;
      loading := false;
      initialLoading := false;
    }

    /** A fetch that failed: dropped when its generation is stale; otherwise the error is
        set and the fetch is over, with the list, page and exhaustion untouched. */
    method Fail(t: Ticket)
      requires Valid()
      modifies this
      ensures Valid()
      ensures t.generation != old(generation) ==> unchanged(this)
      ensures t.generation == old(generation) ==>
        && error == NetworkError && !fetching && !initialLoading
        && items == old(items) && page == old(page) && exhausted == old(exhausted)
        && generation == old(generation)
        && hadInitialState == old(hadInitialState) && resetKey == old(resetKey)
    {
      if t.generation != generation {
        return;
      }
      error := NetworkError;
      fetching := false;
      loading := false;
      initialLoading := false;
    }

    /** The mount effect: skipped once when the list was restored from a snapshot, else
        the page-1 reset fetch. */
    method Mount() returns (t: Option<Ticket>)
      requires Valid()
      modifies this
      ensures Valid()
      ensures !hadInitialState
      ensures old(hadInitialState) ==>
        && t.None? && items == old(items) && page == old(page)
        && exhausted == old(exhausted) && error == old(error) && fetching == old(fetching)
        && initialLoading == old(initialLoading) && generation == old(generation)
        && resetKey == old(resetKey)
      ensures !old(hadInitialState) && old(fetching) ==> t.None? && unchanged(this)
      ensures !old(hadInitialState) && !old(fetching) ==>
        && generation == old(generation) + 1 && t == Some(Ticket(generation, 1, true))
        && fetching && initialLoading && error == ""
        && items == old(items) && page == old(page) && exhausted == old(exhausted)
        && resetKey == old(resetKey)
    {
      if hadInitialState {
        hadInitialState := false;
        return None;
      }
      t := StartFetch(1, true);
    }

    /** The sentinel came into view: the next page is asked for only when nothing is in
        flight, the listing is not exhausted and there is no error. */
    method Intersect(isIntersecting: bool) returns (t: Option<Ticket>)
      requires Valid()
      modifies this
      ensures Valid()
      ensures t.Some? <==> isIntersecting && !old(fetching) && !old(exhausted) && old(error) == ""
      ensures t.Some? ==> t.value == Ticket(old(generation), old(page) + 1, false)
      ensures t.Some? ==>
        && fetching && error == "" && initialLoading == old(initialLoading)
        && hadInitialState == old(hadInitialState) && resetKey == old(resetKey)
      ensures t.None? ==> unchanged(this)
      ensures items == old(items) && page == old(page) && exhausted == old(exhausted)
      ensures generation == old(generation)
    {
      if isIntersecting && !fetching && !exhausted && error == "" {
        t := StartFetch(page + 1, false);
      } else {
        t := None;
      }
    }

    /** `reset`: empty list on page 1, not exhausted, no error, and a page-1 reset fetch
        in a new generation, whatever was in flight before. */
    method Reset() returns (t: Ticket)
      requires Valid()
      modifies this
      ensures Valid()
      ensures generation == old(generation) + 1
      ensures t == Ticket(generation, 1, true)
      ensures items == [] && page == 1 && !exhausted && error == ""
      ensures fetching && initialLoading
      ensures hadInitialState == old(hadInitialState) && resetKey == old(resetKey)
    {
      items := [];
      page := 1;
      exhausted := false;
      error := "";
      fetching := false;
      var started := StartFetch(1, true);
      t := started.value;
    }

    /** The reset-key effect: a different key resets the list, the same key does nothing. */
    method ResetKeyChanged(key: string) returns (t: Option<Ticket>)
      requires Valid()
      modifies this
      ensures Valid()
      ensures key == old(resetKey) ==> t.None? && unchanged(this)
      ensures key != old(resetKey) ==>
        && resetKey == key && generation == old(generation) + 1
        && t == Some(Ticket(generation, 1, true))
        && items == [] && page == 1 && !exhausted && error == "" && fetching && initialLoading
        && hadInitialState == old(hadInitialState)
    {
      if key == resetKey {
        return None;
      }
      resetKey := key;
      var started := Reset();
      t := Some(started);
    }

    /** `retry`: clears the error and asks for the page after the last one loaded (which
        the in-flight guard ignores while a fetch is running). */
    method Retry() returns (t: Option<Ticket>)
      requires Valid()
      modifies this
      ensures Valid()
      ensures error == "" && fetching
      ensures t.Some? <==> !old(fetching)
      ensures t.Some? ==> t.value == Ticket(old(generation), old(page) + 1, false)
      ensures items == old(items) && page == old(page) && exhausted == old(exhausted)
      ensures generation == old(generation) && initialLoading == old(initialLoading)
      ensures hadInitialState == old(hadInitialState) && resetKey == old(resetKey)
    {
      error := "";
      t := StartFetch(page + 1, false);
    }

    /** `getSnapshot` */
    method GetSnapshot() returns (s: Snapshot<T>)
      ensures s == Snapshot(items, page, exhausted)
    {
      s := Snapshot(items, page, exhausted);
    }
  }

  /** A response to a fetch started before a reset is dropped: the list stays as the
      reset left it, and the reset fetch's own response is the one that lands; its
      "no more" then stops the scroll trigger. */
  method StaleResponseAfterReset<T(==), K(==)>(first: seq<T>, late: seq<T>, current: seq<T>)
    returns (shown: seq<T>, next: Option<Ticket>)
    ensures shown == current
    ensures next.None?
  {
    var p := new Pager<T, K>(None, None, "a");
    var t0 := p.Mount();
    p.Complete(t0.value, first, true);
    assert p.items == first && p.page == 1;
    var t1 := p.Intersect(true);
    assert t1 == Some(Ticket(1, 2, false));
    var t2 := p.Reset();
    assert t2.generation == 2 && p.generation == 2;
    p.Complete(t1.value, late, true);
    assert p.items == [] && p.page == 1 && p.fetching;
    p.Complete(t2, current, false);
    assert p.items == current && p.exhausted && !p.fetching;
    shown := p.items;
    next := p.Intersect(true);
  }
}
