/** The expiring cache of cache.rs: a hash map and a time-ordered deque that
    share their keys but not always their values. */
module Cache {
  import opened Types

  // MessageRecord is Record<Bytes>; MessageInfo, which has no payload, is
  // Record<()>. Both are keyed by `id` and ordered by `hop`.
  datatype Record<P> = Record(id: Id, hop: Hop, sender: Peer, payload: P)

  datatype Timed<P> = Timed(item: Record<P>, time: Instant)

  datatype Store<P> = Store(data: map<Id, Timed<P>>, byTime: seq<Timed<P>>)

  // The two indexes as functions of the operations

  function Inserted<P>(s: Store<P>, r: Record<P>, now: Instant): Store<P> {
    if r.id !in s.data then
      Store(s.data[r.id := Timed(r, now)], s.byTime + [Timed(r, now)])
    else if r.hop < s.data[r.id].item.hop then
      s.(data := s.data[r.id := Timed(r, now)])
    else
      s
  }

  function Lookup<P>(s: Store<P>, id: Id): Option<Record<P>> {
    if id in s.data then Some(s.data[id].item) else None
  }

  function Expired<P>(s: Store<P>, since: Instant): Store<P>
    decreases |s.byTime|
  {
    if s.byTime == [] || s.byTime[0].time > since then
      s
    else
      Expired(Store(s.data - {s.byTime[0].item.id}, s.byTime[1..]), since)
  }

  function Times<P>(q: seq<Timed<P>>): seq<Instant> {
    seq(|q|, i requires 0 <= i < |q| => q[i].time)
  }

  function Items<P>(q: seq<Timed<P>>): seq<Record<P>> {
    seq(|q|, i requires 0 <= i < |q| => q[i].item)
  }

  // The standard library's binary search, a function of the slice and the key.
  type Search = (seq<Instant>, Instant) -> nat

  ghost predicate Sorted(ts: seq<Instant>) {
    forall i, j :: 0 <= i < j < |ts| ==> ts[i] <= ts[j]
  }

  // What it promises: the index of some equal element, or else the insertion
  // point. Among equal elements any index may come back.
  ghost predicate SearchHit(ts: seq<Instant>, t: Instant, i: nat) {
    && i <= |ts|
    && (t in ts ==> i < |ts| && ts[i] == t)
    && (t !in ts ==> (forall k :: 0 <= k < i ==> ts[k] < t) && (forall k :: i <= k < |ts| ==> t < ts[k]))
  }

  ghost predicate IsSearch(search: Search) {
    forall ts: seq<Instant>, t: Instant :: Sorted(ts) ==> SearchHit(ts, t, search(ts, t))
  }

  // None stands for the panic of slicing a deque with start > end.
  function Window<P>(s: Store<P>, start: Instant, end: Instant, search: Search): Option<seq<Record<P>>> {
    var lo := search(Times(s.byTime), start);
    var hi := search(Times(s.byTime), end);
    if lo <= hi <= |s.byTime| then Some(Items(s.byTime[lo..hi])) else None
  }

  // Structural invariant

  // The first deque entry for an id.
  function Find<P>(q: seq<Timed<P>>, id: Id): Option<Timed<P>> {
    if q == [] then None
    else if q[0].item.id == id then Some(q[0])
    else Find(q[1..], id)
  }

  ghost predicate DistinctIds<P>(q: seq<Timed<P>>) {
    forall i, j :: 0 <= i < j < |q| ==> q[i].item.id != q[j].item.id
  }

  // A map entry is its deque entry, or a later one with strictly fewer hops.
  ghost predicate Improves<P>(best: Timed<P>, first: Timed<P>) {
    && best.item.id == first.item.id
    && (best == first || (best.item.hop < first.item.hop && first.time <= best.time))
  }

  ghost predicate Coherent<P>(s: Store<P>) {
    && Sorted(Times(s.byTime))
    && DistinctIds(s.byTime)
    && (forall id :: id in s.data <==> Find(s.byTime, id).Some?)
    && (forall id :: id in s.data ==> Improves(s.data[id], Find(s.byTime, id).value))
  }

  ghost predicate NotAfter<P>(s: Store<P>, now: Instant) {
    forall e :: e in s.byTime ==> e.time <= now
  }

  lemma OnRecord<P>(s: Store<P>, id: Id)
    requires Coherent(s)
    ensures id in s.data <==> Find(s.byTime, id).Some?
  {}

  lemma {:induction false} FindHit<P>(q: seq<Timed<P>>, id: Id)
    ensures Find(q, id).Some? ==> Find(q, id).value in q && Find(q, id).value.item.id == id
    ensures Find(q, id).None? ==> forall e :: e in q ==> e.item.id != id
  {
    if q != [] {
      FindHit(q[1..], id);
      assert q == [q[0]] + q[1..];
    }
  }

  lemma FindUnique<P>(q: seq<Timed<P>>, e: Timed<P>)
    requires DistinctIds(q) && e in q
    ensures Find(q, e.item.id) == Some(e)
  {
    FindHit(q, e.item.id);
    var i :| 0 <= i < |q| && q[i] == e;
    var f := Find(q, e.item.id).value;
    var j :| 0 <= j < |q| && q[j] == f;
    assert i == j;
  }

  lemma {:induction false} FindAppend<P>(q: seq<Timed<P>>, e: Timed<P>, id: Id)
    ensures Find(q + [e], id) ==
            if Find(q, id).Some? then Find(q, id)
            else if e.item.id == id then Some(e)
            else None
  {
    if q == [] {
      assert q + [e] == [e];
      assert [e][1..] == [];
    } else {
      FindAppend(q[1..], e, id);
      assert (q + [e])[1..] == q[1..] + [e];
    }
  }

  lemma InsertKeepsCoherent<P>(s: Store<P>, r: Record<P>, now: Instant)
    requires Coherent(s) && NotAfter(s, now)
    ensures Coherent(Inserted(s, r, now)) && NotAfter(Inserted(s, r, now), now)
  {
    var s' := Inserted(s, r, now);
    if r.id !in s.data {
      var e := Timed(r, now);
      forall id {
        FindAppend(s.byTime, e, id);
      }
      FindHit(s.byTime, r.id);
      forall i | 0 <= i < |s.byTime| ensures s.byTime[i].time <= now && s.byTime[i].item.id != r.id {
        assert s.byTime[i] in s.byTime;
      }
      assert forall i :: 0 <= i < |s.byTime| ==> Times(s.byTime)[i] == s.byTime[i].time;
      assert Sorted(Times(s'.byTime));
    } else {
      FindHit(s.byTime, r.id);
    }
  }

  lemma PopKeepsCoherent<P>(s: Store<P>)
    requires Coherent(s) && s.byTime != []
    ensures Coherent(Store(s.data - {s.byTime[0].item.id}, s.byTime[1..]))
    ensures forall id :: id != s.byTime[0].item.id ==> Find(s.byTime[1..], id) == Find(s.byTime, id)
  {
    var gone := s.byTime[0].item.id;
    var rest := s.byTime[1..];
    FindHit(rest, gone);
    forall e | e in rest ensures e.item.id != gone {
      var i :| 0 <= i < |rest| && rest[i] == e;
      assert rest[i] == s.byTime[i + 1];
    }
    assert forall i :: 0 <= i < |rest| ==> Times(rest)[i] == Times(s.byTime)[i + 1];
  }

  // How many entries at the front of the deque are due.
  function Due<P>(q: seq<Timed<P>>, since: Instant): nat {
    if q == [] || q[0].time > since then 0 else 1 + Due(q[1..], since)
  }

  lemma {:induction false} DueBound<P>(q: seq<Timed<P>>, since: Instant)
    ensures Due(q, since) <= |q|
  {
    if q != [] {
      DueBound(q[1..], since);
    }
  }

  lemma {:induction false} ExpiryPopsDue<P>(s: Store<P>, since: Instant)
    ensures Due(s.byTime, since) <= |s.byTime|
    ensures Expired(s, since).byTime == s.byTime[Due(s.byTime, since)..]
    decreases |s.byTime|
  {
    DueBound(s.byTime, since);
    if s.byTime != [] && s.byTime[0].time <= since {
      ExpiryPopsDue(Store(s.data - {s.byTime[0].item.id}, s.byTime[1..]), since);
    }
  }

  // Expiry goes by the time of first sighting, in both indexes at once, even
  // where a better record was stored later.
  lemma {:induction false} ExpiryExact<P>(s: Store<P>, since: Instant)
    requires Coherent(s)
    ensures Coherent(Expired(s, since))
    ensures forall id :: id in Expired(s, since).data <==> id in s.data && Find(s.byTime, id).value.time > since
    ensures forall id :: id in Expired(s, since).data ==>
      && Expired(s, since).data[id] == s.data[id]
      && Find(Expired(s, since).byTime, id) == Find(s.byTime, id)
    decreases |s.byTime|
  {
    if s.byTime == [] || s.byTime[0].time > since {
      NoneDue(s, since);
    } else {
      var s1 := Store(s.data - {s.byTime[0].item.id}, s.byTime[1..]);
      PopKeepsCoherent(s);
      ExpiryExact(s1, since);
      assert Expired(s, since) == Expired(s1, since);
    }
  }

  lemma NoneDue<P>(s: Store<P>, since: Instant)
    requires Coherent(s) && (s.byTime == [] || s.byTime[0].time > since)
    ensures forall id :: id in s.data ==> Find(s.byTime, id).value.time > since
  {
    forall id | id in s.data ensures Find(s.byTime, id).value.time > since {
      FindHit(s.byTime, id);
      var i :| 0 <= i < |s.byTime| && s.byTime[i] == Find(s.byTime, id).value;
      assert Times(s.byTime)[0] <= Times(s.byTime)[i];
    }
  }

  lemma ExpiryKeepsNotAfter<P>(s: Store<P>, since: Instant, now: Instant)
    requires NotAfter(s, now)
    ensures NotAfter(Expired(s, since), now)
  {
    ExpiryPopsDue(s, since);
  }

  // Window search

  lemma TimesAt<P>(q: seq<Timed<P>>)
    ensures |Times(q)| == |q| && forall i :: 0 <= i < |q| ==> Times(q)[i] == q[i].time
  {}

  // With start <= end the slice never panics; it is a contiguous piece of the
  // deque holding all entries strictly inside the range and none outside the
  // closed one, whichever of several equal timestamps the search lands on.
  lemma WindowExact<P>(s: Store<P>, start: Instant, end: Instant, search: Search) returns (lo: nat, hi: nat)
    requires Sorted(Times(s.byTime)) && IsSearch(search) && start <= end
    ensures lo <= hi <= |s.byTime|
    ensures Window(s, start, end, search) == Some(Items(s.byTime[lo..hi]))
    ensures forall i :: lo <= i < hi ==> start <= s.byTime[i].time <= end
    ensures forall i :: 0 <= i < |s.byTime| && start < s.byTime[i].time < end ==> lo <= i < hi
  {
    var ts := Times(s.byTime);
    TimesAt(s.byTime);
    lo, hi := search(ts, start), search(ts, end);
    assert SearchHit(ts, start, lo) && SearchHit(ts, end, hi);
  }

  lemma WindowDefined<P>(s: Store<P>, start: Instant, end: Instant, search: Search)
    requires Coherent(s) && IsSearch(search) && start <= end
    ensures Window(s, start, end, search).Some?
  {
    var _, _ := WindowExact(s, start, end, search);
  }

  // Record-level reading of the same window.
  lemma WindowMembers<P>(s: Store<P>, start: Instant, end: Instant, search: Search)
    requires Coherent(s) && IsSearch(search) && start <= end
    ensures var w := Window(s, start, end, search);
      && w.Some?
      && (forall r :: r in w.value ==> r.id in s.data && Find(s.byTime, r.id).value.item == r
                                       && start <= Find(s.byTime, r.id).value.time <= end)
      && (forall id :: id in s.data && start < Find(s.byTime, id).value.time < end
                       ==> Find(s.byTime, id).value.item in w.value)
  {
    var lo, hi := WindowExact(s, start, end, search);
    var w := Window(s, start, end, search).value;
    assert forall i :: 0 <= i < |w| ==> w[i] == s.byTime[lo + i].item;
    forall r | r in w
      ensures r.id in s.data && Find(s.byTime, r.id).value.item == r
      ensures start <= Find(s.byTime, r.id).value.time <= end
    {
      var i :| 0 <= i < |w| && w[i] == r;
      FindUnique(s.byTime, s.byTime[lo + i]);
    }
    forall id | id in s.data && start < Find(s.byTime, id).value.time < end
      ensures Find(s.byTime, id).value.item in w
    {
      FindHit(s.byTime, id);
      var i :| 0 <= i < |s.byTime| && s.byTime[i] == Find(s.byTime, id).value;
      assert w[i - lo] == s.byTime[i].item;
    }
  }

  // A range given backwards panics on the deque holding one entry at its end,
  // so start <= end is exactly what makes the slice safe on every deque.
  lemma BackwardsWindowPanics<P>(r: Record<P>, start: Instant, end: Instant, search: Search)
    requires IsSearch(search) && end < start
    ensures var s := Inserted(Store(map[], []), r, end);
      Coherent(s) && Window(s, start, end, search).None?
  {
    var e: Store<P> := Store(map[], []);
    assert Coherent(e) && NotAfter(e, end);
    InsertKeepsCoherent(e, r, end);
    var s := Inserted(e, r, end);
    var ts := Times(s.byTime);
    assert ts == [end];
    assert SearchHit(ts, start, search(ts, start)) && SearchHit(ts, end, search(ts, end));
  }

  // And where it does not panic, a range given backwards holds nothing.
  lemma BackwardsWindowEmpty<P>(s: Store<P>, start: Instant, end: Instant, search: Search)
    requires Sorted(Times(s.byTime)) && IsSearch(search) && end < start && Window(s, start, end, search).Some?
    ensures Window(s, start, end, search) == Some([])
  {
    var ts := Times(s.byTime);
    TimesAt(s.byTime);
    var lo, hi := search(ts, start), search(ts, end);
    assert SearchHit(ts, start, lo) && SearchHit(ts, end, hi);
    assert s.byTime[lo..hi] == [];
  }

  // A search with that contract exists.
  function LowerBound(ts: seq<Instant>, t: Instant): nat {
    if ts == [] || t <= ts[0] then 0 else 1 + LowerBound(ts[1..], t)
  }

  lemma {:induction false} LowerBoundHits(ts: seq<Instant>, t: Instant)
    requires Sorted(ts)
    ensures SearchHit(ts, t, LowerBound(ts, t))
  {
    if ts != [] && ts[0] < t {
      var rest := ts[1..];
      assert Sorted(rest);
      LowerBoundHits(rest, t);
      assert ts == [ts[0]] + rest;
    }
  }

  lemma LowerBoundIsSearch()
    ensures IsSearch(LowerBound)
  {
    forall ts: seq<Instant>, t: Instant | Sorted(ts) ensures SearchHit(ts, t, LowerBound(ts, t)) {
      LowerBoundHits(ts, t);
    }
  }

  // The cache object

  class ExpiringCache<P> {
    var data: map<Id, Timed<P>>
    var byTime: seq<Timed<P>>

    ghost function Model(): Store<P>
      reads this
    {
      Store(data, byTime)
    }

    ghost predicate Valid(now: Instant)
      reads this
    {
      Coherent(Model()) && NotAfter(Model(), now)
    }

    constructor ()
      ensures Model() == Store(map[], []) && forall now :: Valid(now)
    {
      data, byTime := map[], [];
    }

    // Returns whether the key was new.
    method Insert(item: Record<P>, now: Instant) returns (isNew: bool)
      requires Valid(now)
      modifies this
      ensures Valid(now)
      ensures Model() == Inserted(old(Model()), item, now)
      ensures isNew <==> old(Lookup(Model(), item.id)).None?
      ensures isNew ==> byTime == old(byTime) + [Timed(item, now)]
      ensures !isNew ==> byTime == old(byTime)
    {
      InsertKeepsCoherent(Model(), item, now);
      var ptr := Timed(item, now);
      if item.id in data {
        if ptr.item.hop < data[item.id].item.hop {
          data := data[item.id := ptr];
        }
        isNew := false;
      } else {
        data := data[item.id := ptr];
        byTime := byTime + [ptr];
        isNew := true;
      }
    }

    method Get(id: Id) returns (r: Option<Record<P>>)
      ensures r == Lookup(Model(), id)
    {
      r := if id in data then Some(data[id].item) else None;
    }

    method IterRange(start: Instant, end: Instant, search: Search) returns (r: Option<seq<Record<P>>>)
      ensures r == Window(Model(), start, end, search)
    {
      var ts := Times(byTime);
      var lo, hi := search(ts, start), search(ts, end);
      r := if lo <= hi <= |byTime| then Some(Items(byTime[lo..hi])) else None;
    }

    method RemoveOlderThan(since: Instant, ghost now: Instant)
      requires Valid(now)
      modifies this
      ensures Valid(now)
      ensures Model() == Expired(old(Model()), since)
      ensures forall id :: id in data <==> id in old(data) && Find(old(byTime), id).value.time > since
      ensures forall id :: id in data ==> data[id] == old(data)[id]
    {
      ghost var before := Model();
      ExpiryExact(before, since);
      ExpiryKeepsNotAfter(before, since, now);
      while byTime != [] && byTime[0].time <= since
        invariant Expired(Model(), since) == Expired(before, since)
        decreases |byTime|
      {
        data := data - {byTime[0].item.id};
        byTime := byTime[1..];
      }
    }
  }
}
