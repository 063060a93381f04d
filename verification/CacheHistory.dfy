/** What the expiring cache means: it refines a plain map from ids to a first
    and a best record, and over any history its two indexes answer two
    different questions about the inserts of an id since it last expired. */
module CacheHistory {
  import opened Types
  import opened Cache

  // The refined map

  datatype Entry<P> = Entry(first: Timed<P>, best: Timed<P>)

  ghost function Abstract<P>(s: Store<P>): map<Id, Entry<P>>
    requires Coherent(s)
  {
    map id | id in s.data :: Entry(Find(s.byTime, id).value, s.data[id])
  }

  // Inserting keeps the first record for good and the best one up to date.
  lemma InsertRefines<P>(s: Store<P>, r: Record<P>, now: Instant)
    requires Coherent(s) && NotAfter(s, now)
    ensures Coherent(Inserted(s, r, now))
    ensures var m := Abstract(s); var e := Timed(r, now);
      Abstract(Inserted(s, r, now)) ==
      if r.id !in m then m[r.id := Entry(e, e)]
      else if r.hop < m[r.id].best.item.hop then m[r.id := Entry(m[r.id].first, e)]
      else m
  {
    InsertKeepsCoherent(s, r, now);
    if r.id !in s.data {
      forall id {
        FindAppend(s.byTime, Timed(r, now), id);
      }
    }
  }

  lemma ExpiryRefines<P>(s: Store<P>, since: Instant)
    requires Coherent(s)
    ensures Coherent(Expired(s, since))
    ensures Abstract(Expired(s, since)) ==
            map id | id in Abstract(s) && Abstract(s)[id].first.time > since :: Abstract(s)[id]
  {
    ExpiryExact(s, since);
  }

  // `get` answers with the best record, `iter_range` with first records.
  lemma QueriesRefine<P>(s: Store<P>, start: Instant, end: Instant, search: Search)
    requires Coherent(s) && IsSearch(search) && start <= end
    ensures forall id :: Lookup(s, id) == if id in Abstract(s) then Some(Abstract(s)[id].best.item) else None
    ensures Window(s, start, end, search).Some?
    ensures forall r :: r in Window(s, start, end, search).value ==>
      r.id in Abstract(s) && r == Abstract(s)[r.id].first.item && start <= Abstract(s)[r.id].first.time <= end
    ensures forall id :: id in Abstract(s) && start < Abstract(s)[id].first.time < end ==>
      Abstract(s)[id].first.item in Window(s, start, end, search).value
  {
    WindowMembers(s, start, end, search);
  }

  // Histories

  datatype Op<P> = Insert(record: Record<P>) | RemoveOlderThan(since: Instant)

  datatype Call<P> = Call(op: Op<P>, at: Instant)

  ghost predicate Clocked<P>(calls: seq<Call<P>>) {
    forall i, j :: 0 <= i < j < |calls| ==> calls[i].at <= calls[j].at
  }

  function Called<P>(s: Store<P>, c: Call<P>): Store<P> {
    match c.op
    case Insert(r) => Inserted(s, r, c.at)
    case RemoveOlderThan(since) => Expired(s, since)
  }

  function Replay<P>(calls: seq<Call<P>>): Store<P> {
    if calls == [] then Store(map[], []) else Called(Replay(calls[..|calls| - 1]), calls[|calls| - 1])
  }

  // The inserts of an id since it last became present, oldest first. This
  // knows nothing of the two indexes: an expiry forgets the whole epoch when
  // its oldest insert is due.
  function Epoch<P>(calls: seq<Call<P>>, id: Id): seq<Timed<P>> {
    if calls == [] then []
    else
      var e := Epoch(calls[..|calls| - 1], id);
      var c := calls[|calls| - 1];
      match c.op
      case Insert(r) => if r.id == id then e + [Timed(r, c.at)] else e
      case RemoveOlderThan(since) => if e != [] && e[0].time <= since then [] else e
  }

  // The earliest among those with the fewest hops.
  ghost predicate EarliestOfFewestHops<P>(epoch: seq<Timed<P>>, best: Timed<P>) {
    exists k :: 0 <= k < |epoch| && epoch[k] == best
      && (forall j :: 0 <= j < |epoch| ==> best.item.hop <= epoch[j].item.hop)
      && (forall j :: 0 <= j < k ==> best.item.hop < epoch[j].item.hop)
  }

  ghost predicate Agrees<P>(s: Store<P>, epoch: seq<Timed<P>>, id: Id) {
    && (id in s.data <==> epoch != [])
    && (epoch != [] ==> Find(s.byTime, id) == Some(epoch[0]) && EarliestOfFewestHops(epoch, s.data[id]))
  }

  lemma {:induction false} HistoryTheorem<P>(calls: seq<Call<P>>, now: Instant)
    requires Clocked(calls)
    requires calls != [] ==> calls[|calls| - 1].at <= now
    ensures Coherent(Replay(calls)) && NotAfter(Replay(calls), now)
    ensures forall id :: Agrees(Replay(calls), Epoch(calls, id), id)
  {
    if calls != [] {
      var n := |calls| - 1;
      var before := Replay(calls[..n]);
      var c := calls[n];
      HistoryTheorem(calls[..n], c.at);
      assert calls[..n + 1] == calls;
      match c.op
      case Insert(r) =>
        InsertKeepsCoherent(before, r, c.at);
        forall id ensures Agrees(Replay(calls), Epoch(calls, id), id) {
          assert Agrees(before, Epoch(calls[..n], id), id);
          InsertStep(before, Epoch(calls[..n], id), r, c.at, id);
        }
      case RemoveOlderThan(since) =>
        ExpiryExact(before, since);
        ExpiryKeepsNotAfter(before, since, c.at);
        forall id ensures Agrees(Replay(calls), Epoch(calls, id), id) {
          assert Agrees(before, Epoch(calls[..n], id), id);
        }
    }
  }

  lemma InsertStep<P>(s: Store<P>, epoch: seq<Timed<P>>, r: Record<P>, now: Instant, id: Id)
    requires Coherent(s) && Agrees(s, epoch, id)
    ensures Agrees(Inserted(s, r, now), if r.id == id then epoch + [Timed(r, now)] else epoch, id)
  {
    var e := Timed(r, now);
    FindAppend(s.byTime, e, id);
    if r.id == id {
      var longer := epoch + [e];
      if epoch == [] {
        assert longer[0] == e;
      } else {
        var k :| 0 <= k < |epoch| && epoch[k] == s.data[id]
          && (forall j :: 0 <= j < |epoch| ==> s.data[id].item.hop <= epoch[j].item.hop)
          && (forall j :: 0 <= j < k ==> s.data[id].item.hop < epoch[j].item.hop);
        var k' := if r.hop < s.data[id].item.hop then |epoch| else k;
        assert longer[k'] == Inserted(s, r, now).data[id];
      }
    }
  }
}
