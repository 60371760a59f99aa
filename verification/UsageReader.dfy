/** The usage reader: cached files, last-wins by message id, window totals and per-model rows. */
module UsageReader {
  import opened Options
  import opened UsageSpec

  // -- What a cached parse may differ in -------------------------------------

  /** `c` is `all` with some samples dropped. */
  ghost predicate Thinned(c: seq<Sample>, all: seq<Sample>) {
    if all == [] then c == [] else
      || Thinned(c, all[1..])
      || (c != [] && c[0] == all[0] && Thinned(c[1..], all[1..]))
  }

  lemma {:induction false} ThinnedAppend(a: seq<Sample>, x: seq<Sample>, b: seq<Sample>, y: seq<Sample>)
    requires Thinned(a, x) && Thinned(b, y)
    ensures Thinned(a + b, x + y)
  {
    if x == [] {
      assert a + b == b && x + y == y;
    } else {
      assert (x + y)[1..] == x[1..] + y;
      if Thinned(a, x[1..]) {
        ThinnedAppend(a, x[1..], b, y);
      } else {
        assert (a + b)[1..] == a[1..] + b;
        ThinnedAppend(a[1..], x[1..], b, y);
      }
    }
  }

  lemma {:induction false} FreshIsThinned(lines: seq<Sample>, now: int)
    ensures Thinned(Fresh(lines, now), lines)
  {
    if lines != [] {
      FreshIsThinned(lines[1..], now);
      if Expired(lines[0], now) {
        assert Fresh(lines, now) == Fresh(lines[1..], now);
      } else {
        assert Fresh(lines, now)[1..] == Fresh(lines[1..], now);
      }
    }
  }

  lemma {:induction false} ThinnedIsPart(c: seq<Sample>, all: seq<Sample>, s: Sample)
    requires Thinned(c, all) && s in c
    ensures s in all
  {
    if Thinned(c, all[1..]) {
      ThinnedIsPart(c, all[1..], s);
    } else if s != c[0] {
      assert s in c[1..];
      ThinnedIsPart(c[1..], all[1..], s);
    }
  }

  lemma {:induction false} ThinnedRises(c: seq<Sample>, all: seq<Sample>)
    requires Thinned(c, all) && Rising(all)
    ensures Rising(c)
  {
    if all != [] {
      assert Rising(all[1..]) by {
        assert forall k :: 0 <= k < |all[1..]| ==> all[1..][k] == all[k + 1];
      }
      if Thinned(c, all[1..]) {
        ThinnedRises(c, all[1..]);
      } else {
        ThinnedRises(c[1..], all[1..]);
        forall j, k | 0 <= j < k < |c| && c[j].id.Some? && c[j].id == c[k].id
          ensures c[j].ts <= c[k].ts
        {
          assert c[k] == c[1..][k - 1];
          if j == 0 {
            ThinnedIsPart(c[1..], all[1..], c[k]);
            var i :| 0 <= i < |all[1..]| && all[1..][i] == c[k];
            assert all[i + 1] == c[k] && all[0] == c[j];
          } else {
            assert c[j] == c[1..][j - 1];
          }
        }
      }
    }
  }

  // -- Last occurrence wins --------------------------------------------------

  /** `l` without the samples of one id; samples without an id always stay. */
  function Without(l: seq<Sample>, id: Option<string>): seq<Sample> {
    if l == [] then [] else
      (if id.Some? && l[0].id == id then [] else [l[0]]) + Without(l[1..], id)
  }

  lemma {:induction false} WithoutCounts(l: seq<Sample>, id: Option<string>, s: Sample)
    ensures multiset(Without(l, id))[s] == if id.Some? && s.id == id then 0 else multiset(l)[s]
  {
    if l != [] {
      WithoutCounts(l[1..], id, s);
      assert l == [l[0]] + l[1..];
    }
  }

  lemma {:induction false} WithoutAppend(a: seq<Sample>, b: seq<Sample>, id: Option<string>)
    ensures Without(a + b, id) == Without(a, id) + Without(b, id)
  {
    if a == [] {
      assert a + b == b;
    } else {
      assert (a + b)[1..] == a[1..] + b;
      WithoutAppend(a[1..], b, id);
      var head := if id.Some? && a[0].id == id then [] else [a[0]];
      assert Without(a + b, id) == head + (Without(a[1..], id) + Without(b, id));
    }
  }

  lemma {:induction false} WithoutNothing(l: seq<Sample>, id: Option<string>)
    requires forall k :: 0 <= k < |l| ==> l[k].id.None? || l[k].id != id
    ensures Without(l, id) == l
  {
    if l != [] {
      WithoutNothing(l[1..], id);
    }
  }

  lemma WithoutSameBag(a: seq<Sample>, b: seq<Sample>, id: Option<string>)
    requires multiset(a) == multiset(b)
    ensures multiset(Without(a, id)) == multiset(Without(b, id))
  {
    forall s ensures multiset(Without(a, id))[s] == multiset(Without(b, id))[s] {
      WithoutCounts(a, id, s);
      WithoutCounts(b, id, s);
    }
  }

  lemma SupersededSnoc(h: Sample, t: seq<Sample>, s: Sample)
    ensures Superseded(h, t + [s]) <==> Superseded(h, t) || (h.id.Some? && h.id == s.id)
  {
    if h.id.Some? {
      if HasId(t, h.id.value) {
        var k :| 0 <= k < |t| && t[k].id == h.id;
        assert (t + [s])[k].id == h.id;
      }
      if h.id == s.id {
        assert (t + [s])[|t|].id == h.id;
      }
    }
  }

  /** One more sample drops the earlier one with its id and joins at the end. */
  lemma {:induction false} KeptSnoc(l: seq<Sample>, s: Sample)
    ensures Kept(l + [s]) == Without(Kept(l), s.id) + [s]
  {
    if l == [] {
      assert [] + [s] == [s] && [s][1..] == [];
      assert !Superseded(s, []);
      assert Kept([s]) == [s] + Kept([s][1..]);
    } else {
      hide Superseded;
      var h, t := l[0], l[1..];
      assert (l + [s])[1..] == t + [s];
      KeptSnoc(t, s);
      SupersededSnoc(h, t, s);
      var k := Kept(t);
      if Superseded(h, t) {
        assert Kept(l) == k;
      } else {
        assert Kept(l) == [h] + k;
        assert ([h] + k)[1..] == k;
      }
    }
  }

  ghost predicate DistinctIds(v: seq<Sample>) {
    && (forall k :: 0 <= k < |v| ==> v[k].id.Some?)
    && (forall j, k :: 0 <= j < k < |v| ==> v[j].id != v[k].id)
  }

  /** Setting a key of an insertion-ordered map: a known key keeps its place. */
  function Put(v: seq<Sample>, s: Sample): seq<Sample> {
    if v == [] then [s] else if v[0].id == s.id then [s] + v[1..] else [v[0]] + Put(v[1..], s)
  }

  lemma {:induction false} PutIds(v: seq<Sample>, s: Sample, id: string)
    requires HasId(Put(v, s), id)
    ensures s.id == Some(id) || HasId(v, id)
  {
    var p := Put(v, s);
    var k :| 0 <= k < |p| && p[k].id == Some(id);
    if v != [] && v[0].id != s.id {
      if k > 0 {
        assert Put(v[1..], s)[k - 1].id == Some(id);
        PutIds(v[1..], s, id);
        if HasId(v[1..], id) {
          var i :| 0 <= i < |v[1..]| && v[1..][i].id == Some(id);
          assert v[i + 1].id == Some(id);
        }
      }
    } else if v != [] && k > 0 {
      assert v[k].id == Some(id);
    }
  }

  lemma {:induction false} PutReplaces(v: seq<Sample>, s: Sample)
    requires DistinctIds(v) && s.id.Some?
    ensures multiset(Put(v, s)) == multiset(Without(v, s.id)) + multiset{s}
  {
    if v != [] {
      var t := v[1..];
      assert v == [v[0]] + t;
      if v[0].id == s.id {
        WithoutNothing(t, s.id);
        assert Without(v, s.id) == t;
      } else {
        PutReplaces(t, s);
        assert Without(v, s.id) == [v[0]] + Without(t, s.id);
      }
    }
  }

  lemma {:induction false} PutKeepsIdsDistinct(v: seq<Sample>, s: Sample)
    requires DistinctIds(v) && s.id.Some?
    ensures DistinctIds(Put(v, s))
  {
    if v != [] && v[0].id != s.id {
      var t, p, r := v[1..], Put(v, s), Put(v[1..], s);
      PutKeepsIdsDistinct(t, s);
      assert p == [v[0]] + r;
      forall k | 0 <= k < |r| ensures r[k].id != v[0].id {
        if r[k].id == v[0].id {
          PutIds(t, s, v[0].id.value);
        }
      }
    }
  }

  /** The samples collected so far: those without an id, and one per id. */
  ghost predicate Collected(plain: seq<Sample>, byId: seq<Sample>, l: seq<Sample>) {
    && (forall k :: 0 <= k < |plain| ==> plain[k].id.None?)
    && DistinctIds(byId)
    && multiset(plain + byId) == multiset(Kept(l))
  }

  lemma CollectedNothing()
    ensures Collected([], [], [])
  {
  }

  lemma CollectedBag(plain: seq<Sample>, byId: seq<Sample>, l: seq<Sample>)
    requires Collected(plain, byId, l)
    ensures multiset(plain + byId) == multiset(Kept(l))
  {
  }

  lemma CollectPlain(plain: seq<Sample>, byId: seq<Sample>, l: seq<Sample>, s: Sample)
    requires Collected(plain, byId, l) && s.id.None?
    ensures Collected(plain + [s], byId, l + [s])
  {
    hide DistinctIds, Kept;
    KeptSnoc(l, s);
    WithoutNothing(Kept(l), s.id);
  }

  lemma CollectById(plain: seq<Sample>, byId: seq<Sample>, l: seq<Sample>, s: Sample)
    requires Collected(plain, byId, l) && s.id.Some?
    ensures Collected(plain, Put(byId, s), l + [s])
  {
    hide DistinctIds, Kept, Put, Without;
    KeptSnoc(l, s);
    PutReplaces(byId, s);
    PutKeepsIdsDistinct(byId, s);
    WithoutSameBag(plain + byId, Kept(l), s.id);
    WithoutAppend(plain, byId, s.id);
    WithoutNothing(plain, s.id);
  }

  /** What `readClaude` gathers from the samples of all files: as a bag, the last one of each id. */
  method Gather(scanned: seq<Sample>) returns (samples: seq<Sample>)
    ensures multiset(samples) == multiset(Kept(scanned))
  {
    var plain: seq<Sample> := [];
    var byId: seq<Sample> := [];
    CollectedNothing();
    hide Collected, Put, Kept;
    assert scanned[..0] == [];
    for i := 0 to |scanned|
      invariant Collected(plain, byId, scanned[..i])
    {
      var s := scanned[i];
      assert scanned[..i + 1] == scanned[..i] + [s];
      if s.id.Some? {
        CollectById(plain, byId, scanned[..i], s);
        byId := Put(byId, s);
      } else {
        CollectPlain(plain, byId, scanned[..i], s);
        plain := plain + [s];
      }
    }
    assert scanned[..|scanned|] == scanned;
    samples := plain + byId;
    CollectedBag(plain, byId, scanned);
  }
}
