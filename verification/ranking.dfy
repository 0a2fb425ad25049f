/** The end-of-scan ranking: `sorted(working_ips, key=lambda x: x["ping"])`, a
    stable sort by ping, and the summary that shows its first five entries or says
    that nothing answered. */
module Ranking {
  import opened ResultsFile

  predicate SortedByPing(s: seq<Entry>)
  {
    forall i, j :: 0 <= i < j < |s| ==> s[i].ping <= s[j].ping
  }

  /** The entries of `s` whose ping is `p`, in their order in `s`. */
  function WithPing(s: seq<Entry>, p: nat): seq<Entry>
    decreases |s|
  {
    if s == [] then [] else (if s[0].ping == p then [s[0]] else []) + WithPing(s[1..], p)
  }

  /** Filtering by ping a sequence that starts with `x`. */
  lemma WithPingCons(x: Entry, rest: seq<Entry>, p: nat)
    ensures WithPing([x] + rest, p) == (if x.ping == p then [x] else []) + WithPing(rest, p)
  {
    assert ([x] + rest)[1..] == rest;
  }

  /** `e` placed before the first entry whose ping is not smaller than its own. */
  function Insert(e: Entry, s: seq<Entry>): seq<Entry>
    decreases |s|
  {
    if s == [] || e.ping <= s[0].ping then [e] + s
    else [s[0]] + Insert(e, s[1..])
  }

  /** Inserting gives the same entries plus `e`. */
  lemma {:induction false} InsertMultiset(e: Entry, s: seq<Entry>)
    ensures multiset(Insert(e, s)) == multiset(s) + multiset{e}
    decreases |s|
  {
    if s != [] && e.ping > s[0].ping {
      InsertMultiset(e, s[1..]);
      assert s == [s[0]] + s[1..];
    }
  }

  /** Among the entries with any one ping, `e` goes ahead of those already there. */
  lemma {:induction false} InsertWithPing(e: Entry, s: seq<Entry>, p: nat)
    ensures WithPing(Insert(e, s), p) == (if e.ping == p then [e] else []) + WithPing(s, p)
    decreases |s|
  {
    if s == [] || e.ping <= s[0].ping {
      WithPingCons(e, s, p);
    } else {
      InsertWithPing(e, s[1..], p);
      WithPingCons(s[0], Insert(e, s[1..]), p);
      WithPingCons(s[0], s[1..], p);
      assert s == [s[0]] + s[1..];
    }
  }

  /** Inserting into a sorted sequence keeps it sorted. */
  lemma {:induction false} InsertKeepsSorted(e: Entry, s: seq<Entry>)
    requires SortedByPing(s)
    ensures SortedByPing(Insert(e, s))
    decreases |s|
  {
    if s != [] && e.ping > s[0].ping {
      var rest := Insert(e, s[1..]);
      InsertKeepsSorted(e, s[1..]);
      InsertMultiset(e, s[1..]);
      forall j | 0 <= j < |rest|
        ensures s[0].ping <= rest[j].ping
      {
        assert rest[j] in multiset(rest);
        assert rest[j] == e || rest[j] in multiset(s[1..]);
      }
    }
  }

  /** Python's `sorted` by ping: the result is in non-decreasing ping order, holds the
      same entries, and entries with equal pings keep their relative order. */
  function SortByPing(s: seq<Entry>): (r: seq<Entry>)
    ensures SortedByPing(r)
    ensures multiset(r) == multiset(s)
    ensures forall p :: WithPing(r, p) == WithPing(s, p)
    decreases |s|
  {
    if s == [] then []
    else
      assert s == [s[0]] + s[1..];
      InsertKeepsSorted(s[0], SortByPing(s[1..]));
      InsertMultiset(s[0], SortByPing(s[1..]));
      forall p
        ensures WithPing(Insert(s[0], SortByPing(s[1..])), p) == WithPing(s, p)
      {
        InsertWithPing(s[0], SortByPing(s[1..]), p);
        WithPingCons(s[0], s[1..], p);
      }
      Insert(s[0], SortByPing(s[1..]))
  }

  /** In a sorted sequence, an entry with ping `p` means the first ping is at most `p`. */
  lemma {:induction false} FirstPingBound(s: seq<Entry>, p: nat)
    ensures SortedByPing(s) && WithPing(s, p) != [] ==> s != [] && s[0].ping <= p
    decreases |s|
  {
    if s != [] && s[0].ping != p {
      FirstPingBound(s[1..], p);
      if |s| > 1 { assert s[1..][0] == s[1]; }
    }
  }

  /** A sorted order that keeps equal pings in their original order is unique: two such
      orders of the same entries coincide. So `SortByPing` is exactly what any stable
      sort by ping (Python's `sorted` among them) produces. */
  lemma {:induction false} StableSortUnique(a: seq<Entry>, b: seq<Entry>)
    requires SortedByPing(a) && SortedByPing(b)
    requires forall p :: WithPing(a, p) == WithPing(b, p)
    ensures a == b
    decreases |a| + |b|
  {
    if a != [] {
      FirstPingBound(b, a[0].ping);
    }
    if b != [] {
      FirstPingBound(a, b[0].ping);
    }
    if a != [] && b != [] {
      var m := a[0].ping;
      assert b[0].ping == m;
      assert WithPing(a, m) == [a[0]] + WithPing(a[1..], m);
      assert WithPing(b, m) == [b[0]] + WithPing(b[1..], m);
      assert a[0] == WithPing(a, m)[0] == WithPing(b, m)[0] == b[0];
      forall p
        ensures WithPing(a[1..], p) == WithPing(b[1..], p)
      {
        if p == m {
          assert WithPing(a[1..], p) == WithPing(a, p)[1..];
          assert WithPing(b[1..], p) == WithPing(b, p)[1..];
        } else {
          assert WithPing(a[1..], p) == WithPing(a, p);
          assert WithPing(b[1..], p) == WithPing(b, p);
        }
      }
      StableSortUnique(a[1..], b[1..]);
      assert a == [a[0]] + a[1..];
      assert b == [b[0]] + b[1..];
    }
  }

  /** Sorting an already sorted list changes nothing. */
  lemma SortIdempotent(s: seq<Entry>)
    ensures SortByPing(SortByPing(s)) == SortByPing(s)
  {
    var t := SortByPing(s);
    StableSortUnique(SortByPing(t), t);
  }

  /** How many entries the summary lists at most. */
  const TopCount: nat := 5

  /** What the scanner shows at the end: the best entries, or that none worked. */
  datatype Summary = NoWorkingIps | Top(best: seq<Entry>)

  function Min(a: nat, b: nat): nat
  {
    if a <= b then a else b
  }

  /** The summary shows `min(5, n)` entries of the ranking, in ranking order, and no
      entry left out has a smaller ping than one shown; it says that nothing worked
      exactly when the list is empty. */
  function Summarize(working: seq<Entry>): (r: Summary)
    ensures r.NoWorkingIps? <==> working == []
    ensures r.Top? ==> |r.best| == Min(TopCount, |working|) && r.best <= SortByPing(working)
    ensures r.Top? ==> SortedByPing(r.best) && multiset(r.best) <= multiset(working)
    ensures r.Top? ==> forall x, y :: x in r.best && y in multiset(working) - multiset(r.best) ==> x.ping <= y.ping
  {
    if working == [] then NoWorkingIps
    else
      var ranked := SortByPing(working);
      var best := ranked[..Min(TopCount, |ranked|)];
      TopIsBest(ranked, |best|);
      Top(best)
  }

  /** A prefix of a sorted sequence holds the smallest pings. */
  lemma TopIsBest(ranked: seq<Entry>, k: nat)
    requires SortedByPing(ranked) && k <= |ranked|
    ensures multiset(ranked) == multiset(ranked[..k]) + multiset(ranked[k..])
    ensures forall x, y :: x in ranked[..k] && y in multiset(ranked) - multiset(ranked[..k]) ==> x.ping <= y.ping
  {
    assert ranked == ranked[..k] + ranked[k..];
    forall x, y | x in ranked[..k] && y in multiset(ranked) - multiset(ranked[..k])
      ensures x.ping <= y.ping
    {
      assert y in multiset(ranked[k..]);
      assert y in ranked[k..];
    }
  }
}
