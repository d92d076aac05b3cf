/** The k-core of an interaction graph as `_check_kcore` and `_filter_kcore` compute it
    (src/pre_data_preparation.py): the verdict, one pruning pass, and the fixed point. */
module KCore {
  import opened Common
  import opened Interactions

  /** How often item `x` is visited, duplicate visits included (`item_count[x]`). */
  function ItemOcc(g: Graph, x: string): nat
  {
    Occ(AllItems(g), x)
  }

  /** `user_count`: one per interaction, so only users with at least one interaction get a key. */
  function UserCounts(g: Graph): map<string, nat>
  {
    if |g| == 0 then map[]
    else
      var e := g[|g| - 1];
      if |e.items| == 0 then UserCounts(g[..|g| - 1]) else UserCounts(g[..|g| - 1])[e.user := |e.items|]
  }

  /** `count[x] += 1` on a `defaultdict(int)`: a missing key starts from zero. */
  function Bump<K>(m: map<K, nat>, x: K): map<K, nat>
  {
    m[x := (if x in m then m[x] else 0) + 1]
  }

  /** `count[x] += 1` for each element `x` of `s`. */
  function CountMap(s: seq<string>): map<string, nat>
  {
    if |s| == 0 then map[] else Bump(CountMap(s[..|s| - 1]), s[|s| - 1])
  }

  /** The keys of the counts are the elements, and each counts its occurrences. */
  lemma {:induction false} CountMapOcc(s: seq<string>, x: string)
    ensures x in CountMap(s) <==> x in s
    ensures x in CountMap(s) ==> CountMap(s)[x] == Occ(s, x)
  {
    if |s| > 0 {
      var n := |s| - 1;
      CountMapOcc(s[..n], x);
      OccPositive(s[..n], x);
      assert s == s[..n] + [s[n]];
    }
  }

  /** `item_count`. */
  function ItemCounts(g: Graph): map<string, nat>
  {
    CountMap(AllItems(g))
  }

  /** The verdict of `_check_kcore`: every user that has interactions has at least
      `userCore` of them, and every visited item is visited at least `itemCore` times. */
  predicate IsKcore(g: Graph, userCore: int, itemCore: int)
  {
    && (forall k :: 0 <= k < |g| && |g[k].items| > 0 ==> |g[k].items| >= userCore)
    && (forall k, j :: 0 <= k < |g| && 0 <= j < |g[k].items| ==> ItemOcc(g, g[k].items[j].item) >= itemCore)
  }

  /** An id occurs in `AllItems(g)` exactly when some history visits it. */
  lemma AllItemsMembers(g: Graph, x: string)
    ensures x in AllItems(g) <==> exists k, j :: 0 <= k < |g| && 0 <= j < |g[k].items| && g[k].items[j].item == x
  {
    if x in AllItems(g) { OccurrenceInHistory(g, x); }
    if exists k, j :: 0 <= k < |g| && 0 <= j < |g[k].items| && g[k].items[j].item == x {
      var k, j :| 0 <= k < |g| && 0 <= j < |g[k].items| && g[k].items[j].item == x;
      VisitInAllItems(g, k, j);
    }
  }

  /** Every visit's item occurs in `AllItems(g)`. */
  lemma {:induction false} VisitInAllItems(g: Graph, k: nat, j: nat)
    requires k < |g| && j < |g[k].items|
    ensures g[k].items[j].item in AllItems(g)
  {
    var n := |g| - 1;
    var p := g[..n];
    assert AllItems(g) == AllItems(p) + ItemIds(g[n].items) by {
      PrefixStep(g, n);
      assert g[..n + 1] == g;
    }
    if k < n {
      assert p[k] == g[k];
      VisitInAllItems(p, k, j);
    } else {
      assert ItemIds(g[n].items)[j] == g[k].items[j].item;
    }
  }

  lemma {:induction false} UserCountsKeys(g: Graph, u: string)
    requires u in UserCounts(g)
    ensures u in Users(g)
  {
    var n := |g| - 1;
    assert Users(g[..n]) == Users(g)[..n];
    if u != g[n].user { UserCountsKeys(g[..n], u); }
  }

  /** On a graph with unique users, the keys of `user_count` are the users with interactions,
      and each maps to the length of its history. */
  lemma {:induction false} UserCountsMembers(g: Graph, u: string)
    requires ValidGraph(g)
    ensures u in UserCounts(g) <==> exists k :: 0 <= k < |g| && |g[k].items| > 0 && g[k].user == u
    ensures forall k :: 0 <= k < |g| && |g[k].items| > 0 && g[k].user == u ==> UserCounts(g)[u] == |g[k].items|
  {
    if |g| > 0 {
      var n := |g| - 1;
      assert Users(g[..n]) == Users(g)[..n];
      UserCountsMembers(g[..n], u);
      assert forall k :: 0 <= k < n ==> g[..n][k] == g[k];
      assert forall k :: 0 <= k < n ==> Users(g)[k] != Users(g)[n];
    }
  }

  predicate CountsPass(userCount: map<string, nat>, itemCount: map<string, nat>, userCore: int, itemCore: int)
  {
    && (forall u :: u in userCount ==> userCount[u] >= userCore)
    && (forall x :: x in itemCount ==> itemCount[x] >= itemCore)
  }

  /** The verdict read off the two count maps, as `_check_kcore` does. */
  lemma IsKcoreByCounts(g: Graph, userCore: int, itemCore: int)
    requires ValidGraph(g)
    ensures IsKcore(g, userCore, itemCore) <==> CountsPass(UserCounts(g), ItemCounts(g), userCore, itemCore)
  {
    if IsKcore(g, userCore, itemCore) {
      forall u | u in UserCounts(g) ensures UserCounts(g)[u] >= userCore {
        UserCountsMembers(g, u);
      }
      forall x | x in ItemCounts(g) ensures ItemCounts(g)[x] >= itemCore {
        CountMapOcc(AllItems(g), x);
        AllItemsMembers(g, x);
      }
    }
    if CountsPass(UserCounts(g), ItemCounts(g), userCore, itemCore) {
      forall k | 0 <= k < |g| && |g[k].items| > 0 ensures |g[k].items| >= userCore {
        var u := g[k].user;
        UserCountsMembers(g, u);
        assert u in UserCounts(g);
      }
      forall k, j | 0 <= k < |g| && 0 <= j < |g[k].items| ensures ItemOcc(g, g[k].items[j].item) >= itemCore {
        var x := g[k].items[j].item;
        AllItemsMembers(g, x);
        CountMapOcc(AllItems(g), x);
        assert x in ItemCounts(g);
      }
    }
  }

  /** The interactions of one history whose item is visited at least `itemFloor` times in `g0`. */
  function KeepFrequent(s: seq<Interaction>, g0: Graph, itemFloor: int): seq<Interaction>
  {
    if |s| == 0 then []
    else KeepFrequent(s[..|s| - 1], g0, itemFloor) +
         (if ItemOcc(g0, s[|s| - 1].item) >= itemFloor then [s[|s| - 1]] else [])
  }

  /** What one pass of the `while` loop leaves of entry `e`, counts taken from `g0`:
      a user without interactions is not in `user_count` and stays as is; a user below the
      user floor is popped; any other user keeps only the interactions with frequent items. */
  function PruneLast(e: Entry, g0: Graph, userFloor: int, itemFloor: int): Graph
  {
    if |e.items| == 0 then [e]
    else if |e.items| < userFloor then []
    else [Entry(e.user, KeepFrequent(e.items, g0, itemFloor))]
  }

  /** One pass over the entries `es` of `g0`. */
  function PruneEntries(es: Graph, g0: Graph, userFloor: int, itemFloor: int): Graph
  {
    if |es| == 0 then []
    else PruneEntries(es[..|es| - 1], g0, userFloor, itemFloor) + PruneLast(es[|es| - 1], g0, userFloor, itemFloor)
  }

  function Prune(g: Graph, userFloor: int, itemFloor: int): Graph
  {
    PruneEntries(g, g, userFloor, itemFloor)
  }

  // ---------------------------------------------------------------------------
  // Progress: a pass on a graph that fails the check removes at least one interaction

  lemma {:induction false} KeepFrequentShorter(s: seq<Interaction>, g0: Graph, itemFloor: int)
    ensures |KeepFrequent(s, g0, itemFloor)| <= |s|
    ensures IsSubseq(KeepFrequent(s, g0, itemFloor), s)
  {
    if |s| > 0 {
      var p, x := s[..|s| - 1], s[|s| - 1];
      var k := KeepFrequent(p, g0, itemFloor);
      assert |k| <= |p| && IsSubseq(k, p) by { KeepFrequentShorter(p, g0, itemFloor); }
      assert p + [x] == s;
      if ItemOcc(g0, x.item) >= itemFloor {
        assert KeepFrequent(s, g0, itemFloor) == k + [x];
        assert (k + [x])[..|k|] == k;
      } else {
        assert KeepFrequent(s, g0, itemFloor) == k;
        SubseqExtend(k, p, x);
      }
    }
  }

  /** When every item of the history is frequent, the filter keeps it whole. */
  lemma {:induction false} KeepFrequentKeepsAll(s: seq<Interaction>, g0: Graph, itemFloor: int)
    requires forall j :: 0 <= j < |s| ==> ItemOcc(g0, s[j].item) >= itemFloor
    ensures KeepFrequent(s, g0, itemFloor) == s
  {
    if |s| > 0 {
      var p := s[..|s| - 1];
      assert forall j :: 0 <= j < |p| ==> p[j] == s[j];
      KeepFrequentKeepsAll(p, g0, itemFloor);
      assert ItemOcc(g0, s[|s| - 1].item) >= itemFloor;
      assert s == p + [s[|s| - 1]];
    }
  }

  lemma {:induction false} KeepFrequentDrops(s: seq<Interaction>, g0: Graph, itemFloor: int, j: nat)
    requires j < |s| && ItemOcc(g0, s[j].item) < itemFloor
    ensures |KeepFrequent(s, g0, itemFloor)| < |s|
  {
    var p := s[..|s| - 1];
    KeepFrequentShorter(p, g0, itemFloor);
    if j < |s| - 1 {
      KeepFrequentDrops(p, g0, itemFloor, j);
    }
  }

  /** An entry that the pass shrinks: a user below the floor, or a kept user with a rare item. */
  predicate Shrinks(e: Entry, g0: Graph, userFloor: int, itemFloor: int)
  {
    || (0 < |e.items| < userFloor)
    || (|e.items| > 0 && |e.items| >= userFloor &&
        exists j :: 0 <= j < |e.items| && ItemOcc(g0, e.items[j].item) < itemFloor)
  }

  lemma PruneLastTotal(e: Entry, g0: Graph, userFloor: int, itemFloor: int)
    ensures Total(PruneLast(e, g0, userFloor, itemFloor)) <= |e.items|
    ensures Shrinks(e, g0, userFloor, itemFloor) ==> Total(PruneLast(e, g0, userFloor, itemFloor)) < |e.items|
  {
    KeepFrequentShorter(e.items, g0, itemFloor);
    if Shrinks(e, g0, userFloor, itemFloor) && |e.items| >= userFloor {
      var j :| 0 <= j < |e.items| && ItemOcc(g0, e.items[j].item) < itemFloor;
      KeepFrequentDrops(e.items, g0, itemFloor, j);
    }
  }

  lemma {:induction false} PruneEntriesSplit(es: Graph, g0: Graph, userFloor: int, itemFloor: int)
    requires |es| > 0
    ensures Total(PruneEntries(es, g0, userFloor, itemFloor)) ==
      Total(PruneEntries(es[..|es| - 1], g0, userFloor, itemFloor)) + Total(PruneLast(es[|es| - 1], g0, userFloor, itemFloor))
    ensures Total(es) == Total(es[..|es| - 1]) + |es[|es| - 1].items|
  {
    TotalAppend(PruneEntries(es[..|es| - 1], g0, userFloor, itemFloor), PruneLast(es[|es| - 1], g0, userFloor, itemFloor));
  }

  lemma {:induction false} PruneEntriesTotal(es: Graph, g0: Graph, userFloor: int, itemFloor: int)
    ensures Total(PruneEntries(es, g0, userFloor, itemFloor)) <= Total(es)
  {
    if |es| > 0 {
      PruneEntriesTotal(es[..|es| - 1], g0, userFloor, itemFloor);
      PruneEntriesSplit(es, g0, userFloor, itemFloor);
      PruneLastTotal(es[|es| - 1], g0, userFloor, itemFloor);
    }
  }

  /** One entry that the pass shrinks makes the whole pass shrink. */
  lemma {:induction false} PruneEntriesStrict(es: Graph, g0: Graph, userFloor: int, itemFloor: int, k: nat)
    requires k < |es| && Total(PruneLast(es[k], g0, userFloor, itemFloor)) < |es[k].items|
    ensures Total(PruneEntries(es, g0, userFloor, itemFloor)) < Total(es)
  {
    var n := |es| - 1;
    var p, e := es[..n], es[n];
    ghost var a, b := Total(PruneEntries(p, g0, userFloor, itemFloor)), Total(PruneLast(e, g0, userFloor, itemFloor));
    ghost var c, d := Total(p), |e.items|;
    assert Total(PruneEntries(es, g0, userFloor, itemFloor)) == a + b && Total(es) == c + d by {
      PruneEntriesSplit(es, g0, userFloor, itemFloor);
    }
    if k < n {
      assert a < c by {
        assert p[k] == es[k];
        PruneEntriesStrict(p, g0, userFloor, itemFloor, k);
      }
      assert b <= d by {
        PruneLastTotal(e, g0, userFloor, itemFloor);
      }
    } else {
      assert a <= c by {
        PruneEntriesTotal(p, g0, userFloor, itemFloor);
      }
    }
  }

  /** Every item that occurs is in some history. */
  lemma {:induction false} OccurrenceInHistory(g: Graph, x: string)
    requires x in AllItems(g)
    ensures exists k, j :: 0 <= k < |g| && 0 <= j < |g[k].items| && g[k].items[j].item == x
  {
    var n := |g| - 1;
    if x in AllItems(g[..n]) {
      OccurrenceInHistory(g[..n], x);
      var k, j :| 0 <= k < |g[..n]| && 0 <= j < |g[..n][k].items| && g[..n][k].items[j].item == x;
      assert g[k] == g[..n][k];
    } else {
      var ids := ItemIds(g[n].items);
      assert x in ids;
      var j :| 0 <= j < |ids| && ids[j] == x;
    }
  }

  /** When the check fails for the floors the pass uses, the pass strictly decreases the number
      of interactions: a failing user has between 1 and floor-1 interactions and is popped, and
      every occurrence of a failing item goes, with its user or from the history. So the loop
      terminates, with the total count as its measure. */
  lemma PruneProgress(g: Graph, userFloor: int, itemFloor: int)
    requires !IsKcore(g, userFloor, itemFloor)
    ensures Total(Prune(g, userFloor, itemFloor)) < Total(g)
  {
    var k: int;
    if exists k :: 0 <= k < |g| && |g[k].items| > 0 && |g[k].items| < userFloor {
      k :| 0 <= k < |g| && |g[k].items| > 0 && |g[k].items| < userFloor;
    } else {
      var k', j :| 0 <= k' < |g| && 0 <= j < |g[k'].items| && ItemOcc(g, g[k'].items[j].item) < itemFloor;
      k := k';
    }
    assert Shrinks(g[k], g, userFloor, itemFloor);
    PruneLastTotal(g[k], g, userFloor, itemFloor);
    PruneEntriesStrict(g, g, userFloor, itemFloor, k);
  }

  /** The result of `_filter_kcore`: prune until the check passes. */
  function Kcore(g: Graph, userFloor: int, itemFloor: int): Graph
    decreases Total(g)
  {
    if IsKcore(g, userFloor, itemFloor) then g
    else
      PruneProgress(g, userFloor, itemFloor);
      Kcore(Prune(g, userFloor, itemFloor), userFloor, itemFloor)
  }

  // ---------------------------------------------------------------------------
  // What the pass and the fixed point keep

  /** `h` only removes from `g`: its users are a subsequence of `g`'s, and each of its
      histories is a subsequence of that user's history in `g`. */
  predicate SubGraph(h: Graph, g: Graph)
  {
    && IsSubseq(Users(h), Users(g))
    && forall k :: 0 <= k < |h| ==> IsSubseq(h[k].items, ItemsOf(g, h[k].user))
  }

  lemma {:induction false} ItemsOfAppend(g: Graph, e: Entry, u: string)
    ensures ItemsOf(g + [e], u) == if u in Users(g) then ItemsOf(g, u) else if e.user == u then e.items else []
  {
    if |g| > 0 {
      assert (g + [e])[1..] == g[1..] + [e];
      assert Users(g[1..]) == Users(g)[1..];
      ItemsOfAppend(g[1..], e, u);
      assert u in Users(g) <==> g[0].user == u || u in Users(g[1..]);
    } else {
      assert (g + [e])[1..] == [];
    }
  }

  /** A pass leaves at most one entry for `e`, for the same user, with a shorter history. */
  lemma PruneLastShape(e: Entry, g0: Graph, userFloor: int, itemFloor: int)
    ensures |PruneLast(e, g0, userFloor, itemFloor)| <= 1
    ensures forall e' :: e' in PruneLast(e, g0, userFloor, itemFloor) ==>
      e'.user == e.user && IsSubseq(e'.items, e.items)
  {
    KeepFrequentShorter(e.items, g0, itemFloor);
    SubseqRefl(e.items);
  }

  lemma PruneLastUsers(e: Entry, g0: Graph, userFloor: int, itemFloor: int)
    ensures Users(PruneLast(e, g0, userFloor, itemFloor)) == [] ||
            Users(PruneLast(e, g0, userFloor, itemFloor)) == [e.user]
  {
    var l := PruneLast(e, g0, userFloor, itemFloor);
    if |l| > 0 { assert Users(l) == [l[0].user]; }
  }

  /** A pass keeps a subsequence of the users, in their order. */
  lemma {:induction false} PruneEntriesUsers(es: Graph, g0: Graph, userFloor: int, itemFloor: int)
    ensures IsSubseq(Users(PruneEntries(es, g0, userFloor, itemFloor)), Users(es))
  {
    if |es| > 0 {
      var n := |es| - 1;
      var p, e := es[..n], es[n];
      var hp := PruneEntries(p, g0, userFloor, itemFloor);
      var last := PruneLast(e, g0, userFloor, itemFloor);
      ghost var a, b := Users(hp), Users(p);
      assert Users(PruneEntries(es, g0, userFloor, itemFloor)) == a + Users(last) by {
        assert PruneEntries(es, g0, userFloor, itemFloor) == hp + last;
        UsersAppend(hp, last);
      }
      assert Users(es) == b + [e.user] by {
        assert es == p + [e];
        UsersAppend(p, [e]);
      }
      assert IsSubseq(a, b) by { PruneEntriesUsers(p, g0, userFloor, itemFloor); }
      PruneLastUsers(e, g0, userFloor, itemFloor);
      if Users(last) == [] {
        assert a + Users(last) == a;
        SubseqExtend(a, b, e.user);
      } else {
        SubseqSnocBoth(a, b, e.user);
      }
    }
  }

  /** What one pass does to the entries `es`: no new user, order kept, histories only shrink,
      users without interactions stay as they are. */
  lemma {:induction false} PruneEntriesSub(es: Graph, g0: Graph, userFloor: int, itemFloor: int)
    requires ValidGraph(es)
    ensures ValidGraph(PruneEntries(es, g0, userFloor, itemFloor))
    ensures SubGraph(PruneEntries(es, g0, userFloor, itemFloor), es)
  {
    var h := PruneEntries(es, g0, userFloor, itemFloor);
    PruneEntriesUsers(es, g0, userFloor, itemFloor);
    SubseqDistinct(Users(h), Users(es));
    if |es| > 0 {
      var n := |es| - 1;
      var p, e := es[..n], es[n];
      assert Users(p) == Users(es)[..n];
      assert ValidGraph(p);
      PruneEntriesSub(p, g0, userFloor, itemFloor);
      assert es == p + [e];
      PruneStepHistories(p, e, g0, userFloor, itemFloor);
    }
  }

  /** The histories after one more entry: the earlier entries' come from their own users, the
      new entry's from its old history. */
  lemma PruneStepHistories(p: Graph, e: Entry, g0: Graph, userFloor: int, itemFloor: int)
    requires ValidGraph(p + [e]) && SubGraph(PruneEntries(p, g0, userFloor, itemFloor), p)
    ensures var h := PruneEntries(p + [e], g0, userFloor, itemFloor);
      forall k :: 0 <= k < |h| ==> IsSubseq(h[k].items, ItemsOf(p + [e], h[k].user))
  {
    var es := p + [e];
    var h := PruneEntries(es, g0, userFloor, itemFloor);
    var hp := PruneEntries(p, g0, userFloor, itemFloor);
    var last := PruneLast(e, g0, userFloor, itemFloor);
    assert es[..|es| - 1] == p && es[|es| - 1] == e;
    assert h == hp + last;
    PruneLastShape(e, g0, userFloor, itemFloor);
    UsersAppend(p, [e]);
    assert e.user !in Users(p) by {
      assert Users(es)[|p|] == e.user;
      forall k | 0 <= k < |p| ensures Users(p)[k] != e.user { assert Users(p)[k] == Users(es)[k]; }
    }
    forall k | 0 <= k < |h| ensures IsSubseq(h[k].items, ItemsOf(es, h[k].user)) {
      if k < |hp| {
        assert h[k] == hp[k];
        assert hp[k].user in Users(hp);
        SubseqMember(Users(hp), Users(p), hp[k].user);
        ItemsOfAppend(p, e, hp[k].user);
      } else {
        assert h[k] in last;
        ItemsOfAppend(p, e, e.user);
      }
    }
  }

  lemma SubGraphTransitive(a: Graph, b: Graph, c: Graph)
    requires ValidGraph(b) && SubGraph(a, b) && SubGraph(b, c)
    ensures SubGraph(a, c)
  {
    SubseqTransitive(Users(a), Users(b), Users(c));
    forall k | 0 <= k < |a| ensures IsSubseq(a[k].items, ItemsOf(c, a[k].user)) {
      assert a[k].user in Users(a);
      SubseqMember(Users(a), Users(b), a[k].user);
      var k' := IndexOf(Users(b), a[k].user);
      ItemsOfAt(b, k');
      SubseqTransitive(a[k].items, b[k'].items, ItemsOf(c, b[k'].user));
    }
  }

  lemma {:induction false} SubGraphRefl(g: Graph)
    requires ValidGraph(g)
    ensures SubGraph(g, g)
  {
    SubseqRefl(Users(g));
    forall k | 0 <= k < |g| ensures IsSubseq(g[k].items, ItemsOf(g, g[k].user)) {
      ItemsOfAt(g, k);
      SubseqRefl(g[k].items);
    }
  }

  /** On return the check holds. */
  lemma {:induction false} KcoreIsKcore(g: Graph, userFloor: int, itemFloor: int)
    ensures IsKcore(Kcore(g, userFloor, itemFloor), userFloor, itemFloor)
    decreases Total(g)
  {
    if !IsKcore(g, userFloor, itemFloor) {
      PruneProgress(g, userFloor, itemFloor);
      KcoreIsKcore(Prune(g, userFloor, itemFloor), userFloor, itemFloor);
    }
  }

  /** `_filter_kcore` only removes: users are a subset, in the same order, and every history
      is an order-preserving subsequence of the input history. */
  lemma {:induction false} KcoreSubGraph(g: Graph, userFloor: int, itemFloor: int)
    requires ValidGraph(g)
    ensures ValidGraph(Kcore(g, userFloor, itemFloor))
    ensures SubGraph(Kcore(g, userFloor, itemFloor), g)
    decreases Total(g)
  {
    if IsKcore(g, userFloor, itemFloor) {
      SubGraphRefl(g);
    } else {
      PruneProgress(g, userFloor, itemFloor);
      var h := Prune(g, userFloor, itemFloor);
      PruneEntriesSub(g, g, userFloor, itemFloor);
      KcoreSubGraph(h, userFloor, itemFloor);
      SubGraphTransitive(Kcore(h, userFloor, itemFloor), h, g);
    }
  }

  /** A pass keeps every user whose history is empty, with its (empty) history. */
  lemma {:induction false} PruneKeepsEmpty(es: Graph, g0: Graph, userFloor: int, itemFloor: int, u: string)
    requires Entry(u, []) in es
    ensures Entry(u, []) in PruneEntries(es, g0, userFloor, itemFloor)
  {
    var n := |es| - 1;
    if es[n] != Entry(u, []) {
      var k :| 0 <= k < |es| && es[k] == Entry(u, []);
      assert es[..n][k] == es[k];
      PruneKeepsEmpty(es[..n], g0, userFloor, itemFloor, u);
    }
  }

  /** Users whose history is (or becomes) empty are never popped: they stay in the result. */
  lemma {:induction false} KcoreKeepsEmpty(g: Graph, userFloor: int, itemFloor: int, u: string)
    requires Entry(u, []) in g
    ensures Entry(u, []) in Kcore(g, userFloor, itemFloor)
    decreases Total(g)
  {
    if !IsKcore(g, userFloor, itemFloor) {
      PruneProgress(g, userFloor, itemFloor);
      PruneKeepsEmpty(g, g, userFloor, itemFloor, u);
      KcoreKeepsEmpty(Prune(g, userFloor, itemFloor), userFloor, itemFloor, u);
    }
  }

  /** A subsequence of a chronologically sorted history is sorted. */
  lemma {:induction false} SubseqKeepsSorted(a: seq<Interaction>, b: seq<Interaction>)
    requires IsSubseq(a, b) && SortedByTime(b)
    ensures SortedByTime(a)
    decreases |b|
  {
    if |a| > 0 {
      var a', b' := a[..|a| - 1], b[..|b| - 1];
      assert SortedByTime(b');
      if a[|a| - 1] == b[|b| - 1] {
        SubseqKeepsSorted(a', b');
        forall i | 0 <= i < |a'| ensures a'[i].time <= a[|a| - 1].time {
          SubseqMember(a', b', a'[i]);
          var j :| 0 <= j < |b'| && b'[j] == a'[i];
        }
        assert forall i, j :: 0 <= i < j < |a| - 1 ==> a[i] == a'[i] && a[j] == a'[j];
      } else {
        SubseqKeepsSorted(a, b');
      }
    }
  }

  predicate AllSorted(g: Graph)
  {
    forall k :: 0 <= k < |g| ==> SortedByTime(g[k].items)
  }

  /** The fixed point keeps every history in chronological order. */
  lemma KcoreKeepsOrder(g: Graph, userFloor: int, itemFloor: int)
    requires ValidGraph(g) && AllSorted(g)
    ensures AllSorted(Kcore(g, userFloor, itemFloor))
  {
    var h := Kcore(g, userFloor, itemFloor);
    KcoreSubGraph(g, userFloor, itemFloor);
    forall k | 0 <= k < |h| ensures SortedByTime(h[k].items) {
      assert h[k].user in Users(h);
      SubseqMember(Users(h), Users(g), h[k].user);
      var k' := IndexOf(Users(g), h[k].user);
      ItemsOfAt(g, k');
      SubseqKeepsSorted(h[k].items, g[k'].items);
    }
  }

  /** A graph that already passes is returned unchanged, and the filter is idempotent. */
  lemma KcoreIdempotent(g: Graph, userFloor: int, itemFloor: int)
    ensures IsKcore(g, userFloor, itemFloor) ==> Kcore(g, userFloor, itemFloor) == g
    ensures Kcore(Kcore(g, userFloor, itemFloor), userFloor, itemFloor) == Kcore(g, userFloor, itemFloor)
  {
    KcoreIsKcore(g, userFloor, itemFloor);
  }
}
