/** The steps of `PreDataPreparation` (src/pre_data_preparation.py) that turn review tuples into
    the per-user table: grouping and sorting, the k-core filter loop, the id mappings and the
    projection into one record per user. File reading and writing are not modelled. */
module PreData {
  import opened Common
  import opened Interactions
  import opened KCore

  // ---------------------------------------------------------------------------
  // The id mappings of `_get_mappings`

  /** The id `prefix + str(n)`. */
  function Id(prefix: string, n: nat): string
  {
    prefix + NatToString(n)
  }

  /** `x -> prefix + str(n)`, numbering the elements of `order` from 1. */
  function Forward(order: seq<string>, prefix: string): map<string, string>
  {
    if |order| == 0 then map[]
    else Forward(order[..|order| - 1], prefix)[order[|order| - 1] := Id(prefix, |order|)]
  }

  /** `prefix + str(n) -> x`. */
  function Inverse(order: seq<string>, prefix: string): map<string, string>
  {
    if |order| == 0 then map[]
    else Inverse(order[..|order| - 1], prefix)[Id(prefix, |order|) := order[|order| - 1]]
  }

  datatype DataMaps = DataMaps(user2id: map<string, string>, id2user: map<string, string>,
                               item2id: map<string, string>, id2item: map<string, string>)

  /** Users are numbered in key order, items in order of first visit. */
  function Mappings(g: Graph): DataMaps
  {
    DataMaps(Forward(Dedup(Users(g)), "user_"), Inverse(Dedup(Users(g)), "user_"),
             Forward(Dedup(AllItems(g)), "item_"), Inverse(Dedup(AllItems(g)), "item_"))
  }

  /** The keys of the forward map are the numbered elements, and element `j` gets number `j + 1`. */
  lemma {:induction false} ForwardAt(order: seq<string>, prefix: string, j: nat)
    requires Distinct(order) && j < |order|
    ensures order[j] in Forward(order, prefix)
    ensures Forward(order, prefix)[order[j]] == Id(prefix, j + 1)
  {
    var n := |order| - 1;
    if j < n {
      ForwardAt(order[..n], prefix, j);
    }
  }

  lemma {:induction false} ForwardKeys(order: seq<string>, prefix: string, x: string)
    ensures x in Forward(order, prefix) <==> x in order
  {
    if |order| > 0 {
      var n := |order| - 1;
      ForwardKeys(order[..n], prefix, x);
      assert order == order[..n] + [order[n]];
    }
  }

  /** One more element: a new one gets the next id, a repeated one changes nothing. */
  lemma NumberNext(s: seq<string>, prefix: string, x: string)
    ensures Forward(Dedup(s + [x]), prefix) ==
      if x in Forward(Dedup(s), prefix) then Forward(Dedup(s), prefix)
      else Forward(Dedup(s), prefix)[x := Id(prefix, |Dedup(s)| + 1)]
    ensures Inverse(Dedup(s + [x]), prefix) ==
      if x in Forward(Dedup(s), prefix) then Inverse(Dedup(s), prefix)
      else Inverse(Dedup(s), prefix)[Id(prefix, |Dedup(s)| + 1) := x]
    ensures |Dedup(s + [x])| == if x in Forward(Dedup(s), prefix) then |Dedup(s)| else |Dedup(s)| + 1
  {
    var d := Dedup(s);
    ForwardKeys(d, prefix, x);
    DedupAppend(s, x);
    DedupProperties(s);
    assert (d + [x])[..|d|] == d;
  }

  /** The keys of the inverse map are exactly the ids handed out, and id `j + 1` names element `j`. */
  lemma {:induction false} InverseAt(order: seq<string>, prefix: string, j: nat)
    requires j < |order|
    ensures Id(prefix, j + 1) in Inverse(order, prefix)
    ensures Inverse(order, prefix)[Id(prefix, j + 1)] == order[j]
  {
    var n := |order| - 1;
    if j < n {
      InverseAt(order[..n], prefix, j);
      if Id(prefix, j + 1) == Id(prefix, n + 1) {
        PrefixedNatInjective(prefix, j + 1, n + 1);
      }
    }
  }

  lemma {:induction false} InverseKeys(order: seq<string>, prefix: string, y: string)
    requires y in Inverse(order, prefix)
    ensures exists n :: 1 <= n <= |order| && y == Id(prefix, n)
  {
    var n := |order| - 1;
    if y != Id(prefix, n + 1) {
      InverseKeys(order[..n], prefix, y);
    }
  }

  /** `f` and `v` are inverse bijections between their key sets. */
  predicate InverseMaps(f: map<string, string>, v: map<string, string>)
  {
    && (forall x :: x in f ==> f[x] in v && v[f[x]] == x)
    && (forall y :: y in v ==> v[y] in f && f[v[y]] == y)
  }

  /** For a duplicate-free order the two maps are inverse bijections. */
  lemma MappingsInverse(order: seq<string>, prefix: string)
    requires Distinct(order)
    ensures InverseMaps(Forward(order, prefix), Inverse(order, prefix))
  {
    var f, v := Forward(order, prefix), Inverse(order, prefix);
    forall x | x in f ensures f[x] in v && v[f[x]] == x {
      ForwardKeys(order, prefix, x);
      var j :| 0 <= j < |order| && order[j] == x;
      ForwardAt(order, prefix, j);
      InverseAt(order, prefix, j);
    }
    forall y | y in v ensures v[y] in f && f[v[y]] == y {
      InverseKeys(order, prefix, y);
      var n :| 1 <= n <= |order| && y == Id(prefix, n);
      var j := n - 1;
      ForwardAt(order, prefix, j);
      InverseAt(order, prefix, j);
    }
  }

  /** The i-th user of the dict is "user_<i+1>", and only the dict's users have an id. */
  lemma MappingsUsers(g: Graph)
    requires ValidGraph(g)
    ensures forall k :: 0 <= k < |g| ==>
      g[k].user in Mappings(g).user2id && Mappings(g).user2id[g[k].user] == Id("user_", k + 1)
    ensures forall u :: u in Mappings(g).user2id <==> u in Users(g)
  {
    var us := Dedup(Users(g));
    DedupDistinct(Users(g));
    forall k | 0 <= k < |g| ensures g[k].user in Forward(us, "user_") && Forward(us, "user_")[g[k].user] == Id("user_", k + 1) {
      ForwardAt(us, "user_", k);
    }
    forall u ensures u in Forward(us, "user_") <==> u in Users(g) {
      ForwardKeys(us, "user_", u);
    }
  }

  /** Exactly the visited items have an id, numbered "item_<n>" by first visit. */
  lemma MappingsItems(g: Graph)
    ensures forall x :: x in Mappings(g).item2id <==> x in AllItems(g)
    ensures forall j :: 0 <= j < |Dedup(AllItems(g))| ==>
      Dedup(AllItems(g))[j] in Mappings(g).item2id && Mappings(g).item2id[Dedup(AllItems(g))[j]] == Id("item_", j + 1)
  {
    var its := Dedup(AllItems(g));
    DedupProperties(AllItems(g));
    forall x ensures x in Forward(its, "item_") <==> x in AllItems(g) {
      ForwardKeys(its, "item_", x);
    }
    forall j | 0 <= j < |its| ensures its[j] in Forward(its, "item_") && Forward(its, "item_")[its[j]] == Id("item_", j + 1) {
      ForwardAt(its, "item_", j);
    }
  }

  /** `id2user` inverts `user2id` and `id2item` inverts `item2id`. */
  lemma MappingsBijective(g: Graph)
    requires ValidGraph(g)
    ensures InverseMaps(Mappings(g).user2id, Mappings(g).id2user)
    ensures InverseMaps(Mappings(g).item2id, Mappings(g).id2item)
  {
    DedupProperties(Users(g));
    DedupProperties(AllItems(g));
    MappingsInverse(Dedup(Users(g)), "user_");
    MappingsInverse(Dedup(AllItems(g)), "item_");
  }

  /** `Dedup` leaves a duplicate-free sequence as it is. */
  lemma {:induction false} DedupDistinct(s: seq<string>)
    requires Distinct(s)
    ensures Dedup(s) == s
  {
    if |s| > 0 {
      var n := |s| - 1;
      DedupDistinct(s[..n]);
      assert s[n] !in s[..n];
    }
  }

  // ---------------------------------------------------------------------------
  // The projection into one record per user (the data frame of `pre_data_preparation`)

  /** One row of the final table. `userId` is None where `Series.map` with the `user2id` dict
      finds no key (pandas writes NaN). */
  datatype UserRecord = UserRecord(
    userId1: string, itemIdList1: seq<string>, visitDates: seq<int>, ratings: seq<int>,
    reviews: seq<string>, features: seq<string>, explanations: seq<string>,
    userId: Option<string>, itemIdList: seq<string>, userDesc: string, itemTitles: seq<string>)

  /** Every lookup the projection does through a `[]` subscript succeeds. */
  predicate LookupsSucceed(g: Graph, m: DataMaps, userDesc: map<string, string>, itemDesc: map<string, string>)
  {
    && (forall k, j :: 0 <= k < |g| && 0 <= j < |g[k].items| ==>
          g[k].items[j].item in m.item2id && g[k].items[j].item in itemDesc)
    && (forall k :: 0 <= k < |g| ==> g[k].user in userDesc)
  }

  function Record(e: Entry, m: DataMaps, userDesc: map<string, string>, itemDesc: map<string, string>): UserRecord
    requires forall j :: 0 <= j < |e.items| ==> e.items[j].item in m.item2id && e.items[j].item in itemDesc
    requires e.user in userDesc
  {
    var s := e.items;
    UserRecord(
      e.user, ItemIds(s),
      seq(|s|, j requires 0 <= j < |s| => s[j].time),
      seq(|s|, j requires 0 <= j < |s| => s[j].rating),
      seq(|s|, j requires 0 <= j < |s| => s[j].review),
      seq(|s|, j requires 0 <= j < |s| => s[j].feature),
      seq(|s|, j requires 0 <= j < |s| => s[j].explanation),
      if e.user in m.user2id then Some(m.user2id[e.user]) else None,
      seq(|s|, j requires 0 <= j < |s| => m.item2id[s[j].item]),
      userDesc[e.user],
      seq(|s|, j requires 0 <= j < |s| => itemDesc[s[j].item]))
  }

  /** The table: one record per user in key order, or KeyError when a subscript lookup fails.
      All list columns of a record are as long as the user's history (the length check the
      source prints), and position j of each column comes from the j-th interaction. */
  function BuildRecords(g: Graph, m: DataMaps, userDesc: map<string, string>, itemDesc: map<string, string>)
    : (r: Result<seq<UserRecord>>)
    ensures r.Ok? <==> LookupsSucceed(g, m, userDesc, itemDesc)
    ensures r.Err? ==> r.error == KeyError
    ensures r.Ok? ==> |r.value| == |g| && forall k :: 0 <= k < |g| ==>
      var rec, s := r.value[k], g[k].items;
      && rec.userId1 == g[k].user
      && rec.userDesc == userDesc[g[k].user]
      && (rec.userId.Some? <==> g[k].user in m.user2id)
      && (rec.userId.Some? ==> rec.userId.value == m.user2id[g[k].user])
      && |rec.itemIdList1| == |rec.visitDates| == |rec.ratings| == |rec.reviews| == |rec.features|
         == |rec.explanations| == |rec.itemIdList| == |rec.itemTitles| == |s|
      && forall j :: 0 <= j < |s| ==>
           && rec.itemIdList1[j] == s[j].item && rec.visitDates[j] == s[j].time
           && rec.ratings[j] == s[j].rating && rec.reviews[j] == s[j].review
           && rec.features[j] == s[j].feature && rec.explanations[j] == s[j].explanation
           && rec.itemIdList[j] == m.item2id[s[j].item] && rec.itemTitles[j] == itemDesc[s[j].item]
  {
    if LookupsSucceed(g, m, userDesc, itemDesc) then
      Ok(seq(|g|, k requires 0 <= k < |g| => Record(g[k], m, userDesc, itemDesc)))
    else Err(KeyError)
  }

  /** With the graph's own mappings the id lookups never fail: the table fails only when a user
      or an item is missing from the user or business file. */
  lemma OwnMappingsLookups(g: Graph, userDesc: map<string, string>, itemDesc: map<string, string>)
    requires ValidGraph(g)
    ensures LookupsSucceed(g, Mappings(g), userDesc, itemDesc) <==>
      (forall k :: 0 <= k < |g| ==> g[k].user in userDesc) &&
      (forall x :: x in AllItems(g) ==> x in itemDesc)
  {
    MappingsItems(g);
    LookupsWithItemIds(g, Mappings(g), userDesc, itemDesc);
  }

  /** When the item ids cover exactly the visited items, only the two description files can
      make the projection fail. */
  lemma LookupsWithItemIds(g: Graph, m: DataMaps, userDesc: map<string, string>, itemDesc: map<string, string>)
    requires forall x :: x in m.item2id <==> x in AllItems(g)
    ensures LookupsSucceed(g, m, userDesc, itemDesc) <==>
      (forall k :: 0 <= k < |g| ==> g[k].user in userDesc) &&
      (forall x :: x in AllItems(g) ==> x in itemDesc)
  {
    VisitedItemsCovered(g, m.item2id);
    VisitedItemsCovered(g, itemDesc);
  }

  /** Every visited item is a key of `d` exactly when every history's items are. */
  lemma VisitedItemsCovered(g: Graph, d: map<string, string>)
    ensures (forall k, j :: 0 <= k < |g| && 0 <= j < |g[k].items| ==> g[k].items[j].item in d) <==>
            (forall x :: x in AllItems(g) ==> x in d)
  {
    if forall x :: x in AllItems(g) ==> x in d {
      forall k, j | 0 <= k < |g| && 0 <= j < |g[k].items| ensures g[k].items[j].item in d {
        AllItemsMembers(g, g[k].items[j].item);
      }
    }
    if forall k, j :: 0 <= k < |g| && 0 <= j < |g[k].items| ==> g[k].items[j].item in d {
      forall x | x in AllItems(g) ensures x in d {
        AllItemsMembers(g, x);
      }
    }
  }

  /** With the graph's own mappings the k-th user's record carries "user_<k+1>". */
  lemma OwnMappingsUserIds(g: Graph, userDesc: map<string, string>, itemDesc: map<string, string>, k: nat)
    requires ValidGraph(g) && k < |g|
    requires BuildRecords(g, Mappings(g), userDesc, itemDesc).Ok?
    ensures BuildRecords(g, Mappings(g), userDesc, itemDesc).value[k].userId == Some(Id("user_", k + 1))
  {
    MappingsUsers(g);
  }

  /** Sorting each history of a grouping by time keeps the users and the number of
      interactions, and leaves each history the time-sorted reviews of its user. */
  lemma SortedGrouping(rs: seq<Review>, grouped: Graph, g: Graph)
    requires Grouped(grouped, rs) && |g| == |grouped|
    requires forall k :: 0 <= k < |g| ==> g[k] == Entry(grouped[k].user, SortByTime(grouped[k].items))
    ensures ValidGraph(g)
    ensures Users(g) == Dedup(ReviewUsers(rs))
    ensures forall k :: 0 <= k < |g| ==> g[k].items == SortByTime(Select(rs, g[k].user))
    ensures forall k :: 0 <= k < |g| ==>
      SortedByTime(g[k].items) && multiset(g[k].items) == multiset(Select(rs, g[k].user))
    ensures Total(g) == |rs|
  {
    assert Users(g) == Users(grouped);
    forall k | 0 <= k < |g| ensures SortedByTime(g[k].items) && multiset(g[k].items) == multiset(Select(rs, g[k].user)) {
      SortByTimeProperties(grouped[k].items);
    }
    TotalSameLengths(g, grouped);
  }

  /** One of the two `for key, cnt in count.items()` loops of `_check_kcore`, over the keys
      in `order`: the verdict stays true exactly when no count is below `core`. */
  method ReachesCore<K>(count: map<K, nat>, order: seq<K>, core: int) returns (ok: bool)
    requires forall x :: x in count ==> x in order
    ensures ok <==> forall x :: x in count ==> count[x] >= core
  {
    var n := 0;
    while n < |order|
      invariant 0 <= n <= |order|
      invariant forall n' :: 0 <= n' < n && order[n'] in count ==> count[order[n']] >= core
    {
      if order[n] in count && count[order[n]] < core {
        return false;
      }
      n := n + 1;
    }
    forall x | x in count ensures count[x] >= core {
      var n' :| 0 <= n' < |order| && order[n'] == x;
    }
    return true;
  }

  // ---------------------------------------------------------------------------
  // The class: configuration from `__init__`, and the steps that loop

  class PreDataPreparation {
    const userCore: int
    const itemCore: int
    const minDate: string
    const maxDate: string
    const negativeSamplingSize: int

    constructor ()
      ensures userCore == 5 && itemCore == 5 && negativeSamplingSize == 50
      ensures minDate == "2019-01-01 00:00:00" && maxDate == "2019-12-31 00:00:00"
    {
      userCore := 5;
      itemCore := 5;
      minDate := "2019-01-01 00:00:00";
      maxDate := "2019-12-31 00:00:00";
      negativeSamplingSize := 50;
    }

    /** The keep-test of `_get_review_data` with this object's date window. */
    predicate KeepReview(date: string, rating: int)
    {
      Keep(date, rating, minDate, maxDate)
    }

    /** One line of `_get_review_data`: nothing outside the date window or at a rating that
        is not positive, otherwise the tuple with the numeric time key. */
    function ReviewTuple(l: ReviewLine): (r: Option<Result<Review>>)
      ensures r.None? <==>
        !((minDate == l.date || StrLess(minDate, l.date)) && (l.date == maxDate || StrLess(l.date, maxDate)) && l.rating > 0)
      ensures r.Some? ==> r.value == MakeReview(l)
    {
      KeepIsWindow(l.date, l.rating, minDate, maxDate);
      if KeepReview(l.date, l.rating) then Some(MakeReview(l)) else None
    }

    /** The tuples of the kept lines in line order; the first `int(time)` that raises ends
        the call. */
    function ReviewData(lines: seq<ReviewLine>): Result<seq<Review>>
    {
      if |lines| == 0 then Ok([])
      else match ReviewData(lines[..|lines| - 1])
        case Err(e) => Err(e)
        case Ok(rs) =>
          match ReviewTuple(lines[|lines| - 1])
          case None => Ok(rs)
          case Some(Err(e)) => Err(e)
          case Some(Ok(rv)) => Ok(rs + [rv])
    }

    /** Reading succeeds exactly when no kept line has a time key `int` rejects, and then
        every tuple comes from a kept line, with its date's digits as its time. */
    lemma {:induction false} ReviewDataRules(lines: seq<ReviewLine>)
      ensures ReviewData(lines).Ok? <==> forall j :: 0 <= j < |lines| ==> ReviewTuple(lines[j]) != Some(Err(ValueError))
      ensures ReviewData(lines).Err? ==> ReviewData(lines).error == ValueError
      ensures ReviewData(lines).Ok? ==> |ReviewData(lines).value| <= |lines|
      ensures ReviewData(lines).Ok? ==> forall k :: 0 <= k < |ReviewData(lines).value| ==>
        exists j :: 0 <= j < |lines| && ReviewTuple(lines[j]) == Some(Ok(ReviewData(lines).value[k]))
    {
      if |lines| > 0 {
        var init := lines[..|lines| - 1];
        ReviewDataRules(init);
        assert forall j :: 0 <= j < |init| ==> init[j] == lines[j];
        var r := ReviewData(lines);
        if r.Ok? {
          var rs := ReviewData(init).value;
          forall k | 0 <= k < |r.value|
            ensures exists j :: 0 <= j < |lines| && ReviewTuple(lines[j]) == Some(Ok(r.value[k]))
          {
            if k < |rs| {
              assert r.value[k] == rs[k];
              var j :| 0 <= j < |init| && ReviewTuple(init[j]) == Some(Ok(rs[k]));
              assert lines[j] == init[j];
            } else {
              assert ReviewTuple(lines[|lines| - 1]) == Some(Ok(r.value[k]));
            }
          }
        }
      }
    }

    /** `_get_review_data` over the parsed lines: skip, or append the tuple; `int(time)` may
        raise out of the call. */
    method GetReviewData(lines: seq<ReviewLine>) returns (r: Result<seq<Review>>)
      ensures r == ReviewData(lines)
    {
      var reviewData: seq<Review> := [];
      var i := 0;
      while i < |lines|
        invariant 0 <= i <= |lines|
        invariant ReviewData(lines[..i]) == Ok(reviewData)
      {
        assert lines[..i + 1][..i] == lines[..i];
        var l := lines[i];
        if KeepReview(l.date, l.rating) {
          var t := MakeReview(l);
          if t.Err? {
            assert ReviewData(lines[..i + 1]) == Err(t.error);
            ReviewDataErrSticks(lines, i + 1);
            return Err(t.error);
          }
          reviewData := reviewData + [t.value];
        }
        i := i + 1;
      }
      assert lines[..i] == lines;
      return Ok(reviewData);
    }

    /** Once a line has raised, the later lines change nothing. */
    lemma {:induction false} ReviewDataErrSticks(lines: seq<ReviewLine>, n: nat)
      requires n <= |lines| && ReviewData(lines[..n]).Err?
      ensures ReviewData(lines) == ReviewData(lines[..n])
      decreases |lines| - n
    {
      if n < |lines| {
        assert lines[..n + 1][..n] == lines[..n];
        ReviewDataErrSticks(lines, n + 1);
      } else {
        assert lines[..n] == lines;
      }
    }

    /** `_get_user_item_interactions`: group the tuples by user, then sort each history by time. */
    method GetUserItemInteractions(reviews: seq<Review>) returns (g: Graph)
      ensures ValidGraph(g)
      ensures Users(g) == Dedup(ReviewUsers(reviews))
      ensures forall k :: 0 <= k < |g| ==> g[k].items == SortByTime(Select(reviews, g[k].user))
      ensures forall k :: 0 <= k < |g| ==>
        SortedByTime(g[k].items) && multiset(g[k].items) == multiset(Select(reviews, g[k].user))
      ensures Total(g) == |reviews|
    {
      g := [];
      var i := 0;
      while i < |reviews|
        invariant 0 <= i <= |reviews|
        invariant g == Group(reviews[..i])
      {
        assert reviews[..i + 1][..i] == reviews[..i];
        g := AddReview(g, reviews[i]);
        i := i + 1;
      }
      assert Grouped(g, reviews) by {
        assert reviews[..i] == reviews;
        GroupProperties(reviews);
      }
      ghost var grouped := g;
      var k := 0;
      while k < |g|
        invariant 0 <= k <= |g| && |g| == |grouped|
        invariant forall k' :: 0 <= k' < k ==> g[k'] == Entry(grouped[k'].user, SortByTime(grouped[k'].items))
        invariant forall k' :: k <= k' < |g| ==> g[k'] == grouped[k']
      {
        g := g[k := Entry(g[k].user, SortByTime(g[k].items))];
        k := k + 1;
      }
      SortedGrouping(reviews, grouped, g);
    }

    /** The inner counting loop of `_check_kcore` for one user's history: the user's count
        becomes the history's length, and each visit bumps its item's count. */
    method CountHistory(user: string, items: seq<string>, userCount: map<string, nat>,
                        itemCount: map<string, nat>, itemOrder: seq<string>, ghost seen: seq<string>)
      returns (userCount': map<string, nat>, itemCount': map<string, nat>, itemOrder': seq<string>)
      requires user !in userCount && itemCount == CountMap(seen) && itemOrder == Dedup(seen)
      ensures userCount' == Visits(userCount, user, |items|)
      ensures itemCount' == CountMap(seen + items)
      ensures itemOrder' == Dedup(seen + items)
    {
      userCount', itemCount', itemOrder' := userCount, itemCount, itemOrder;
      assert Counted(itemCount', itemOrder', seen + items[..0]) by { assert seen + items[..0] == seen; }
      var j := 0;
      while j < |items|
        invariant 0 <= j <= |items|
        invariant userCount' == Visits(userCount, user, j)
        invariant Counted(itemCount', itemOrder', seen + items[..j])
      {
        VisitsStep(userCount, user, j);
        userCount' := Bump(userCount', user);
        var x := items[j];
        CountedStep(itemCount', itemOrder', seen + items[..j], x);
        PrefixSnoc(seen, items, j);
        itemOrder' := if x in itemCount' then itemOrder' else itemOrder' + [x];
        itemCount' := Bump(itemCount', x);
        j := j + 1;
      }
      assert seen + items[..j] == seen + items;
    }

    /** The counting loop of `_check_kcore`: one per interaction for its user and its item.
        `itemOrder` is the key order of `item_count`. */
    method CountInteractions(g: Graph) returns (userCount: map<string, nat>, itemCount: map<string, nat>, itemOrder: seq<string>)
      requires ValidGraph(g)
      ensures userCount == UserCounts(g)
      ensures itemCount == ItemCounts(g)
      ensures itemOrder == Dedup(AllItems(g))
    {
      userCount, itemCount, itemOrder := map[], map[], [];
      var i := 0;
      while i < |g|
        invariant 0 <= i <= |g|
        invariant userCount == UserCounts(g[..i])
        invariant itemCount == CountMap(AllItems(g[..i]))
        invariant itemOrder == Dedup(AllItems(g[..i]))
      {
        assert g[..i + 1][..i] == g[..i];
        assert Users(g[..i]) == Users(g)[..i];
        if g[i].user in userCount {
          UserCountsKeys(g[..i], g[i].user);
        }
        userCount, itemCount, itemOrder :=
          CountHistory(g[i].user, ItemIds(g[i].items), userCount, itemCount, itemOrder, AllItems(g[..i]));
        i := i + 1;
      }
      assert g[..i] == g;
    }

    /** `_check_kcore`: the two count maps and the verdict. */
    method CheckKcore(g: Graph) returns (userCount: map<string, nat>, itemCount: map<string, nat>, ok: bool)
      requires ValidGraph(g)
      ensures userCount == UserCounts(g)
      ensures itemCount == ItemCounts(g)
      ensures ok == IsKcore(g, userCore, itemCore)
    {
      var itemOrder;
      userCount, itemCount, itemOrder := CountInteractions(g);
      assert IsKcore(g, userCore, itemCore) <==> CountsPass(userCount, itemCount, userCore, itemCore) by {
        IsKcoreByCounts(g, userCore, itemCore);
      }
      assert forall u :: u in userCount ==> u in Users(g) by {
        forall u | u in userCount ensures u in Users(g) {
          UserCountsMembers(g, u);
          var k :| 0 <= k < |g| && |g[k].items| > 0 && g[k].user == u;
          assert Users(g)[k] == u;
        }
      }
      ok := ReachesCore(userCount, Users(g), userCore);
      if !ok {
        return;
      }
      assert forall x :: x in itemCount ==> x in itemOrder by {
        DedupProperties(AllItems(g));
        forall x | x in itemCount ensures x in AllItems(g) {
          CountMapOcc(AllItems(g), x);
        }
      }
      ok := ReachesCore(itemCount, itemOrder, itemCore);
    }

    /** The inner `for item in ...` loop of `_filter_kcore`: the interactions whose item is
        counted at least `itemCore` times, in their order. */
    method KeepFrequentItems(items: seq<Interaction>, g: Graph, itemCount: map<string, nat>) returns (kept: seq<Interaction>)
      requires itemCount == ItemCounts(g)
      ensures kept == KeepFrequent(items, g, itemCore)
    {
      kept := [];
      var j := 0;
      while j < |items|
        invariant 0 <= j <= |items|
        invariant kept == KeepFrequent(items[..j], g, itemCore)
      {
        var x := items[j];
        assert items[..j + 1][..j] == items[..j];
        OccPositive(AllItems(g), x.item);
        CountMapOcc(AllItems(g), x.item);
        var c := if x.item in itemCount then itemCount[x.item] else 0;
        if c >= itemCore {
          kept := kept + [x];
        }
        j := j + 1;
      }
      assert items[..j] == items;
    }

    /** One pass of the `while` body of `_filter_kcore` over the counts of `g`; a popped user
        disappears, a kept user's history keeps its frequent items in order. */
    method PrunePass(g: Graph, userCount: map<string, nat>, itemCount: map<string, nat>) returns (next: Graph)
      requires ValidGraph(g) && userCount == UserCounts(g) && itemCount == ItemCounts(g)
      ensures next == Prune(g, userCore, itemCore)
    {
      next := [];
      var i := 0;
      while i < |g|
        invariant 0 <= i <= |g|
        invariant next == PruneEntries(g[..i], g, userCore, itemCore)
      {
        var e := g[i];
        assert g[..i + 1][..i] == g[..i];
        UserCountsMembers(g, e.user);
        if e.user in userCount {
          if userCount[e.user] < userCore {
          } else {
            var kept := KeepFrequentItems(e.items, g, itemCount);
            next := next + [Entry(e.user, kept)];
          }
        } else {
          next := next + [e];
        }
        i := i + 1;
      }
      assert g[..i] == g;
    }

    /** `_filter_kcore` with the configured floors: prune until the check passes. The loop
        terminates because each pass removes an interaction, and the result is the k-core. */
    method FilterKcore(g: Graph) returns (r: Graph)
      requires ValidGraph(g)
      ensures r == Kcore(g, userCore, itemCore)
      ensures IsKcore(r, userCore, itemCore)
      ensures ValidGraph(r) && SubGraph(r, g)
    {
      r := g;
      var userCount, itemCount, ok := CheckKcore(r);
      while !ok
        invariant ValidGraph(r)
        invariant Kcore(r, userCore, itemCore) == Kcore(g, userCore, itemCore)
        invariant userCount == UserCounts(r) && itemCount == ItemCounts(r)
        invariant ok == IsKcore(r, userCore, itemCore)
        decreases Total(r)
      {
        PruneProgress(r, userCore, itemCore);
        PruneEntriesSub(r, r, userCore, itemCore);
        r := PrunePass(r, userCount, itemCount);
        userCount, itemCount, ok := CheckKcore(r);
      }
      KcoreIsKcore(g, userCore, itemCore);
      KcoreSubGraph(g, userCore, itemCore);
    }

    /** The inner loop of `_get_mappings` over one user's history: each item not seen before
        gets the next id. */
    method NumberItems(items: seq<string>, item2id: map<string, string>, id2item: map<string, string>,
                       itemCnt: nat, ghost seen: seq<string>)
      returns (item2id': map<string, string>, id2item': map<string, string>, itemCnt': nat)
      requires item2id == Forward(Dedup(seen), "item_") && id2item == Inverse(Dedup(seen), "item_")
      requires itemCnt == |Dedup(seen)| + 1
      ensures item2id' == Forward(Dedup(seen + items), "item_") && id2item' == Inverse(Dedup(seen + items), "item_")
      ensures itemCnt' == |Dedup(seen + items)| + 1
    {
      item2id', id2item', itemCnt' := item2id, id2item, itemCnt;
      ghost var now := seen;
      var j := 0;
      while j < |items|
        invariant 0 <= j <= |items|
        invariant now == seen + items[..j]
        invariant item2id' == Forward(Dedup(now), "item_")
        invariant id2item' == Inverse(Dedup(now), "item_")
        invariant itemCnt' == |Dedup(now)| + 1
      {
        var x := items[j];
        NumberNext(now, "item_", x);
        if x !in item2id' {
          item2id' := item2id'[x := "item_" + NatToString(itemCnt')];
          id2item' := id2item'["item_" + NatToString(itemCnt') := x];
          itemCnt' := itemCnt' + 1;
        }
        assert now + [x] == seen + items[..j + 1] by { PrefixSnoc(seen, items, j); }
        now := now + [x];
        j := j + 1;
      }
      assert seen + items[..j] == seen + items;
    }

    /** `_get_mappings`: ids in key order for users and in order of first visit for items. */
    method GetMappings(g: Graph) returns (m: DataMaps)
      ensures m == Mappings(g)
    {
      var user2id, id2user, item2id, id2item := map[], map[], map[], map[];
      var userCnt, itemCnt := 1, 1;
      ghost var users, items := [], [];
      var i := 0;
      while i < |g|
        invariant 0 <= i <= |g|
        invariant users == Users(g[..i]) && items == AllItems(g[..i])
        invariant user2id == Forward(Dedup(users), "user_") && id2user == Inverse(Dedup(users), "user_")
        invariant userCnt == |Dedup(users)| + 1
        invariant item2id == Forward(Dedup(items), "item_") && id2item == Inverse(Dedup(items), "item_")
        invariant itemCnt == |Dedup(items)| + 1
      {
        var user := g[i].user;
        PrefixStep(g, i);
        NumberNext(users, "user_", user);
        if user !in user2id {
          user2id := user2id[user := "user_" + NatToString(userCnt)];
          id2user := id2user["user_" + NatToString(userCnt) := user];
          userCnt := userCnt + 1;
        }
        item2id, id2item, itemCnt := NumberItems(ItemIds(g[i].items), item2id, id2item, itemCnt, items);
        users, items := users + [user], items + ItemIds(g[i].items);
        i := i + 1;
      }
      assert g[..i] == g;
      m := DataMaps(user2id, id2user, item2id, id2item);
    }
  }

  /** The user counts after `j` of `user`'s visits: no key while there are none. */
  function Visits(m: map<string, nat>, user: string, j: nat): map<string, nat>
  {
    if j == 0 then m else m[user := j]
  }

  /** One more visit of a user that had no count before. */
  lemma VisitsStep(m: map<string, nat>, user: string, j: nat)
    requires user !in m
    ensures Bump(Visits(m, user, j), user) == Visits(m, user, j + 1)
  {
  }

  /** `c` counts the elements of `s` and `o` lists them in first-seen order. */
  predicate Counted(c: map<string, nat>, o: seq<string>, s: seq<string>)
  {
    c == CountMap(s) && o == Dedup(s)
  }

  /** One more counted item: its count goes up by one, and it joins the key order when new. */
  lemma CountedStep(c: map<string, nat>, o: seq<string>, s: seq<string>, x: string)
    requires Counted(c, o, s)
    ensures Counted(Bump(c, x), if x in c then o else o + [x], s + [x])
  {
    CountStep(s, x);
  }

  /** One more counted item: its count goes up by one, and it joins the key order when new. */
  lemma CountStep(s: seq<string>, x: string)
    ensures CountMap(s + [x]) == Bump(CountMap(s), x)
    ensures Dedup(s + [x]) == if x in CountMap(s) then Dedup(s) else Dedup(s) + [x]
  {
    assert (s + [x])[..|s|] == s;
    CountMapOcc(s, x);
    DedupAppend(s, x);
  }

  /** Two graphs whose histories have the same lengths hold the same number of interactions. */
  lemma {:induction false} TotalSameLengths(g: Graph, h: Graph)
    requires |g| == |h| && forall k :: 0 <= k < |g| ==> |g[k].items| == |h[k].items|
    ensures Total(g) == Total(h)
  {
    if |g| > 0 {
      TotalSameLengths(g[..|g| - 1], h[..|h| - 1]);
    }
  }

  // ---------------------------------------------------------------------------
  // The hard-coded floor of `_filter_kcore`

  /** `_filter_kcore` as written: the pass prunes against the literal 5 while the check uses the
      configured floors. */
  function PruneAsWritten(g: Graph): Graph
  {
    Prune(g, 5, 5)
  }

  /** One user who visited one item five times. */
  function StallingGraph(): Graph
  {
    var a := Interaction("a", 20190101000000, 5, "", "", "");
    [Entry("u", [a, a, a, a, a])]
  }

  /** With `user_core = item_core = 6` the example fails the check, but the pass as written
      returns it unchanged, so `while not iskcore` never ends. */
  lemma AsWrittenStalls()
    ensures !IsKcore(StallingGraph(), 6, 6)
    ensures PruneAsWritten(StallingGraph()) == StallingGraph()
  {
    var g := StallingGraph();
    var s := g[0].items;
    assert g[..0] == [];
    assert AllItems(g) == AllItems(g[..0]) + ItemIds(s);
    OccAll(AllItems(g), "a");
    KeepFrequentKeepsAll(s, g, 5);
    assert g[..|g| - 1] == [];
  }
}
