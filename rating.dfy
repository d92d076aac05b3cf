/** `_rating_data_preparation` (src/data_preparation.py:219-251): two sampled tasks per
    interaction, no `try`. */
module Rating {
  import opened Common
  import opened Utils
  import opened Generators

  /** `[i for i in range(0, k) if i != current]`. */
  function RatingChoicesBelow(k: nat, current: Atom): (cs: seq<int>)
    ensures |cs| == k - (if current.Num? && 0 <= current.num < k then 1 else 0)
    ensures forall j :: 0 <= j < |cs| ==> 0 <= cs[j] < k && Num(cs[j]) != current
    ensures forall v :: 0 <= v < k && Num(v) != current ==> v in cs
  {
    if k == 0 then [] else RatingChoicesBelow(k - 1, current) + (if Num(k - 1) != current then [k - 1] else [])
  }

  /** The replacement ratings: every rating of 0..4 except the current one (never empty). */
  function RatingChoices(current: Atom): seq<int>
  {
    RatingChoicesBelow(5, current)
  }

  /** One rating task. Keys 0-10 use the output template; 11-14 answer "yes" on a score above
      50 and otherwise rewrite the record's rating to another value and answer "no"; 15-18
      answer "like" or "dislike" from the (possibly rewritten) rating; any other key leaves
      `out_text` as the previous task set it. The input is formatted last. */
  function RatingTask(st: TaskState, key: string, cat: Catalog, gate: int, pick: nat): TaskState
  {
    match ParseNat(key)
    case None => Fail(st, ValueError)
    case Some(n) =>
      if n <= 10 then
        if key !in cat then Fail(st, KeyError)
        else match FormatOutput(cat[key], st.fields)
          case None => Fail(st, KeyError)
          case Some(o) => Emit(st, st.fields, "rating_", key, cat, o)
      else if n <= 14 then
        if Clamp(gate) > 50 then Emit(st, st.fields, "rating_", key, cat, "yes")
        else if "rating" !in st.fields then Fail(st, KeyError)
        else
          var cs := RatingChoices(st.fields["rating"]);
          Emit(st, st.fields["rating" := Num(cs[pick % |cs|])], "rating_", key, cat, "no")
      else if n <= 18 then
        if "rating" !in st.fields then Fail(st, KeyError)
        else if !st.fields["rating"].Num? then Fail(st, TypeError)
        else Emit(st, st.fields, "rating_", key, cat, if st.fields["rating"].num >= 4 then "like" else "dislike")
      else Emit(st, st.fields, "rating_", key, cat, st.outText)
  }

  function RatingStep(cat: Catalog, d: Draws): Step
  {
    (i: nat, st: TaskState, key: string, t: nat) => RatingTask(st, key, cat, d.gauss(i, t), d.pick(i, t))
  }

  /** `{'user_id', 'user_desc', 'item_id': [...], 'item_title': [...], 'rating': [...]}`. */
  function RatingDict(row: UserRow): Dict<Atom>
  {
    [("user_id", Scalar(row.userId)), ("user_desc", Scalar(row.userDesc)),
     ("item_id", List(TextList(row.itemIds))), ("item_title", List(TextList(row.itemTitles))),
     ("rating", List(NumList(row.ratings)))]
  }

  /** `_rating_data_preparation`: no `try`, so every exception leaves the call. */
  function RatingOutcome(row: UserRow, cat: Catalog, d: Draws): Outcome
  {
    match FlattenDict(RatingDict(row))
    case Err(e) => Raised(e)
    case Ok(recs) =>
      var r := RunRecords(RatingStep(cat, d), NoSkip(), 2, cat, d, Run([], None), recs, 0);
      if r.error.Some? then Raised(r.error.value) else Returned(r.instances, false)
  }

  /** Every rating task appends one row labelled "rating_" + key, or raises. */
  lemma RatingEmitsOne(cat: Catalog, d: Draws)
    ensures EmitsOne(RatingStep(cat, d), "rating_", cat)
  {
    forall i: nat, st: TaskState, key: string, t: nat | st.error.None?
      ensures EmitsOneFor(st, RatingStep(cat, d)(i, st, key, t), "rating_", key, cat)
    {
      var r := RatingTask(st, key, cat, d.gauss(i, t), d.pick(i, t));
      assert RatingStep(cat, d)(i, st, key, t) == r;
    }
  }

  /** The label rules of one rating task (src/data_preparation.py:236-249). */
  lemma RatingTaskRules(st: TaskState, key: string, n: nat, cat: Catalog, gate: int, pick: nat)
    requires st.error.None? && ParseNat(key) == Some(n) && key in cat
    ensures var r := RatingTask(st, key, cat, gate, pick);
      && (r.error.None? ==>
            && |r.emitted| == |st.emitted| + 1
            && r.fields.Keys == st.fields.Keys
            && FormatInput(cat[key], r.fields) == Some(r.emitted[|st.emitted|].inpText)
            && r.emitted[|st.emitted|].outText == r.outText)
      && (n <= 10 ==>
            && (r.error.None? <==> FormatOutput(cat[key], st.fields).Some? && FormatInput(cat[key], st.fields).Some?)
            && (r.error.None? ==> r.fields == st.fields && FormatOutput(cat[key], st.fields) == Some(r.outText)))
      && (11 <= n <= 14 && gate > 50 ==> r.error.None? ==> r.fields == st.fields && r.outText == "yes")
      && (11 <= n <= 14 && gate <= 50 && r.error.None? ==>
            && "rating" in st.fields && r.outText == "no"
            && r.fields == st.fields["rating" := r.fields["rating"]]
            && r.fields["rating"].Num? && 0 <= r.fields["rating"].num <= 4
            && r.fields["rating"] != st.fields["rating"])
      && (15 <= n <= 18 ==>
            && ("rating" in st.fields && !st.fields["rating"].Num? ==> r.error == Some(TypeError))
            && (r.error.None? ==>
                  r.fields == st.fields && st.fields["rating"].Num? &&
                  r.outText == if st.fields["rating"].num >= 4 then "like" else "dislike"))
      && (n > 18 ==> r.error.None? ==> r.fields == st.fields && r.outText == st.outText)
  {
    if 11 <= n <= 14 && gate <= 50 && "rating" in st.fields {
      var cs := RatingChoices(st.fields["rating"]);
      assert cs[pick % |cs|] in cs;
    }
  }

  /** A rewritten rating stays in the record: when the first task of an interaction takes
      the "no" branch of 11-14 and the second is a like/dislike task, the second judges
      the rewritten rating, which differs from the true one. */
  lemma RatingRewriteCarriesOver(sub: Fields, k0: string, n0: nat, k1: string, n1: nat, cat: Catalog, i: nat, d: Draws)
    requires k0 in cat && ParseNat(k0) == Some(n0) && 11 <= n0 <= 14 && d.gauss(i, 0) <= 50
    requires k1 in cat && ParseNat(k1) == Some(n1) && 15 <= n1 <= 18
    requires "rating" in sub
    ensures var r := RunTasks(RatingStep(cat, d), i, Start(sub), [k0, k1], 0);
      var cs := RatingChoices(sub["rating"]);
      var v := cs[d.pick(i, 0) % |cs|];
      r.error.None? ==>
        && |r.emitted| == 2 && r.emitted[0].outText == "no"
        && 0 <= v <= 4 && Num(v) != sub["rating"]
        && r.emitted[1].outText == (if v == 4 then "like" else "dislike")
        && FormatInput(cat[k1], sub["rating" := Num(v)]) == Some(r.emitted[1].inpText)
  {
    var step := RatingStep(cat, d);
    var keys := [k0, k1];
    var s0 := Start(sub);
    var s1 := RatingTask(s0, k0, cat, d.gauss(i, 0), d.pick(i, 0));
    assert step(i, s0, keys[0], 0) == s1;
    RatingTaskRules(s0, k0, n0, cat, d.gauss(i, 0), d.pick(i, 0));
    var cs := RatingChoices(sub["rating"]);
    var v := cs[d.pick(i, 0) % |cs|];
    assert v in cs;
    if s1.error.None? {
      assert s1.fields == sub["rating" := Num(v)];
      var s2 := RatingTask(s1, k1, cat, d.gauss(i, 1), d.pick(i, 1));
      assert step(i, s1, keys[1], 1) == s2;
      RatingTaskRules(s1, k1, n1, cat, d.gauss(i, 1), d.pick(i, 1));
      assert RunTasks(step, i, s0, keys, 0) == RunTasks(step, i, s2, keys, 2) == s2;
    }
  }

  /** The flattened rating records: one per interaction, or IndexError when the title or
      rating column is shorter than the item column. */
  lemma RatingFlatten(row: UserRow)
    ensures UniqueKeys(RatingDict(row))
    ensures var f := FlattenDict(RatingDict(row));
      && (f.Ok? <==> |row.itemTitles| >= |row.itemIds| && |row.ratings| >= |row.itemIds|)
      && (f.Err? ==> f.error == IndexError)
      && (f.Ok? ==> |f.value| == |row.itemIds| && forall u :: 0 <= u < |f.value| ==>
            "item_id" in f.value[u] && f.value[u]["item_id"] == Text(row.itemIds[u]) &&
            "rating" in f.value[u] && f.value[u]["rating"] == Num(row.ratings[u]))
  {
    var dct := RatingDict(row);
    assert FirstListLength(dct) == Some(|row.itemIds|) by {
      assert dct[1..][1..] == dct[2..] && dct[2..][0] == dct[2];
      assert FirstListLength(dct[2..]) == Some(|row.itemIds|);
      assert FirstListLength(dct[1..]) == FirstListLength(dct[2..]);
    }
    assert dct[2].1.List? && dct[3].1.List? && dct[4].1.List?;
    var f := FlattenDict(dct);
    if |row.itemTitles| >= |row.itemIds| && |row.ratings| >= |row.itemIds| {
      assert forall j :: 0 <= j < |dct| && dct[j].1.List? ==> |dct[j].1.elems| >= |row.itemIds|;
    }
  }

  /** `_rating_data_preparation`: it never catches; without an exception it emits two rows
      per interaction, row `2u + t` for sampled key `t` of interaction `u`. A catalog with
      fewer than two keys raises ValueError on the first interaction. */
  lemma RatingOutcomeShape(row: UserRow, cat: Catalog, d: Draws)
    requires KeySamples(cat, d, 2)
    ensures var o := RatingOutcome(row, cat, d);
      && (o.Returned? ==> !o.caught)
      && (|cat.Keys| < 2 && |row.itemIds| > 0 ==> o == Raised(ValueError) || o == Raised(IndexError))
      && (|cat.Keys| >= 2 && o.Returned? ==>
            && |o.instances| == 2 * |row.itemIds|
            && forall u, t :: 0 <= u < |row.itemIds| && 0 <= t < 2 ==>
                 && 2 * u + t < |o.instances|
                 && o.instances[2 * u + t].taskDesc == "rating_" + d.keys(u)[t]
                 && o.instances[2 * u + t].metric == cat[d.keys(u)[t]].metric)
  {
    RatingFlatten(row);
    var f := FlattenDict(RatingDict(row));
    if f.Ok? {
      var recs := f.value;
      var step := RatingStep(cat, d);
      if |cat.Keys| < 2 {
        if |recs| > 0 {
          RecordsSmallCatalog(step, NoSkip(), 2, cat, d, Run([], None), recs, 0);
        }
      } else {
        var r := RunRecords(step, NoSkip(), 2, cat, d, Run([], None), recs, 0);
        assert Matches(r.instances, "rating_", PlannedKeys(NoSkip(), d, recs, 0), cat)
          && (r.error.None? <==> |r.instances| == |PlannedKeys(NoSkip(), d, recs, 0)|) by {
          RatingEmitsOne(cat, d);
          NoSkipMatches(step, 2, "rating_", cat, d, recs);
        }
        NoSkipRows(r.instances, r.error.None?, "rating_", cat, d, 2, recs);
        RowsByRecordTwo(r.instances, r.error.None?, "rating_", cat, d, |recs|);
      }
    }
  }
}
