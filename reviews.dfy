/** `_review_data_preparation` (src/data_preparation.py:109-133) and
    `_explanation_data_preparation` (src/data_preparation.py:136-163): per interaction, skip
    the record when its text is empty, otherwise sample k task keys (2 and 3) and format both
    templates on the record. A `try` around the whole loop keeps the rows appended before an
    exception. */
module Reviews {
  import opened Common
  import opened Utils
  import opened Generators

  /** Format the input, then the output, on the record; either may raise (KeyError). */
  function FormatTask(st: TaskState, family: string, key: string, cat: Catalog): TaskState
  {
    if key !in cat then Fail(st, KeyError)
    else match FormatInput(cat[key], st.fields)
      case None => Fail(st, KeyError)
      case Some(inp) =>
        match FormatOutput(cat[key], st.fields)
        case None => Fail(st, KeyError)
        case Some(out) => Done(st, st.fields, family, key, cat, inp, out)
  }

  function FormatStep(family: string, cat: Catalog): Step
  {
    (i: nat, st: TaskState, key: string, t: nat) => FormatTask(st, family, key, cat)
  }

  /** A format task leaves the record as it is and appends the formatted pair, or raises. */
  lemma FormatTaskRules(st: TaskState, family: string, key: string, cat: Catalog)
    requires st.error.None?
    ensures var r := FormatTask(st, family, key, cat);
      && r.fields == st.fields
      && (r.error.None? <==> key in cat && FormatInput(cat[key], st.fields).Some? && FormatOutput(cat[key], st.fields).Some?)
      && (r.error.Some? ==> r.error.value == KeyError && r.emitted == st.emitted)
      && (r.error.None? ==>
            r.emitted == st.emitted + [Instance(family + key, FormatInput(cat[key], st.fields).value,
                                                FormatOutput(cat[key], st.fields).value, cat[key].metric)])
  {
  }

  lemma FormatEmitsOne(family: string, cat: Catalog)
    ensures EmitsOne(FormatStep(family, cat), family, cat)
  {
    forall i: nat, st: TaskState, key: string, t: nat | st.error.None?
      ensures EmitsOneFor(st, FormatStep(family, cat)(i, st, key, t), family, key, cat)
    {
      assert FormatStep(family, cat)(i, st, key, t) == FormatTask(st, family, key, cat);
    }
  }

  // ---------------------------------------------------------------------------
  // Skipped records, as flags on the interactions

  /** The keys sampled for the records whose flag is unset, in order. */
  function FlagPlan(flags: seq<bool>, d: Draws, i: nat): seq<string>
    requires i <= |flags|
    decreases |flags| - i
  {
    if i == |flags| then [] else (if flags[i] then [] else d.keys(i)) + FlagPlan(flags, d, i + 1)
  }

  /** The number of unset flags from `i` on. */
  function Unflagged(flags: seq<bool>, i: nat): nat
    requires i <= |flags|
    decreases |flags| - i
  {
    if i == |flags| then 0 else (if flags[i] then 0 else 1) + Unflagged(flags, i + 1)
  }

  /** When the flags say which records are skipped, the plan and its size are the flags'. */
  lemma {:induction false} PlannedByFlags(skip: Fields -> bool, d: Draws, recs: seq<Fields>, flags: seq<bool>, i: nat)
    requires |flags| == |recs| && i <= |recs|
    requires forall u :: 0 <= u < |recs| ==> skip(recs[u]) == flags[u]
    ensures PlannedKeys(skip, d, recs, i) == FlagPlan(flags, d, i)
    ensures Kept(skip, recs, i) == Unflagged(flags, i)
    decreases |recs| - i
  {
    if i < |recs| {
      PlannedByFlags(skip, d, recs, flags, i + 1);
    }
  }

  /** The run of a skipping family: nothing when every record is skipped; ValueError at the
      first kept record when the catalog is too small; otherwise the rows follow the plan of
      the unflagged records, and the list is complete, `k` rows per unflagged record, exactly
      when nothing was raised. */
  lemma FlaggedRun(step: Step, skip: Fields -> bool, k: nat, family: string, cat: Catalog, d: Draws,
                   recs: seq<Fields>, flags: seq<bool>)
    requires EmitsOne(step, family, cat) && KeySamples(cat, d, k)
    requires |flags| == |recs| && forall u :: 0 <= u < |recs| ==> skip(recs[u]) == flags[u]
    ensures var r := RunRecords(step, skip, k, cat, d, Run([], None), recs, 0);
      && (Unflagged(flags, 0) == 0 ==> r == Run([], None))
      && (|cat.Keys| < k && Unflagged(flags, 0) > 0 ==> r == Run([], Some(ValueError)))
      && (|cat.Keys| >= k ==>
            && Matches(r.instances, family, FlagPlan(flags, d, 0), cat)
            && |FlagPlan(flags, d, 0)| == Offset(k, Unflagged(flags, 0))
            && (r.error.None? <==> |r.instances| == Offset(k, Unflagged(flags, 0))))
  {
    var r := RunRecords(step, skip, k, cat, d, Run([], None), recs, 0);
    PlannedByFlags(skip, d, recs, flags, 0);
    if Unflagged(flags, 0) == 0 {
      NothingKept(step, skip, k, cat, d, recs, 0);
    }
    if |cat.Keys| < k {
      if Unflagged(flags, 0) > 0 {
        RecordsSmallCatalog(step, skip, k, cat, d, Run([], None), recs, 0);
      }
    } else {
      RecordsShape(step, skip, k, family, cat, d, Run([], None), recs, 0);
      assert r.instances[0..] == r.instances;
      PlannedCount(skip, cat, d, k, recs, 0);
    }
  }

  /** With every record skipped, the loop draws nothing and appends nothing. */
  lemma {:induction false} NothingKept(step: Step, skip: Fields -> bool, k: nat, cat: Catalog, d: Draws, recs: seq<Fields>, i: nat)
    requires i <= |recs| && Kept(skip, recs, i) == 0
    ensures RunRecords(step, skip, k, cat, d, Run([], None), recs, i) == Run([], None)
    decreases |recs| - i
  {
    if i < |recs| {
      NothingKept(step, skip, k, cat, d, recs, i + 1);
    }
  }

  // ---------------------------------------------------------------------------
  // _review_data_preparation

  /** `{'user_id', 'user_desc', 'review_body': [...], 'rating': [...]}`. */
  function ReviewDict(row: UserRow): Dict<Atom>
  {
    [("user_id", Scalar(row.userId)), ("user_desc", Scalar(row.userDesc)),
     ("review_body", List(TextList(row.reviews))), ("rating", List(NumList(row.ratings)))]
  }

  /** `sub_dct['review_body'] == ""`. */
  function ReviewSkip(): Fields -> bool
  {
    (f: Fields) => "review_body" in f && f["review_body"] == Text("")
  }

  /** Which interactions have an empty review. */
  function ReviewFlags(row: UserRow): (flags: seq<bool>)
    ensures |flags| == |row.reviews|
    ensures forall u :: 0 <= u < |flags| ==> (flags[u] <==> row.reviews[u] == "")
  {
    seq(|row.reviews|, u requires 0 <= u < |row.reviews| => row.reviews[u] == "")
  }

  function ReviewOutcome(row: UserRow, cat: Catalog, d: Draws): Outcome
  {
    match FlattenDict(ReviewDict(row))
    case Err(e) => Raised(e)
    case Ok(recs) =>
      var r := RunRecords(FormatStep("review_", cat), ReviewSkip(), 2, cat, d, Run([], None), recs, 0);
      Returned(r.instances, r.error.Some?)
  }

  /** One record per review, carrying it; IndexError when the rating column is shorter. */
  lemma ReviewFlatten(row: UserRow)
    ensures UniqueKeys(ReviewDict(row))
    ensures var f := FlattenDict(ReviewDict(row));
      && (f.Ok? <==> |row.ratings| >= |row.reviews|)
      && (f.Err? ==> f.error == IndexError)
      && (f.Ok? ==> |f.value| == |row.reviews| && forall u :: 0 <= u < |f.value| ==>
            "review_body" in f.value[u] && f.value[u]["review_body"] == Text(row.reviews[u]))
  {
    var dct := ReviewDict(row);
    assert FirstListLength(dct) == Some(|row.reviews|) by {
      assert dct[1..][1..] == dct[2..] && dct[2..][0] == dct[2];
      assert FirstListLength(dct[2..]) == Some(|row.reviews|);
      assert FirstListLength(dct[1..]) == FirstListLength(dct[2..]);
    }
    assert dct[2].1.List? && dct[3].1.List?;
    if |row.ratings| >= |row.reviews| {
      assert forall j :: 0 <= j < |dct| && dct[j].1.List? ==> |dct[j].1.elems| >= |row.reviews|;
    }
  }

  /** `_review_data_preparation`: two rows per non-empty review, labelled by the keys sampled
      for it, in order; an empty review draws nothing; an exception (counted once) keeps the
      rows before it. Only a short rating column raises out of the call. */
  lemma ReviewOutcomeShape(row: UserRow, cat: Catalog, d: Draws)
    requires KeySamples(cat, d, 2)
    ensures var o := ReviewOutcome(row, cat, d);
      && (o.Raised? <==> |row.ratings| < |row.reviews|)
      && (o.Raised? ==> o.error == IndexError)
      && (o.Returned? && Unflagged(ReviewFlags(row), 0) == 0 ==> o == Returned([], false))
      && (o.Returned? && |cat.Keys| < 2 && Unflagged(ReviewFlags(row), 0) > 0 ==> o == Returned([], true))
      && (o.Returned? && |cat.Keys| >= 2 ==>
            && Matches(o.instances, "review_", FlagPlan(ReviewFlags(row), d, 0), cat)
            && |FlagPlan(ReviewFlags(row), d, 0)| == 2 * Unflagged(ReviewFlags(row), 0)
            && (o.caught <==> |o.instances| < 2 * Unflagged(ReviewFlags(row), 0)))
  {
    ReviewFlatten(row);
    var f := FlattenDict(ReviewDict(row));
    if f.Ok? {
      var flags := ReviewFlags(row);
      assert forall u :: 0 <= u < |f.value| ==> ReviewSkip()(f.value[u]) == flags[u];
      FormatEmitsOne("review_", cat);
      FlaggedRun(FormatStep("review_", cat), ReviewSkip(), 2, "review_", cat, d, f.value, flags);
      OffsetTwo(Unflagged(flags, 0));
    }
  }

  // ---------------------------------------------------------------------------
  // _explanation_data_preparation

  /** `{'user_id', 'user_desc', 'item_id', 'item_title', 'rating', 'explanation', 'feature'}`,
      the last five lists. */
  function ExplanationDict(row: UserRow): Dict<Atom>
  {
    [("user_id", Scalar(row.userId)), ("user_desc", Scalar(row.userDesc)),
     ("item_id", List(TextList(row.itemIds))), ("item_title", List(TextList(row.itemTitles))),
     ("rating", List(NumList(row.ratings))), ("explanation", List(TextList(row.explanations))),
     ("feature", List(TextList(row.features)))]
  }

  /** `sub_dct['explanation'] == "" or sub_dct['feature'] == ""`. */
  function ExplanationSkip(): Fields -> bool
  {
    (f: Fields) => ("explanation" in f && f["explanation"] == Text("")) || ("feature" in f && f["feature"] == Text(""))
  }

  /** Which interactions lack an explanation or a feature. */
  function ExplanationFlags(row: UserRow): (flags: seq<bool>)
    ensures |flags| == |row.itemIds|
    ensures forall u :: 0 <= u < |flags| && u < |row.explanations| && u < |row.features| ==>
      (flags[u] <==> row.explanations[u] == "" || row.features[u] == "")
  {
    seq(|row.itemIds|, u requires 0 <= u < |row.itemIds| =>
      (u < |row.explanations| && row.explanations[u] == "") || (u < |row.features| && row.features[u] == ""))
  }

  function ExplanationOutcome(row: UserRow, cat: Catalog, d: Draws): Outcome
  {
    match FlattenDict(ExplanationDict(row))
    case Err(e) => Raised(e)
    case Ok(recs) =>
      var r := RunRecords(FormatStep("explanation_", cat), ExplanationSkip(), 3, cat, d, Run([], None), recs, 0);
      Returned(r.instances, r.error.Some?)
  }

  /** One record per interaction; IndexError when a later column is shorter than the items. */
  lemma ExplanationFlatten(row: UserRow)
    ensures UniqueKeys(ExplanationDict(row))
    ensures var f := FlattenDict(ExplanationDict(row));
      var n := |row.itemIds|;
      && (f.Ok? <==> |row.itemTitles| >= n && |row.ratings| >= n && |row.explanations| >= n && |row.features| >= n)
      && (f.Err? ==> f.error == IndexError)
      && (f.Ok? ==> |f.value| == n && forall u :: 0 <= u < |f.value| ==>
            && "explanation" in f.value[u] && f.value[u]["explanation"] == Text(row.explanations[u])
            && "feature" in f.value[u] && f.value[u]["feature"] == Text(row.features[u]))
  {
    var dct := ExplanationDict(row);
    var n := |row.itemIds|;
    assert FirstListLength(dct) == Some(n) by {
      assert dct[1..][1..] == dct[2..] && dct[2..][0] == dct[2];
      assert FirstListLength(dct[2..]) == Some(n);
      assert FirstListLength(dct[1..]) == FirstListLength(dct[2..]);
    }
    assert dct[2].1.List? && dct[3].1.List? && dct[4].1.List? && dct[5].1.List? && dct[6].1.List?;
    if |row.itemTitles| >= n && |row.ratings| >= n && |row.explanations| >= n && |row.features| >= n {
      assert forall j :: 0 <= j < |dct| && dct[j].1.List? ==> |dct[j].1.elems| >= n;
    }
  }

  /** `_explanation_data_preparation`: three rows per interaction with both an explanation and
      a feature, labelled by the keys sampled for it, in order; an exception (counted once)
      keeps the rows before it. Only a short column raises out of the call. */
  lemma ExplanationOutcomeShape(row: UserRow, cat: Catalog, d: Draws)
    requires KeySamples(cat, d, 3)
    ensures var o := ExplanationOutcome(row, cat, d);
      var n := |row.itemIds|;
      && (o.Raised? <==> !(|row.itemTitles| >= n && |row.ratings| >= n && |row.explanations| >= n && |row.features| >= n))
      && (o.Raised? ==> o.error == IndexError)
      && (o.Returned? && Unflagged(ExplanationFlags(row), 0) == 0 ==> o == Returned([], false))
      && (o.Returned? && |cat.Keys| < 3 && Unflagged(ExplanationFlags(row), 0) > 0 ==> o == Returned([], true))
      && (o.Returned? && |cat.Keys| >= 3 ==>
            && Matches(o.instances, "explanation_", FlagPlan(ExplanationFlags(row), d, 0), cat)
            && |FlagPlan(ExplanationFlags(row), d, 0)| == 3 * Unflagged(ExplanationFlags(row), 0)
            && (o.caught <==> |o.instances| < 3 * Unflagged(ExplanationFlags(row), 0)))
  {
    ExplanationFlatten(row);
    var f := FlattenDict(ExplanationDict(row));
    if f.Ok? {
      var flags := ExplanationFlags(row);
      assert forall u :: 0 <= u < |f.value| ==> ExplanationSkip()(f.value[u]) == flags[u];
      FormatEmitsOne("explanation_", cat);
      FlaggedRun(FormatStep("explanation_", cat), ExplanationSkip(), 3, "explanation_", cat, d, f.value, flags);
      OffsetThree(Unflagged(flags, 0));
    }
  }
}
