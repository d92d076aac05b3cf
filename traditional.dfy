/** `_traditional_data_preparation` (src/data_preparation.py:64-106): three sampled tasks per
    interaction. Keys 0-15 ask whether a candidate item fits the user ("yes" for an item of
    the user's own list, "no" for an unvisited one); the other keys present a 51-item
    candidate list holding the interaction's item. A `try` around the whole loop keeps the
    rows appended before an exception. */
module Traditional {
  import opened Common
  import opened Utils
  import opened Generators

  /** `{'user_id', 'user_desc', 'item_id_list': [...], 'item_title_list': [...]}`. */
  function TraditionalDict(row: UserRow): Dict<Atom>
  {
    [("user_id", Scalar(row.userId)), ("user_desc", Scalar(row.userDesc)),
     ("item_id_list", List(TextList(row.itemIds))), ("item_title_list", List(TextList(row.itemTitles)))]
  }

  /** One traditional task on the record `st.fields`; `ids` and `titles` are the user's whole
      lists (the unflattened dict), `item` the drawn unvisited item, `pos` and `negatives`
      the insertion position and the 50 sampled negatives. */
  function TraditionalTask(st: TaskState, key: string, cat: Catalog, ids: seq<string>, titles: seq<string>,
                           id2item: map<string, string>, gate: int, pick: nat, item: string,
                           pos: nat, negatives: seq<string>): TaskState
  {
    match ParseNat(key)
    case None => Fail(st, ValueError)
    case Some(n) =>
      if n <= 15 then YesNoTask(st, key, cat, ids, titles, id2item, gate, pick, item)
      else ListTask(st, key, cat, ids, id2item, pos, negatives)
  }

  /** Keys 0-15: a visited item for "yes" (the gate at 50 or more), else an unvisited one. */
  function YesNoTask(st: TaskState, key: string, cat: Catalog, ids: seq<string>, titles: seq<string>,
                     id2item: map<string, string>, gate: int, pick: nat, item: string): TaskState
  {
    if Clamp(gate) >= 50 then
      // random.choice(range(0, len(ids) - 1)) is empty below two items
      if |ids| < 2 then Fail(st, IndexError)
      else
        var j := pick % (|ids| - 1);
        if j >= |titles| then Fail(st, IndexError)
        else
          var f := st.fields["candidate_item_id" := Text(ids[j])]["candidate_item_title" := Text(titles[j])];
          Emit(st, f, "traditional_", key, cat, "yes")
    else if |Pool(id2item, ids)| == 0 then Fail(st, IndexError)
    else if item !in id2item then Fail(st, KeyError)
    else
      var f := st.fields["candidate_item_id" := Text(item)]["candidate_item_title" := Text(id2item[item])];
      Emit(st, f, "traditional_", key, cat, "no")
  }

  /** The other keys: the record's item id becomes the target, inserted among the negatives. */
  function ListTask(st: TaskState, key: string, cat: Catalog, ids: seq<string>, id2item: map<string, string>,
                    pos: nat, negatives: seq<string>): TaskState
  {
    if |Pool(id2item, ids)| < 50 then Fail(st, ValueError)
    else if "item_id_list" !in st.fields then Fail(st, KeyError)
    else if !st.fields["item_id_list"].Text? then Fail(st, TypeError)
    else
      var target := st.fields["item_id_list"].text;
      var f := st.fields["target_item_id" := Text(target)]
                        ["candiate_item_id_list" := Text(Braces(Candidates(negatives, pos, target)))];
      if key !in cat then Fail(st, KeyError)
      else match FormatOutput(cat[key], f)
        case None => Fail(st, KeyError)
        case Some(o) => Emit(st, f, "traditional_", key, cat, o)
  }

  function TraditionalStep(cat: Catalog, row: UserRow, id2item: map<string, string>, d: Draws): Step
  {
    (i: nat, st: TaskState, key: string, t: nat) =>
      TraditionalTask(st, key, cat, row.itemIds, row.itemTitles, id2item,
                      d.gauss(i, t), d.pick(i, t), d.item(i, t), d.position(i, t), d.negatives(i, t))
  }

  /** `flatten_dict` raises outside the `try`; everything in the loop is caught. */
  function TraditionalOutcome(row: UserRow, cat: Catalog, id2item: map<string, string>, d: Draws): Outcome
  {
    match FlattenDict(TraditionalDict(row))
    case Err(e) => Raised(e)
    case Ok(recs) =>
      var r := RunRecords(TraditionalStep(cat, row, id2item, d), NoSkip(), 3, cat, d, Run([], None), recs, 0);
      Returned(r.instances, r.error.Some?)
  }

  lemma TraditionalEmitsOne(cat: Catalog, row: UserRow, id2item: map<string, string>, d: Draws)
    ensures EmitsOne(TraditionalStep(cat, row, id2item, d), "traditional_", cat)
  {
    var step := TraditionalStep(cat, row, id2item, d);
    forall i: nat, st: TaskState, key: string, t: nat | st.error.None?
      ensures EmitsOneFor(st, step(i, st, key, t), "traditional_", key, cat)
    {
      var r := TraditionalTask(st, key, cat, row.itemIds, row.itemTitles, id2item,
                               d.gauss(i, t), d.pick(i, t), d.item(i, t), d.position(i, t), d.negatives(i, t));
      assert step(i, st, key, t) == r;
      TaskEmitsOne(st, key, cat, row.itemIds, row.itemTitles, id2item,
                   d.gauss(i, t), d.pick(i, t), d.item(i, t), d.position(i, t), d.negatives(i, t));
    }
  }

  lemma TaskEmitsOne(st: TaskState, key: string, cat: Catalog, ids: seq<string>, titles: seq<string>,
                     id2item: map<string, string>, gate: int, pick: nat, item: string,
                     pos: nat, negatives: seq<string>)
    requires st.error.None?
    ensures EmitsOneFor(st, TraditionalTask(st, key, cat, ids, titles, id2item, gate, pick, item, pos, negatives),
                        "traditional_", key, cat)
  {
    match ParseNat(key) {
      case None =>
        assert st.emitted[..|st.emitted|] == st.emitted;
      case Some(n) =>
        if n <= 15 {
          YesNoEmitsOne(st, key, cat, ids, titles, id2item, gate, pick, item);
        } else {
          ListEmitsOne(st, key, cat, ids, id2item, pos, negatives);
        }
    }
  }

  lemma YesNoEmitsOne(st: TaskState, key: string, cat: Catalog, ids: seq<string>, titles: seq<string>,
                      id2item: map<string, string>, gate: int, pick: nat, item: string)
    ensures EmitsOneFor(st, YesNoTask(st, key, cat, ids, titles, id2item, gate, pick, item), "traditional_", key, cat)
  {
    assert st.emitted[..|st.emitted|] == st.emitted;
    if Clamp(gate) >= 50 {
      if |ids| >= 2 && pick % (|ids| - 1) < |titles| {
        var j := pick % (|ids| - 1);
        EmitShape(st, st.fields["candidate_item_id" := Text(ids[j])]["candidate_item_title" := Text(titles[j])],
                  "traditional_", key, cat, "yes");
      }
    } else if |Pool(id2item, ids)| > 0 && item in id2item {
      EmitShape(st, st.fields["candidate_item_id" := Text(item)]["candidate_item_title" := Text(id2item[item])],
                "traditional_", key, cat, "no");
    }
  }

  lemma ListEmitsOne(st: TaskState, key: string, cat: Catalog, ids: seq<string>, id2item: map<string, string>,
                     pos: nat, negatives: seq<string>)
    ensures EmitsOneFor(st, ListTask(st, key, cat, ids, id2item, pos, negatives), "traditional_", key, cat)
  {
    assert st.emitted[..|st.emitted|] == st.emitted;
    if |Pool(id2item, ids)| >= 50 && "item_id_list" in st.fields && st.fields["item_id_list"].Text? {
      var target := st.fields["item_id_list"].text;
      var f := st.fields["target_item_id" := Text(target)]
                        ["candiate_item_id_list" := Text(Braces(Candidates(negatives, pos, target)))];
      if key in cat {
        match FormatOutput(cat[key], f) {
          case None =>
          case Some(o) => EmitShape(st, f, "traditional_", key, cat, o);
        }
      }
    }
  }

  /** The rules of the yes/no tasks 0-15 (src/data_preparation.py:78-89). With a drawn item
      from the pool of unvisited items, a "no" task fails only in formatting its input, and
      the candidate it writes is none of the user's items. */
  lemma TraditionalYesNoRules(st: TaskState, key: string, n: nat, cat: Catalog, ids: seq<string>, titles: seq<string>,
                              id2item: map<string, string>, gate: int, pick: nat, item: string,
                              pos: nat, negatives: seq<string>)
    requires st.error.None? && ParseNat(key) == Some(n) && n <= 15 && |titles| >= |ids|
    ensures var r := TraditionalTask(st, key, cat, ids, titles, id2item, gate, pick, item, pos, negatives);
      && (r.error.None? ==>
            && key in cat && |r.emitted| == |st.emitted| + 1
            && FormatInput(cat[key], r.fields) == Some(r.emitted[|st.emitted|].inpText)
            && r.emitted[|st.emitted|].outText == r.outText)
      && (Clamp(gate) >= 50 && |ids| < 2 ==> r.error == Some(IndexError))
      && (Clamp(gate) >= 50 && r.error.None? ==>
            && r.outText == "yes"
            && exists j :: 0 <= j < |ids| - 1 &&
                 r.fields == st.fields["candidate_item_id" := Text(ids[j])]["candidate_item_title" := Text(titles[j])])
      && (Clamp(gate) < 50 && |Pool(id2item, ids)| == 0 ==> r.error == Some(IndexError))
      && (Clamp(gate) < 50 && r.error.None? ==>
            && r.outText == "no" && item in id2item
            && r.fields == st.fields["candidate_item_id" := Text(item)]["candidate_item_title" := Text(id2item[item])])
      && (Clamp(gate) < 50 && item in Pool(id2item, ids) ==>
            var f := st.fields["candidate_item_id" := Text(item)]["candidate_item_title" := Text(id2item[item])];
            && (r.error.None? <==> key in cat && FormatInput(cat[key], f).Some?)
            && (r.error.Some? ==> r.error == Some(KeyError))
            && (r.error.None? ==> r.fields["candidate_item_id"] == Text(item) && item !in ids))
  {
    if Clamp(gate) >= 50 && |ids| >= 2 {
      var j := pick % (|ids| - 1);
      var r := TraditionalTask(st, key, cat, ids, titles, id2item, gate, pick, item, pos, negatives);
      if r.error.None? {
        assert r.fields == st.fields["candidate_item_id" := Text(ids[j])]["candidate_item_title" := Text(titles[j])];
      }
    }
  }

  /** The rules of the candidate-list tasks (src/data_preparation.py:90-96): the record's own
      item becomes the target, inserted into the 50 negatives; with real draws the list has 51
      distinct items, the target once at the drawn position, and no other item of the user. */
  lemma TraditionalListRules(st: TaskState, key: string, n: nat, cat: Catalog, ids: seq<string>, titles: seq<string>,
                             id2item: map<string, string>, gate: int, pick: nat, item: string,
                             pos: nat, negatives: seq<string>)
    requires st.error.None? && ParseNat(key) == Some(n) && n > 15
    ensures var r := TraditionalTask(st, key, cat, ids, titles, id2item, gate, pick, item, pos, negatives);
      && (|Pool(id2item, ids)| < 50 ==> r.error == Some(ValueError))
      && (r.error.None? ==>
            && key in cat && |r.emitted| == |st.emitted| + 1
            && FormatInput(cat[key], r.fields) == Some(r.emitted[|st.emitted|].inpText)
            && FormatOutput(cat[key], r.fields) == Some(r.outText)
            && r.emitted[|st.emitted|].outText == r.outText
            && "item_id_list" in st.fields && st.fields["item_id_list"].Text?
            && var target := st.fields["item_id_list"].text;
               && r.fields["target_item_id"] == Text(target)
               && r.fields["candiate_item_id_list"] == Text(Braces(Candidates(negatives, pos, target)))
               && (IsSample(negatives, Pool(id2item, ids), 50) && pos <= 49 && target in ids ==>
                     var c := Candidates(negatives, pos, target);
                     && |c| == 51 && c[pos] == target && Occ(c, target) == 1 && Distinct(c)
                     && forall j :: 0 <= j < |c| && j != pos ==> c[j] in id2item && c[j] !in ids))
  {
    var r := TraditionalTask(st, key, cat, ids, titles, id2item, gate, pick, item, pos, negatives);
    if r.error.None? {
      var target := st.fields["item_id_list"].text;
      if IsSample(negatives, Pool(id2item, ids), 50) && pos <= 49 && target in ids {
        CandidateList(ids, id2item, negatives, pos, target);
      }
    }
  }

  /** The flattened traditional records: one per interaction, carrying its item id;
      IndexError when the title column is shorter. */
  lemma TraditionalFlatten(row: UserRow)
    ensures UniqueKeys(TraditionalDict(row))
    ensures var f := FlattenDict(TraditionalDict(row));
      && (f.Ok? <==> |row.itemTitles| >= |row.itemIds|)
      && (f.Err? ==> f.error == IndexError)
      && (f.Ok? ==> |f.value| == |row.itemIds| && forall u :: 0 <= u < |f.value| ==>
            "item_id_list" in f.value[u] && f.value[u]["item_id_list"] == Text(row.itemIds[u]))
  {
    var dct := TraditionalDict(row);
    assert FirstListLength(dct) == Some(|row.itemIds|) by {
      assert dct[1..][1..] == dct[2..] && dct[2..][0] == dct[2];
      assert FirstListLength(dct[2..]) == Some(|row.itemIds|);
      assert FirstListLength(dct[1..]) == FirstListLength(dct[2..]);
    }
    assert dct[2].1.List? && dct[3].1.List?;
    if |row.itemTitles| >= |row.itemIds| {
      assert forall j :: 0 <= j < |dct| && dct[j].1.List? ==> |dct[j].1.elems| >= |row.itemIds|;
    }
  }

  /** `_traditional_data_preparation`: only a short title column raises out of the call.
      Otherwise the rows go three per interaction, row `3u + t` for sampled key `t` of
      interaction `u`; an exception (counted once) keeps the rows before it, and the list is
      complete exactly when nothing was caught. Too small a catalog is caught at once. */
  lemma TraditionalOutcomeShape(row: UserRow, cat: Catalog, id2item: map<string, string>, d: Draws)
    requires KeySamples(cat, d, 3)
    ensures var o := TraditionalOutcome(row, cat, id2item, d);
      && (o.Raised? <==> |row.itemTitles| < |row.itemIds|)
      && (o.Raised? ==> o.error == IndexError)
      && (|cat.Keys| < 3 && 0 < |row.itemIds| <= |row.itemTitles| ==> o == Returned([], true))
      && (|cat.Keys| >= 3 && o.Returned? ==>
            && |o.instances| <= 3 * |row.itemIds|
            && (o.caught <==> |o.instances| < 3 * |row.itemIds|)
            && forall u, t :: 0 <= u < |row.itemIds| && 0 <= t < 3 && 3 * u + t < |o.instances| ==>
                 && o.instances[3 * u + t].taskDesc == "traditional_" + d.keys(u)[t]
                 && o.instances[3 * u + t].metric == cat[d.keys(u)[t]].metric)
  {
    TraditionalFlatten(row);
    var f := FlattenDict(TraditionalDict(row));
    if f.Ok? {
      var recs := f.value;
      var step := TraditionalStep(cat, row, id2item, d);
      if |cat.Keys| < 3 {
        if |recs| > 0 {
          KeptAll(recs, 0);
          RecordsSmallCatalog(step, NoSkip(), 3, cat, d, Run([], None), recs, 0);
        }
      } else {
        var r := RunRecords(step, NoSkip(), 3, cat, d, Run([], None), recs, 0);
        assert Matches(r.instances, "traditional_", PlannedKeys(NoSkip(), d, recs, 0), cat)
          && (r.error.None? <==> |r.instances| == |PlannedKeys(NoSkip(), d, recs, 0)|) by {
          TraditionalEmitsOne(cat, row, id2item, d);
          NoSkipMatches(step, 3, "traditional_", cat, d, recs);
        }
        NoSkipRows(r.instances, r.error.None?, "traditional_", cat, d, 3, recs);
        RowsByRecordThree(r.instances, r.error.None?, "traditional_", cat, d, |recs|);
      }
    }
  }
}
