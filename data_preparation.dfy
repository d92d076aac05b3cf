/** `DataPreparation` (src/data_preparation.py): the five generators as methods that loop over
    the flattened records and the sampled keys, update the record's dict in place, and count
    caught exceptions in the object's error counters; and `data_preparation`, which runs the
    families one after another over all user records and concatenates their rows. Each method
    is proved equal to the family's function in the generator modules. */
module DataPrep {
  import opened Common
  import opened Utils
  import opened Generators
  import opened Rating
  import opened Traditional
  import opened Reviews
  import opened Sequential

  /** `tasks` (src/data_templates is not part of this model): one catalog per family. */
  datatype Tasks = Tasks(rating: Catalog, sequential: Catalog, explanation: Catalog, review: Catalog, traditional: Catalog)

  /** The families in the order `data_preparation` runs them. */
  const Rating_: nat := 0
  const Sequential_: nat := 1
  const Explanation_: nat := 2
  const Review_: nat := 3
  const Traditional_: nat := 4

  /** What generator `fam` does with one user record. */
  function FamilyOutcome(fam: nat, tasks: Tasks, id2item: map<string, string>, row: UserRow, d: Draws): Outcome
  {
    if fam == Rating_ then RatingOutcome(row, tasks.rating, d)
    else if fam == Sequential_ then SequentialOutcome(row, tasks.sequential, id2item, d)
    else if fam == Explanation_ then ExplanationOutcome(row, tasks.explanation, d)
    else if fam == Review_ then ReviewOutcome(row, tasks.review, d)
    else TraditionalOutcome(row, tasks.traditional, id2item, d)
  }

  /** The outcomes of generator `fam` on every user record, in record order. */
  function Outcomes(fam: nat, tasks: Tasks, id2item: map<string, string>, rows: seq<UserRow>,
                    draws: (nat, nat) -> Draws): (os: seq<Outcome>)
    ensures |os| == |rows|
  {
    seq(|rows|, j requires 0 <= j < |rows| => FamilyOutcome(fam, tasks, id2item, rows[j], draws(fam, j)))
  }

  /** `results.extend(future.result())` over the outcomes: the rows of all of them in order,
      or the exception of the first that raised. */
  function Gather(os: seq<Outcome>): Result<seq<Instance>>
  {
    if |os| == 0 then Ok([])
    else match Gather(os[..|os| - 1])
      case Err(e) => Err(e)
      case Ok(xs) =>
        match os[|os| - 1]
        case Raised(e) => Err(e)
        case Returned(ys, _) => Ok(xs + ys)
  }

  /** The number of outcomes whose family caught an exception. */
  function CaughtCount(os: seq<Outcome>): nat
  {
    if |os| == 0 then 0 else CaughtCount(os[..|os| - 1]) + (if os[|os| - 1].Returned? && os[|os| - 1].caught then 1 else 0)
  }

  /** Gathering succeeds exactly when no outcome raised; its rows are then the outcomes'
      rows, record after record. */
  lemma {:induction false} GatherOk(os: seq<Outcome>)
    ensures Gather(os).Ok? <==> forall j :: 0 <= j < |os| ==> os[j].Returned?
    ensures Gather(os).Ok? ==> |os| == 0 || Gather(os).value == Gather(os[..|os| - 1]).value + os[|os| - 1].instances
    ensures Gather(os).Err? ==> exists j :: 0 <= j < |os| && os[j].Raised? && Gather(os).error == os[j].error
  {
    if |os| > 0 {
      var init := os[..|os| - 1];
      GatherOk(init);
      assert forall j :: 0 <= j < |init| ==> init[j] == os[j];
      if Gather(os).Err? && Gather(init).Err? {
        var j :| 0 <= j < |init| && init[j].Raised? && Gather(init).error == init[j].error;
        assert os[j] == init[j];
      }
    }
  }

  /** A caught exception is counted once per outcome: never more than the outcomes. */
  lemma {:induction false} CaughtCountBound(os: seq<Outcome>)
    ensures CaughtCount(os) <= |os|
    ensures CaughtCount(os) == 0 <==> forall j :: 0 <= j < |os| ==> !(os[j].Returned? && os[j].caught)
  {
    if |os| > 0 {
      var init := os[..|os| - 1];
      CaughtCountBound(init);
      assert forall j :: 0 <= j < |init| ==> init[j] == os[j];
    }
  }

  /** The corpus of the first `f` families, each over all records, in order. */
  function CorpusUpTo(f: nat, tasks: Tasks, id2item: map<string, string>, rows: seq<UserRow>,
                      draws: (nat, nat) -> Draws): Result<seq<Instance>>
  {
    if f == 0 then Ok([])
    else match CorpusUpTo(f - 1, tasks, id2item, rows, draws)
      case Err(e) => Err(e)
      case Ok(xs) =>
        match Gather(Outcomes(f - 1, tasks, id2item, rows, draws))
        case Err(e) => Err(e)
        case Ok(ys) => Ok(xs + ys)
  }

  /** No outcome of `os` raised. */
  predicate AllReturned(os: seq<Outcome>)
  {
    forall j :: 0 <= j < |os| ==> os[j].Returned?
  }

  /** The corpus succeeds exactly when no family raised on any record. */
  lemma CorpusOk(f: nat, tasks: Tasks, id2item: map<string, string>, rows: seq<UserRow>,
                 draws: (nat, nat) -> Draws)
    ensures CorpusUpTo(f, tasks, id2item, rows, draws).Ok? <==>
      forall fam, j :: 0 <= fam < f && 0 <= j < |rows| ==> FamilyOutcome(fam, tasks, id2item, rows[j], draws(fam, j)).Returned?
  {
    CorpusOkByFamily(f, tasks, id2item, rows, draws);
    forall fam, j | 0 <= fam < f && 0 <= j < |rows|
      ensures Outcomes(fam, tasks, id2item, rows, draws)[j] == FamilyOutcome(fam, tasks, id2item, rows[j], draws(fam, j))
    {
    }
  }

  lemma {:induction false} CorpusOkByFamily(f: nat, tasks: Tasks, id2item: map<string, string>, rows: seq<UserRow>,
                                            draws: (nat, nat) -> Draws)
    ensures CorpusUpTo(f, tasks, id2item, rows, draws).Ok? <==>
      forall fam :: 0 <= fam < f ==> AllReturned(Outcomes(fam, tasks, id2item, rows, draws))
  {
    if f > 0 {
      var os := Outcomes(f - 1, tasks, id2item, rows, draws);
      assert Gather(os).Ok? <==> AllReturned(os) by { GatherOk(os); }
      CorpusOkByFamily(f - 1, tasks, id2item, rows, draws);
    }
  }

  /** Once a family has raised, the later families change nothing: the run has ended. */
  lemma {:induction false} CorpusErrSticks(f: nat, g: nat, tasks: Tasks, id2item: map<string, string>, rows: seq<UserRow>,
                                           draws: (nat, nat) -> Draws)
    requires f <= g && CorpusUpTo(f, tasks, id2item, rows, draws).Err?
    ensures CorpusUpTo(g, tasks, id2item, rows, draws) == CorpusUpTo(f, tasks, id2item, rows, draws)
    decreases g - f
  {
    if f < g {
      CorpusErrSticks(f, g - 1, tasks, id2item, rows, draws);
    }
  }

  /** `_rating_data_preparation` has no `try`: it never catches, so its counter never moves. */
  lemma RatingNeverCaught(tasks: Tasks, id2item: map<string, string>, rows: seq<UserRow>, draws: (nat, nat) -> Draws)
    ensures CaughtCount(Outcomes(Rating_, tasks, id2item, rows, draws)) == 0
  {
    var os := Outcomes(Rating_, tasks, id2item, rows, draws);
    CaughtCountBound(os);
    forall j | 0 <= j < |os| ensures !(os[j].Returned? && os[j].caught) {
      assert os[j] == RatingOutcome(rows[j], tasks.rating, draws(Rating_, j));
    }
  }

  class DataPreparation {
    const tasks: Tasks
    /** `self.data_maps['id2item']`: item id to the item's external id. */
    const id2item: map<string, string>
    var sequentialErrorCnt: nat
    var reviewErrorCnt: nat
    var traditionalErrorCnt: nat
    var explanationErrorCnt: nat
    var ratingErrorCnt: nat

    /** `__init__` sets every counter to zero; the catalog and the item map are given here. */
    constructor (tasks: Tasks, id2item: map<string, string>)
      ensures this.tasks == tasks && this.id2item == id2item
      ensures sequentialErrorCnt == 0 && reviewErrorCnt == 0 && traditionalErrorCnt == 0
      ensures explanationErrorCnt == 0 && ratingErrorCnt == 0
    {
      this.tasks := tasks;
      this.id2item := id2item;
      sequentialErrorCnt, reviewErrorCnt, traditionalErrorCnt := 0, 0, 0;
      explanationErrorCnt, ratingErrorCnt := 0, 0;
    }

    // -------------------------------------------------------------------------
    // One task each, updating the record's dict in place

    /** One rating task (src/data_preparation.py:236-249). */
    method RatingSubTask(sub: Fields, outText: string, emitted: seq<Instance>, key: string, gate: int, pick: nat)
      returns (sub': Fields, out': string, emitted': seq<Instance>, err: Option<Exception>)
      ensures var r := RatingTask(TaskState(sub, outText, emitted, None), key, tasks.rating, gate, pick);
        err == r.error && emitted' == r.emitted && (err.None? ==> sub' == r.fields && out' == r.outText)
    {
      sub', out', emitted', err := sub, outText, emitted, None;
      var cat := tasks.rating;
      var n := ParseNat(key);
      if n.None? { err := Some(ValueError); return; }
      if n.value <= 10 {
        if key !in cat { err := Some(KeyError); return; }
        var o := FormatOutput(cat[key], sub');
        if o.None? { err := Some(KeyError); return; }
        out' := o.value;
      } else if n.value <= 14 {
        if Clamp(gate) > 50 {
          out' := "yes";
        } else {
          if "rating" !in sub' { err := Some(KeyError); return; }
          var choices := RatingChoices(sub'["rating"]);
          sub' := sub'["rating" := Num(choices[pick % |choices|])];
          out' := "no";
        }
      } else if n.value <= 18 {
        if "rating" !in sub' { err := Some(KeyError); return; }
        if !sub'["rating"].Num? { err := Some(TypeError); return; }
        out' := if sub'["rating"].num >= 4 then "like" else "dislike";
      }
      if key !in cat { err := Some(KeyError); return; }
      var inp := FormatInput(cat[key], sub');
      if inp.None? { err := Some(KeyError); return; }
      emitted' := emitted' + [Instance("rating_" + key, inp.value, out', cat[key].metric)];
    }

    /** One traditional task (src/data_preparation.py:78-101). */
    method TraditionalSubTask(sub: Fields, outText: string, emitted: seq<Instance>, key: string,
                              ids: seq<string>, titles: seq<string>, gate: int, pick: nat, item: string,
                              pos: nat, negatives: seq<string>)
      returns (sub': Fields, out': string, emitted': seq<Instance>, err: Option<Exception>)
      ensures var r := TraditionalTask(TaskState(sub, outText, emitted, None), key, tasks.traditional, ids, titles,
                                       id2item, gate, pick, item, pos, negatives);
        err == r.error && emitted' == r.emitted && (err.None? ==> sub' == r.fields && out' == r.outText)
    {
      sub', out', emitted', err := sub, outText, emitted, None;
      var cat := tasks.traditional;
      var n := ParseNat(key);
      if n.None? { err := Some(ValueError); return; }
      if n.value <= 15 {
        if Clamp(gate) >= 50 {
          if |ids| < 2 { err := Some(IndexError); return; }
          var idx := pick % (|ids| - 1);
          if idx >= |titles| { err := Some(IndexError); return; }
          sub' := sub'["candidate_item_id" := Text(ids[idx])];
          sub' := sub'["candidate_item_title" := Text(titles[idx])];
          out' := "yes";
        } else {
          if |Pool(id2item, ids)| == 0 { err := Some(IndexError); return; }
          sub' := sub'["candidate_item_id" := Text(item)];
          if item !in id2item { err := Some(KeyError); return; }
          sub' := sub'["candidate_item_title" := Text(id2item[item])];
          out' := "no";
        }
      } else {
        if |Pool(id2item, ids)| < 50 { err := Some(ValueError); return; }
        if "item_id_list" !in sub' { err := Some(KeyError); return; }
        sub' := sub'["target_item_id" := sub'["item_id_list"]];
        var target := sub'["target_item_id"];
        if !target.Text? { err := Some(TypeError); return; }
        sub' := sub'["candiate_item_id_list" := Text(Braces(Candidates(negatives, pos, target.text)))];
        if key !in cat { err := Some(KeyError); return; }
        var o := FormatOutput(cat[key], sub');
        if o.None? { err := Some(KeyError); return; }
        out' := o.value;
      }
      if key !in cat { err := Some(KeyError); return; }
      var inp := FormatInput(cat[key], sub');
      if inp.None? { err := Some(KeyError); return; }
      emitted' := emitted' + [Instance("traditional_" + key, inp.value, out', cat[key].metric)];
    }

    /** One review or explanation task (src/data_preparation.py:125-128, 155-158). */
    method FormatSubTask(sub: Fields, outText: string, emitted: seq<Instance>, family: string, cat: Catalog, key: string)
      returns (out': string, emitted': seq<Instance>, err: Option<Exception>)
      ensures var r := FormatTask(TaskState(sub, outText, emitted, None), family, key, cat);
        err == r.error && emitted' == r.emitted && (err.None? ==> out' == r.outText)
    {
      out', emitted', err := outText, emitted, None;
      if key !in cat { err := Some(KeyError); return; }
      var inp := FormatInput(cat[key], sub);
      if inp.None? { err := Some(KeyError); return; }
      var o := FormatOutput(cat[key], sub);
      if o.None? { err := Some(KeyError); return; }
      out' := o.value;
      emitted' := emitted' + [Instance(family + key, inp.value, out', cat[key].metric)];
    }

    /** One sequential task on the user's dict (src/data_preparation.py:184-210). */
    method SequentialSubTask(dct: Fields, outText: string, emitted: seq<Instance>, key: string,
                             ids: seq<string>, titles: seq<string>, size: nat, pos: nat,
                             negatives: seq<string>, gate: int, item: string)
      returns (dct': Fields, out': string, emitted': seq<Instance>, err: Option<Exception>)
      ensures var r := SequentialTask(TaskState(dct, outText, emitted, None), key, tasks.sequential, ids, titles,
                                      id2item, size, pos, negatives, gate, item);
        err == r.error && emitted' == r.emitted && (err.None? ==> dct' == r.fields && out' == r.outText)
    {
      dct', out', emitted', err := dct, outText, emitted, None;
      var cat := tasks.sequential;
      dct' := dct'["item_id_list" := Text(Braces(ids[..if size <= |ids| then size else |ids|]))];
      dct' := dct'["item_title_list" := Text(Braces(titles[..if size <= |titles| then size else |titles|]))];
      if size >= |ids| || size >= |titles| { err := Some(IndexError); return; }
      dct' := dct["item_id_list" := Text(Braces(ids[..size]))]["item_title_list" := Text(Braces(titles[..size]))];
      dct' := dct'["target_item_id" := Text(ids[size])];
      dct' := dct'["target_item_title" := Text(titles[size])];
      if |Pool(id2item, ids)| < 50 { err := Some(ValueError); return; }
      dct' := dct'["candiate_item_id_list" := Text(Braces(Candidates(negatives, pos, ids[size])))];
      if key !in cat { err := Some(KeyError); return; }
      var inp := FormatInput(cat[key], dct');
      if inp.None? { err := Some(KeyError); return; }
      var n := ParseNat(key);
      if n.None? { err := Some(ValueError); return; }
      if 24 <= n.value <= 29 {
        if Clamp(gate) > 50 {
          out' := "yes";
        } else {
          dct' := dct'["target_item_id" := Text(item)];
          out' := "no";
        }
      } else {
        var o := FormatOutput(cat[key], dct');
        if o.None? { err := Some(KeyError); return; }
        out' := o.value;
      }
      emitted' := emitted' + [Instance("sequential_" + key, inp.value, out', cat[key].metric)];
    }

    // -------------------------------------------------------------------------
    // The generators

    /** The loop over the flattened records of a family whose tasks only format: skipped
        records draw nothing; the loop stops at the first exception. */
    method FormatRecords(family: string, cat: Catalog, k: nat, skip: Fields -> bool, recs: seq<Fields>, d: Draws)
      returns (dataLst: seq<Instance>, err: Option<Exception>)
      ensures RunRecords(FormatStep(family, cat), skip, k, cat, d, Run([], None), recs, 0) == Run(dataLst, err)
    {
      ghost var step := FormatStep(family, cat);
      dataLst, err := [], None;
      var u := 0;
      while u < |recs| && err.None?
        invariant 0 <= u <= |recs|
        invariant RunRecords(step, skip, k, cat, d, Run([], None), recs, 0) == RunRecords(step, skip, k, cat, d, Run(dataLst, err), recs, u)
        decreases |recs| - u
      {
        if skip(recs[u]) { u := u + 1; continue; }
        if |cat.Keys| < k { err := Some(ValueError); break; }
        var keys := d.keys(u);
        ghost var whole := RunTasks(step, u, Start(recs[u]), keys, 0);
        var outText, emitted, taskErr := "", [], None;
        var t := 0;
        while t < |keys| && taskErr.None?
          invariant 0 <= t <= |keys|
          invariant taskErr.None? ==> whole == RunTasks(step, u, TaskState(recs[u], outText, emitted, None), keys, t)
          invariant taskErr.Some? ==> whole.emitted == emitted && whole.error == taskErr
          decreases |keys| - t
        {
          ghost var st := TaskState(recs[u], outText, emitted, None);
          assert step(u, st, keys[t], t) == FormatTask(st, family, keys[t], cat);
          outText, emitted, taskErr := FormatSubTask(recs[u], outText, emitted, family, cat, keys[t]);
          t := t + 1;
        }
        dataLst, err := dataLst + emitted, taskErr;
        u := u + 1;
      }
    }

    /** The loop over the flattened rating records. */
    method RatingRecords(recs: seq<Fields>, d: Draws) returns (dataLst: seq<Instance>, err: Option<Exception>)
      ensures RunRecords(RatingStep(tasks.rating, d), NoSkip(), 2, tasks.rating, d, Run([], None), recs, 0) == Run(dataLst, err)
    {
      var cat := tasks.rating;
      ghost var step := RatingStep(cat, d);
      dataLst, err := [], None;
      var u := 0;
      while u < |recs| && err.None?
        invariant 0 <= u <= |recs|
        invariant RunRecords(step, NoSkip(), 2, cat, d, Run([], None), recs, 0) == RunRecords(step, NoSkip(), 2, cat, d, Run(dataLst, err), recs, u)
        decreases |recs| - u
      {
        assert !NoSkip()(recs[u]);
        if |cat.Keys| < 2 { err := Some(ValueError); break; }
        var keys := d.keys(u);
        ghost var whole := RunTasks(step, u, Start(recs[u]), keys, 0);
        var sub, outText, emitted, taskErr := recs[u], "", [], None;
        var t := 0;
        while t < |keys| && taskErr.None?
          invariant 0 <= t <= |keys|
          invariant taskErr.None? ==> whole == RunTasks(step, u, TaskState(sub, outText, emitted, None), keys, t)
          invariant taskErr.Some? ==> whole.emitted == emitted && whole.error == taskErr
          decreases |keys| - t
        {
          ghost var st := TaskState(sub, outText, emitted, None);
          assert step(u, st, keys[t], t) == RatingTask(st, keys[t], cat, d.gauss(u, t), d.pick(u, t));
          sub, outText, emitted, taskErr := RatingSubTask(sub, outText, emitted, keys[t], d.gauss(u, t), d.pick(u, t));
          t := t + 1;
        }
        dataLst, err := dataLst + emitted, taskErr;
        u := u + 1;
      }
    }

    /** The loop over the flattened traditional records. */
    method TraditionalRecords(row: UserRow, recs: seq<Fields>, d: Draws) returns (dataLst: seq<Instance>, err: Option<Exception>)
      ensures RunRecords(TraditionalStep(tasks.traditional, row, id2item, d), NoSkip(), 3, tasks.traditional, d,
                         Run([], None), recs, 0) == Run(dataLst, err)
    {
      var cat := tasks.traditional;
      ghost var step := TraditionalStep(cat, row, id2item, d);
      dataLst, err := [], None;
      var u := 0;
      while u < |recs| && err.None?
        invariant 0 <= u <= |recs|
        invariant RunRecords(step, NoSkip(), 3, cat, d, Run([], None), recs, 0) == RunRecords(step, NoSkip(), 3, cat, d, Run(dataLst, err), recs, u)
        decreases |recs| - u
      {
        assert !NoSkip()(recs[u]);
        if |cat.Keys| < 3 { err := Some(ValueError); break; }
        var keys := d.keys(u);
        ghost var whole := RunTasks(step, u, Start(recs[u]), keys, 0);
        var sub, outText, emitted, taskErr := recs[u], "", [], None;
        var t := 0;
        while t < |keys| && taskErr.None?
          invariant 0 <= t <= |keys|
          invariant taskErr.None? ==> whole == RunTasks(step, u, TaskState(sub, outText, emitted, None), keys, t)
          invariant taskErr.Some? ==> whole.emitted == emitted && whole.error == taskErr
          decreases |keys| - t
        {
          ghost var st := TaskState(sub, outText, emitted, None);
          assert step(u, st, keys[t], t) ==
            TraditionalTask(st, keys[t], cat, row.itemIds, row.itemTitles, id2item, d.gauss(u, t), d.pick(u, t),
                            d.item(u, t), d.position(u, t), d.negatives(u, t));
          sub, outText, emitted, taskErr := TraditionalSubTask(sub, outText, emitted, keys[t], row.itemIds, row.itemTitles,
            d.gauss(u, t), d.pick(u, t), d.item(u, t), d.position(u, t), d.negatives(u, t));
          t := t + 1;
        }
        dataLst, err := dataLst + emitted, taskErr;
        u := u + 1;
      }
    }

    /** The loop over the five sampled sequential keys, on the user's one dict. */
    method SequentialTasks(row: UserRow, d: Draws) returns (dataLst: seq<Instance>, err: Option<Exception>)
      ensures var st := RunTasks(SequentialStep(tasks.sequential, row, id2item, d), 0, Start(SequentialFields(row)), d.keys(0), 0);
        dataLst == st.emitted && err == st.error
    {
      var cat := tasks.sequential;
      ghost var step := SequentialStep(cat, row, id2item, d);
      var keys := d.keys(0);
      ghost var whole := RunTasks(step, 0, Start(SequentialFields(row)), keys, 0);
      var dataDct, outText := SequentialFields(row), "";
      dataLst, err := [], None;
      var t := 0;
      while t < |keys| && err.None?
        invariant 0 <= t <= |keys|
        invariant err.None? ==> whole == RunTasks(step, 0, TaskState(dataDct, outText, dataLst, None), keys, t)
        invariant err.Some? ==> whole.emitted == dataLst && whole.error == err
        decreases |keys| - t
      {
        ghost var st := TaskState(dataDct, outText, dataLst, None);
        assert step(0, st, keys[t], t) ==
          SequentialTask(st, keys[t], cat, row.itemIds, row.itemTitles, id2item, d.size(t), d.position(0, t),
                         d.negatives(0, t), d.gauss(0, t), d.item(0, t));
        dataDct, outText, dataLst, err := SequentialSubTask(dataDct, outText, dataLst, keys[t], row.itemIds, row.itemTitles,
          d.size(t), d.position(0, t), d.negatives(0, t), d.gauss(0, t), d.item(0, t));
        t := t + 1;
      }
    }

    /** The counter of family `fam`. */
    function ErrorCount(fam: nat): nat
      reads this
    {
      if fam == Rating_ then ratingErrorCnt
      else if fam == Sequential_ then sequentialErrorCnt
      else if fam == Explanation_ then explanationErrorCnt
      else if fam == Review_ then reviewErrorCnt
      else traditionalErrorCnt
    }

    /** `_rating_data_preparation`: no `try`, so nothing is counted and any exception
        leaves the call. */
    method RatingDataPreparation(row: UserRow, d: Draws) returns (o: Outcome)
      ensures o == RatingOutcome(row, tasks.rating, d)
    {
      var flat := FlattenDict(RatingDict(row));
      if flat.Err? { return Raised(flat.error); }
      var dataLst, err := RatingRecords(flat.value, d);
      if err.Some? { return Raised(err.value); }
      return Returned(dataLst, false);
    }

    /** `_traditional_data_preparation`: a caught exception increments its counter once. */
    method TraditionalDataPreparation(row: UserRow, d: Draws) returns (o: Outcome)
      modifies this
      ensures o == TraditionalOutcome(row, tasks.traditional, id2item, d)
      ensures traditionalErrorCnt == old(traditionalErrorCnt) + (if o.Returned? && o.caught then 1 else 0)
      ensures sequentialErrorCnt == old(sequentialErrorCnt) && reviewErrorCnt == old(reviewErrorCnt)
      ensures explanationErrorCnt == old(explanationErrorCnt) && ratingErrorCnt == old(ratingErrorCnt)
    {
      var flat := FlattenDict(TraditionalDict(row));
      if flat.Err? { return Raised(flat.error); }
      var dataLst, err := TraditionalRecords(row, flat.value, d);
      if err.Some? { traditionalErrorCnt := traditionalErrorCnt + 1; }
      return Returned(dataLst, err.Some?);
    }

    /** `_review_data_preparation`: empty reviews are skipped without touching the counter. */
    method ReviewDataPreparation(row: UserRow, d: Draws) returns (o: Outcome)
      modifies this
      ensures o == ReviewOutcome(row, tasks.review, d)
      ensures reviewErrorCnt == old(reviewErrorCnt) + (if o.Returned? && o.caught then 1 else 0)
      ensures sequentialErrorCnt == old(sequentialErrorCnt) && traditionalErrorCnt == old(traditionalErrorCnt)
      ensures explanationErrorCnt == old(explanationErrorCnt) && ratingErrorCnt == old(ratingErrorCnt)
    {
      var flat := FlattenDict(ReviewDict(row));
      if flat.Err? { return Raised(flat.error); }
      var dataLst, err := FormatRecords("review_", tasks.review, 2, ReviewSkip(), flat.value, d);
      if err.Some? { reviewErrorCnt := reviewErrorCnt + 1; }
      return Returned(dataLst, err.Some?);
    }

    /** `_explanation_data_preparation`: records without an explanation or a feature are
        skipped without touching the counter. */
    method ExplanationDataPreparation(row: UserRow, d: Draws) returns (o: Outcome)
      modifies this
      ensures o == ExplanationOutcome(row, tasks.explanation, d)
      ensures explanationErrorCnt == old(explanationErrorCnt) + (if o.Returned? && o.caught then 1 else 0)
      ensures sequentialErrorCnt == old(sequentialErrorCnt) && traditionalErrorCnt == old(traditionalErrorCnt)
      ensures reviewErrorCnt == old(reviewErrorCnt) && ratingErrorCnt == old(ratingErrorCnt)
    {
      var flat := FlattenDict(ExplanationDict(row));
      if flat.Err? { return Raised(flat.error); }
      var dataLst, err := FormatRecords("explanation_", tasks.explanation, 3, ExplanationSkip(), flat.value, d);
      if err.Some? { explanationErrorCnt := explanationErrorCnt + 1; }
      return Returned(dataLst, err.Some?);
    }

    /** `_sequential_data_preparation`: the key sample raises out of the call; everything
        after it is caught and counted once. */
    method SequentialDataPreparation(row: UserRow, d: Draws) returns (o: Outcome)
      modifies this
      ensures o == SequentialOutcome(row, tasks.sequential, id2item, d)
      ensures sequentialErrorCnt == old(sequentialErrorCnt) + (if o.Returned? && o.caught then 1 else 0)
      ensures reviewErrorCnt == old(reviewErrorCnt) && traditionalErrorCnt == old(traditionalErrorCnt)
      ensures explanationErrorCnt == old(explanationErrorCnt) && ratingErrorCnt == old(ratingErrorCnt)
    {
      if |tasks.sequential.Keys| < 5 { return Raised(ValueError); }
      var dataLst, err := SequentialTasks(row, d);
      if err.Some? { sequentialErrorCnt := sequentialErrorCnt + 1; }
      return Returned(dataLst, err.Some?);
    }

    /** `func(data_dct)` for the family `fam` of `functions_to_run`. */
    method RunFamily(fam: nat, row: UserRow, d: Draws) returns (o: Outcome)
      requires fam < 5
      modifies this
      ensures o == FamilyOutcome(fam, tasks, id2item, row, d)
      ensures forall f :: 0 <= f < 5 ==> ErrorCount(f) == old(ErrorCount(f)) + (if f == fam && o.Returned? && o.caught then 1 else 0)
    {
      if fam == Rating_ {
        o := RatingDataPreparation(row, d);
      } else if fam == Sequential_ {
        o := SequentialDataPreparation(row, d);
      } else if fam == Explanation_ {
        o := ExplanationDataPreparation(row, d);
      } else if fam == Review_ {
        o := ReviewDataPreparation(row, d);
      } else {
        o := TraditionalDataPreparation(row, d);
      }
      forall f | 0 <= f < 5
        ensures ErrorCount(f) == old(ErrorCount(f)) + (if f == fam && o.Returned? && o.caught then 1 else 0)
      {
        assert f == Rating_ || f == Sequential_ || f == Explanation_ || f == Review_ || f == Traditional_;
      }
    }

    /** The `ThreadPoolExecutor` block for family `fam`: the generator runs on every user
        record, then the rows are gathered in record order and the first exception, if any,
        is raised; the family's counter has grown by the records on which it caught one. */
    method RunFamilyOnAll(fam: nat, rows: seq<UserRow>, draws: (nat, nat) -> Draws) returns (res: Result<seq<Instance>>)
      requires fam < 5
      modifies this
      ensures res == Gather(Outcomes(fam, tasks, id2item, rows, draws))
      ensures forall f :: 0 <= f < 5 ==>
        ErrorCount(f) == old(ErrorCount(f)) + (if f == fam then CaughtCount(Outcomes(fam, tasks, id2item, rows, draws)) else 0)
    {
      ghost var os := Outcomes(fam, tasks, id2item, rows, draws);
      var results: seq<Instance> := [];
      var failure: Option<Exception> := None;
      var j := 0;
      assert os[..0] == [] && CaughtCount(os[..0]) == 0;
      while j < |rows|
        invariant 0 <= j <= |rows|
        invariant Gather(os[..j]) == if failure.None? then Ok(results) else Err(failure.value)
        invariant forall f :: 0 <= f < 5 ==>
          ErrorCount(f) == old(ErrorCount(f)) + (if f == fam then CaughtCount(os[..j]) else 0)
      {
        var o := RunFamily(fam, rows[j], draws(fam, j));
        assert os[..j + 1][..j] == os[..j] && os[j] == o;
        if o.Raised? {
          if failure.None? { failure := Some(o.error); }
        } else if failure.None? {
          results := results + o.instances;
        }
        j := j + 1;
      }
      assert os[..|rows|] == os;
      res := if failure.None? then Ok(results) else Err(failure.value);
    }

    /** `data_preparation`: the five families in order, each over every user record; the
        first exception a family raises ends the run after that family, and otherwise the
        corpus is the families' rows concatenated and each family's counter has grown by the
        number of records on which it caught an exception. */
    method DataPreparationRun(rows: seq<UserRow>, draws: (nat, nat) -> Draws) returns (r: Result<seq<Instance>>)
      modifies this
      ensures r == CorpusUpTo(5, tasks, id2item, rows, draws)
      ensures ratingErrorCnt == old(ratingErrorCnt)
      ensures r.Ok? ==> forall f :: 0 <= f < 5 ==>
        ErrorCount(f) == old(ErrorCount(f)) + CaughtCount(Outcomes(f, tasks, id2item, rows, draws))
    {
      RatingNeverCaught(tasks, id2item, rows, draws);
      var finalLst: seq<Instance> := [];
      var fam := 0;
      while fam < 5
        invariant 0 <= fam <= 5
        invariant CorpusUpTo(fam, tasks, id2item, rows, draws) == Ok(finalLst)
        invariant forall f :: 0 <= f < 5 ==>
          ErrorCount(f) == old(ErrorCount(f)) + (if f < fam then CaughtCount(Outcomes(f, tasks, id2item, rows, draws)) else 0)
      {
        var results := RunFamilyOnAll(fam, rows, draws);
        if results.Err? {
          CorpusErrSticks(fam + 1, 5, tasks, id2item, rows, draws);
          return Err(results.error);
        }
        finalLst := finalLst + results.value;
        fam := fam + 1;
      }
      return Ok(finalLst);
    }
  }
}
