/** `_sequential_data_preparation` (src/data_preparation.py:166-216): five task keys per user,
    sampled before the `try`. Each task truncates the whole history at a drawn size, takes
    the next item as the target, builds a 51-item candidate list, formats the input, and then
    answers: keys 24-29 "yes" or "no" by the Gaussian gate, the others by the output
    template. One dict is shared by the five tasks, so each task overwrites what the previous
    one wrote. */
module Sequential {
  import opened Common
  import opened Utils
  import opened Generators

  /** The per-user dict; the two `original_…` lists are never overwritten. */
  function SequentialFields(row: UserRow): Fields
  {
    map["user_id" := row.userId, "user_desc" := row.userDesc,
        "item_id_list" := Texts(row.itemIds), "item_title_list" := Texts(row.itemTitles),
        "original_item_id_list" := Texts(row.itemIds), "original_item_title_list" := Texts(row.itemTitles)]
  }

  /** `int(0.7 * n)` and `int(0.95 * n)`, taken as exact fractions. */
  function MinSize(n: nat): nat { 7 * n / 10 }

  function MaxSize(n: nat): nat { 19 * n / 20 }

  /** The drawn size lies in [⌊0.7n⌋, ⌊0.95n⌋], a range inside [0, n - 1] for any history;
      for an empty history it is {0}, where `original[0]` raises. */
  lemma SizeBounds(n: nat)
    ensures MinSize(n) <= MaxSize(n)
    ensures n >= 1 ==> MaxSize(n) <= n - 1
    ensures n == 0 ==> MinSize(n) == MaxSize(n) == 0
  {
  }

  /** Every drawn size is at most `max_size`, as `random.randint(min_size, max_size)` returns;
      the lower end is left free, so the floating-point `min_size` is covered too. */
  ghost predicate SizeSamples(row: UserRow, d: Draws)
  {
    forall t :: d.size(t) <= MaxSize(|row.itemIds|)
  }

  /** The error of a task, if any, is one the `try` of lines 181-212 catches other than IndexError. */
  predicate ValueOrKeyError(e: Option<Exception>)
  {
    e.None? || e == Some(ValueError) || e == Some(KeyError)
  }

  /** The five entries a task writes before formatting: the history cut at `size`, the
      target `ids[size]` and its title, and the serialised candidate list. */
  function Setup(fields: Fields, ids: seq<string>, titles: seq<string>, size: nat, c: seq<string>): (g: Fields)
    requires size < |ids| && size < |titles|
    ensures g.Keys == fields.Keys + {"item_id_list", "item_title_list", "target_item_id", "target_item_title", "candiate_item_id_list"}
    ensures g["item_id_list"] == Text(Braces(ids[..size])) && g["item_title_list"] == Text(Braces(titles[..size]))
    ensures g["target_item_id"] == Text(ids[size]) && g["target_item_title"] == Text(titles[size])
    ensures g["candiate_item_id_list"] == Text(Braces(c))
  {
    fields["item_id_list" := Text(Braces(ids[..size]))]
          ["item_title_list" := Text(Braces(titles[..size]))]
          ["target_item_id" := Text(ids[size])]
          ["target_item_title" := Text(titles[size])]
          ["candiate_item_id_list" := Text(Braces(c))]
  }

  /** Every other entry of the dict is left as it was. */
  lemma SetupKeeps(fields: Fields, ids: seq<string>, titles: seq<string>, size: nat, c: seq<string>, x: string)
    requires size < |ids| && size < |titles| && x in fields
    requires x !in {"item_id_list", "item_title_list", "target_item_id", "target_item_title", "candiate_item_id_list"}
    ensures Setup(fields, ids, titles, size, c)[x] == fields[x]
  {
  }

  /** One sequential task on the shared dict `st.fields`: history `ids[..size]`, target
      `ids[size]` (IndexError past either list), the candidate list (ValueError for a pool
      under 50), the input, and then the answer. */
  function SequentialTask(st: TaskState, key: string, cat: Catalog, ids: seq<string>, titles: seq<string>,
                          id2item: map<string, string>, size: nat, pos: nat, negatives: seq<string>,
                          gate: int, item: string): TaskState
  {
    if size >= |ids| || size >= |titles| then Fail(st, IndexError)
    else if |Pool(id2item, ids)| < 50 then Fail(st, ValueError)
    else SequentialFormat(st, Setup(st.fields, ids, titles, size, Candidates(negatives, pos, ids[size])), key, cat, gate, item)
  }

  /** The rest of a sequential task once the dict `f` is set up: the input is formatted
      first; keys 24-29 then answer "yes", or "no" after writing the replacement target;
      any other key formats its output. */
  function SequentialFormat(st: TaskState, f: Fields, key: string, cat: Catalog, gate: int, item: string): TaskState
  {
    if key !in cat then Fail(st, KeyError)
    else match FormatInput(cat[key], f)
      case None => Fail(st, KeyError)
      case Some(inp) =>
        match ParseNat(key)
        case None => Fail(st, ValueError)
        case Some(n) =>
          if 24 <= n <= 29 then
            if Clamp(gate) > 50 then Done(st, f, "sequential_", key, cat, inp, "yes")
            else Done(st, f["target_item_id" := Text(item)], "sequential_", key, cat, inp, "no")
          else match FormatOutput(cat[key], f)
            case None => Fail(st, KeyError)
            case Some(o) => Done(st, f, "sequential_", key, cat, inp, o)
  }

  function SequentialStep(cat: Catalog, row: UserRow, id2item: map<string, string>, d: Draws): Step
  {
    (i: nat, st: TaskState, key: string, t: nat) =>
      SequentialTask(st, key, cat, row.itemIds, row.itemTitles, id2item,
                     d.size(t), d.position(i, t), d.negatives(i, t), d.gauss(i, t), d.item(i, t))
  }

  /** `random.sample` of the five keys is outside the `try` and raises out of the call. */
  function SequentialOutcome(row: UserRow, cat: Catalog, id2item: map<string, string>, d: Draws): Outcome
  {
    if |cat.Keys| < 5 then Raised(ValueError)
    else
      var st := RunTasks(SequentialStep(cat, row, id2item, d), 0, Start(SequentialFields(row)), d.keys(0), 0);
      Returned(st.emitted, st.error.Some?)
  }

  lemma SequentialEmitsOne(cat: Catalog, row: UserRow, id2item: map<string, string>, d: Draws)
    ensures EmitsOne(SequentialStep(cat, row, id2item, d), "sequential_", cat)
  {
    var step := SequentialStep(cat, row, id2item, d);
    forall i: nat, st: TaskState, key: string, t: nat | st.error.None?
      ensures EmitsOneFor(st, step(i, st, key, t), "sequential_", key, cat)
    {
      var r := SequentialTask(st, key, cat, row.itemIds, row.itemTitles, id2item,
                              d.size(t), d.position(i, t), d.negatives(i, t), d.gauss(i, t), d.item(i, t));
      assert step(i, st, key, t) == r;
      TaskEmitsOne(st, key, cat, row.itemIds, row.itemTitles, id2item,
                   d.size(t), d.position(i, t), d.negatives(i, t), d.gauss(i, t), d.item(i, t));
    }
  }

  lemma TaskEmitsOne(st: TaskState, key: string, cat: Catalog, ids: seq<string>, titles: seq<string>,
                     id2item: map<string, string>, size: nat, pos: nat, negatives: seq<string>,
                     gate: int, item: string)
    requires st.error.None?
    ensures EmitsOneFor(st, SequentialTask(st, key, cat, ids, titles, id2item, size, pos, negatives, gate, item),
                        "sequential_", key, cat)
  {
    assert st.emitted[..|st.emitted|] == st.emitted;
    if size < |ids| && size < |titles| && |Pool(id2item, ids)| >= 50 {
      FormatEmitsOne(st, Setup(st.fields, ids, titles, size, Candidates(negatives, pos, ids[size])), key, cat, gate, item);
    }
  }

  lemma FormatEmitsOne(st: TaskState, f: Fields, key: string, cat: Catalog, gate: int, item: string)
    ensures EmitsOneFor(st, SequentialFormat(st, f, key, cat, gate, item), "sequential_", key, cat)
  {
    assert st.emitted[..|st.emitted|] == st.emitted;
    if key in cat {
      match FormatInput(cat[key], f) {
        case None =>
        case Some(inp) =>
          match ParseNat(key) {
            case None =>
            case Some(n) =>
              if 24 <= n <= 29 {
                if Clamp(gate) > 50 {
                  DoneShape(st, f, "sequential_", key, cat, inp, "yes");
                } else {
                  DoneShape(st, f["target_item_id" := Text(item)], "sequential_", key, cat, inp, "no");
                }
              } else {
                match FormatOutput(cat[key], f) {
                  case None =>
                  case Some(o) => DoneShape(st, f, "sequential_", key, cat, inp, o);
                }
              }
          }
      }
    }
  }

  /** With a size no larger than ⌊0.95n⌋, a non-empty history whose titles are as long as its
      ids never cuts past its end: the task raises no IndexError. */
  lemma SizedTaskErrors(st: TaskState, key: string, cat: Catalog, ids: seq<string>, titles: seq<string>,
                        id2item: map<string, string>, size: nat, pos: nat, negatives: seq<string>,
                        gate: int, item: string)
    requires 1 <= |ids| <= |titles| && size <= MaxSize(|ids|)
    ensures ValueOrKeyError(SequentialTask(st, key, cat, ids, titles, id2item, size, pos, negatives, gate, item).error)
  {
    SizeBounds(|ids|);
  }

  /** The five tasks from position `t` on keep to ValueError and KeyError. */
  lemma {:induction false} SizedTasksErrors(cat: Catalog, row: UserRow, id2item: map<string, string>, d: Draws,
                                            st: TaskState, t: nat)
    requires SizeSamples(row, d) && 1 <= |row.itemIds| <= |row.itemTitles|
    requires t <= |d.keys(0)| && ValueOrKeyError(st.error)
    ensures ValueOrKeyError(RunTasks(SequentialStep(cat, row, id2item, d), 0, st, d.keys(0), t).error)
    decreases |d.keys(0)| - t
  {
    if st.error.None? && t < |d.keys(0)| {
      var s1 := SequentialStep(cat, row, id2item, d)(0, st, d.keys(0)[t], t);
      assert s1 == SequentialTask(st, d.keys(0)[t], cat, row.itemIds, row.itemTitles, id2item,
                                  d.size(t), d.position(0, t), d.negatives(0, t), d.gauss(0, t), d.item(0, t));
      SizedTaskErrors(st, d.keys(0)[t], cat, row.itemIds, row.itemTitles, id2item,
                      d.size(t), d.position(0, t), d.negatives(0, t), d.gauss(0, t), d.item(0, t));
      SizedTasksErrors(cat, row, id2item, d, s1, t + 1);
    }
  }

  /** With sizes drawn from the range, a non-empty history is caught only by ValueError
      (a pool under 50, a key `int` rejects) or KeyError (a missing template or placeholder),
      never by the IndexError of lines 189-192. */
  lemma SequentialCaughtErrors(row: UserRow, cat: Catalog, id2item: map<string, string>, d: Draws)
    requires SizeSamples(row, d) && 1 <= |row.itemIds| <= |row.itemTitles|
    ensures var st := RunTasks(SequentialStep(cat, row, id2item, d), 0, Start(SequentialFields(row)), d.keys(0), 0);
      SequentialOutcome(row, cat, id2item, d).Returned? ==>
        SequentialOutcome(row, cat, id2item, d) == Returned(st.emitted, st.error.Some?) && ValueOrKeyError(st.error)
  {
    SizedTasksErrors(cat, row, id2item, d, Start(SequentialFields(row)), 0);
  }

  /** The rules of one sequential task (src/data_preparation.py:184-210). A history too short
      for the drawn size raises IndexError, too small a pool ValueError; otherwise the input is
      formatted with the history `ids[..size]` and the true target `ids[size]`, also for a "no"
      answer of keys 24-29, whose replacement target only stays behind in the dict. */
  lemma SequentialTaskRules(st: TaskState, key: string, n: nat, cat: Catalog, ids: seq<string>, titles: seq<string>,
                            id2item: map<string, string>, size: nat, pos: nat, negatives: seq<string>,
                            gate: int, item: string)
    requires st.error.None? && ParseNat(key) == Some(n)
    ensures var r := SequentialTask(st, key, cat, ids, titles, id2item, size, pos, negatives, gate, item);
      && (size >= |ids| || size >= |titles| ==> r.error == Some(IndexError))
      && (size < |ids| && size < |titles| && |Pool(id2item, ids)| < 50 ==> r.error == Some(ValueError))
      && (r.error.None? ==>
            && size < |ids| && size < |titles| && key in cat
            && |r.emitted| == |st.emitted| + 1
            && var row := r.emitted[|st.emitted|];
               var g := Setup(st.fields, ids, titles, size, Candidates(negatives, pos, ids[size]));
               && row.outText == r.outText
               && FormatInput(cat[key], g) == Some(row.inpText)
               && (24 <= n <= 29 && Clamp(gate) > 50 ==> r.outText == "yes" && r.fields == g)
               && (24 <= n <= 29 && Clamp(gate) <= 50 ==>
                     r.outText == "no" && r.fields == g["target_item_id" := Text(item)])
               && (!(24 <= n <= 29) ==> r.fields == g && FormatOutput(cat[key], g) == Some(r.outText)))
  {
    if size < |ids| && size < |titles| && |Pool(id2item, ids)| >= 50 {
      FormatRules(st, Setup(st.fields, ids, titles, size, Candidates(negatives, pos, ids[size])), key, n, cat, gate, item);
    }
  }

  /** The answer rules of a task once its dict `f` is set up. */
  lemma FormatRules(st: TaskState, f: Fields, key: string, n: nat, cat: Catalog, gate: int, item: string)
    requires ParseNat(key) == Some(n)
    ensures var r := SequentialFormat(st, f, key, cat, gate, item);
      r.error.None? ==>
        && key in cat && |r.emitted| == |st.emitted| + 1
        && var row := r.emitted[|st.emitted|];
           && row.outText == r.outText
           && FormatInput(cat[key], f) == Some(row.inpText)
           && (24 <= n <= 29 && Clamp(gate) > 50 ==> r.outText == "yes" && r.fields == f)
           && (24 <= n <= 29 && Clamp(gate) <= 50 ==> r.outText == "no" && r.fields == f["target_item_id" := Text(item)])
           && (!(24 <= n <= 29) ==> r.fields == f && FormatOutput(cat[key], f) == Some(r.outText))
  {
    if key in cat {
      match FormatInput(cat[key], f) {
        case None =>
        case Some(inp) =>
          if !(24 <= n <= 29) {
            match FormatOutput(cat[key], f) {
              case None =>
              case Some(o) =>
            }
          }
      }
    }
  }

  /** Two dicts that differ at most in `target_item_id`. */
  ghost predicate AgreeOffTarget(f: Fields, g: Fields)
  {
    forall x :: x != "target_item_id" ==> (x in f <==> x in g) && (x in f ==> f[x] == g[x])
  }

  /** A task overwrites `target_item_id` before it reads the dict, so what an earlier "no"
      left there is gone. */
  lemma SetupForgetsTarget(f: Fields, g: Fields, ids: seq<string>, titles: seq<string>, size: nat, c: seq<string>)
    requires size < |ids| && size < |titles| && AgreeOffTarget(f, g)
    ensures Setup(f, ids, titles, size, c) == Setup(g, ids, titles, size, c)
  {
    var a, b := Setup(f, ids, titles, size, c), Setup(g, ids, titles, size, c);
    assert a.Keys == b.Keys;
    forall x | x in a ensures a[x] == b[x] {
      if x !in {"item_id_list", "item_title_list", "target_item_id", "target_item_title", "candiate_item_id_list"} {
        SetupKeeps(f, ids, titles, size, c, x);
        SetupKeeps(g, ids, titles, size, c, x);
      }
    }
  }

  /** One task started on two dicts that differ only in the target, with two replacement
      items, emits the same rows and raises the same way; the dicts it leaves again differ
      only in the target. */
  lemma TaskAgrees(st: TaskState, st': TaskState, key: string, cat: Catalog, ids: seq<string>,
                   titles: seq<string>, id2item: map<string, string>, size: nat, pos: nat,
                   negatives: seq<string>, gate: int, item: string, item': string)
    requires st.emitted == st'.emitted && AgreeOffTarget(st.fields, st'.fields)
    ensures var r := SequentialTask(st, key, cat, ids, titles, id2item, size, pos, negatives, gate, item);
      var r' := SequentialTask(st', key, cat, ids, titles, id2item, size, pos, negatives, gate, item');
      && r.emitted == r'.emitted && r.error == r'.error
      && (r.error.None? ==> AgreeOffTarget(r.fields, r'.fields))
  {
    if size < |ids| && size < |titles| {
      var c := Candidates(negatives, pos, ids[size]);
      var f := Setup(st.fields, ids, titles, size, c);
      assert Setup(st'.fields, ids, titles, size, c) == f by {
        SetupForgetsTarget(st.fields, st'.fields, ids, titles, size, c);
      }
      if |Pool(id2item, ids)| >= 50 {
        FormatAgrees(st, st', f, key, cat, gate, item, item');
      }
    }
  }

  /** The rest of a task reads the old state only for the rows emitted so far, and the
      replacement item only for the target it writes. */
  lemma FormatAgrees(st: TaskState, st': TaskState, f: Fields, key: string, cat: Catalog, gate: int,
                     item: string, item': string)
    requires st.emitted == st'.emitted
    ensures var r, r' := SequentialFormat(st, f, key, cat, gate, item), SequentialFormat(st', f, key, cat, gate, item');
      r.emitted == r'.emitted && r.error == r'.error && (r.error.None? ==> AgreeOffTarget(r.fields, r'.fields))
  {
    if key in cat {
      match FormatInput(cat[key], f) {
        case None =>
        case Some(inp) =>
          match ParseNat(key) {
            case None =>
            case Some(n) =>
              if !(24 <= n <= 29) {
                match FormatOutput(cat[key], f) {
                  case None =>
                  case Some(o) =>
                }
              }
          }
      }
    }
  }

  /** Equal dicts agree off the target. */
  lemma AgreeRefl(f: Fields)
    ensures AgreeOffTarget(f, f)
  {
  }

  /** The rows of the five tasks do not depend on the drawn replacement targets. */
  lemma {:induction false} TasksIgnoreItem(cat: Catalog, row: UserRow, id2item: map<string, string>, d: Draws,
                                           item': (nat, nat) -> string, st: TaskState, st': TaskState, t: nat)
    requires t <= |d.keys(0)| && st.error.None? && st'.error.None?
    requires st.emitted == st'.emitted && AgreeOffTarget(st.fields, st'.fields)
    ensures var r := RunTasks(SequentialStep(cat, row, id2item, d), 0, st, d.keys(0), t);
      var r' := RunTasks(SequentialStep(cat, row, id2item, d.(item := item')), 0, st', d.keys(0), t);
      r.emitted == r'.emitted && r.error == r'.error
    decreases |d.keys(0)| - t
  {
    if t < |d.keys(0)| {
      var d' := d.(item := item');
      var key := d.keys(0)[t];
      var s1 := SequentialStep(cat, row, id2item, d)(0, st, key, t);
      var s1' := SequentialStep(cat, row, id2item, d')(0, st', key, t);
      assert s1 == SequentialTask(st, key, cat, row.itemIds, row.itemTitles, id2item,
                                  d.size(t), d.position(0, t), d.negatives(0, t), d.gauss(0, t), d.item(0, t));
      assert s1' == SequentialTask(st', key, cat, row.itemIds, row.itemTitles, id2item,
                                   d.size(t), d.position(0, t), d.negatives(0, t), d.gauss(0, t), item'(0, t));
      TaskAgrees(st, st', key, cat, row.itemIds, row.itemTitles, id2item,
                 d.size(t), d.position(0, t), d.negatives(0, t), d.gauss(0, t), d.item(0, t), item'(0, t));
      if s1.error.None? {
        TasksIgnoreItem(cat, row, id2item, d, item', s1, s1', t + 1);
      }
    }
  }

  /** The "no" branch's replacement items never appear in what the call returns. */
  lemma SequentialIgnoresItem(row: UserRow, cat: Catalog, id2item: map<string, string>, d: Draws, item': (nat, nat) -> string)
    ensures SequentialOutcome(row, cat, id2item, d) == SequentialOutcome(row, cat, id2item, d.(item := item'))
  {
    if |cat.Keys| >= 5 {
      AgreeRefl(SequentialFields(row));
      TasksIgnoreItem(cat, row, id2item, d, item', Start(SequentialFields(row)), Start(SequentialFields(row)), 0);
    }
  }

  /** `_sequential_data_preparation`: too small a catalog raises out of the call; otherwise the
      rows follow the five sampled keys in order, labelled "sequential_" + key with the key's
      metric; an exception (counted once) keeps the rows before it; an empty history is caught
      at the first task. */
  lemma SequentialOutcomeShape(row: UserRow, cat: Catalog, id2item: map<string, string>, d: Draws)
    requires KeySamples(cat, d, 5)
    ensures var o := SequentialOutcome(row, cat, id2item, d);
      && (o.Raised? <==> |cat.Keys| < 5)
      && (o.Raised? ==> o.error == ValueError)
      && (o.Returned? ==>
            && Matches(o.instances, "sequential_", d.keys(0), cat) && |d.keys(0)| == 5
            && (o.caught <==> |o.instances| < 5))
      && (o.Returned? && |row.itemIds| == 0 ==> o == Returned([], true))
  {
    if |cat.Keys| >= 5 {
      var step := SequentialStep(cat, row, id2item, d);
      assert IsSample(d.keys(0), cat.Keys, 5);
      SequentialEmitsOne(cat, row, id2item, d);
      TasksShape(step, "sequential_", cat, 0, Start(SequentialFields(row)), d.keys(0), 0);
      var st := RunTasks(step, 0, Start(SequentialFields(row)), d.keys(0), 0);
      assert st.emitted[0..] == st.emitted && d.keys(0)[0..] == d.keys(0);
      if |row.itemIds| == 0 {
        var s0 := Start(SequentialFields(row));
        var s1 := step(0, s0, d.keys(0)[0], 0);
        assert s1 == SequentialTask(s0, d.keys(0)[0], cat, row.itemIds, row.itemTitles, id2item, d.size(0),
                                    d.position(0, 0), d.negatives(0, 0), d.gauss(0, 0), d.item(0, 0));
        assert s1.error == Some(IndexError);
        assert st == RunTasks(step, 0, s1, d.keys(0), 1) == s1;
      }
    }
  }
}
