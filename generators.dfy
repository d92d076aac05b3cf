/** The task-instance generators of `DataPreparation` (src/data_preparation.py), as functions of
    one user record, the template catalog and the random draws.

    Each generator walks the records of one user (the interactions, after `flatten_dict`)
    and, for each record, a few task keys sampled from the family's catalog; every task
    formats an input and an output text and appends `[family_key, inp, out, metric]`.
    The per-record dict is updated in place between the tasks of one record, so a task
    sees what the earlier tasks of the same record wrote: here the dict is the `fields`
    of a `TaskState` threaded from task to task.

    Randomness is injected through `Draws`: `random.sample` of catalog keys, the Gaussian
    score (an integer), `random.choice` (an index taken modulo the length of the list, or
    a drawn element for choices over a set), `randint(0, 49)`, the 50 negatives and the
    history size. The properties that need a draw to be a real draw (distinct keys of the
    catalog, a position at most 49, ...) take that as a precondition. */
module Generators {
  import opened Common
  import opened Utils

  // ---------------------------------------------------------------------------
  // Values

  /** A value of a per-record dict: a string, a number, or (in `_sequential_…`) a list of strings. */
  datatype Atom = Text(text: string) | Num(num: int) | Texts(texts: seq<string>)

  /** `sub_dct` / `data_dct`; `str.format(**d)` does not depend on key order. */
  type Fields = map<string, Atom>

  /** One catalog entry `(input template, output template, metric)`: a template either
      formats the fields or raises (None, a KeyError for a missing placeholder). */
  datatype Template = Template(input: Fields -> Option<string>, output: Fields -> Option<string>, metric: string)

  /** `inp_template.format(**fields)`, or None when a placeholder is missing. */
  function FormatInput(t: Template, f: Fields): Option<string>
  {
    t.input(f)
  }

  /** `out_template.format(**fields)`, or None when a placeholder is missing. */
  function FormatOutput(t: Template, f: Fields): Option<string>
  {
    t.output(f)
  }

  /** `tasks[family]`: task key (a decimal string) to template. */
  type Catalog = map<string, Template>

  /** One emitted row `[task_desc, inp_text, out_text, metric]`. */
  datatype Instance = Instance(taskDesc: string, inpText: string, outText: string, metric: string)

  /** What a generator call does: raise out of the call, or return its list; `caught` says
      that an exception was caught by the family's `try` (and its counter incremented). */
  datatype Outcome = Raised(error: Exception) | Returned(instances: seq<Instance>, caught: bool)

  /** One record of `final_pre_data`: the columns the generators read. */
  datatype UserRow = UserRow(
    userId: Atom, userDesc: Atom, itemIds: seq<string>, itemTitles: seq<string>,
    ratings: seq<int>, reviews: seq<string>, features: seq<string>, explanations: seq<string>)

  /** The random draws, indexed by record `i` and task position `t` (the sequential family
      has a single record, 0). */
  datatype Draws = Draws(
    keys: nat -> seq<string>,              // random.sample(list(catalog.keys()), k), per record
    gauss: (nat, nat) -> int,              // the score random.gauss(50, 20) before clamping
    pick: (nat, nat) -> nat,               // random.choice(xs) is xs[pick % len(xs)]
    item: (nat, nat) -> string,            // random.choice over the pool of unvisited items
    position: (nat, nat) -> nat,           // random.randint(0, 49)
    negatives: (nat, nat) -> seq<string>,  // random.sample(pool, 50)
    size: nat -> nat)                      // random.randint(min_size, max_size), per task

  // ---------------------------------------------------------------------------
  // Draw helpers

  /** A result of `random.sample(pool, k)`: k distinct members of the pool. */
  predicate IsSample(s: seq<string>, pool: set<string>, k: nat)
  {
    |s| == k && Distinct(s) && forall j :: 0 <= j < |s| ==> s[j] in pool
  }

  /** Every record's sampled keys are a sample of the catalog, when the catalog is big enough. */
  ghost predicate KeySamples(cat: Catalog, d: Draws, k: nat)
  {
    |cat.Keys| >= k ==> forall i :: IsSample(d.keys(i), cat.Keys, k)
  }

  /** `max(0, min(100, g))`. */
  function Clamp(g: int): (c: int)
    ensures 0 <= c <= 100
    ensures 0 <= g <= 100 ==> c == g
  {
    if g < 0 then 0 else if g > 100 then 100 else g
  }

  /** Item ids of `id2item` the user never visited: `set(id2item.keys()) - set(item_id_list)`. */
  function Pool(id2item: map<string, string>, ids: seq<string>): set<string>
  {
    id2item.Keys - Elems(ids)
  }

  /** `candidates.insert(pos, target)`; a position past the end appends. */
  function Candidates(negatives: seq<string>, pos: nat, target: string): seq<string>
  {
    if pos <= |negatives| then negatives[..pos] + [target] + negatives[pos..] else negatives + [target]
  }

  /** The candidate list holds 50 unvisited items and the target, once, at the drawn position. */
  lemma CandidateList(ids: seq<string>, id2item: map<string, string>, negatives: seq<string>, pos: nat, target: string)
    requires IsSample(negatives, Pool(id2item, ids), 50) && pos <= 49 && target in ids
    ensures var c := Candidates(negatives, pos, target);
      && |c| == 51 && c[pos] == target && Occ(c, target) == 1 && Distinct(c)
      && forall j :: 0 <= j < |c| && j != pos ==> c[j] in id2item && c[j] !in ids
  {
    var c := Candidates(negatives, pos, target);
    var before, after := negatives[..pos], negatives[pos..];
    assert c == before + [target] + after;
    assert target !in before && target !in after;
    OccAppend(before + [target], after, target);
    OccAppend(before, [target], target);
    OccPositive(before, target);
    OccPositive(after, target);
    assert Occ([target], target) == 1 by { assert [target][..0] == []; }
    forall j | 0 <= j < |c| && j != pos ensures c[j] in id2item && c[j] !in ids {
      if j < pos { assert c[j] == negatives[j]; } else { assert c[j] == negatives[j - 1]; }
    }
    forall a, b | 0 <= a < b < |c| ensures c[a] != c[b] {
      if a < pos && b < pos { assert c[a] == negatives[a] && c[b] == negatives[b]; }
      else if a > pos { assert c[a] == negatives[a - 1] && c[b] == negatives[b - 1]; }
      else if a < pos && b > pos { assert c[a] == negatives[a] && c[b] == negatives[b - 1]; }
      else if a == pos { assert c[b] == negatives[b - 1]; }
      else { assert c[a] == negatives[a]; }
    }
  }

  // ---------------------------------------------------------------------------
  // One task: the state of a record between its tasks

  /** The record's dict, the last `out_text`, the rows appended so far for this record, and
      the exception that stopped the record, if any. */
  datatype TaskState = TaskState(fields: Fields, outText: string, emitted: seq<Instance>, error: Option<Exception>)

  function Start(f: Fields): TaskState { TaskState(f, "", [], None) }

  function Fail(st: TaskState, e: Exception): TaskState { st.(error := Some(e)) }

  /** Append `[family + key, inp, out, metric]` with the input already formatted. */
  function Done(st: TaskState, fields: Fields, family: string, key: string, cat: Catalog, inp: string, out: string): TaskState
    requires key in cat
  {
    TaskState(fields, out, st.emitted + [Instance(family + key, inp, out, cat[key].metric)], None)
  }

  /** Format the input on `fields`, then append the row; a missing key or placeholder raises. */
  function Emit(st: TaskState, fields: Fields, family: string, key: string, cat: Catalog, out: string): TaskState
  {
    if key !in cat then Fail(st, KeyError)
    else match FormatInput(cat[key], fields)
      case None => Fail(st, KeyError)
      case Some(inp) => Done(st, fields, family, key, cat, inp, out)
  }

  /** One task of a family, for record `i`, key `key` at position `t` of the sampled keys. */
  type Step = (nat, TaskState, string, nat) -> TaskState

  /** The tasks of one record, from position `t` on; the first exception stops the record. */
  function RunTasks(step: Step, i: nat, st: TaskState, keys: seq<string>, t: nat): TaskState
    requires t <= |keys|
    decreases |keys| - t
  {
    if st.error.Some? || t == |keys| then st
    else RunTasks(step, i, step(i, st, keys[t], t), keys, t + 1)
  }

  /** A task either appends exactly one row labelled `family + key` with the key's metric,
      or raises and appends nothing. */
  predicate EmitsOneFor(st: TaskState, r: TaskState, family: string, key: string, cat: Catalog)
  {
    && |st.emitted| <= |r.emitted| <= |st.emitted| + 1
    && r.emitted[..|st.emitted|] == st.emitted
    && (|r.emitted| == |st.emitted| + 1 <==> r.error.None?)
    && (r.error.None? ==> key in cat && r.emitted[|st.emitted|].taskDesc == family + key
                          && r.emitted[|st.emitted|].metric == cat[key].metric)
  }

  ghost predicate EmitsOne(step: Step, family: string, cat: Catalog)
  {
    forall i: nat, st: TaskState, key: string, t: nat :: st.error.None? ==> EmitsOneFor(st, step(i, st, key, t), family, key, cat)
  }

  lemma EmitShape(st: TaskState, fields: Fields, family: string, key: string, cat: Catalog, out: string)
    ensures EmitsOneFor(st, Emit(st, fields, family, key, cat, out), family, key, cat)
  {
  }

  lemma DoneShape(st: TaskState, fields: Fields, family: string, key: string, cat: Catalog, inp: string, out: string)
    requires key in cat
    ensures EmitsOneFor(st, Done(st, fields, family, key, cat, inp, out), family, key, cat)
  {
    assert (st.emitted + [Instance(family + key, inp, out, cat[key].metric)])[..|st.emitted|] == st.emitted;
  }

  /** Row `j` of `rows` belongs to task key `keys[j]`: its label and metric are that key's. */
  predicate Matches(rows: seq<Instance>, family: string, keys: seq<string>, cat: Catalog)
  {
    |rows| <= |keys| &&
    forall j :: 0 <= j < |rows| ==>
      rows[j].taskDesc == family + keys[j] && keys[j] in cat && rows[j].metric == cat[keys[j]].metric
  }

  lemma MatchesAppend(a: seq<Instance>, b: seq<Instance>, family: string, ka: seq<string>, kb: seq<string>, cat: Catalog)
    requires Matches(a, family, ka, cat) && |a| == |ka| && Matches(b, family, kb, cat)
    ensures Matches(a + b, family, ka + kb, cat)
  {
    forall j | 0 <= j < |a + b|
      ensures (a + b)[j].taskDesc == family + (ka + kb)[j] && (ka + kb)[j] in cat
        && (a + b)[j].metric == cat[(ka + kb)[j]].metric
    {
      if j >= |a| { assert (a + b)[j] == b[j - |a|] && (ka + kb)[j] == kb[j - |a|]; }
    }
  }

  /** The rows of one record follow its sampled keys in order, and the record is complete
      exactly when no task raised. */
  lemma {:induction false} TasksShape(step: Step, family: string, cat: Catalog, i: nat, st: TaskState, keys: seq<string>, t: nat)
    requires EmitsOne(step, family, cat) && t <= |keys| && st.error.None?
    ensures var r := RunTasks(step, i, st, keys, t);
      && |st.emitted| <= |r.emitted| && r.emitted[..|st.emitted|] == st.emitted
      && Matches(r.emitted[|st.emitted|..], family, keys[t..], cat)
      && (r.error.None? <==> |r.emitted| == |st.emitted| + |keys| - t)
    decreases |keys| - t
  {
    if t < |keys| {
      var s1 := step(i, st, keys[t], t);
      assert EmitsOneFor(st, s1, family, keys[t], cat);
      if s1.error.None? {
        TasksShape(step, family, cat, i, s1, keys, t + 1);
        TasksStep(st, s1, RunTasks(step, i, s1, keys, t + 1), family, cat, keys, t);
      }
    }
  }

  /** One task that appended its row, in front of the rows of the later tasks. */
  lemma TasksStep(st: TaskState, s1: TaskState, r: TaskState, family: string, cat: Catalog, keys: seq<string>, t: nat)
    requires t < |keys| && EmitsOneFor(st, s1, family, keys[t], cat) && s1.error.None?
    requires |s1.emitted| <= |r.emitted| && r.emitted[..|s1.emitted|] == s1.emitted
    requires Matches(r.emitted[|s1.emitted|..], family, keys[t + 1..], cat)
    requires r.error.None? <==> |r.emitted| == |s1.emitted| + |keys| - (t + 1)
    ensures && |st.emitted| <= |r.emitted| && r.emitted[..|st.emitted|] == st.emitted
            && Matches(r.emitted[|st.emitted|..], family, keys[t..], cat)
            && (r.error.None? <==> |r.emitted| == |st.emitted| + |keys| - t)
  {
    var n := |st.emitted|;
    assert r.emitted[..n] == r.emitted[..n + 1][..n];
    assert r.emitted[n..] == [s1.emitted[n]] + r.emitted[n + 1..];
    assert keys[t..] == [keys[t]] + keys[t + 1..];
    MatchesAppend([s1.emitted[n]], r.emitted[n + 1..], family, [keys[t]], keys[t + 1..], cat);
  }

  // ---------------------------------------------------------------------------
  // The records of one user

  /** The rows appended so far and the exception that ended the loop, if any. */
  datatype Run = Run(instances: seq<Instance>, error: Option<Exception>)

  /** The loop over the flattened records from record `i` on: a skipped record (`continue`)
      draws nothing; otherwise `k` keys are sampled (ValueError when the catalog has fewer)
      and the record's tasks run; the first exception ends the loop. */
  function RunRecords(step: Step, skip: Fields -> bool, k: nat, cat: Catalog, d: Draws,
                      run: Run, recs: seq<Fields>, i: nat): Run
    requires i <= |recs|
    decreases |recs| - i
  {
    if run.error.Some? || i == |recs| then run
    else if skip(recs[i]) then RunRecords(step, skip, k, cat, d, run, recs, i + 1)
    else if |cat.Keys| < k then Run(run.instances, Some(ValueError))
    else
      var st := RunTasks(step, i, Start(recs[i]), d.keys(i), 0);
      RunRecords(step, skip, k, cat, d, Run(run.instances + st.emitted, st.error), recs, i + 1)
  }

  /** The task keys of all records that are not skipped, in order: the rows a run without
      exceptions produces. */
  function PlannedKeys(skip: Fields -> bool, d: Draws, recs: seq<Fields>, i: nat): seq<string>
    requires i <= |recs|
    decreases |recs| - i
  {
    if i == |recs| then []
    else (if skip(recs[i]) then [] else d.keys(i)) + PlannedKeys(skip, d, recs, i + 1)
  }

  /** Number of records from `i` on that are not skipped. */
  function Kept(skip: Fields -> bool, recs: seq<Fields>, i: nat): nat
    requires i <= |recs|
    decreases |recs| - i
  {
    if i == |recs| then 0 else (if skip(recs[i]) then 0 else 1) + Kept(skip, recs, i + 1)
  }

  /** `k * m`, unfolded one record at a time. */
  function Offset(k: nat, m: nat): nat
  {
    if m == 0 then 0 else k + Offset(k, m - 1)
  }

  /** With `k` keys per record, `k` rows are planned per record that is not skipped. */
  lemma {:induction false} PlannedCount(skip: Fields -> bool, cat: Catalog, d: Draws, k: nat, recs: seq<Fields>, i: nat)
    requires i <= |recs| && |cat.Keys| >= k && KeySamples(cat, d, k)
    ensures |PlannedKeys(skip, d, recs, i)| == Offset(k, Kept(skip, recs, i))
    decreases |recs| - i
  {
    if i < |recs| {
      PlannedCount(skip, cat, d, k, recs, i + 1);
      assert IsSample(d.keys(i), cat.Keys, k);
    }
  }

  /** `r` keeps the rows of `run` and adds rows that follow `plan` in order; it ends without
      an exception exactly when it added a row for every key of `plan`. */
  predicate Follows(run: Run, r: Run, family: string, plan: seq<string>, cat: Catalog)
  {
    && |run.instances| <= |r.instances| && r.instances[..|run.instances|] == run.instances
    && Matches(r.instances[|run.instances|..], family, plan, cat)
    && (r.error.None? <==> |r.instances| == |run.instances| + |plan|)
  }

  /** The rows of all records follow the planned keys in order; the run ends without an
      exception exactly when every planned row was appended. Rows appended before an
      exception are kept. */
  lemma {:induction false} RecordsShape(step: Step, skip: Fields -> bool, k: nat, family: string, cat: Catalog, d: Draws,
                                        run: Run, recs: seq<Fields>, i: nat)
    requires EmitsOne(step, family, cat) && i <= |recs| && run.error.None? && |cat.Keys| >= k
    ensures Follows(run, RunRecords(step, skip, k, cat, d, run, recs, i), family, PlannedKeys(skip, d, recs, i), cat)
    decreases |recs| - i
  {
    if i < |recs| {
      if skip(recs[i]) {
        RecordsShape(step, skip, k, family, cat, d, run, recs, i + 1);
      } else {
        var st := RunTasks(step, i, Start(recs[i]), d.keys(i), 0);
        var run' := Run(run.instances + st.emitted, st.error);
        var r := RunRecords(step, skip, k, cat, d, run', recs, i + 1);
        var rest := PlannedKeys(skip, d, recs, i + 1);
        assert RunRecords(step, skip, k, cat, d, run, recs, i) == r;
        assert PlannedKeys(skip, d, recs, i) == d.keys(i) + rest;
        RecordFollows(step, family, cat, i, recs[i], d.keys(i), run);
        if st.error.None? {
          RecordsShape(step, skip, k, family, cat, d, run', recs, i + 1);
          FollowsAppend(run, run', r, family, d.keys(i), rest, cat);
        } else {
          assert r == run';
          assert Matches(r.instances[|run.instances|..], family, d.keys(i) + rest, cat);
        }
      }
    }
  }

  /** The tasks of one record, appended to the rows so far, follow the record's keys. */
  lemma RecordFollows(step: Step, family: string, cat: Catalog, i: nat, rec: Fields, keys: seq<string>, run: Run)
    requires EmitsOne(step, family, cat)
    ensures var st := RunTasks(step, i, Start(rec), keys, 0);
      Follows(run, Run(run.instances + st.emitted, st.error), family, keys, cat)
  {
    var st := RunTasks(step, i, Start(rec), keys, 0);
    TasksShape(step, family, cat, i, Start(rec), keys, 0);
    assert st.emitted[0..] == st.emitted && keys[0..] == keys;
    assert (run.instances + st.emitted)[|run.instances|..] == st.emitted;
  }

  /** Two stretches of rows that follow two plans follow the joined plan. */
  lemma FollowsAppend(run: Run, mid: Run, r: Run, family: string, a: seq<string>, b: seq<string>, cat: Catalog)
    requires Follows(run, mid, family, a, cat) && mid.error.None? && Follows(mid, r, family, b, cat)
    ensures Follows(run, r, family, a + b, cat)
  {
    var n, m := |run.instances|, |mid.instances|;
    assert r.instances[..n] == r.instances[..m][..n];
    assert r.instances[n..] == mid.instances[n..] + r.instances[m..];
    MatchesAppend(mid.instances[n..], r.instances[m..], family, a, b, cat);
  }

  function TextList(xs: seq<string>): (r: seq<Atom>)
    ensures |r| == |xs| && forall j :: 0 <= j < |xs| ==> r[j] == Text(xs[j])
  {
    seq(|xs|, j requires 0 <= j < |xs| => Text(xs[j]))
  }

  function NumList(xs: seq<int>): (r: seq<Atom>)
    ensures |r| == |xs| && forall j :: 0 <= j < |xs| ==> r[j] == Num(xs[j])
  {
    seq(|xs|, j requires 0 <= j < |xs| => Num(xs[j]))
  }

  function NoSkip(): Fields -> bool { (f: Fields) => false }

  /** Without skipping, every record is kept. */
  lemma {:induction false} KeptAll(recs: seq<Fields>, i: nat)
    requires i <= |recs|
    ensures Kept(NoSkip(), recs, i) == |recs| - i
    decreases |recs| - i
  {
    if i < |recs| {
      KeptAll(recs, i + 1);
      assert !NoSkip()(recs[i]);
    }
  }

  lemma {:induction false} OffsetTwo(m: nat)
    ensures Offset(2, m) == 2 * m
  {
    if m > 0 { OffsetTwo(m - 1); }
  }

  lemma {:induction false} OffsetMonotone(k: nat, m: nat, n: nat)
    requires m <= n
    ensures Offset(k, m) <= Offset(k, n)
    decreases n
  {
    if m < n { OffsetMonotone(k, m, n - 1); }
  }

  lemma {:induction false} OffsetThree(m: nat)
    ensures Offset(3, m) == 3 * m
  {
    if m > 0 { OffsetThree(m - 1); }
  }

  /** With every record keeping all of its `k` sampled keys, key `t` of record `u` sits at
      position `k * (u - i) + t` of the plan. */
  lemma {:induction false} PlannedAt(d: Draws, k: nat, recs: seq<Fields>, i: nat, u: nat, t: nat)
    requires i <= u < |recs| && t < k && forall v :: i <= v < |recs| ==> |d.keys(v)| == k
    ensures Offset(k, u - i) + t < |PlannedKeys(NoSkip(), d, recs, i)|
    ensures PlannedKeys(NoSkip(), d, recs, i)[Offset(k, u - i) + t] == d.keys(u)[t]
    decreases u - i
  {
    var p, rest := PlannedKeys(NoSkip(), d, recs, i), PlannedKeys(NoSkip(), d, recs, i + 1);
    assert p == d.keys(i) + rest by {
      assert !NoSkip()(recs[i]);
    }
    if u > i {
      PlannedAt(d, k, recs, i + 1, u, t);
      var j := Offset(k, u - (i + 1)) + t;
      assert Offset(k, u - i) + t == k + j;
      assert |d.keys(i)| == k;
      assert p[k + j] == rest[j];
    }
  }

  /** The first `n` records each sample `k` keys. */
  ghost predicate KeyLengths(d: Draws, k: nat, n: nat)
  {
    forall u :: 0 <= u < n ==> |d.keys(u)| == k
  }

  /** Row `k * u + t` belongs to key `t` of record `u`, for the rows there are; the rows are
      complete exactly when all `k * n` of them are there. */
  ghost predicate RowsByRecord(rows: seq<Instance>, complete: bool, family: string, cat: Catalog, d: Draws, k: nat, n: nat)
  {
    && KeyLengths(d, k, n)
    && |rows| <= Offset(k, n)
    && (complete <==> |rows| == Offset(k, n))
    && forall u, t :: 0 <= u < n && 0 <= t < k && Offset(k, u) + t < |rows| ==>
         && d.keys(u)[t] in cat
         && rows[Offset(k, u) + t].taskDesc == family + d.keys(u)[t]
         && rows[Offset(k, u) + t].metric == cat[d.keys(u)[t]].metric
  }

  /** Rows that follow a plan made of `k` keys per record are labelled record by record. */
  lemma PlanLabels(rows: seq<Instance>, complete: bool, family: string, cat: Catalog, d: Draws, k: nat, n: nat, plan: seq<string>)
    requires |plan| == Offset(k, n) && KeyLengths(d, k, n)
    requires forall u: nat, t: nat :: u < n && t < k ==> PlanAt(plan, d, k, u, t)
    requires Matches(rows, family, plan, cat) && (complete <==> |rows| == |plan|)
    ensures RowsByRecord(rows, complete, family, cat, d, k, n)
  {
    forall u, t | 0 <= u < n && 0 <= t < k && Offset(k, u) + t < |rows|
      ensures d.keys(u)[t] in cat
      ensures rows[Offset(k, u) + t].taskDesc == family + d.keys(u)[t]
      ensures rows[Offset(k, u) + t].metric == cat[d.keys(u)[t]].metric
    {
      assert PlanAt(plan, d, k, u, t);
    }
  }

  /** A family that skips no record: its rows go record by record, key by key; an exception
      keeps the rows appended before it, and the run is complete exactly without one. */
  lemma NoSkipRows(rows: seq<Instance>, complete: bool, family: string, cat: Catalog, d: Draws, k: nat, recs: seq<Fields>)
    requires |cat.Keys| >= k && KeySamples(cat, d, k)
    requires Matches(rows, family, PlannedKeys(NoSkip(), d, recs, 0), cat)
    requires complete <==> |rows| == |PlannedKeys(NoSkip(), d, recs, 0)|
    ensures RowsByRecord(rows, complete, family, cat, d, k, |recs|)
  {
    PlanPositions(cat, d, k, recs);
    PlanLabels(rows, complete, family, cat, d, k, |recs|, PlannedKeys(NoSkip(), d, recs, 0));
  }

  lemma NoSkipMatches(step: Step, k: nat, family: string, cat: Catalog, d: Draws, recs: seq<Fields>)
    requires EmitsOne(step, family, cat) && |cat.Keys| >= k
    ensures var r := RunRecords(step, NoSkip(), k, cat, d, Run([], None), recs, 0);
      var plan := PlannedKeys(NoSkip(), d, recs, 0);
      Matches(r.instances, family, plan, cat) && (r.error.None? <==> |r.instances| == |plan|)
  {
    var r := RunRecords(step, NoSkip(), k, cat, d, Run([], None), recs, 0);
    RecordsShape(step, NoSkip(), k, family, cat, d, Run([], None), recs, 0);
    assert r.instances[0..] == r.instances;
  }

  /** `RowsByRecord` with two keys per record, in plain arithmetic. */
  lemma RowsByRecordTwo(rows: seq<Instance>, complete: bool, family: string, cat: Catalog, d: Draws, n: nat)
    requires RowsByRecord(rows, complete, family, cat, d, 2, n)
    ensures |rows| <= 2 * n && (complete <==> |rows| == 2 * n)
    ensures KeyLengths(d, 2, n)
    ensures forall u, t :: 0 <= u < n && 0 <= t < 2 && 2 * u + t < |rows| ==>
      && d.keys(u)[t] in cat
      && rows[2 * u + t].taskDesc == family + d.keys(u)[t]
      && rows[2 * u + t].metric == cat[d.keys(u)[t]].metric
  {
    OffsetTwo(n);
    forall u, t | 0 <= u < n && 0 <= t < 2 && 2 * u + t < |rows|
      ensures d.keys(u)[t] in cat
      ensures rows[2 * u + t].taskDesc == family + d.keys(u)[t]
      ensures rows[2 * u + t].metric == cat[d.keys(u)[t]].metric
    {
      OffsetTwo(u);
    }
  }

  /** `RowsByRecord` with three keys per record, in plain arithmetic. */
  lemma RowsByRecordThree(rows: seq<Instance>, complete: bool, family: string, cat: Catalog, d: Draws, n: nat)
    requires RowsByRecord(rows, complete, family, cat, d, 3, n)
    ensures |rows| <= 3 * n && (complete <==> |rows| == 3 * n)
    ensures KeyLengths(d, 3, n)
    ensures forall u, t :: 0 <= u < n && 0 <= t < 3 && 3 * u + t < |rows| ==>
      && d.keys(u)[t] in cat
      && rows[3 * u + t].taskDesc == family + d.keys(u)[t]
      && rows[3 * u + t].metric == cat[d.keys(u)[t]].metric
  {
    OffsetThree(n);
    forall u, t | 0 <= u < n && 0 <= t < 3 && 3 * u + t < |rows|
      ensures d.keys(u)[t] in cat
      ensures rows[3 * u + t].taskDesc == family + d.keys(u)[t]
      ensures rows[3 * u + t].metric == cat[d.keys(u)[t]].metric
    {
      OffsetThree(u);
    }
  }

  /** Key `t` of record `u` sits at position `k * u + t` of the plan. */
  ghost predicate PlanAt(plan: seq<string>, d: Draws, k: nat, u: nat, t: nat)
  {
    t < |d.keys(u)| && Offset(k, u) + t < |plan| && plan[Offset(k, u) + t] == d.keys(u)[t]
  }

  /** The plan of a family that skips nothing: `k` keys per record, record by record. */
  lemma PlanPositions(cat: Catalog, d: Draws, k: nat, recs: seq<Fields>)
    requires |cat.Keys| >= k && KeySamples(cat, d, k)
    ensures |PlannedKeys(NoSkip(), d, recs, 0)| == Offset(k, |recs|) && KeyLengths(d, k, |recs|)
    ensures forall u: nat, t: nat :: u < |recs| && t < k ==> PlanAt(PlannedKeys(NoSkip(), d, recs, 0), d, k, u, t)
  {
    PlannedCount(NoSkip(), cat, d, k, recs, 0);
    KeptAll(recs, 0);
    assert forall v :: 0 <= v < |recs| ==> |d.keys(v)| == k by {
      assert forall v :: 0 <= v < |recs| ==> IsSample(d.keys(v), cat.Keys, k);
    }
    forall u: nat, t: nat | u < |recs| && t < k
      ensures PlanAt(PlannedKeys(NoSkip(), d, recs, 0), d, k, u, t)
    {
      PlannedAt(d, k, recs, 0, u, t);
      assert u - 0 == u;
    }
  }

  /** Too small a catalog: the first record that is not skipped raises ValueError in
      `random.sample`, after the rows of the earlier records. */
  lemma {:induction false} RecordsSmallCatalog(step: Step, skip: Fields -> bool, k: nat, cat: Catalog, d: Draws,
                                               run: Run, recs: seq<Fields>, i: nat)
    requires i <= |recs| && run.error.None? && |cat.Keys| < k && Kept(skip, recs, i) > 0
    ensures RunRecords(step, skip, k, cat, d, run, recs, i) == Run(run.instances, Some(ValueError))
    decreases |recs| - i
  {
    if skip(recs[i]) {
      RecordsSmallCatalog(step, skip, k, cat, d, run, recs, i + 1);
    }
  }

}
