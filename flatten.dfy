/** `flatten_dict` (src/utils.py): one record per index of the first list-valued field. */
module Utils {
  import opened Common

  /** A dict value is either a list or anything else (a scalar). */
  datatype Field<A> = Scalar(value: A) | List(elems: seq<A>)

  /** A Python dict, in insertion order. */
  type Dict<A> = seq<(string, Field<A>)>

  predicate UniqueKeys<A>(d: Dict<A>)
  {
    forall i, j :: 0 <= i < j < |d| ==> d[i].0 != d[j].0
  }

  function KeySet<A>(d: Dict<A>): set<string>
  {
    set i | 0 <= i < |d| :: d[i].0
  }

  /** `len(next(iter(list_items.values())))`; None when there is no list field. */
  function FirstListLength<A>(d: Dict<A>): Option<nat>
  {
    if |d| == 0 then None
    else if d[0].1.List? then Some(|d[0].1.elems|)
    else FirstListLength(d[1..])
  }

  /** "First" means: the field at index `j` is a list and every earlier field is a scalar. */
  lemma {:induction false} FirstListLengthIsFirst<A>(d: Dict<A>)
    ensures FirstListLength(d).None? <==> forall j :: 0 <= j < |d| ==> d[j].1.Scalar?
    ensures FirstListLength(d).Some? ==>
      exists j :: 0 <= j < |d| && d[j].1.List? && |d[j].1.elems| == FirstListLength(d).value &&
        forall j' :: 0 <= j' < j ==> d[j'].1.Scalar?
  {
    if |d| > 0 && d[0].1.Scalar? {
      FirstListLengthIsFirst(d[1..]);
      if FirstListLength(d).Some? {
        var j :| 0 <= j < |d[1..]| && d[1..][j].1.List? && |d[1..][j].1.elems| == FirstListLength(d).value &&
          forall j' :: 0 <= j' < j ==> d[1..][j'].1.Scalar?;
        assert forall j' :: 0 <= j' < j + 1 ==> d[j'].1.Scalar? by {
          forall j' | 0 <= j' < j + 1 ensures d[j'].1.Scalar? {
            if j' > 0 { assert d[j'] == d[1..][j' - 1]; }
          }
        }
        assert d[j + 1] == d[1..][j];
      }
      if forall j :: 0 <= j < |d[1..]| ==> d[1..][j].1.Scalar? {
        forall j | 0 <= j < |d| ensures d[j].1.Scalar? {
          if j > 0 { assert d[j] == d[1..][j - 1]; }
        }
      }
    }
  }

  /** Every list field has more than `i` elements. */
  predicate ListsLongerThan<A>(d: Dict<A>, i: nat)
  {
    forall j :: 0 <= j < |d| && d[j].1.List? ==> i < |d[j].1.elems|
  }

  /** The value a field contributes to record `i`. */
  function Pick<A>(f: Field<A>, i: nat): A
    requires f.List? ==> i < |f.elems|
  {
    match f
    case Scalar(a) => a
    case List(xs) => xs[i]
  }

  /** `{**non_list_items, **{k: v[i] for k, v in list_items.items()}}`. */
  function Row<A>(d: Dict<A>, i: nat): (r: map<string, A>)
    requires UniqueKeys(d) && ListsLongerThan(d, i)
    ensures r.Keys == KeySet(d)
    ensures forall j :: 0 <= j < |d| ==> d[j].0 in r && r[d[j].0] == Pick(d[j].1, i)
  {
    var r := map j | 0 <= j < |d| :: d[j].0 := Pick(d[j].1, i);
    assert forall j :: 0 <= j < |d| ==> d[j].0 in r && r[d[j].0] == Pick(d[j].1, i) by {
      forall j | 0 <= j < |d| ensures d[j].0 in r && r[d[j].0] == Pick(d[j].1, i) {
        var j' :| 0 <= j' < |d| && d[j'].0 == d[j].0 && r[d[j].0] == Pick(d[j'].1, i);
        assert j' == j;
      }
    }
    r
  }

  /** `flatten_dict(dct)`. With no list field `next` raises StopIteration; a list field
      shorter than the first raises IndexError once the index reaches its length. */
  function FlattenDict<A>(d: Dict<A>): (r: Result<seq<map<string, A>>>)
    requires UniqueKeys(d)
    ensures FirstListLength(d).None? ==> r == Err(StopIteration)
    ensures FirstListLength(d).Some? ==>
      (r.Ok? <==> forall j :: 0 <= j < |d| && d[j].1.List? ==> |d[j].1.elems| >= FirstListLength(d).value)
    ensures r.Err? ==> r.error == StopIteration || r.error == IndexError
    ensures r.Ok? ==> FirstListLength(d).Some? && |r.value| == FirstListLength(d).value
    ensures r.Ok? ==> forall i :: 0 <= i < |r.value| ==> r.value[i].Keys == KeySet(d)
    ensures r.Ok? ==> forall i, j :: 0 <= i < |r.value| && 0 <= j < |d| && d[j].1.Scalar? ==>
      d[j].0 in r.value[i] && r.value[i][d[j].0] == d[j].1.value
    ensures r.Ok? ==> forall i, j :: 0 <= i < |r.value| && 0 <= j < |d| && d[j].1.List? ==>
      i < |d[j].1.elems| && d[j].0 in r.value[i] && r.value[i][d[j].0] == d[j].1.elems[i]
  {
    match FirstListLength(d)
    case None => Err(StopIteration)
    case Some(n) =>
      if exists j :: 0 <= j < |d| && d[j].1.List? && |d[j].1.elems| < n then Err(IndexError)
      else Ok(seq(n, i requires 0 <= i < n => Row(d, i)))
  }
}
