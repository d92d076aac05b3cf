/** The review tuples and the per-user interaction graph of src/pre_data_preparation.py,
    the review keep-filter and time key, the stable sort by time, and the grouping of
    reviews by user. */
module Interactions {
  import opened Common

  /** A review tuple as `_get_review_data` builds it: (user, item, time, rating, text, feature, explanation). */
  datatype Review = Review(user: string, item: string, time: int, rating: int,
                           text: string, feature: string, explanation: string)

  /** What the graph keeps per visit: the review tuple without its user. */
  datatype Interaction = Interaction(item: string, time: int, rating: int,
                                     review: string, feature: string, explanation: string)

  /** One key of the user -> interactions dict. */
  datatype Entry = Entry(user: string, items: seq<Interaction>)

  /** The dict, in its key order. */
  type Graph = seq<Entry>

  function Project(r: Review): Interaction
  {
    Interaction(r.item, r.time, r.rating, r.text, r.feature, r.explanation)
  }

  function Users(g: Graph): (us: seq<string>)
    ensures |us| == |g| && forall k :: 0 <= k < |g| ==> us[k] == g[k].user
  {
    seq(|g|, k requires 0 <= k < |g| => g[k].user)
  }

  lemma UsersAppend(a: Graph, b: Graph)
    ensures Users(a + b) == Users(a) + Users(b)
  {
  }

  /** Dict keys are unique. */
  predicate ValidGraph(g: Graph)
  {
    Distinct(Users(g))
  }

  /** `dct.get(u, [])`. */
  function ItemsOf(g: Graph, u: string): seq<Interaction>
  {
    if |g| == 0 then [] else if g[0].user == u then g[0].items else ItemsOf(g[1..], u)
  }

  lemma {:induction false} ItemsOfAt(g: Graph, k: nat)
    requires ValidGraph(g) && k < |g|
    ensures ItemsOf(g, g[k].user) == g[k].items
  {
    if k > 0 {
      assert Users(g[1..]) == Users(g)[1..];
      ItemsOfAt(g[1..], k - 1);
    }
  }

  /** The item ids of one history. */
  function ItemIds(s: seq<Interaction>): (ids: seq<string>)
    ensures |ids| == |s| && forall j :: 0 <= j < |s| ==> ids[j] == s[j].item
  {
    seq(|s|, j requires 0 <= j < |s| => s[j].item)
  }

  /** Every visited item id, history after history. */
  function AllItems(g: Graph): seq<string>
  {
    if |g| == 0 then [] else AllItems(g[..|g| - 1]) + ItemIds(g[|g| - 1].items)
  }

  /** Extending a prefix of the graph by one entry. */
  lemma PrefixStep(g: Graph, i: nat)
    requires i < |g|
    ensures g[..i + 1][..i] == g[..i]
    ensures Users(g[..i + 1]) == Users(g[..i]) + [g[i].user]
    ensures AllItems(g[..i + 1]) == AllItems(g[..i]) + ItemIds(g[i].items)
  {
    assert g[..i + 1][..i] == g[..i];
  }

  /** The number of interactions in the graph. */
  function Total(g: Graph): nat
  {
    if |g| == 0 then 0 else Total(g[..|g| - 1]) + |g[|g| - 1].items|
  }

  lemma {:induction false} TotalIsAllItems(g: Graph)
    ensures Total(g) == |AllItems(g)|
  {
    if |g| > 0 { TotalIsAllItems(g[..|g| - 1]); }
  }

  lemma {:induction false} TotalAppend(g: Graph, h: Graph)
    ensures Total(g + h) == Total(g) + Total(h)
  {
    if |h| == 0 {
      assert g + h == g;
    } else {
      assert (g + h)[..|g + h| - 1] == g + h[..|h| - 1];
      TotalAppend(g, h[..|h| - 1]);
    }
  }

  lemma {:induction false} TotalUpdate(g: Graph, k: nat, e: Entry)
    requires k < |g|
    ensures Total(g[k := e]) + |g[k].items| == Total(g) + |e.items|
  {
    var n := |g| - 1;
    if k == n {
      assert g[k := e][..n] == g[..n];
    } else {
      assert g[k := e][..n] == g[..n][k := e];
      TotalUpdate(g[..n], k, e);
    }
  }

  // ---------------------------------------------------------------------------
  // The keep-filter and the time key of `_get_review_data`

  /** A review is skipped when `date < min_date or date > max_date or rating <= 0`. */
  predicate Keep(date: string, rating: int, minDate: string, maxDate: string)
  {
    !(StrLess(date, minDate) || StrLess(maxDate, date) || rating <= 0)
  }

  /** A review is kept exactly when `min_date <= date <= max_date` and its rating is positive. */
  lemma KeepIsWindow(date: string, rating: int, minDate: string, maxDate: string)
    ensures Keep(date, rating, minDate, maxDate) <==>
      (minDate == date || StrLess(minDate, date)) && (date == maxDate || StrLess(date, maxDate)) && rating > 0
  {
    StrLessTrichotomy(date, minDate);
    StrLessTrichotomy(date, maxDate);
  }

  /** `s.replace(c, '')`. */
  function RemoveChar(s: string, c: char): string
  {
    if |s| == 0 then "" else RemoveChar(s[..|s| - 1], c) + (if s[|s| - 1] == c then "" else [s[|s| - 1]])
  }

  /** `date.replace('-','').replace(':','').replace(' ','')`. */
  function TimeKey(date: string): string
  {
    RemoveChar(RemoveChar(RemoveChar(date, '-'), ':'), ' ')
  }

  predicate IsSeparator(c: char) { c == '-' || c == ':' || c == ' ' }

  /** The characters of `s` that are not separators, in order. */
  function StripSeparators(s: string): (t: string)
  {
    if |s| == 0 then "" else StripSeparators(s[..|s| - 1]) + (if IsSeparator(s[|s| - 1]) then "" else [s[|s| - 1]])
  }

  lemma {:induction false} RemoveCharAppend(s: string, t: string, c: char)
    ensures RemoveChar(s + t, c) == RemoveChar(s, c) + RemoveChar(t, c)
  {
    if |t| == 0 {
      assert s + t == s;
    } else {
      assert (s + t)[..|s + t| - 1] == s + t[..|t| - 1];
      RemoveCharAppend(s, t[..|t| - 1], c);
    }
  }

  /** The three replacements together drop exactly the separators '-', ':' and ' '. */
  lemma {:induction false} TimeKeyStrips(date: string)
    ensures TimeKey(date) == StripSeparators(date)
  {
    if |date| > 0 {
      var p, c := date[..|date| - 1], date[|date| - 1];
      TimeKeyStrips(p);
      assert date == p + [c];
      RemoveCharAppend(p, [c], '-');
      assert RemoveChar([c], '-') == if c == '-' then "" else [c] by {
        assert [c][..0] == "";
      }
      var s1 := RemoveChar([c], '-');
      RemoveCharAppend(RemoveChar(p, '-'), s1, ':');
      assert RemoveChar(s1, ':') == if c == '-' || c == ':' then "" else [c] by {
        if c != '-' { assert s1[..0] == ""; }
      }
      var s2 := RemoveChar(s1, ':');
      RemoveCharAppend(RemoveChar(RemoveChar(p, '-'), ':'), s2, ' ');
      assert RemoveChar(s2, ' ') == if IsSeparator(c) then "" else [c] by {
        if !(c == '-' || c == ':') { assert s2[..0] == ""; }
      }
    }
  }

  lemma StripSeparatorsSnoc(p: string, c: char)
    ensures StripSeparators(p + [c]) == StripSeparators(p) + (if IsSeparator(c) then "" else [c])
  {
    assert (p + [c])[..|p|] == p;
  }

  lemma {:induction false} StripSeparatorsClean(s: string)
    ensures forall i :: 0 <= i < |StripSeparators(s)| ==> !IsSeparator(StripSeparators(s)[i])
  {
    if |s| > 0 {
      var p, c := s[..|s| - 1], s[|s| - 1];
      StripSeparatorsClean(p);
      assert s == p + [c];
      StripSeparatorsSnoc(p, c);
    }
  }

  lemma {:induction false} StripSeparatorsSubseq(s: string)
    ensures IsSubseq(StripSeparators(s), s)
  {
    if |s| > 0 {
      var p, c := s[..|s| - 1], s[|s| - 1];
      StripSeparatorsSubseq(p);
      var t := StripSeparators(p);
      assert s == p + [c];
      StripSeparatorsSnoc(p, c);
      if IsSeparator(c) {
        assert StripSeparators(s) == t;
        SubseqExtend(t, p, c);
      } else {
        SubseqSnocBoth(t, p, c);
      }
    }
  }

  lemma {:induction false} StripSeparatorsOcc(s: string, x: char)
    requires !IsSeparator(x)
    ensures Occ(StripSeparators(s), x) == Occ(s, x)
  {
    if |s| > 0 {
      var p, c := s[..|s| - 1], s[|s| - 1];
      StripSeparatorsOcc(p, x);
      var t := StripSeparators(p);
      assert s == p + [c];
      StripSeparatorsSnoc(p, c);
      assert Occ(s, x) == Occ(p, x) + (if c == x then 1 else 0);
      if IsSeparator(c) {
        assert StripSeparators(s) == t;
      } else {
        assert (t + [c])[..|t + [c]| - 1] == t;
      }
    }
  }

  /** The time key has no separator left, keeps every other character in order, and keeps
      each of them as often as the date has it. */
  lemma StripSeparatorsProperties(s: string)
    ensures forall i :: 0 <= i < |StripSeparators(s)| ==> !IsSeparator(StripSeparators(s)[i])
    ensures IsSubseq(StripSeparators(s), s)
    ensures forall c :: !IsSeparator(c) ==> Occ(StripSeparators(s), c) == Occ(s, c)
  {
    StripSeparatorsClean(s);
    StripSeparatorsSubseq(s);
    forall c | !IsSeparator(c) ensures Occ(StripSeparators(s), c) == Occ(s, c) {
      StripSeparatorsOcc(s, c);
    }
  }

  /** One line of the review file as `_get_review_data` reads it, its feature sentence
      already chosen. */
  datatype ReviewLine = ReviewLine(user: string, item: string, date: string, rating: int,
                                   text: string, feature: string, explanation: string)

  /** The tuple appended for a kept line. `int(time)` raises ValueError unless the time key
      is a non-empty string of decimal digits. */
  function MakeReview(l: ReviewLine): (r: Result<Review>)
    ensures r.Ok? <==> |StripSeparators(l.date)| > 0 && AllDigits(StripSeparators(l.date))
    ensures r.Err? ==> r.error == ValueError
    ensures r.Ok? ==> r.value == Review(l.user, l.item, DigitsValue(StripSeparators(l.date)), l.rating,
                                        l.text, l.feature, l.explanation)
  {
    TimeKeyStrips(l.date);
    match ParseNat(TimeKey(l.date))
    case None => Err(ValueError)
    case Some(t) => Ok(Review(l.user, l.item, t, l.rating, l.text, l.feature, l.explanation))
  }

  // ---------------------------------------------------------------------------
  // `sorted(items, key=lambda x: x[1])`: a stable sort by time

  predicate SortedByTime(s: seq<Interaction>)
  {
    forall i, j :: 0 <= i < j < |s| ==> s[i].time <= s[j].time
  }

  /** Puts `x` before the first element whose time is not smaller than its own. */
  function InsertByTime(x: Interaction, s: seq<Interaction>): (r: seq<Interaction>)
    ensures |r| == |s| + 1
  {
    if |s| == 0 || x.time <= s[0].time then [x] + s else [s[0]] + InsertByTime(x, s[1..])
  }

  /** Python's `sorted` with the time as key: ascending and stable (insertion sort from the back). */
  function SortByTime(s: seq<Interaction>): (r: seq<Interaction>)
    ensures |r| == |s|
  {
    if |s| == 0 then [] else InsertByTime(s[0], SortByTime(s[1..]))
  }

  /** The elements of `s` whose time is `t`, in order. */
  function AtTime(s: seq<Interaction>, t: int): seq<Interaction>
  {
    if |s| == 0 then [] else (if s[0].time == t then [s[0]] else []) + AtTime(s[1..], t)
  }

  lemma {:induction false} InsertByTimeMultiset(x: Interaction, s: seq<Interaction>)
    ensures multiset(InsertByTime(x, s)) == multiset(s) + multiset{x}
  {
    if !(|s| == 0 || x.time <= s[0].time) {
      InsertByTimeMultiset(x, s[1..]);
      assert s == [s[0]] + s[1..];
    }
  }

  /** Inserting keeps a lower bound on the times. */
  lemma {:induction false} InsertByTimeBound(x: Interaction, s: seq<Interaction>, lo: int)
    requires lo <= x.time && forall j :: 0 <= j < |s| ==> lo <= s[j].time
    ensures forall j :: 0 <= j < |InsertByTime(x, s)| ==> lo <= InsertByTime(x, s)[j].time
  {
    if !(|s| == 0 || x.time <= s[0].time) {
      InsertByTimeBound(x, s[1..], lo);
      var r := InsertByTime(x, s[1..]);
      assert InsertByTime(x, s) == [s[0]] + r;
      forall j | 0 <= j < |InsertByTime(x, s)| ensures lo <= InsertByTime(x, s)[j].time {
        if j > 0 { assert InsertByTime(x, s)[j] == r[j - 1]; }
      }
    }
  }

  lemma {:induction false} InsertByTimeSorted(x: Interaction, s: seq<Interaction>)
    requires SortedByTime(s)
    ensures SortedByTime(InsertByTime(x, s))
  {
    if |s| == 0 || x.time <= s[0].time {
      var r := [x] + s;
      assert InsertByTime(x, s) == r;
      forall i, j | 0 <= i < j < |r| ensures r[i].time <= r[j].time {
        if i > 0 { assert r[i] == s[i - 1] && r[j] == s[j - 1]; }
        else { assert r[j] == s[j - 1]; assert s[0].time <= s[j - 1].time || j == 1; }
      }
    } else {
      var t := s[1..];
      var r := InsertByTime(x, t);
      assert SortedByTime(t) by {
        forall i, j | 0 <= i < j < |t| ensures t[i].time <= t[j].time { assert t[i] == s[i + 1] && t[j] == s[j + 1]; }
      }
      InsertByTimeSorted(x, t);
      InsertByTimeBound(x, t, s[0].time);
      var q := [s[0]] + r;
      assert InsertByTime(x, s) == q;
      forall i, j | 0 <= i < j < |q| ensures q[i].time <= q[j].time {
        assert q[j] == r[j - 1];
        if i > 0 { assert q[i] == r[i - 1]; }
      }
    }
  }

  /** Insertion puts `x` among the tuples of its own time after none of them: the
      tuples of every time keep their order. */
  lemma {:induction false} InsertByTimeAtTime(x: Interaction, s: seq<Interaction>, t: int)
    ensures AtTime(InsertByTime(x, s), t) == (if x.time == t then [x] else []) + AtTime(s, t)
  {
    if |s| == 0 || x.time <= s[0].time {
      assert InsertByTime(x, s) == [x] + s;
      assert ([x] + s)[1..] == s;
    } else {
      var r := InsertByTime(x, s[1..]);
      InsertByTimeAtTime(x, s[1..], t);
      assert InsertByTime(x, s) == [s[0]] + r;
      assert ([s[0]] + r)[1..] == r;
      assert AtTime([s[0]] + r, t) == (if s[0].time == t then [s[0]] else []) + AtTime(r, t);
      assert AtTime(s, t) == (if s[0].time == t then [s[0]] else []) + AtTime(s[1..], t);
    }
  }

  /** The result is sorted by time, holds the same tuples, and tuples with equal time keep
      their input order (stability). */
  lemma SortByTimeProperties(s: seq<Interaction>)
    ensures SortedByTime(SortByTime(s))
    ensures multiset(SortByTime(s)) == multiset(s)
    ensures forall t :: AtTime(SortByTime(s), t) == AtTime(s, t)
  {
    SortByTimeSorted(s);
    SortByTimeMultiset(s);
    forall t ensures AtTime(SortByTime(s), t) == AtTime(s, t) {
      SortByTimeStable(s, t);
    }
  }

  lemma {:induction false} SortByTimeSorted(s: seq<Interaction>)
    ensures SortedByTime(SortByTime(s))
  {
    if |s| > 0 {
      SortByTimeSorted(s[1..]);
      InsertByTimeSorted(s[0], SortByTime(s[1..]));
    }
  }

  lemma {:induction false} SortByTimeMultiset(s: seq<Interaction>)
    ensures multiset(SortByTime(s)) == multiset(s)
  {
    if |s| > 0 {
      SortByTimeMultiset(s[1..]);
      InsertByTimeMultiset(s[0], SortByTime(s[1..]));
      assert s == [s[0]] + s[1..];
    }
  }

  lemma {:induction false} SortByTimeStable(s: seq<Interaction>, t: int)
    ensures AtTime(SortByTime(s), t) == AtTime(s, t)
  {
    if |s| > 0 {
      SortByTimeStable(s[1..], t);
      InsertByTimeAtTime(s[0], SortByTime(s[1..]), t);
    }
  }

  // ---------------------------------------------------------------------------
  // Grouping reviews by user: the first loop of `_get_user_item_interactions`

  function ReviewUsers(rs: seq<Review>): (us: seq<string>)
    ensures |us| == |rs| && forall i :: 0 <= i < |rs| ==> us[i] == rs[i].user
  {
    seq(|rs|, i requires 0 <= i < |rs| => rs[i].user)
  }

  /** The tuples of user `u`, in input order. */
  function Select(rs: seq<Review>, u: string): seq<Interaction>
  {
    if |rs| == 0 then []
    else Select(rs[..|rs| - 1], u) + (if rs[|rs| - 1].user == u then [Project(rs[|rs| - 1])] else [])
  }

  function IndexOf(s: seq<string>, u: string): (k: nat)
    requires u in s
    ensures k < |s| && s[k] == u
  {
    if s[0] == u then 0 else 1 + IndexOf(s[1..], u)
  }

  /** `d[user] = d.get(user, []) + [tuple]`: a new user goes to the end of the key order. */
  function AddReview(g: Graph, r: Review): Graph
  {
    if r.user in Users(g) then
      var k := IndexOf(Users(g), r.user);
      g[k := Entry(r.user, g[k].items + [Project(r)])]
    else g + [Entry(r.user, [Project(r)])]
  }

  function Group(rs: seq<Review>): Graph
  {
    if |rs| == 0 then [] else AddReview(Group(rs[..|rs| - 1]), rs[|rs| - 1])
  }

  lemma {:induction false} SelectAbsent(rs: seq<Review>, u: string)
    requires u !in ReviewUsers(rs)
    ensures Select(rs, u) == []
  {
    if |rs| > 0 {
      assert ReviewUsers(rs[..|rs| - 1]) == ReviewUsers(rs)[..|rs| - 1];
      SelectAbsent(rs[..|rs| - 1], u);
    }
  }

  /** What grouping the tuples `rs` into `g` keeps: every user once, in order of first
      appearance, each with exactly its tuples in input order, and no tuple lost. */
  predicate Grouped(g: Graph, rs: seq<Review>)
  {
    && ValidGraph(g)
    && Users(g) == Dedup(ReviewUsers(rs))
    && (forall k :: 0 <= k < |g| ==> g[k].items == Select(rs, g[k].user))
    && Total(g) == |rs|
  }

  lemma SelectSnoc(p: seq<Review>, r: Review, u: string)
    ensures Select(p + [r], u) == Select(p, u) + (if r.user == u then [Project(r)] else [])
  {
    assert (p + [r])[..|p|] == p;
  }

  lemma ReviewUsersSnoc(p: seq<Review>, r: Review)
    ensures ReviewUsers(p + [r]) == ReviewUsers(p) + [r.user]
  {
  }

  /** A tuple of a user already in the dict extends that user's history. */
  lemma {:induction false} AddExisting(g: Graph, p: seq<Review>, r: Review)
    requires Grouped(g, p) && r.user in Users(g)
    ensures Grouped(AddReview(g, r), p + [r])
  {
    var k := IndexOf(Users(g), r.user);
    var h := g[k := Entry(r.user, g[k].items + [Project(r)])];
    assert AddReview(g, r) == h;
    assert Users(h) == Users(g);
    ReviewUsersSnoc(p, r);
    DedupProperties(ReviewUsers(p));
    DedupAppend(ReviewUsers(p), r.user);
    TotalUpdate(g, k, Entry(r.user, g[k].items + [Project(r)]));
    forall k' | 0 <= k' < |h| ensures h[k'].items == Select(p + [r], h[k'].user) {
      SelectSnoc(p, r, h[k'].user);
      if k' != k {
        assert h[k'] == g[k'];
        assert Users(g)[k'] != Users(g)[k];
      }
    }
  }

  /** A tuple of a new user appends an entry holding just that tuple. */
  lemma {:induction false} AddNew(g: Graph, p: seq<Review>, r: Review)
    requires Grouped(g, p) && r.user !in Users(g)
    ensures Grouped(AddReview(g, r), p + [r])
  {
    var e := Entry(r.user, [Project(r)]);
    var h := g + [e];
    assert AddReview(g, r) == h;
    assert Users(h) == Users(g) + [r.user];
    ReviewUsersSnoc(p, r);
    DedupProperties(ReviewUsers(p));
    DedupAppend(ReviewUsers(p), r.user);
    DedupProperties(ReviewUsers(p + [r]));
    TotalAppend(g, [e]);
    assert Total([e]) == 1;
    SelectAbsent(p, r.user);
    forall k' | 0 <= k' < |h| ensures h[k'].items == Select(p + [r], h[k'].user) {
      SelectSnoc(p, r, h[k'].user);
      if k' < |g| {
        assert h[k'] == g[k'];
      }
    }
  }

  /** Grouping keeps every user once, in order of first appearance, gives each user exactly
      their tuples in input order, and loses no tuple. */
  lemma {:induction false} GroupProperties(rs: seq<Review>)
    ensures ValidGraph(Group(rs))
    ensures Users(Group(rs)) == Dedup(ReviewUsers(rs))
    ensures forall k :: 0 <= k < |Group(rs)| ==> Group(rs)[k].items == Select(rs, Group(rs)[k].user)
    ensures Total(Group(rs)) == |rs|
  {
    if |rs| > 0 {
      var n := |rs| - 1;
      var p, r := rs[..n], rs[n];
      GroupProperties(p);
      assert Grouped(Group(p), p);
      assert rs == p + [r];
      if r.user in Users(Group(p)) { AddExisting(Group(p), p, r); } else { AddNew(Group(p), p, r); }
      assert Grouped(Group(rs), rs);
    } else {
      assert Grouped(Group(rs), rs);
    }
  }
}
