/** The volume table the analysis reads: one row per (app, message_type,
    week), with the week given by the day number of its Monday. A category's
    rows are handled as a date-ordered sequence of observations. */
module Records {

  datatype Option<T> = None | Some(value: T)

  /** Days per week: a week-based cut-off is a cut-off at 7 * weeks days. */
  const DaysPerWeek: int := 7

  /** One weekly row of a category: the week's start day and its volume. */
  datatype Observation = Observation(date: int, volume: real)

  /** One row of the full table. */
  datatype Row = Row(app: string, messageType: string, date: int, volume: real)

  /** The rows of one (app, message_type) category, in date order. */
  datatype Group = Group(app: string, messageType: string, rows: seq<Observation>)

  function Volumes(obs: seq<Observation>): (vs: seq<real>)
    ensures |vs| == |obs|
    ensures forall i :: 0 <= i < |obs| ==> vs[i] == obs[i].volume
  {
    if obs == [] then [] else [obs[0].volume] + Volumes(obs[1..])
  }

  function Dates(obs: seq<Observation>): (ds: seq<int>)
    ensures |ds| == |obs|
    ensures forall i :: 0 <= i < |obs| ==> ds[i] == obs[i].date
  {
    if obs == [] then [] else [obs[0].date] + Dates(obs[1..])
  }

  /** No negative volumes: event counts. */
  predicate NonNegative(obs: seq<Observation>) {
    forall i :: 0 <= i < |obs| ==> 0.0 <= obs[i].volume
  }

  /** The rows whose date lies in (lo, hi], in their original order. */
  function Window(obs: seq<Observation>, lo: int, hi: int): (w: seq<Observation>)
    ensures |w| <= |obs|
  {
    if obs == [] then []
    else if lo < obs[0].date <= hi then [obs[0]] + Window(obs[1..], lo, hi)
    else Window(obs[1..], lo, hi)
  }

  /** The rows strictly before a day, in their original order. */
  function Before(obs: seq<Observation>, day: int): (b: seq<Observation>)
    ensures |b| <= |obs|
  {
    if obs == [] then []
    else if obs[0].date < day then [obs[0]] + Before(obs[1..], day)
    else Before(obs[1..], day)
  }

  /** The rows dated exactly on a day, in their original order. */
  function At(obs: seq<Observation>, day: int): (a: seq<Observation>)
    ensures |a| <= |obs|
  {
    if obs == [] then []
    else if obs[0].date == day then [obs[0]] + At(obs[1..], day)
    else At(obs[1..], day)
  }

  /** A row is in a window exactly when it is a row of the category dated
      in (lo, hi]. */
  lemma {:induction false} WindowMembers(obs: seq<Observation>, lo: int, hi: int)
    ensures forall o :: o in Window(obs, lo, hi) <==> o in obs && lo < o.date <= hi
  {
    if obs != [] {
      WindowMembers(obs[1..], lo, hi);
      assert obs == [obs[0]] + obs[1..];
    }
  }

  /** A row is kept by Before exactly when it is dated before the day. */
  lemma {:induction false} BeforeMembers(obs: seq<Observation>, day: int)
    ensures forall o :: o in Before(obs, day) <==> o in obs && o.date < day
  {
    if obs != [] {
      BeforeMembers(obs[1..], day);
      assert obs == [obs[0]] + obs[1..];
    }
  }

  /** A row is kept by At exactly when it is dated on the day. */
  lemma {:induction false} AtMembers(obs: seq<Observation>, day: int)
    ensures forall o :: o in At(obs, day) <==> o in obs && o.date == day
  {
    if obs != [] {
      AtMembers(obs[1..], day);
      assert obs == [obs[0]] + obs[1..];
    }
  }

  /** A window is part of every wider window with the same upper end. */
  lemma {:induction false} WindowNested(obs: seq<Observation>, lo1: int, lo2: int, hi: int)
    requires lo2 <= lo1
    ensures |Window(obs, lo1, hi)| <= |Window(obs, lo2, hi)|
  {
    if obs != [] {
      WindowNested(obs[1..], lo1, lo2, hi);
    }
  }

  /** Filtering keeps every volume of a non-negative sample non-negative. */
  lemma NonNegativeSubset(obs: seq<Observation>, sub: seq<Observation>)
    requires NonNegative(obs)
    requires forall o :: o in sub ==> o in obs
    ensures NonNegative(sub)
  {
    forall i | 0 <= i < |sub| ensures 0.0 <= sub[i].volume {
      assert sub[i] in obs;
    }
  }

  /** pandas' tail(n): the last n elements, or all of them when fewer. */
  function Tail<T>(xs: seq<T>, n: nat): (t: seq<T>)
    ensures |t| == if |xs| < n then |xs| else n
    ensures forall i :: 0 <= i < |t| ==> t[i] == xs[|xs| - |t| + i]
  {
    if |xs| <= n then xs else xs[|xs| - n..]
  }

  /** The latest date of a non-empty category. */
  function LastDate(obs: seq<Observation>): (d: int)
    requires |obs| > 0
    ensures exists i :: 0 <= i < |obs| && obs[i].date == d
    ensures forall i :: 0 <= i < |obs| ==> obs[i].date <= d
  {
    if |obs| == 1 then obs[0].date
    else
      var rest := LastDate(obs[1..]);
      if obs[0].date >= rest then obs[0].date else rest
  }

  /** No negative volumes in the full table. */
  predicate RowsNonNegative(rows: seq<Row>) {
    forall i :: 0 <= i < |rows| ==> 0.0 <= rows[i].volume
  }

  /** The rows of one category in the full table, in table order, as
      observations: the selection df[(app == a) & (message_type == m)]. */
  function RowsOf(rows: seq<Row>, app: string, messageType: string): (obs: seq<Observation>)
    ensures |obs| <= |rows|
    ensures RowsNonNegative(rows) ==> NonNegative(obs)
  {
    if rows == [] then []
    else
      var rest := RowsOf(rows[1..], app, messageType);
      if rows[0].app == app && rows[0].messageType == messageType
      then [Observation(rows[0].date, rows[0].volume)] + rest
      else rest
  }

  /** The rows of the full table dated exactly on a day, in table order. */
  function RowsAt(rows: seq<Row>, day: int): (r: seq<Row>)
    ensures |r| <= |rows|
  {
    if rows == [] then []
    else if rows[0].date == day then [rows[0]] + RowsAt(rows[1..], day)
    else RowsAt(rows[1..], day)
  }

  /** A row of the table is kept by RowsAt exactly when it is dated on the
      day. */
  lemma {:induction false} RowsAtMembers(rows: seq<Row>, day: int)
    ensures forall x :: x in RowsAt(rows, day) <==> x in rows && x.date == day
  {
    if rows != [] {
      RowsAtMembers(rows[1..], day);
      assert rows == [rows[0]] + rows[1..];
    }
  }

  /** No element or one. */
  function AsSeq<T>(o: Option<T>): (s: seq<T>)
    ensures |s| <= 1
    ensures o.Some? ==> s == [o.value]
    ensures o.None? ==> s == []
  {
    if o.Some? then [o.value] else []
  }

  /** The present values of a sequence of optional values, in order: the
      list a loop builds by appending only some of its candidates. */
  function Somes<T>(xs: seq<Option<T>>): (ys: seq<T>)
    ensures |ys| <= |xs|
  {
    if xs == [] then [] else Somes(xs[..|xs| - 1]) + AsSeq(xs[|xs| - 1])
  }

  /** One more candidate appends its value, if it has one. */
  lemma SomesSnoc<T>(xs: seq<Option<T>>, i: nat)
    requires i < |xs|
    ensures Somes(xs[..i + 1]) == Somes(xs[..i]) + AsSeq(xs[i])
  {
    assert xs[..i + 1][..i] == xs[..i];
  }

  /** A value is kept exactly when some candidate holds it. */
  lemma SomesMembers<T>(xs: seq<Option<T>>)
    ensures forall y :: y in Somes(xs) <==> exists i :: 0 <= i < |xs| && xs[i] == Some(y)
  {
    SomesSound(xs);
    SomesComplete(xs);
  }

  /** Every kept value is held by some candidate. */
  lemma {:induction false} SomesSound<T>(xs: seq<Option<T>>)
    ensures forall y :: y in Somes(xs) ==> exists i :: 0 <= i < |xs| && xs[i] == Some(y)
  {
    if xs != [] {
      var n := |xs| - 1;
      var pre := xs[..n];
      SomesSound(pre);
      forall y | y in Somes(xs) ensures exists i :: 0 <= i < |xs| && xs[i] == Some(y) {
        if y in Somes(pre) {
          var i :| 0 <= i < |pre| && pre[i] == Some(y);
          assert xs[i] == Some(y);
        } else {
          assert xs[n] == Some(y);
        }
      }
    }
  }

  /** The value of every candidate that holds one is kept. */
  lemma {:induction false} SomesComplete<T>(xs: seq<Option<T>>)
    ensures forall i :: 0 <= i < |xs| && xs[i].Some? ==> xs[i].value in Somes(xs)
  {
    if xs != [] {
      var n := |xs| - 1;
      var pre := xs[..n];
      SomesComplete(pre);
      forall i | 0 <= i < |xs| && xs[i].Some? ensures xs[i].value in Somes(xs) {
        if i < n {
          assert pre[i] == xs[i];
        }
      }
    }
  }

  /** The positions of the candidates that hold values, in ascending
      order: the k-th kept value comes from candidate SomesIndices(xs)[k]. */
  ghost function SomesIndices<T>(xs: seq<Option<T>>): (idx: seq<nat>)
    ensures |idx| == |Somes(xs)|
    ensures forall k :: 0 <= k < |idx| ==> idx[k] < |xs| && xs[idx[k]] == Some(Somes(xs)[k])
    ensures forall k, l :: 0 <= k < l < |idx| ==> idx[k] < idx[l]
  {
    if xs == [] then []
    else
      var n := |xs| - 1;
      var pre := SomesIndices(xs[..n]);
      assert forall k :: 0 <= k < |pre| ==> xs[pre[k]] == xs[..n][pre[k]];
      if xs[n].Some? then pre + [n] else pre
  }

  /** When every candidate of ys that holds a value is matched by one of xs
      at the same position that holds one too, ys keeps no more values. */
  lemma {:induction false} SomesCountMonotone<T, U>(xs: seq<Option<T>>, ys: seq<Option<U>>)
    requires |xs| == |ys|
    requires forall i :: 0 <= i < |xs| && ys[i].Some? ==> xs[i].Some?
    ensures |Somes(ys)| <= |Somes(xs)|
  {
    if xs != [] {
      var n := |xs| - 1;
      SomesCountMonotone(xs[..n], ys[..n]);
    }
  }
}
