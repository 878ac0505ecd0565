/**
 Trade events for one instrument, the stable date sort applied to them before
 valuation, and the per-day lookups the valuation loop performs on the sorted list.
 Calendar dates are modelled as integer day numbers.
 */
module Trades {

  datatype Option<+T> = None | Some(value: T)

  datatype Action = Buy | Sell

  /** One executed trade; `positionAveragePrice` is informational only. */
  datatype Trade = Trade(action: Action, date: int, positionAveragePrice: Option<real>, price: real, quantity: nat)

  /** The trades of `ts` dated `d`, in the order they appear in `ts`. */
  function OnDate(ts: seq<Trade>, d: int): (r: seq<Trade>)
    ensures |r| <= |ts|
  {
    if ts == [] then []
    else (if ts[0].date == d then [ts[0]] else []) + OnDate(ts[1..], d)
  }

  /** The first trade of `ts` dated `d`, as a linear search from the front finds it. */
  function FindOn(ts: seq<Trade>, d: int): (r: Option<Trade>)
  {
    if ts == [] then None
    else if ts[0].date == d then Some(ts[0])
    else FindOn(ts[1..], d)
  }

  /** The search fails exactly when no trade is dated `d`, and otherwise yields a trade dated `d`. */
  lemma {:induction false} FindOnFound(ts: seq<Trade>, d: int)
    ensures FindOn(ts, d).None? <==> forall t :: t in ts ==> t.date != d
    ensures FindOn(ts, d).Some? ==> FindOn(ts, d).value in ts && FindOn(ts, d).value.date == d
  {
    if ts != [] && ts[0].date != d {
      FindOnFound(ts[1..], d);
      assert forall t :: t in ts ==> t == ts[0] || t in ts[1..];
    }
  }

  /** The search yields the head of the day's trades, so it depends only on them. */
  lemma {:induction false} FindOnIsFirstOfDay(ts: seq<Trade>, d: int)
    ensures FindOn(ts, d) == if OnDate(ts, d) == [] then None else Some(OnDate(ts, d)[0])
  {
    if ts != [] {
      FindOnIsFirstOfDay(ts[1..], d);
    }
  }

  /** Index form of `FindOn`: the trade found sits at an index before which no trade is dated `d`. */
  lemma {:induction false} FindOnFirst(ts: seq<Trade>, d: int)
    requires FindOn(ts, d).Some?
    ensures exists i :: 0 <= i < |ts| && ts[i] == FindOn(ts, d).value &&
                        forall j :: 0 <= j < i ==> ts[j].date != d
  {
    if ts[0].date != d {
      FindOnFirst(ts[1..], d);
      var i :| 0 <= i < |ts[1..]| && ts[1..][i] == FindOn(ts[1..], d).value &&
               forall j :: 0 <= j < i ==> ts[1..][j].date != d;
      assert ts[i + 1] == FindOn(ts, d).value;
      forall j | 0 <= j < i + 1 ensures ts[j].date != d {
        if j > 0 { assert ts[j] == ts[1..][j - 1]; }
      }
    } else {
      assert ts[0] == FindOn(ts, d).value;
    }
  }

  ghost predicate SortedByDate(ts: seq<Trade>)
  {
    forall i, j :: 0 <= i < j < |ts| ==> ts[i].date <= ts[j].date
  }

  /** Places `x` before the first trade dated on or after it, so `x` precedes its same-day peers. */
  function Insert(x: Trade, s: seq<Trade>): (r: seq<Trade>)
    requires SortedByDate(s)
    ensures SortedByDate(r)
    ensures |r| == |s| + 1
    ensures r[0] == if s == [] || x.date <= s[0].date then x else s[0]
  {
    if s == [] || x.date <= s[0].date then
      [x] + s
    else
      var rest := Insert(x, s[1..]);
      assert s[0].date <= rest[0].date;
      [s[0]] + rest
  }

  lemma {:induction false} InsertPermutes(x: Trade, s: seq<Trade>)
    requires SortedByDate(s)
    ensures multiset(Insert(x, s)) == multiset(s) + multiset{x}
  {
    if s != [] && x.date > s[0].date {
      InsertPermutes(x, s[1..]);
      assert s == [s[0]] + s[1..];
    }
  }

  lemma OnDateCons(x: Trade, s: seq<Trade>, d: int)
    ensures OnDate([x] + s, d) == (if x.date == d then [x] else []) + OnDate(s, d)
  {
  }

  /** Inserting `x` adds it in front of the trades of its own day and leaves other days alone. */
  lemma {:induction false} InsertOnDate(x: Trade, s: seq<Trade>, d: int)
    requires SortedByDate(s)
    ensures OnDate(Insert(x, s), d) == (if x.date == d then [x] else []) + OnDate(s, d)
  {
    if s == [] || x.date <= s[0].date {
      OnDateCons(x, s, d);
    } else {
      var rest := Insert(x, s[1..]);
      InsertOnDate(x, s[1..], d);
      OnDateCons(s[0], rest, d);
      OnDateCons(s[0], s[1..], d);
      assert [s[0]] + s[1..] == s;
      var own := if x.date == d then [x] else [];
      var head := if s[0].date == d then [s[0]] else [];
      assert head + (own + OnDate(s[1..], d)) == own + (head + OnDate(s[1..], d)) by {
        assert head == [] || own == [] || head == own;
      }
    }
  }

  /**
   Stable sort by date, as an insertion sort: the result is ordered and as long as
   the input; `SortPermutes` and `SortStable` state that it is a permutation that
   keeps the input order among trades of the same day.
   */
  function SortByDate(ts: seq<Trade>): (r: seq<Trade>)
    ensures SortedByDate(r)
    ensures |r| == |ts|
  {
    if ts == [] then [] else Insert(ts[0], SortByDate(ts[1..]))
  }

  lemma ConsPermutes(x: Trade, s: seq<Trade>, sortedRest: seq<Trade>, r: seq<Trade>)
    requires multiset(sortedRest) == multiset(s)
    requires multiset(r) == multiset(sortedRest) + multiset{x}
    ensures multiset(r) == multiset([x] + s)
  {
  }

  /** Sorting neither adds nor drops nor duplicates a trade. */
  lemma {:induction false} SortPermutes(ts: seq<Trade>)
    ensures multiset(SortByDate(ts)) == multiset(ts)
  {
    if ts != [] {
      SortPermutes(ts[1..]);
      InsertPermutes(ts[0], SortByDate(ts[1..]));
      assert ts == [ts[0]] + ts[1..];
      ConsPermutes(ts[0], ts[1..], SortByDate(ts[1..]), SortByDate(ts));
    }
  }

  /** Sorting keeps the trades of each day, in their input order. */
  lemma {:induction false} SortStable(ts: seq<Trade>, d: int)
    ensures OnDate(SortByDate(ts), d) == OnDate(ts, d)
  {
    if ts != [] {
      SortStable(ts[1..], d);
      InsertOnDate(ts[0], SortByDate(ts[1..]), d);
    }
  }

  /** A trade is in the sorted list exactly when it is in the input. */
  lemma SortSameTrades(ts: seq<Trade>, t: Trade)
    ensures t in SortByDate(ts) <==> t in ts
  {
    SortPermutes(ts);
    assert t in SortByDate(ts) <==> t in multiset(SortByDate(ts));
  }

  /** At most one trade per calendar day. */
  ghost predicate OneTradePerDay(ts: seq<Trade>)
  {
    forall d :: |OnDate(ts, d)| <= 1
  }

  predicate BuyOnly(ts: seq<Trade>)
  {
    forall t :: t in ts ==> t.action == Buy
  }

  function SharesBought(ts: seq<Trade>): (r: nat)
  {
    if ts == [] then 0 else (if ts[0].action == Buy then ts[0].quantity else 0) + SharesBought(ts[1..])
  }

  function SharesSold(ts: seq<Trade>): (r: nat)
  {
    if ts == [] then 0 else (if ts[0].action == Sell then ts[0].quantity else 0) + SharesSold(ts[1..])
  }

  /** Shares a trade adds to the position (negative for a sale). */
  function SignedQuantity(t: Trade): (r: real)
  {
    if t.action == Buy then t.quantity as real else -(t.quantity as real)
  }

  /** Money a trade commits: quantity times price. */
  function Cost(t: Trade): (r: real)
  {
    t.quantity as real * t.price
  }

  /** Sum of `w` over the trades of `ts`. */
  function Total(ts: seq<Trade>, w: Trade -> real): (r: real)
  {
    if ts == [] then 0.0 else w(ts[0]) + Total(ts[1..], w)
  }

  /** Sum of `w` over the trades of `ts` dated strictly before `d`. */
  function TotalBefore(ts: seq<Trade>, d: int, w: Trade -> real): (r: real)
  {
    if ts == [] then 0.0 else (if ts[0].date < d then w(ts[0]) else 0.0) + TotalBefore(ts[1..], d, w)
  }

  lemma {:induction false} NetShares(ts: seq<Trade>)
    ensures Total(ts, SignedQuantity) == (SharesBought(ts) - SharesSold(ts)) as real
  {
    if ts != [] { NetShares(ts[1..]); }
  }

  lemma {:induction false} TotalInsert(x: Trade, s: seq<Trade>, w: Trade -> real)
    requires SortedByDate(s)
    ensures Total(Insert(x, s), w) == w(x) + Total(s, w)
  {
    if s == [] || x.date <= s[0].date {
      assert Insert(x, s)[1..] == s;
    } else {
      TotalInsert(x, s[1..], w);
      assert Insert(x, s)[1..] == Insert(x, s[1..]);
    }
  }

  /** Sorting does not change any sum over the trades. */
  lemma {:induction false} TotalSort(ts: seq<Trade>, w: Trade -> real)
    ensures Total(SortByDate(ts), w) == Total(ts, w)
  {
    if ts != [] {
      TotalSort(ts[1..], w);
      TotalInsert(ts[0], SortByDate(ts[1..]), w);
    }
  }

  /** Adding one day to the cut-off adds exactly the trades of that day. */
  lemma {:induction false} TotalBeforeStep(ts: seq<Trade>, d: int, w: Trade -> real)
    ensures TotalBefore(ts, d + 1, w) == TotalBefore(ts, d, w) + Total(OnDate(ts, d), w)
  {
    if ts != [] {
      TotalBeforeStep(ts[1..], d, w);
      var head := if ts[0].date == d then [ts[0]] else [];
      TotalAppend(head, OnDate(ts[1..], d), w);
    }
  }

  lemma {:induction false} TotalAppend(a: seq<Trade>, b: seq<Trade>, w: Trade -> real)
    ensures Total(a + b, w) == Total(a, w) + Total(b, w)
  {
    if a != [] {
      TotalAppend(a[1..], b, w);
      calc {
        Total(a + b, w);
        w((a + b)[0]) + Total((a + b)[1..], w);
        { assert (a + b)[0] == a[0]; assert (a + b)[1..] == a[1..] + b; }
        w(a[0]) + Total(a[1..] + b, w);
      }
    } else {
      assert a + b == b;
    }
  }

  lemma {:induction false} TotalBeforeNone(ts: seq<Trade>, d: int, w: Trade -> real)
    requires forall i :: 0 <= i < |ts| ==> d <= ts[i].date
    ensures TotalBefore(ts, d, w) == 0.0
  {
    if ts != [] {
      TotalBeforeNone(ts[1..], d, w);
    }
  }

  lemma {:induction false} TotalBeforeAll(ts: seq<Trade>, d: int, w: Trade -> real)
    requires forall i :: 0 <= i < |ts| ==> ts[i].date < d
    ensures TotalBefore(ts, d, w) == Total(ts, w)
  {
    if ts != [] {
      TotalBeforeAll(ts[1..], d, w);
    }
  }

  /** With at most one trade per day, a day's trades sum to the weight of the trade found on it. */
  lemma TotalOnDay(ts: seq<Trade>, d: int, w: Trade -> real)
    requires OneTradePerDay(ts)
    ensures Total(OnDate(ts, d), w) == match FindOn(ts, d) case None => 0.0 case Some(t) => w(t)
  {
    assert |OnDate(ts, d)| <= 1;
    FindOnIsFirstOfDay(ts, d);
    var day := OnDate(ts, d);
    if day != [] {
      assert day == [day[0]];
    }
  }
}
