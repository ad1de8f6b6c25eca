/** The `orders` table and what a GET reads from it: the SELECT of
    backend/orders/index.py, lines 96-113, with its optional player filter,
    `ORDER BY created_at DESC` and `LIMIT`. */
module OrderListing {
  import opened Http

  /** One row of `orders`. `createdAt` is the insertion timestamp, an opaque
      totally ordered value. */
  datatype Order = Order(
    id: nat,
    playerId: string,
    ucAmount: int,
    bonusUc: int,
    price: int,
    status: string,
    createdAt: int)

  const DefaultLimit := 50
  const MaxLimit := 100

  function Min(a: int, b: int): int {
    if a <= b then a else b
  }

  /** `min(int(params.get('limit', 50)), 100)` */
  function EffectiveLimit(limit: Option<nat>): (n: nat)
    ensures n <= MaxLimit
    ensures limit.None? ==> n == DefaultLimit
    ensures limit.Some? ==> n == Min(limit.value, MaxLimit)
  {
    Min(GetOr(limit, DefaultLimit), MaxLimit)
  }

  /** `WHERE player_id = %s`: the rows of that player, in table order. */
  function Matching(rows: seq<Order>, playerId: string): (r: seq<Order>)
    ensures forall o :: o in r <==> o in rows && o.playerId == playerId
    // every row of that player is kept as often as it occurs, every other row is dropped
    ensures forall o :: multiset(r)[o] == if o.playerId == playerId then multiset(rows)[o] else 0
    ensures multiset(r) <= multiset(rows)
  {
    if rows == [] then []
    else
      assert rows == [rows[0]] + rows[1..];
      var rest := Matching(rows[1..], playerId);
      if rows[0].playerId == playerId then [rows[0]] + rest else rest
  }

  /** The rows the query ranges over: all of them when the stripped
      `player_id` parameter is empty, otherwise those of that player. */
  function Candidates(rows: seq<Order>, playerId: string): seq<Order> {
    if playerId == "" then rows else Matching(rows, playerId)
  }

  predicate NewestFirst(s: seq<Order>) {
    forall i, j :: 0 <= i < j < |s| ==> s[i].createdAt >= s[j].createdAt
  }

  lemma PrependNewest(x: Order, s: seq<Order>)
    requires NewestFirst(s)
    requires forall y :: y in s ==> y.createdAt <= x.createdAt
    ensures NewestFirst([x] + s)
  {
  }

  /** Inserting a row older than the head of a sorted sequence into its tail
      leaves nothing newer than that head. */
  lemma HeadBoundsInsertion(o: Order, s: seq<Order>, rest: seq<Order>)
    requires NewestFirst(s) && s != [] && o.createdAt < s[0].createdAt
    requires multiset(rest) == multiset(s[1..]) + multiset{o}
    ensures forall y :: y in rest ==> y.createdAt <= s[0].createdAt
  {
    forall y | y in rest ensures y.createdAt <= s[0].createdAt {
      assert y in multiset(rest);
      if y != o {
        assert y in multiset(s[1..]);
        var k :| 0 <= k < |s[1..]| && s[1..][k] == y;
        assert s[k + 1] == y;
      }
    }
  }

  /** Places `o` in front of the first row that is not newer than it. */
  function InsertByDate(o: Order, s: seq<Order>): (r: seq<Order>)
    requires NewestFirst(s)
    ensures NewestFirst(r)
    ensures multiset(r) == multiset(s) + multiset{o}
  {
    if s == [] || s[0].createdAt <= o.createdAt then
      PrependNewest(o, s);
      [o] + s
    else
      var rest := InsertByDate(o, s[1..]);
      HeadBoundsInsertion(o, s, rest);
      PrependNewest(s[0], rest);
      assert s == [s[0]] + s[1..];
      [s[0]] + rest
  }

  /** `ORDER BY created_at DESC`: the same rows, newest first. Rows with equal
      timestamps, which SQL leaves in no particular order, come out here in
      table order. */
  function Newest(rows: seq<Order>): (r: seq<Order>)
    ensures NewestFirst(r)
    ensures multiset(r) == multiset(rows)
  {
    if rows == [] then []
    else
      assert rows == [rows[0]] + rows[1..];
      InsertByDate(rows[0], Newest(rows[1..]))
  }

  /** The rows a GET returns, in the order it returns them: at most `limit`
      and no fewer than it can, newest first, each of them a row of the table,
      and only rows of the requested player when one is named. */
  function Select(rows: seq<Order>, playerId: string, limit: nat): (r: seq<Order>)
    ensures |r| == Min(limit, |Candidates(rows, playerId)|)
    ensures NewestFirst(r)
    ensures multiset(r) <= multiset(Candidates(rows, playerId))
    ensures forall o :: o in r ==> o in rows
    ensures playerId != "" ==> forall o :: o in r ==> o.playerId == playerId
  {
    var c := Candidates(rows, playerId);
    var sorted := Newest(c);
    var r := sorted[..Min(limit, |sorted|)];
    SortedPrefix(c, sorted, r);
    r
  }

  /** A prefix of a permutation of the candidates has the candidates' count
      and draws its rows from them. */
  lemma SortedPrefix(c: seq<Order>, sorted: seq<Order>, r: seq<Order>)
    requires multiset(sorted) == multiset(c)
    requires |r| <= |sorted| && r == sorted[..|r|]
    ensures |sorted| == |c|
    ensures multiset(r) <= multiset(c)
    ensures forall o :: o in r ==> o in c
  {
    assert |sorted| == |multiset(sorted)| == |multiset(c)| == |c|;
    assert sorted == r + sorted[|r|..];
    assert multiset(r) <= multiset(sorted);
    forall o | o in r ensures o in c {
      assert o in multiset(r);
      assert o in multiset(c);
    }
  }

  /** The limit keeps the newest rows: a candidate row the limit left out is
      no newer than any row returned. */
  lemma SelectKeepsNewest(rows: seq<Order>, playerId: string, limit: nat, o: Order, x: Order)
    requires o in Candidates(rows, playerId) && o !in Select(rows, playerId, limit)
    requires x in Select(rows, playerId, limit)
    ensures x.createdAt >= o.createdAt
  {
    var sorted := Newest(Candidates(rows, playerId));
    var r := Select(rows, playerId, limit);
    assert o in multiset(Candidates(rows, playerId));
    assert o in sorted;
    var j :| 0 <= j < |sorted| && sorted[j] == o;
    var i :| 0 <= i < |r| && r[i] == x;
    assert sorted[i] == x;
  }

  /** With a limit at least the number of candidates, a GET returns every one
      of them. */
  lemma SelectComplete(rows: seq<Order>, playerId: string, limit: nat)
    requires limit >= |Candidates(rows, playerId)|
    ensures multiset(Select(rows, playerId, limit)) == multiset(Candidates(rows, playerId))
  {
    var c := Candidates(rows, playerId);
    var sorted := Newest(c);
    assert |sorted| == |multiset(sorted)| == |multiset(c)| == |c|;
    assert sorted[..|sorted|] == sorted;
  }
}
