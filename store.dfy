/**
 * The two tables the routes work on, BoardGame and Review, the queries the
 * routes issue against them, and the state of the database as one object.
 *
 * A table is a sequence of rows in store order. Row ids come from a counter,
 * so store order is ascending id order.
 */
module Store {
  import opened Wrappers
  import Forms

  /** A column value. The JSON API stores whatever JSON scalar it receives. */
  datatype Value = Int(i: int) | Str(s: string)

  /** A BoardGame row. */
  datatype Game = Game(
    id: nat,
    name: Value,
    level: Value,
    minPlayers: Value,
    maxPlayers: Value,
    gameType: Value)

  /** A Review row. */
  datatype Review = Review(
    id: nat,
    gameId: nat,
    userId: nat,
    text: string,
    rating: int,
    flagged: bool,
    flagReason: Option<string>)

  /** The position of the first element of s that satisfies p, if any. */
  function FirstWhere<T>(s: seq<T>, p: T -> bool): (r: Option<nat>)
    ensures r.Some? ==> r.value < |s| && p(s[r.value])
    ensures r.Some? ==> forall k :: 0 <= k < r.value ==> !p(s[k])
    ensures r.None? ==> forall k :: 0 <= k < |s| ==> !p(s[k])
  {
    if s == [] then None
    else if p(s[0]) then Some(0)
    else match FirstWhere(s[1..], p)
      case None => None
      case Some(k) => Some(k + 1)
  }

  /** BoardGame.query.get(id): where the game with that id is stored. */
  function GameIndex(games: seq<Game>, id: nat): (r: Option<nat>)
    ensures r.Some? ==> r.value < |games| && games[r.value].id == id
    ensures r.None? <==> forall g :: g in games ==> g.id != id
  {
    FirstWhere(games, (g: Game) => g.id == id)
  }

  /** Review.query.get(id): where the review with that id is stored. */
  function ReviewIndex(reviews: seq<Review>, id: nat): (r: Option<nat>)
    ensures r.Some? ==> r.value < |reviews| && reviews[r.value].id == id
    ensures r.None? <==> forall x :: x in reviews ==> x.id != id
  {
    FirstWhere(reviews, (x: Review) => x.id == id)
  }

  /** Review.query.filter_by(game_id=gameId, user_id=userId).first(). */
  function AuthoredIndex(reviews: seq<Review>, gameId: nat, userId: nat): (r: Option<nat>)
    ensures r.Some? ==>
              (r.value < |reviews|
               && reviews[r.value].gameId == gameId && reviews[r.value].userId == userId)
    ensures r.None? <==> forall x :: x in reviews ==> !(x.gameId == gameId && x.userId == userId)
  {
    FirstWhere(reviews, (x: Review) => x.gameId == gameId && x.userId == userId)
  }

  /** BoardGame.query.filter_by(name=name).first() finds a row: some stored game has that exact name. */
  function NameTaken(games: seq<Game>, name: Value): (taken: bool)
    ensures taken <==> exists g :: g in games && g.name == name
  {
    var k := FirstWhere(games, (g: Game) => g.name == name);
    assert k.Some? ==> games[k.value] in games;
    k.Some?
  }

  /** The review at i comes before the one at j in store order. */
  ghost predicate OrderedAt(reviews: seq<Review>, i: int, j: int)
    requires 0 <= i < j < |reviews|
  {
    reviews[i].id < reviews[j].id
  }

  /** Ids strictly increase along the sequence: store order. */
  ghost predicate Ascending(reviews: seq<Review>) {
    forall i, j :: 0 <= i < j < |reviews| ==> OrderedAt(reviews, i, j)
  }

  /** An element of an ascending sequence has a smaller id than every later element. */
  lemma AscendingAt(reviews: seq<Review>, i: int, j: int)
    requires Ascending(reviews) && 0 <= i < j < |reviews|
    ensures reviews[i].id < reviews[j].id
  {
    assert OrderedAt(reviews, i, j);
  }

  /** The reviews that satisfy p, in store order. */
  function Select(reviews: seq<Review>, p: Review -> bool): (r: seq<Review>)
    ensures forall x :: x in r <==> x in reviews && p(x)
    ensures Ascending(reviews) ==> Ascending(r)
    ensures |r| <= |reviews|
  {
    if reviews == [] then []
    else
      var rest := Select(reviews[1..], p);
      assert Ascending(reviews) ==> Ascending(reviews[1..]) by {
        if Ascending(reviews) {
          forall i, j | 0 <= i < j < |reviews[1..]|
            ensures OrderedAt(reviews[1..], i, j)
          {
            AscendingAt(reviews, i + 1, j + 1);
          }
        }
      }
      if p(reviews[0]) then
        assert Ascending(reviews) ==> Ascending([reviews[0]] + rest) by {
          if Ascending(reviews) {
            var r := [reviews[0]] + rest;
            forall i, j | 0 <= i < j < |r|
              ensures OrderedAt(r, i, j)
            {
              if i == 0 {
                assert r[j] in rest;
                var m :| 0 <= m < |reviews[1..]| && reviews[1..][m] == r[j];
                AscendingAt(reviews, 0, m + 1);
              } else {
                AscendingAt(rest, i - 1, j - 1);
              }
            }
          }
        }
        [reviews[0]] + rest
      else rest
  }

  /** Selecting from two stretches of a table concatenates the selections. */
  lemma {:induction false} SelectAppend(a: seq<Review>, b: seq<Review>, p: Review -> bool)
    ensures Select(a + b, p) == Select(a, p) + Select(b, p)
  {
    if a == [] {
      assert a + b == b;
    } else {
      assert (a + b)[1..] == a[1..] + b;
      SelectAppend(a[1..], b, p);
    }
  }

  /**
   * A sequence in store order is determined by its elements: two ascending
   * sequences with the same members are equal.
   */
  lemma {:induction false} AscendingDetermined(a: seq<Review>, b: seq<Review>)
    requires Ascending(a) && Ascending(b)
    requires forall x :: x in a <==> x in b
    ensures a == b
  {
    if a != [] {
      assert a[0] in b;
    }
    if b != [] {
      assert b[0] in a;
    }
    if a != [] && b != [] {
      var j :| 0 <= j < |b| && b[j] == a[0];
      var i :| 0 <= i < |a| && a[i] == b[0];
      if i != 0 {
        AscendingAt(a, 0, i);
        if j != 0 {
          AscendingAt(b, 0, j);
        }
      }
      assert i == 0;
      forall x
        ensures x in a[1..] <==> x in b[1..]
      {
        if x in a[1..] {
          var k :| 0 <= k < |a[1..]| && a[1..][k] == x;
          AscendingAt(a, 0, k + 1);
          assert a[k + 1] == x && x in b;
          var m :| 0 <= m < |b| && b[m] == x;
          assert m != 0;
          assert b[1..][m - 1] == x;
        }
        if x in b[1..] {
          var k :| 0 <= k < |b[1..]| && b[1..][k] == x;
          AscendingAt(b, 0, k + 1);
          assert b[k + 1] == x && x in a;
          var m :| 0 <= m < |a| && a[m] == x;
          assert m != 0;
          assert a[1..][m - 1] == x;
        }
      }
      forall i, j | 0 <= i < j < |a[1..]|
        ensures OrderedAt(a[1..], i, j)
      {
        AscendingAt(a, i + 1, j + 1);
      }
      forall i, j | 0 <= i < j < |b[1..]|
        ensures OrderedAt(b[1..], i, j)
      {
        AscendingAt(b, i + 1, j + 1);
      }
      AscendingDetermined(a[1..], b[1..]);
    }
  }

  /** Review.query.filter_by(game_id=gameId).all(), and game.reviews. */
  function ReviewsOf(reviews: seq<Review>, gameId: nat): (r: seq<Review>)
    ensures forall x :: x in r <==> x in reviews && x.gameId == gameId
    ensures Ascending(reviews) ==> Ascending(r)
  {
    Select(reviews, (x: Review) => x.gameId == gameId)
  }

  /** Review.query.filter_by(flagged=True).all(). */
  function FlaggedReviews(reviews: seq<Review>): (r: seq<Review>)
    ensures forall x :: x in r <==> x in reviews && x.flagged
    ensures Ascending(reviews) ==> Ascending(r)
  {
    Select(reviews, (x: Review) => x.flagged)
  }

  /** The games at i and j differ in id and in name, the earlier one with the smaller id. */
  ghost predicate KeyedAt(games: seq<Game>, i: int, j: int)
    requires 0 <= i < j < |games|
  {
    games[i].id < games[j].id && games[i].name != games[j].name
  }

  /** Ids and names of games are unique; ids increase in store order. */
  ghost predicate GamesKeyed(games: seq<Game>) {
    forall i, j :: 0 <= i < j < |games| ==> KeyedAt(games, i, j)
  }

  /** The reviews at i and j are not by the same user about the same game. */
  ghost predicate DistinctAuthorsAt(reviews: seq<Review>, i: int, j: int)
    requires 0 <= i < j < |reviews|
  {
    reviews[i].gameId != reviews[j].gameId || reviews[i].userId != reviews[j].userId
  }

  /** No two reviews share a (game, user) pair. */
  ghost predicate OneReviewPerAuthor(reviews: seq<Review>) {
    forall i, j :: 0 <= i < j < |reviews| ==> DistinctAuthorsAt(reviews, i, j)
  }

  /** What ReviewForm guarantees of every stored review. */
  predicate WellFormed(r: Review) {
    Forms.DataRequired(r.text) && 1 <= r.rating <= 5
  }

  /**
   * A stored review: its id was issued, it is about a stored game, and it is
   * as ReviewForm admits it.
   */
  ghost predicate Belongs(games: seq<Game>, nextReviewId: nat, x: Review) {
    x.id < nextReviewId && GameIndex(games, x.gameId).Some? && WellFormed(x)
  }

  /** The review at i belongs. */
  ghost predicate BelongsAt(games: seq<Game>, nextReviewId: nat, reviews: seq<Review>, i: int)
    requires 0 <= i < |reviews|
  {
    Belongs(games, nextReviewId, reviews[i])
  }

  /** The game at i has an issued id. */
  ghost predicate IssuedAt(games: seq<Game>, nextGameId: nat, i: int)
    requires 0 <= i < |games|
  {
    games[i].id < nextGameId
  }

  /**
   * The invariant the routes keep of the two tables: keys as above, ids below
   * the next id to issue, every review about a stored game, at most one review
   * per (game, user), every review as ReviewForm admits it.
   */
  ghost predicate Consistent(games: seq<Game>, reviews: seq<Review>, nextGameId: nat, nextReviewId: nat) {
    && GamesKeyed(games)
    && (forall i :: 0 <= i < |games| ==> IssuedAt(games, nextGameId, i))
    && Ascending(reviews)
    && OneReviewPerAuthor(reviews)
    && (forall i :: 0 <= i < |reviews| ==> BelongsAt(games, nextReviewId, reviews, i))
  }

  /**
   * What the invariant means for stored rows: a game is identified by its id
   * and by its name, a review by its id and by its (game, author) pair.
   */
  lemma ConsistentKeysUnique(games: seq<Game>, reviews: seq<Review>, nextGameId: nat, nextReviewId: nat)
    requires Consistent(games, reviews, nextGameId, nextReviewId)
    ensures forall g, h :: g in games && h in games && (g.id == h.id || g.name == h.name) ==> g == h
    ensures forall x, y :: x in reviews && y in reviews && x.id == y.id ==> x == y
    ensures forall x, y :: x in reviews && y in reviews && x.gameId == y.gameId && x.userId == y.userId ==> x == y
  {
    forall i, j | 0 <= i < |games| && 0 <= j < |games| && i != j
      ensures games[i].id != games[j].id && games[i].name != games[j].name
    {
      if i < j {
        assert KeyedAt(games, i, j);
      } else {
        assert KeyedAt(games, j, i);
      }
    }
    forall g, h | g in games && h in games && (g.id == h.id || g.name == h.name)
      ensures g == h
    {
      var i :| 0 <= i < |games| && games[i] == g;
      var j :| 0 <= j < |games| && games[j] == h;
    }
    forall i, j | 0 <= i < |reviews| && 0 <= j < |reviews| && i != j
      ensures reviews[i].id != reviews[j].id
      ensures reviews[i].gameId != reviews[j].gameId || reviews[i].userId != reviews[j].userId
    {
      if i < j {
        assert OrderedAt(reviews, i, j) && DistinctAuthorsAt(reviews, i, j);
      } else {
        assert OrderedAt(reviews, j, i) && DistinctAuthorsAt(reviews, j, i);
      }
    }
    forall x, y | x in reviews && y in reviews && (x.id == y.id || (x.gameId == y.gameId && x.userId == y.userId))
      ensures x == y
    {
      var i :| 0 <= i < |reviews| && reviews[i] == x;
      var j :| 0 <= j < |reviews| && reviews[j] == y;
    }
  }

  /** Every stored review belongs. */
  lemma StoredBelongs(games: seq<Game>, reviews: seq<Review>, nextGameId: nat, nextReviewId: nat, x: Review)
    requires Consistent(games, reviews, nextGameId, nextReviewId) && x in reviews
    ensures Belongs(games, nextReviewId, x)
  {
    var i :| 0 <= i < |reviews| && reviews[i] == x;
    assert BelongsAt(games, nextReviewId, reviews, i);
  }

  /**
   * Appending a review with the next id, about a stored game, by an author
   * who has no review of that game yet, keeps the tables consistent.
   */
  lemma AddReviewKeepsConsistent(games: seq<Game>, reviews: seq<Review>, nextGameId: nat, nextReviewId: nat, r: Review)
    requires Consistent(games, reviews, nextGameId, nextReviewId)
    requires r.id == nextReviewId && GameIndex(games, r.gameId).Some? && WellFormed(r)
    requires AuthoredIndex(reviews, r.gameId, r.userId).None?
    ensures Consistent(games, reviews + [r], nextGameId, nextReviewId + 1)
  {
    var rs, next := reviews + [r], nextReviewId + 1;
    forall i, j | 0 <= i < j < |rs|
      ensures OrderedAt(rs, i, j) && DistinctAuthorsAt(rs, i, j)
    {
      assert rs[i] == reviews[i];
      if j == |reviews| {
        assert BelongsAt(games, nextReviewId, reviews, i);
        assert rs[i] in reviews;
      } else {
        assert rs[j] == reviews[j];
        assert OrderedAt(reviews, i, j) && DistinctAuthorsAt(reviews, i, j);
      }
    }
    forall i | 0 <= i < |rs|
      ensures BelongsAt(games, next, rs, i)
    {
      if i < |reviews| {
        assert rs[i] == reviews[i];
        assert BelongsAt(games, nextReviewId, reviews, i);
      }
    }
  }

  /** Removing one review keeps the tables consistent. */
  lemma RemoveReviewKeepsConsistent(games: seq<Game>, reviews: seq<Review>, nextGameId: nat, nextReviewId: nat, k: nat)
    requires Consistent(games, reviews, nextGameId, nextReviewId)
    requires k < |reviews|
    ensures Consistent(games, reviews[..k] + reviews[k + 1..], nextGameId, nextReviewId)
  {
    var rs := reviews[..k] + reviews[k + 1..];
    forall i, j | 0 <= i < j < |rs|
      ensures OrderedAt(rs, i, j) && DistinctAuthorsAt(rs, i, j)
    {
      var i', j' := if i < k then i else i + 1, if j < k then j else j + 1;
      assert rs[i] == reviews[i'] && rs[j] == reviews[j'];
      assert OrderedAt(reviews, i', j') && DistinctAuthorsAt(reviews, i', j');
    }
    forall i | 0 <= i < |rs|
      ensures BelongsAt(games, nextReviewId, rs, i)
    {
      var i' := if i < k then i else i + 1;
      assert rs[i] == reviews[i'];
      assert BelongsAt(games, nextReviewId, reviews, i');
    }
  }

  /**
   * Overwriting a review with one of the same id, game and author, as
   * ReviewForm admits it, keeps the tables consistent.
   */
  lemma ReplaceReviewKeepsConsistent(games: seq<Game>, reviews: seq<Review>, nextGameId: nat, nextReviewId: nat, k: nat, r: Review)
    requires Consistent(games, reviews, nextGameId, nextReviewId)
    requires k < |reviews| && WellFormed(r)
    requires r.id == reviews[k].id && r.gameId == reviews[k].gameId && r.userId == reviews[k].userId
    ensures Consistent(games, reviews[k := r], nextGameId, nextReviewId)
  {
    var rs := reviews[k := r];
    forall i, j | 0 <= i < j < |rs|
      ensures OrderedAt(rs, i, j) && DistinctAuthorsAt(rs, i, j)
    {
      assert rs[i].id == reviews[i].id && rs[j].id == reviews[j].id;
      assert rs[i].gameId == reviews[i].gameId && rs[j].gameId == reviews[j].gameId;
      assert rs[i].userId == reviews[i].userId && rs[j].userId == reviews[j].userId;
      assert OrderedAt(reviews, i, j) && DistinctAuthorsAt(reviews, i, j);
    }
    forall i | 0 <= i < |rs|
      ensures BelongsAt(games, nextReviewId, rs, i)
    {
      assert BelongsAt(games, nextReviewId, reviews, i);
      if i != k {
        assert rs[i] == reviews[i];
      }
    }
  }

  /** Appending a game with the next id and a name not yet taken keeps the tables consistent. */
  lemma AddGameKeepsConsistent(games: seq<Game>, reviews: seq<Review>, nextGameId: nat, nextReviewId: nat, g: Game)
    requires Consistent(games, reviews, nextGameId, nextReviewId)
    requires g.id == nextGameId && !NameTaken(games, g.name)
    ensures Consistent(games + [g], reviews, nextGameId + 1, nextReviewId)
  {
    var gs, next := games + [g], nextGameId + 1;
    forall i, j | 0 <= i < j < |gs|
      ensures KeyedAt(gs, i, j)
    {
      assert gs[i] == games[i];
      if j == |games| {
        assert IssuedAt(games, nextGameId, i);
        assert gs[i] in games;
      } else {
        assert KeyedAt(games, i, j);
      }
    }
    forall i | 0 <= i < |gs|
      ensures IssuedAt(gs, next, i)
    {
      if i < |games| {
        assert IssuedAt(games, nextGameId, i);
      }
    }
    forall i | 0 <= i < |reviews|
      ensures BelongsAt(gs, nextReviewId, reviews, i)
    {
      assert BelongsAt(games, nextReviewId, reviews, i);
      var k := GameIndex(games, reviews[i].gameId).value;
      assert gs[k] in gs;
    }
  }

  /**
   * The database the routes share: both tables and the next id of each.
   * Valid() is the invariant every route keeps.
   */
  class Catalogue {
    var games: seq<Game>
    var reviews: seq<Review>
    var nextGameId: nat
    var nextReviewId: nat

    ghost predicate Valid()
      reads this
    {
      Consistent(games, reviews, nextGameId, nextReviewId)
    }

    /** An empty database; the model's id counters start at 1. */
    constructor ()
      ensures Valid()
      ensures games == [] && reviews == [] && nextGameId == 1 && nextReviewId == 1
    {
      games := [];
      reviews := [];
      nextGameId := 1;
      nextReviewId := 1;
    }

    /**
     * session.add(review) then commit: the database issues the next id and
     * appends the row.
     */
    method InsertReview(r: Review) returns (stored: Review)
      requires Valid()
      requires GameIndex(games, r.gameId).Some? && WellFormed(r)
      requires AuthoredIndex(reviews, r.gameId, r.userId).None?
      modifies this
      ensures Valid()
      ensures stored == r.(id := old(nextReviewId))
      ensures reviews == old(reviews) + [stored] && nextReviewId == old(nextReviewId) + 1
      ensures games == old(games) && nextGameId == old(nextGameId)
    {
      stored := r.(id := nextReviewId);
      var rows, next := reviews + [stored], nextReviewId + 1;
      AddReviewKeepsConsistent(games, reviews, nextGameId, nextReviewId, stored);
      assert Consistent(games, rows, nextGameId, next);
      reviews, nextReviewId := rows, next;
    }

    /** session.delete(review) then commit: the row at k is gone. */
    method DeleteAt(k: nat)
      requires Valid() && k < |reviews|
      modifies this
      ensures Valid()
      ensures reviews == old(reviews)[..k] + old(reviews)[k + 1..]
      ensures games == old(games) && nextGameId == old(nextGameId) && nextReviewId == old(nextReviewId)
    {
      RemoveReviewKeepsConsistent(games, reviews, nextGameId, nextReviewId, k);
      reviews := reviews[..k] + reviews[k + 1..];
    }

    /**
     * Assigning fields of the review at k then commit: id, game and author
     * stay, and the result is as ReviewForm admits it.
     */
    method UpdateAt(k: nat, r: Review)
      requires Valid() && k < |reviews| && WellFormed(r)
      requires r.id == reviews[k].id && r.gameId == reviews[k].gameId && r.userId == reviews[k].userId
      modifies this
      ensures Valid()
      ensures reviews == old(reviews)[k := r]
      ensures games == old(games) && nextGameId == old(nextGameId) && nextReviewId == old(nextReviewId)
    {
      ReplaceReviewKeepsConsistent(games, reviews, nextGameId, nextReviewId, k, r);
      reviews := reviews[k := r];
    }

    /**
     * session.add(game) then commit, for a name no stored game has: the
     * database issues the next id and appends the row.
     */
    method InsertGame(g: Game) returns (stored: Game)
      requires Valid() && !NameTaken(games, g.name)
      modifies this
      ensures Valid()
      ensures stored == g.(id := old(nextGameId))
      ensures games == old(games) + [stored] && nextGameId == old(nextGameId) + 1
      ensures reviews == old(reviews) && nextReviewId == old(nextReviewId)
    {
      stored := g.(id := nextGameId);
      AddGameKeepsConsistent(games, reviews, nextGameId, nextReviewId, stored);
      games, nextGameId := games + [stored], nextGameId + 1;
    }
  }
}
