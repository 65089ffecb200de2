/**
 * The JSON API of app/routes/boardgames.py: two read-only projections of the
 * store into JSON records, and a create endpoint that, unlike the form route,
 * checks the untrimmed name, checks no role and fills in defaults.
 */
module ApiRoutes {
  import opened Wrappers
  import opened Store
  import Forms

  /** A JSON value as jsonify writes it. */
  datatype Json = JInt(i: int) | JStr(s: string) | JList(items: seq<Json>) | JObject(fields: map<string, Json>)

  /** A stored column value as jsonify writes it: an integer or a string. */
  function ToJson(v: Value): (j: Json)
    ensures j.JInt? || j.JStr?
  {
    match v
    case Int(i) => JInt(i)
    case Str(s) => JStr(s)
  }

  /** The column value a scalar JSON value stands for; lists and objects stand for none. */
  function FromJson(j: Json): (v: Option<Value>)
    ensures v.Some? <==> j.JInt? || j.JStr?
    ensures v.Some? ==> ToJson(v.value) == j
  {
    match j
    case JInt(i) => Some(Int(i))
    case JStr(s) => Some(Str(s))
    case _ => None
  }

  /** Every column value, once written as JSON, reads back as itself. */
  lemma ToJsonRoundTrip(v: Value)
    ensures FromJson(ToJson(v)) == Some(v)
  {
  }

  /** The keys of a game record, as both GET endpoints write them. */
  const GAME_FIELDS: set<string> := {"id", "name", "level", "min_players", "max_players", "game_type"}

  /** The record both GET endpoints write for one game. */
  function GameObject(g: Game): (j: Json)
    ensures j.JObject? && j.fields.Keys == GAME_FIELDS
  {
    JObject(map[
      "id" := JInt(g.id),
      "name" := ToJson(g.name),
      "level" := ToJson(g.level),
      "min_players" := ToJson(g.minPlayers),
      "max_players" := ToJson(g.maxPlayers),
      "game_type" := ToJson(g.gameType)])
  }

  /**
   * Reads a game back from a record: the reference a client would apply. It
   * needs every key of GAME_FIELDS, a non-negative integer id and scalar
   * values, and ignores any other key.
   */
  function GameOfObject(j: Json): (g: Option<Game>)
    ensures g.Some? ==> j.JObject? && GAME_FIELDS <= j.fields.Keys
  {
    if j.JObject? && GAME_FIELDS <= j.fields.Keys
       && j.fields["id"].JInt? && j.fields["id"].i >= 0
       && FromJson(j.fields["name"]).Some? && FromJson(j.fields["level"]).Some?
       && FromJson(j.fields["min_players"]).Some? && FromJson(j.fields["max_players"]).Some?
       && FromJson(j.fields["game_type"]).Some?
    then
      Some(Game(j.fields["id"].i, FromJson(j.fields["name"]).value, FromJson(j.fields["level"]).value,
                FromJson(j.fields["min_players"]).value, FromJson(j.fields["max_players"]).value,
                FromJson(j.fields["game_type"]).value))
    else
      None
  }

  /** A game record loses nothing: reading it back gives the stored game. */
  lemma GameObjectRoundTrip(g: Game)
    ensures GameOfObject(GameObject(g)) == Some(g)
  {
    ToJsonRoundTrip(g.name);
    ToJsonRoundTrip(g.level);
    ToJsonRoundTrip(g.minPlayers);
    ToJsonRoundTrip(g.maxPlayers);
    ToJsonRoundTrip(g.gameType);
  }

  /** Extra keys beside the game's own do not change what a record reads back as. */
  lemma GameOfObjectIgnoresExtra(g: Game, key: string, extra: Json)
    requires key !in GAME_FIELDS
    ensures GameOfObject(JObject(GameObject(g).fields[key := extra])) == Some(g)
  {
    GameObjectRoundTrip(g);
    var m := GameObject(g).fields;
    var m' := m[key := extra];
    forall k | k in GAME_FIELDS
      ensures k in m' && m'[k] == m[k]
    {
    }
  }

  /** The list comprehension over the games, one record each. */
  function GameObjects(games: seq<Game>): (r: seq<Json>)
    ensures |r| == |games|
    ensures forall i :: 0 <= i < |r| ==> r[i].JObject? && r[i].fields.Keys == GAME_FIELDS
    ensures forall i :: 0 <= i < |r| ==> GameOfObject(r[i]) == Some(games[i])
  {
    if games == [] then []
    else
      GameObjectRoundTrip(games[0]);
      [GameObject(games[0])] + GameObjects(games[1..])
  }

  /**
   * get_boardgames: a list holding one record per stored game, in store
   * order, each with exactly the six game keys and reading back as that game.
   */
  function GetBoardGames(db: Catalogue): (r: Json)
    reads db
    ensures r.JList? && |r.items| == |db.games|
    ensures forall i :: 0 <= i < |r.items| ==> r.items[i].JObject? && r.items[i].fields.Keys == GAME_FIELDS
    ensures forall i :: 0 <= i < |r.items| ==> GameOfObject(r.items[i]) == Some(db.games[i])
  {
    JList(GameObjects(db.games))
  }

  /** The record of one review in a game's detail: an object with its id and its text. */
  function ReviewObject(x: Review): (j: Json)
    ensures j.JObject?
  {
    JObject(map["id" := JInt(x.id), "text" := JStr(x.text)])
  }

  /** Reads a review's id and text back from its record. */
  function ReviewOfObject(j: Json): (r: Option<(nat, string)>)
  {
    if j.JObject? && "id" in j.fields && "text" in j.fields
       && j.fields["id"].JInt? && j.fields["id"].i >= 0 && j.fields["text"].JStr?
    then Some((j.fields["id"].i, j.fields["text"].s))
    else None
  }

  /** A review record has exactly the keys id and text and reads back as the review's id and text. */
  lemma ReviewObjectRoundTrip(x: Review)
    ensures ReviewObject(x).fields.Keys == {"id", "text"}
    ensures ReviewOfObject(ReviewObject(x)) == Some((x.id, x.text))
  {
    var m := ReviewObject(x).fields;
    assert "id" in m && "text" in m;
    assert m["id"] == JInt(x.id) && m["text"] == JStr(x.text);
  }

  /** One record per review, in the order given. */
  function ReviewObjects(rs: seq<Review>): (r: seq<Json>)
    ensures |r| == |rs|
  {
    seq(|rs|, i requires 0 <= i < |rs| => ReviewObject(rs[i]))
  }

  /** Each record reads back as the id and text of the review at its place. */
  lemma ReviewObjectsRead(rs: seq<Review>)
    ensures forall i :: 0 <= i < |rs| ==> ReviewOfObject(ReviewObjects(rs)[i]) == Some((rs[i].id, rs[i].text))
  {
    forall i | 0 <= i < |rs|
      ensures ReviewOfObject(ReviewObjects(rs)[i]) == Some((rs[i].id, rs[i].text))
    {
      ReviewObjectRoundTrip(rs[i]);
    }
  }

  /** The records are exactly the records of the given reviews. */
  lemma ReviewObjectsMembers(rs: seq<Review>)
    ensures forall x :: x in rs ==> ReviewObject(x) in ReviewObjects(rs)
    ensures forall j :: j in ReviewObjects(rs) ==> exists x :: x in rs && j == ReviewObject(x)
  {
    var r := ReviewObjects(rs);
    forall x | x in rs
      ensures ReviewObject(x) in r
    {
      var i :| 0 <= i < |rs| && rs[i] == x;
      assert r[i] == ReviewObject(x);
    }
    forall j | j in r
      ensures exists x :: x in rs && j == ReviewObject(x)
    {
      var i :| 0 <= i < |r| && r[i] == j;
      assert rs[i] in rs;
    }
  }

  /** Reviews in store order give pairwise different records. */
  lemma ReviewObjectsDistinct(rs: seq<Review>)
    ensures Ascending(rs) ==> forall i, j :: 0 <= i < j < |rs| ==> ReviewObjects(rs)[i] != ReviewObjects(rs)[j]
  {
    if Ascending(rs) {
      forall i, j | 0 <= i < j < |rs|
        ensures ReviewObjects(rs)[i] != ReviewObjects(rs)[j]
      {
        AscendingAt(rs, i, j);
        ReviewObjectRoundTrip(rs[i]);
        ReviewObjectRoundTrip(rs[j]);
      }
    }
  }

  /**
   * The reviews list of a detail record: one record per review of the game,
   * in store order, reading back as that review's id and text, and no record
   * for anything else. In a table in store order no two records are equal.
   */
  function DetailReviews(db: Catalogue, id: nat): (r: seq<Json>)
    reads db
    ensures |r| == |ReviewsOf(db.reviews, id)|
    ensures forall i :: 0 <= i < |r| ==>
              ReviewOfObject(r[i]) == Some((ReviewsOf(db.reviews, id)[i].id, ReviewsOf(db.reviews, id)[i].text))
    ensures forall x :: x in db.reviews && x.gameId == id ==> ReviewObject(x) in r
    ensures forall j :: j in r ==> exists x :: x in db.reviews && x.gameId == id && j == ReviewObject(x)
    ensures Ascending(db.reviews) ==> forall i, j :: 0 <= i < j < |r| ==> r[i] != r[j]
  {
    var rs := ReviewsOf(db.reviews, id);
    ReviewObjectsRead(rs);
    ReviewObjectsMembers(rs);
    ReviewObjectsDistinct(rs);
    ReviewObjects(rs)
  }

  /**
   * get_boardgame: 404 (None) exactly when no game has the id. Otherwise the
   * game's record plus the key "reviews", whose list holds one {id, text}
   * record per review of that game, in store order, and nothing else.
   */
  function GetBoardGame(db: Catalogue, id: nat): (r: Option<Json>)
    reads db
    ensures r.None? <==> forall g :: g in db.games ==> g.id != id
    ensures r.Some? ==> r.value.JObject? && r.value.fields.Keys == GAME_FIELDS + {"reviews"}
    ensures r.Some? ==> (exists g :: g in db.games && g.id == id && GameOfObject(r.value) == Some(g))
    ensures r.Some? ==> (r.value.fields["reviews"].JList?
                         && (forall x :: x in db.reviews && x.gameId == id ==>
                               ReviewObject(x) in r.value.fields["reviews"].items)
                         && (forall j :: j in r.value.fields["reviews"].items ==>
                               exists x :: x in db.reviews && x.gameId == id && j == ReviewObject(x)))
    ensures r.Some? ==> (r.value.fields["reviews"].JList?
                         && |r.value.fields["reviews"].items| == |ReviewsOf(db.reviews, id)|
                         && forall i :: 0 <= i < |r.value.fields["reviews"].items| ==>
                              ReviewOfObject(r.value.fields["reviews"].items[i])
                              == Some((ReviewsOf(db.reviews, id)[i].id, ReviewsOf(db.reviews, id)[i].text)))
    ensures r.Some? && Ascending(db.reviews) ==>
              (r.value.fields["reviews"].JList?
               && forall i, j :: 0 <= i < j < |r.value.fields["reviews"].items| ==>
                    r.value.fields["reviews"].items[i] != r.value.fields["reviews"].items[j])
  {
    match GameIndex(db.games, id)
    case None => None
    case Some(k) =>
      var g := db.games[k];
      GameOfObjectIgnoresExtra(g, "reviews", JList(DetailReviews(db, id)));
      assert g in db.games;
      Some(JObject(GameObject(g).fields["reviews" := JList(DetailReviews(db, id))]))
  }

  /** The body's value under key, or the default when the body lacks the key. */
  function GetOr(data: map<string, Value>, key: string, default: Value): (v: Value)
    ensures key in data ==> v == data[key]
    ensures key !in data ==> v == default
  {
    if key in data then data[key] else default
  }

  /**
   * The game add_boardgame builds from the request body: the body's name, and
   * for the other columns the body's value under the code's own key spelling
   * ("level", "min_Players", "max_Players", "game_Type") or its default.
   */
  function ApiGame(data: map<string, Value>, id: nat): (g: Game)
    requires "name" in data
    ensures g.id == id && g.name == data["name"]
    ensures ("level" in data ==> g.level == data["level"]) && ("level" !in data ==> g.level == Int(1))
    ensures ("min_Players" in data ==> g.minPlayers == data["min_Players"])
            && ("min_Players" !in data ==> g.minPlayers == Int(2))
    ensures ("max_Players" in data ==> g.maxPlayers == data["max_Players"])
            && ("max_Players" !in data ==> g.maxPlayers == Str("4"))
    ensures ("game_Type" in data ==> g.gameType == data["game_Type"])
            && ("game_Type" !in data ==> g.gameType == Str("Strategy"))
  {
    Game(id, data["name"],
         GetOr(data, "level", Int(1)),
         GetOr(data, "min_Players", Int(2)),
         GetOr(data, "max_Players", Str("4")),
         GetOr(data, "game_Type", Str("Strategy")))
  }

  /** A body with only a name gets level 1, 2 minimum players, the string "4" and "Strategy". */
  lemma ApiGameDefaults(name: Value, id: nat)
    ensures ApiGame(map["name" := name], id) == Game(id, name, Int(1), Int(2), Str("4"), Str("Strategy"))
  {
    var data := map["name" := name];
    assert "level" !in data && "min_Players" !in data;
    assert "max_Players" !in data && "game_Type" !in data;
  }

  /** The snake_case keys the records use are not the keys the body is read with. */
  lemma SnakeCaseKeysIgnored(data: map<string, Value>, id: nat)
    requires data.Keys == {"name", "min_players", "max_players", "game_type"}
    ensures ApiGame(data, id).minPlayers == Int(2)
    ensures ApiGame(data, id).maxPlayers == Str("4")
    ensures ApiGame(data, id).gameType == Str("Strategy")
  {
    assert "min_Players" !in data by { assert "min_Players" != "min_players"; }
    assert "max_Players" !in data by { assert "max_Players" != "max_players"; }
    assert "game_Type" !in data by { assert "game_Type" != "game_type"; }
  }

  /** The 409 body. */
  function NameExists(): (j: Json)
    ensures j.JObject? && j.fields.Keys == {"STATUS", "message"}
  {
    JObject(map["STATUS" := JStr("error"), "message" := JStr("Name already exists.")])
  }

  /** The responses of add_boardgame. */
  datatype ApiResponse =
    | Created(body: Json)      // 201 with the stored game's record
    | Conflict(body: Json)     // 409: the exact name is taken
    | ServerError              // 500: no "name" in the body, or the commit failed

  /**
   * add_boardgame (API): any authenticated actor may call it. A body without
   * "name" fails; a name some stored game has exactly (no trimming) gets 409;
   * otherwise the game with defaults is stored with the next id and echoed
   * with 201, unless the commit fails (commitOk false). Reviews never change.
   */
  method ApiAddBoardGame(db: Catalogue, data: map<string, Value>, commitOk: bool) returns (res: ApiResponse)
    requires db.Valid()
    modifies db
    ensures db.Valid()
    ensures db.reviews == old(db.reviews) && db.nextReviewId == old(db.nextReviewId)
    ensures "name" !in data ==> res == ServerError
    ensures ("name" in data && NameTaken(old(db.games), data["name"])) ==> res == Conflict(NameExists())
    ensures ("name" in data && !NameTaken(old(db.games), data["name"]) && !commitOk) ==> res == ServerError
    ensures res.Created? <==> ("name" in data && !NameTaken(old(db.games), data["name"]) && commitOk)
    ensures res.Created? ==> res.body.JObject? && res.body.fields.Keys == GAME_FIELDS
    ensures !res.Created? ==> db.games == old(db.games) && db.nextGameId == old(db.nextGameId)
    ensures res.Created? ==> ("name" in data
                              && db.games == old(db.games) + [ApiGame(data, old(db.nextGameId))]
                              && db.nextGameId == old(db.nextGameId) + 1
                              && GameOfObject(res.body) == Some(ApiGame(data, old(db.nextGameId))))
  {
    if "name" !in data {
      return ServerError;
    }
    if NameTaken(db.games, data["name"]) {
      return Conflict(NameExists());
    }
    if !commitOk {
      return ServerError;
    }
    var stored := db.InsertGame(ApiGame(data, 0));
    GameObjectRoundTrip(stored);
    res := Created(GameObject(stored));
  }

  /**
   * The API accepts a name that differs from a stored one only by padding,
   * which the form route would refuse: exact-name uniqueness is all the two
   * routes together keep.
   */
  lemma ApiAdmitsPaddedTwin(games: seq<Game>)
    requires games == [Game(1, Str("Catan"), Int(3), Int(3), Int(4), Str("strategy"))]
    ensures !NameTaken(games, Str(" Catan"))
    ensures NameTaken(games, Str(Forms.Strip(" Catan")))
  {
    PaddedNameStrips();
    assert " Catan" != "Catan" by { assert |" Catan"| != |"Catan"|; }
    assert games[0] in games;
  }

  /** Python's " Catan".strip() is "Catan". */
  lemma PaddedNameStrips()
    ensures Forms.Strip(" Catan") == "Catan"
  {
    LeadingSpaceTrimmed();
    PlainNameKept();
  }

  lemma LeadingSpaceTrimmed()
    ensures Forms.TrimStart(" Catan") == "Catan"
  {
    var padded, plain := " Catan", "Catan";
    assert padded[0] == ' ' && padded[1..] == plain;
    assert plain[0] == 'C';
  }

  lemma PlainNameKept()
    ensures Forms.TrimEnd("Catan") == "Catan"
  {
    var plain := "Catan";
    assert plain[|plain| - 1] == 'n';
  }
}
