/**
 * The handlers of app/routes/main.py as operations on the shared Catalogue.
 *
 * The logged-in user is an explicit Actor. A request's form is an
 * Option: None for a GET, Some(form) for a POST carrying that form. A handler that
 * commits returns Done; every other outcome leaves the database as it was.
 */
module MainRoutes {
  import opened Wrappers
  import opened Forms
  import opened Store

  /**
   * A role: the two roles the application knows, and any other string a
   * user row might hold.
   */
  datatype Role = User | Manager | Other(name: string)

  /** The roles a role column can read as: Other never holds a known role's name. */
  type ColumnRole = r: Role | r.Other? ==> r.name != "USER" && r.name != "MANAGER" witness User

  /** Reads a role column. */
  function ParseRole(s: string): (r: ColumnRole)
    ensures r == User <==> s == "USER"
    ensures r == Manager <==> s == "MANAGER"
    ensures r.Other? ==> r.name == s
  {
    if s == "USER" then User else if s == "MANAGER" then Manager else Other(s)
  }

  /** current_user: an authenticated user's id and role. */
  datatype Actor = Actor(id: nat, role: ColumnRole)

  /** What a handler tells the browser, apart from the page it renders. */
  datatype Outcome =
    | Done              // committed; redirect with a success message
    | ShowForm          // a GET, or a form that failed validation: the form is rendered
    | PermissionDenied  // the permission-denied page with status 403
    | NotFound          // the 404 of get_or_404
    | AlreadyReviewed   // redirect: "You've already submitted a review for this game."
    | DuplicateName     // the form again: "A board game with that name already exists."
    | RolledBack        // IntegrityError on commit: rolled back, the form again
    | OwnReview         // redirect: "You can't flag your own review"
    | FlagFailed        // the catch-all of flag_review: rolled back, "Something went wrong"

  /** user_secured: the user page admits the roles USER and MANAGER, and turns away any other role (403). */
  function MayOpenUserPage(actor: Actor): (ok: bool)
    ensures ok <==> !actor.role.Other?
  {
    actor.role in [User, Manager]
  }

  /** manager_secured: the manager page admits the role MANAGER only (403 otherwise). */
  function MayOpenManagerPage(actor: Actor): (ok: bool)
    ensures ok <==> actor.role == Manager
  {
    actor.role in [Manager]
  }

  /** Whoever may open the manager page may open the user page. */
  lemma ManagerPageNarrower(actor: Actor)
    ensures MayOpenManagerPage(actor) ==> MayOpenUserPage(actor)
  {
  }

  /** A USER opens the user page but not the manager page: the two gates differ. */
  lemma UserRoleSeparatesPages()
    ensures MayOpenUserPage(Actor(0, User)) && !MayOpenManagerPage(Actor(0, User))
  {
  }

  /** Every account UserForm can create has a role the user page admits. */
  lemma RegisteredUserAdmitted(f: UserForm, id: nat)
    ensures ValidUser(f) ==> MayOpenUserPage(Actor(id, ParseRole(f.role.value)))
  {
  }

  /**
   * The flag reason stored for a submitted reason: the reason itself when it
   * is present and non-empty, the text "No reason" otherwise.
   */
  function ReasonOrDefault(reason: Option<string>): (r: string)
    ensures r != []
    ensures reason.Some? && reason.value != [] ==> r == reason.value
    ensures reason.None? || reason.value == [] ==> r == "No reason"
  {
    if reason.None? || reason.value == [] then "No reason" else reason.value
  }

  /**
   * get_reviews: the reviews of a stored game, exactly and in store order;
   * None (404) when there is no game with that id.
   */
  function GetReviews(db: Catalogue, id: nat): (r: Option<seq<Review>>)
    reads db
    ensures r.None? <==> forall g :: g in db.games ==> g.id != id
    ensures r.Some? ==> forall x :: x in r.value <==> x in db.reviews && x.gameId == id
    ensures r.Some? && Ascending(db.reviews) ==> Ascending(r.value)
  {
    if GameIndex(db.games, id).None? then None else Some(ReviewsOf(db.reviews, id))
  }

  /**
   * view_notifications: for a MANAGER, exactly the flagged reviews in store
   * order; anyone else is turned away (None: redirect home).
   */
  function ViewNotifications(db: Catalogue, actor: Actor): (r: Option<seq<Review>>)
    reads db
    ensures r.Some? <==> actor.role == Manager
    ensures r.Some? ==> forall x :: x in r.value <==> x in db.reviews && x.flagged
    ensures r.Some? && Ascending(db.reviews) ==> Ascending(r.value)
  {
    if actor.role != Manager then None else Some(FlaggedReviews(db.reviews))
  }

  /**
   * The listing get_reviews shows is determined by the table: any sequence in
   * store order holding exactly the game's reviews is that listing.
   */
  lemma GetReviewsDetermined(db: Catalogue, id: nat, listing: seq<Review>)
    requires db.Valid() && GameIndex(db.games, id).Some?
    requires Ascending(listing)
    requires forall x :: x in listing <==> x in db.reviews && x.gameId == id
    ensures GetReviews(db, id) == Some(listing)
  {
    AscendingDetermined(ReviewsOf(db.reviews, id), listing);
  }

  /**
   * Appending a review, as add_review does, puts it last in its game's
   * listing and leaves the listings of the other games as they were.
   */
  lemma AppendedReviewListedLast(reviews: seq<Review>, x: Review, gameId: nat)
    ensures ReviewsOf(reviews + [x], gameId)
            == if x.gameId == gameId then ReviewsOf(reviews, gameId) + [x] else ReviewsOf(reviews, gameId)
  {
    var p := (y: Review) => y.gameId == gameId;
    SelectAppend(reviews, [x], p);
    assert [x][1..] == [];
    assert Select([x], p) == if p(x) then [x] else [];
  }

  /**
   * add_review: refused to a MANAGER (403), 404 for an unknown game, refused
   * when the actor already reviewed the game (checked before the form, so a
   * GET is refused too); otherwise a valid POST appends one unflagged review
   * by the actor about the game, with the next id, and nothing else changes.
   */
  method AddReview(db: Catalogue, actor: Actor, gameId: nat, post: Option<ReviewForm>) returns (o: Outcome)
    requires db.Valid()
    modifies db
    ensures db.Valid()
    ensures db.games == old(db.games) && db.nextGameId == old(db.nextGameId)
    ensures actor.role == Manager ==> o == PermissionDenied
    ensures actor.role != Manager && GameIndex(db.games, gameId).None? ==> o == NotFound
    ensures (actor.role != Manager && GameIndex(db.games, gameId).Some?
             && AuthoredIndex(old(db.reviews), gameId, actor.id).Some?) ==> o == AlreadyReviewed
    ensures (actor.role != Manager && GameIndex(db.games, gameId).Some?
             && AuthoredIndex(old(db.reviews), gameId, actor.id).None?
             && !(post.Some? && ValidReview(post.value))) ==> o == ShowForm
    ensures o == Done <==> (actor.role != Manager && GameIndex(db.games, gameId).Some?
                            && AuthoredIndex(old(db.reviews), gameId, actor.id).None?
                            && post.Some? && ValidReview(post.value))
    ensures o != Done ==> db.reviews == old(db.reviews) && db.nextReviewId == old(db.nextReviewId)
    ensures o == Done ==> post.Some? && post.value.rating.Some?
    ensures o == Done ==>
              && db.reviews == old(db.reviews) + [Review(old(db.nextReviewId), gameId, actor.id,
                                                         post.value.text, post.value.rating.value, false, None)]
              && db.nextReviewId == old(db.nextReviewId) + 1
  {
    if actor.role == Manager {
      return PermissionDenied;
    }
    if GameIndex(db.games, gameId).None? {
      return NotFound;
    }
    if AuthoredIndex(db.reviews, gameId, actor.id).Some? {
      return AlreadyReviewed;
    }
    if post.None? || !ValidReview(post.value) {
      return ShowForm;
    }
    var review := Review(0, gameId, actor.id, post.value.text, post.value.rating.value, false, None);
    var _ := db.InsertReview(review);
    o := Done;
  }

  /**
   * add_boardgame (form): only the role USER (403 otherwise); a GET or an
   * invalid form shows the form; a stripped name some stored game already has
   * is refused; otherwise the game is stored under its stripped name, unless
   * the database refuses the commit (commitOk false), which rolls back.
   */
  method AddBoardGame(db: Catalogue, actor: Actor, post: Option<BoardGameForm>, commitOk: bool) returns (o: Outcome)
    requires db.Valid()
    modifies db
    ensures db.Valid()
    ensures db.reviews == old(db.reviews) && db.nextReviewId == old(db.nextReviewId)
    ensures actor.role != User ==> o == PermissionDenied
    ensures actor.role == User && !(post.Some? && ValidBoardGame(post.value)) ==> o == ShowForm
    ensures (actor.role == User && post.Some? && ValidBoardGame(post.value)
             && NameTaken(old(db.games), Str(Strip(post.value.name)))) ==> o == DuplicateName
    ensures (actor.role == User && post.Some? && ValidBoardGame(post.value)
             && !NameTaken(old(db.games), Str(Strip(post.value.name))) && !commitOk) ==> o == RolledBack
    ensures o == Done <==> (actor.role == User && post.Some? && ValidBoardGame(post.value)
                            && !NameTaken(old(db.games), Str(Strip(post.value.name))) && commitOk)
    ensures o != Done ==> db.games == old(db.games) && db.nextGameId == old(db.nextGameId)
    ensures o == Done ==>
              && db.games == old(db.games) + [Game(old(db.nextGameId), Str(Strip(post.value.name)),
                                                   Int(post.value.level.value), Int(post.value.minPlayers.value),
                                                   Int(post.value.maxPlayers.value), Str(post.value.gameType.value))]
              && db.nextGameId == old(db.nextGameId) + 1
              && 0 < |Strip(post.value.name)| <= NAME_MAX_LENGTH
  {
    if actor.role != User {
      return PermissionDenied;
    }
    if post.None? || !ValidBoardGame(post.value) {
      return ShowForm;
    }
    var f := post.value;
    var name := Str(Strip(f.name));
    if NameTaken(db.games, name) {
      return DuplicateName;
    }
    if !commitOk {
      return RolledBack;
    }
    var game := Game(0, name, Int(f.level.value), Int(f.minPlayers.value),
                     Int(f.maxPlayers.value), Str(f.gameType.value));
    var _ := db.InsertGame(game);
    o := Done;
  }

  /**
   * delete_review: 404 for an unknown review; allowed exactly to its author
   * or a MANAGER, and then that review, and only it, is gone.
   */
  method DeleteReview(db: Catalogue, actor: Actor, reviewId: nat) returns (o: Outcome)
    requires db.Valid()
    modifies db
    ensures db.Valid()
    ensures db.games == old(db.games) && db.nextGameId == old(db.nextGameId)
    ensures db.nextReviewId == old(db.nextReviewId)
    ensures ReviewIndex(old(db.reviews), reviewId).None? ==> o == NotFound
    ensures o == Done <==>
              var k := ReviewIndex(old(db.reviews), reviewId);
              k.Some? && (old(db.reviews)[k.value].userId == actor.id || actor.role == Manager)
    ensures ReviewIndex(old(db.reviews), reviewId).Some? && o != Done ==> o == PermissionDenied
    ensures o != Done ==> db.reviews == old(db.reviews)
    ensures o == Done ==>
              var k := ReviewIndex(old(db.reviews), reviewId).value;
              db.reviews == old(db.reviews)[..k] + old(db.reviews)[k + 1..]
    ensures o == Done ==> forall x :: x in db.reviews <==> x in old(db.reviews) && x.id != reviewId
  {
    var k := ReviewIndex(db.reviews, reviewId);
    if k.None? {
      return NotFound;
    }
    var review := db.reviews[k.value];
    if review.userId != actor.id && actor.role != Manager {
      return PermissionDenied;
    }
    RemoveLeavesOthers(db.reviews, k.value);
    db.DeleteAt(k.value);
    o := Done;
  }

  /** Removing the review at k from a table in store order removes exactly the rows with its id. */
  lemma RemoveLeavesOthers(reviews: seq<Review>, k: nat)
    requires Ascending(reviews) && k < |reviews|
    ensures forall x :: x in reviews[..k] + reviews[k + 1..] <==> x in reviews && x.id != reviews[k].id
  {
    var rs := reviews[..k] + reviews[k + 1..];
    forall x
      ensures x in rs <==> x in reviews && x.id != reviews[k].id
    {
      if x in rs {
        var i :| 0 <= i < |rs| && rs[i] == x;
        var i' := if i < k then i else i + 1;
        assert x == reviews[i'];
        if i' < k {
          AscendingAt(reviews, i', k);
        } else {
          AscendingAt(reviews, k, i');
        }
      }
      if x in reviews && x.id != reviews[k].id {
        var i :| 0 <= i < |reviews| && reviews[i] == x;
        assert i != k;
        assert rs[if i < k then i else i - 1] == x;
      }
    }
  }

  /**
   * ReviewForm(obj=review) processed against a POST: a field whose key the
   * request carries takes the submitted value, and one it leaves out keeps
   * the stored review's value.
   */
  function EditForm(p: ReviewPost, stored: Review): (f: ReviewForm)
    ensures p.text.Some? ==> f.text == p.text.value
    ensures p.text.None? ==> f.text == stored.text
    ensures p.rating.Some? ==> f.rating == p.rating.value
    ensures p.rating.None? ==> f.rating == Some(stored.rating)
  {
    ReviewForm(if p.text.Some? then p.text.value else stored.text,
               if p.rating.Some? then p.rating.value else Some(stored.rating))
  }

  /**
   * An edit that sends only a new, non-blank text validates whenever the
   * stored review has a rating the form admits, and keeps that rating.
   */
  lemma TextOnlyEditValid(stored: Review, text: string)
    requires 1 <= stored.rating <= 5
    requires exists i :: 0 <= i < |text| && !IsSpace(text[i])
    ensures var f := EditForm(ReviewPost(Some(text), None), stored);
            ValidReview(f) && f.text == text && f.rating == Some(stored.rating)
  {
  }

  /** An edit that sends no field at all validates for any stored review and changes nothing. */
  lemma EmptyEditKeepsReview(games: seq<Game>, reviews: seq<Review>, ng: nat, nr: nat, k: nat)
    requires Consistent(games, reviews, ng, nr) && k < |reviews|
    ensures var f := EditForm(ReviewPost(None, None), reviews[k]);
            ValidReview(f) && reviews[k].(text := f.text, rating := f.rating.value) == reviews[k]
  {
    StoredBelongs(games, reviews, ng, nr, reviews[k]);
  }

  /**
   * edit_review: 404 for an unknown review; only its author may edit (403,
   * also for a MANAGER); a POST is read into a form that starts from the
   * stored review, and a valid one overwrites text and rating and nothing
   * else: id, game, author and flag state are kept.
   */
  method EditReview(db: Catalogue, actor: Actor, reviewId: nat, post: Option<ReviewPost>) returns (o: Outcome)
    requires db.Valid()
    modifies db
    ensures db.Valid()
    ensures db.games == old(db.games) && db.nextGameId == old(db.nextGameId)
    ensures db.nextReviewId == old(db.nextReviewId)
    ensures ReviewIndex(old(db.reviews), reviewId).None? ==> o == NotFound
    ensures var k := ReviewIndex(old(db.reviews), reviewId);
            k.Some? && old(db.reviews)[k.value].userId != actor.id ==> o == PermissionDenied
    ensures var k := ReviewIndex(old(db.reviews), reviewId);
            (k.Some? && old(db.reviews)[k.value].userId == actor.id
             && !(post.Some? && ValidReview(EditForm(post.value, old(db.reviews)[k.value])))) ==> o == ShowForm
    ensures o == Done <==>
              var k := ReviewIndex(old(db.reviews), reviewId);
              k.Some? && old(db.reviews)[k.value].userId == actor.id
              && post.Some? && ValidReview(EditForm(post.value, old(db.reviews)[k.value]))
    ensures o != Done ==> db.reviews == old(db.reviews)
    ensures o == Done ==>
              var k := ReviewIndex(old(db.reviews), reviewId).value;
              var before := old(db.reviews)[k];
              var f := EditForm(post.value, before);
              && f.rating.Some?
              && db.reviews == old(db.reviews)[k := before.(text := f.text, rating := f.rating.value)]
              && (post.value.text.None? ==> db.reviews[k].text == before.text)
              && (post.value.rating.None? ==> db.reviews[k].rating == before.rating)
              && db.reviews[k].flagged == before.flagged && db.reviews[k].flagReason == before.flagReason
              && db.reviews[k].gameId == before.gameId && db.reviews[k].userId == before.userId
  {
    var k := ReviewIndex(db.reviews, reviewId);
    if k.None? {
      return NotFound;
    }
    var review := db.reviews[k.value];
    if actor.id != review.userId {
      return PermissionDenied;
    }
    if post.None? {
      return ShowForm;
    }
    var form := EditForm(post.value, review);
    if !ValidReview(form) {
      return ShowForm;
    }
    var edited := review.(text := form.text, rating := form.rating.value);
    db.UpdateAt(k.value, edited);
    o := Done;
  }

  /**
   * flag_review: an unknown review is not a 404 here (the catch-all turns it
   * into FlagFailed); flagging one's own review changes nothing; otherwise
   * the review becomes flagged with the given reason, or "No reason" when
   * none or an empty one is given, overwriting an earlier reason, unless the
   * database refuses the commit (commitOk false), which rolls back.
   */
  method FlagReview(db: Catalogue, actor: Actor, reviewId: nat, reason: Option<string>, commitOk: bool) returns (o: Outcome)
    requires db.Valid()
    modifies db
    ensures db.Valid()
    ensures db.games == old(db.games) && db.nextGameId == old(db.nextGameId)
    ensures db.nextReviewId == old(db.nextReviewId)
    ensures ReviewIndex(old(db.reviews), reviewId).None? ==> o == FlagFailed
    ensures var k := ReviewIndex(old(db.reviews), reviewId);
            k.Some? && old(db.reviews)[k.value].userId == actor.id ==> o == OwnReview
    ensures var k := ReviewIndex(old(db.reviews), reviewId);
            k.Some? && old(db.reviews)[k.value].userId != actor.id && !commitOk ==> o == FlagFailed
    ensures o == Done <==>
              var k := ReviewIndex(old(db.reviews), reviewId);
              k.Some? && old(db.reviews)[k.value].userId != actor.id && commitOk
    ensures o != Done ==> db.reviews == old(db.reviews)
    ensures o == Done ==>
              var k := ReviewIndex(old(db.reviews), reviewId).value;
              && db.reviews == old(db.reviews)[k := old(db.reviews)[k].(flagged := true,
                                                                         flagReason := Some(ReasonOrDefault(reason)))]
              && db.reviews[k].flagged
  {
    var k := ReviewIndex(db.reviews, reviewId);
    if k.None? {
      return FlagFailed;
    }
    var review := db.reviews[k.value];
    if review.userId == actor.id {
      return OwnReview;
    }
    if !commitOk {
      return FlagFailed;
    }
    var flagged := review.(flagged := true, flagReason := Some(ReasonOrDefault(reason)));
    StoredBelongs(db.games, db.reviews, db.nextGameId, db.nextReviewId, review);
    db.UpdateAt(k.value, flagged);
    o := Done;
  }

  /** A review whose id is above every stored id is found where it was appended. */
  lemma NewestFoundLast(reviews: seq<Review>, x: Review)
    requires forall y :: y in reviews ==> y.id < x.id
    ensures ReviewIndex(reviews + [x], x.id) == Some(|reviews|)
  {
    var rs := reviews + [x];
    assert rs[|reviews|] == x;
    forall i | 0 <= i < |reviews|
      ensures rs[i].id != x.id
    {
      assert rs[i] in reviews;
    }
  }

  /** Overwriting the last row of a + [x] with y gives a + [y]. */
  lemma ReplaceLast(a: seq<Review>, x: Review, y: Review)
    ensures (a + [x])[|a| := y] == a + [y]
  {
    assert forall i :: 0 <= i < |a| ==> (a + [x])[|a| := y][i] == a[i];
  }

  /** Every stored review has an id below the next one to be issued. */
  lemma StoredIdsIssued(db: Catalogue)
    requires db.Valid()
    ensures forall y :: y in db.reviews ==> y.id < db.nextReviewId
  {
    forall y | y in db.reviews
      ensures y.id < db.nextReviewId
    {
      StoredBelongs(db.games, db.reviews, db.nextGameId, db.nextReviewId, y);
    }
  }

  /**
   * The first two steps of the review lifecycle: an author other than a
   * MANAGER reviews a game, then a different user flags that review. Both are
   * admitted, and the new last row is the author's review, flagged, with the
   * reason or its default.
   */
  method ReviewThenFlag(db: Catalogue, author: Actor, flagger: Actor, gameId: nat,
                        form: ReviewForm, reason: Option<string>) returns (flagged: Review)
    requires db.Valid()
    requires author.role != Manager && flagger.id != author.id
    requires GameIndex(db.games, gameId).Some? && AuthoredIndex(db.reviews, gameId, author.id).None?
    requires ValidReview(form)
    modifies db
    ensures db.Valid()
    ensures flagged == Review(old(db.nextReviewId), gameId, author.id, form.text, form.rating.value,
                              true, Some(ReasonOrDefault(reason)))
    ensures db.reviews == old(db.reviews) + [flagged]
    ensures db.games == old(db.games) && db.nextGameId == old(db.nextGameId)
    ensures db.nextReviewId == old(db.nextReviewId) + 1
  {
    var before := db.reviews;
    StoredIdsIssued(db);
    var id := db.nextReviewId;
    var added := AddReview(db, author, gameId, Some(form));
    assert added == Done;
    NewestFoundLast(before, db.reviews[|before|]);
    var review := db.reviews[|before|];
    var marked := FlagReview(db, flagger, id, reason, true);
    assert marked == Done;
    flagged := review.(flagged := true, flagReason := Some(ReasonOrDefault(reason)));
    ReplaceLast(before, review, flagged);
  }

  /**
   * The whole review lifecycle: created unflagged, flagged by another user,
   * deleted by a MANAGER. Afterwards the review table is as before, while
   * the model's review counter stays past the id used.
   */
  method ReviewLifecycle(db: Catalogue, author: Actor, flagger: Actor, manager: Actor, gameId: nat,
                         form: ReviewForm, reason: Option<string>) returns (flagged: Review)
    requires db.Valid()
    requires author.role != Manager && flagger.id != author.id && manager.role == Manager
    requires GameIndex(db.games, gameId).Some? && AuthoredIndex(db.reviews, gameId, author.id).None?
    requires ValidReview(form)
    modifies db
    ensures db.Valid()
    ensures flagged.flagged && flagged.flagReason == Some(ReasonOrDefault(reason))
    ensures db.reviews == old(db.reviews) && db.games == old(db.games)
    ensures db.nextReviewId == old(db.nextReviewId) + 1
  {
    var before := db.reviews;
    StoredIdsIssued(db);
    flagged := ReviewThenFlag(db, author, flagger, gameId, form, reason);
    NewestFoundLast(before, flagged);
    var removed := DeleteReview(db, manager, flagged.id);
    assert removed == Done;
    assert db.reviews == before;
  }
}
