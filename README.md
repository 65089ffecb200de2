# GamerHub catalogue and reviews, modelled in Dafny

GamerHub is a small Flask application. Users browse board games, add games,
and write one review per game. Other users flag reviews, and managers read the
flagged reviews and delete them. This project models the part with rules:

- the role- and ownership-gated handlers of `app/routes/main.py`;
- the JSON API of `app/routes/boardgames.py`;
- the WTForms validator lists of `app/forms.py`.

It proves what the handlers promise, and that every handler keeps one
invariant of the database.

Modules:

- `Wrappers` (`wrappers.dfy`) holds `Option`.
- `Forms` (`forms.dfy`) holds Python's `str.strip` (`TrimStart`, `TrimEnd`,
  `Strip`) and WTForms' `DataRequired` and `NumberRange`. It also holds one
  predicate per form. A submitted form is a record. An integer or select
  field that is missing or does not parse is `None`.
- `Store` (`store.dfy`) holds the `BoardGame` and `Review` rows and the
  queries the routes issue: `get`, `filter_by(...).first()` and
  `filter_by(...).all()`.
  - It defines the invariant `Consistent`:
    - game ids and names are unique;
    - ids increase in store order and lie below the next id to be issued;
    - every review is about a stored game and is as `ReviewForm` admits it;
    - at most one review exists per (game, user).
  - `class Catalogue` is the database. Its methods are the session
    operations: add, delete and update, each followed by a commit. Each keeps
    `Valid()`.
- `MainRoutes` (`main_routes.dfy`) holds one method per mutating handler of
  `main.py`.
  - Each method takes the database, an explicit `Actor` (the logged-in
    `current_user`) and the submitted form. A GET is `None`.
  - Each method returns an `Outcome` and states the whole new state. Every
    outcome other than `Done` leaves the database unchanged.
  - The read-only handlers are functions that read the database.
- `ApiRoutes` (`api_routes.dfy`) covers `boardgames.py`.
  - The two GET endpoints are projections into a `Json` value, checked
    against a decoder (`GameOfObject`, `ReviewOfObject`).
  - The create endpoint is a method on the same `Catalogue`.

Tables are sequences in insertion order. Row ids come from the counters
`nextGameId` and `nextReviewId`, which start at 1.

## Model

| member | source | states |
|---|---|---|
| Forms.IsSpace | app/routes/main.py:65 | `str.isspace` on one character: space, tab, newline, carriage return, no-break space and ideographic space are whitespace; ASCII letters, digits and `_` are not; nothing above U+3000 is |
| Forms.TrimStart | app/routes/main.py:65 | the result is a suffix of the input; every character dropped is whitespace in `str.isspace`'s sense; the result does not start with whitespace |
| Forms.TrimEnd | app/routes/main.py:65 | the result is a prefix of the input; every character dropped is whitespace; the result does not end with whitespace |
| Forms.Strip | app/routes/main.py:65 | `name.strip()` is the slice of the input between a run of leading and a run of trailing whitespace; a non-empty result starts and ends with a non-space |
| Forms.StripIdempotent | app/routes/main.py:71 | stripping an already stripped name changes nothing |
| Forms.StripEmptyIffBlank | app/forms.py:6 | the stripped string is empty exactly when every character is whitespace |
| Forms.DataRequired | app/forms.py:18 | `DataRequired` on a text field accepts exactly the strings that hold a non-whitespace character |
| Forms.NumberRange | app/forms.py:7-9 | `NumberRange` refuses a missing value, one below the minimum and one above a given maximum: it admits exactly the closed range |
| Forms.ValidBoardGame | app/forms.py:5-15 | `BoardGameForm` accepts exactly: a name with a non-space character and at most 100 characters, a level in 1..10, both player counts at least 1, and a game type among strategy, party, card and dice; an accepted name strips to 1..100 characters |
| Forms.MinAboveMaxAccepted | app/forms.py:8-9 | the form accepts a game with 5 minimum and 2 maximum players: nothing relates the two counts |
| Forms.ValidReview | app/forms.py:17-21 | `ReviewForm` accepts exactly a text with a non-space character and a rating in 1..5 |
| Forms.ValidUser | app/forms.py:23-26 | `UserForm` accepts exactly a non-blank username of at most 100 characters, a non-blank password and the role USER or MANAGER |
| Forms.ValidLogin | app/forms.py:28-30 | `LoginForm` accepts exactly a non-blank username and a non-blank password, with no length bound |
| Store.FirstWhere | app/routes/main.py:35 | `.first()`: the index found satisfies the filter and no earlier row does; no index means no row does |
| Store.GameIndex | app/routes/main.py:32 | `BoardGame.query.get_or_404(id)`: the row found has that id; not found exactly when no game has it |
| Store.ReviewIndex | app/routes/main.py:111 | `Review.query.get_or_404(review_id)`: the row found has that id; not found exactly when no review has it |
| Store.AuthoredIndex | app/routes/main.py:35 | `filter_by(game_id, user_id).first()`: the row found is by that user about that game; not found exactly when there is none |
| Store.NameTaken | app/routes/main.py:65 | `filter_by(name=...).first()` finds a row exactly when some stored game has that exact name |
| Store.Select | app/routes/main.py:23 | `filter_by(...).all()` holds exactly the rows satisfying the filter, and keeps store order |
| Store.SelectAppend | app/routes/main.py:23 | filtering a table extended by more rows appends the filtered new rows to the old result |
| Store.AscendingDetermined | app/routes/main.py:23 | two sequences in store order with the same rows are equal, so a listing is fixed by its members |
| Store.ReviewsOf | app/routes/main.py:23 | `Review.query.filter_by(game_id=id).all()` holds exactly the reviews of that game, in store order |
| Store.FlaggedReviews | app/routes/main.py:177 | `filter_by(flagged=True).all()` holds exactly the flagged reviews, in store order |
| Store.StoredBelongs | app/routes/main.py:41-47 | in a consistent database every stored review has an issued id, refers to a stored game and has non-blank text and a rating in 1..5 |
| Store.ConsistentKeysUnique | app/routes/main.py:35-38 | in a consistent database a game is identified by its id and by its name, and a review by its id and by its (game, author) pair |
| Store.AddReviewKeepsConsistent | app/routes/main.py:35-49 | adding a review with the next id, about a stored game, by an author without a review of that game, keeps the invariant, including one review per (game, user) |
| Store.RemoveReviewKeepsConsistent | app/routes/main.py:120-122 | deleting any one review keeps the invariant |
| Store.ReplaceReviewKeepsConsistent | app/routes/main.py:140-142 | overwriting a review in place with one of the same id, game and author, as the form admits it, keeps the invariant |
| Store.AddGameKeepsConsistent | app/routes/main.py:65-79 | adding a game with the next id and a name no game has keeps the invariant, reviews included |
| Store.Catalogue.InsertReview | app/routes/main.py:41-49 | `session.add(review)` then commit: the row is appended with the next id, the counter moves on, the games are untouched, and the invariant holds |
| Store.Catalogue.DeleteAt | app/routes/main.py:121-122 | `session.delete(review)` then commit: exactly the row at that place is gone, the invariant holds |
| Store.Catalogue.UpdateAt | app/routes/main.py:140-142 | assigning a row's columns then commit: only that row changes, the invariant holds |
| Store.Catalogue.InsertGame | app/routes/main.py:70-79 | `session.add(game)` then commit: the game is appended with the next id, reviews untouched, the invariant holds |
| MainRoutes.ParseRole | app/routes/main.py:29 | the role column reads as User exactly for "USER" and as Manager exactly for "MANAGER"; any other string is kept as it is, so an actor's role is never another role holding a known role's name |
| MainRoutes.MayOpenUserPage | app/routes/main.py:97-98 | `user_secured` admits exactly the roles USER and MANAGER and turns every other role away |
| MainRoutes.MayOpenManagerPage | app/routes/main.py:104-105 | `manager_secured` admits exactly the role MANAGER |
| MainRoutes.ManagerPageNarrower | app/routes/main.py:94-106 | whoever passes `manager_secured`'s gate passes `user_secured`'s |
| MainRoutes.UserRoleSeparatesPages | app/routes/main.py:94-106 | a USER passes the user page's gate but not the manager page's, so the two gates differ |
| MainRoutes.RegisteredUserAdmitted | app/routes/main.py:97-98 | every role `UserForm` admits passes the user page's gate |
| MainRoutes.ReasonOrDefault | app/routes/main.py:159 | the stored flag reason is the submitted reason when that is present and non-empty, and "No reason" when it is missing or empty |
| MainRoutes.GetReviews | app/routes/main.py:20-24 | 404 exactly when no game has the id; otherwise exactly the game's reviews, in store order |
| MainRoutes.GetReviewsDetermined | app/routes/main.py:23 | any store-ordered sequence of exactly the game's reviews is the listing `get_reviews` shows |
| MainRoutes.AppendedReviewListedLast | app/routes/main.py:48-51 | after a review is appended it is last on its game's review page, and every other game's page is unchanged |
| MainRoutes.ViewNotifications | app/routes/main.py:170-177 | a MANAGER gets exactly the flagged reviews in store order; anyone else is turned away |
| MainRoutes.AddReview | app/routes/main.py:26-53 | MANAGER → 403; unknown game → 404; an existing review by the actor of that game → refused, on GET too; an invalid form or GET → the form; otherwise exactly one unflagged review by the actor about the game is appended with the next id; success exactly when all checks pass; no other change ever |
| MainRoutes.AddBoardGame | app/routes/main.py:55-86 | a role other than USER → 403; a GET or an invalid form → the form; a stripped name some game has → refused; a refused commit → rolled back; otherwise the game with its stripped name of 1..100 characters is appended with the next id; success exactly when all checks pass; reviews never change |
| MainRoutes.DeleteReview | app/routes/main.py:108-124 | unknown review → 404; success exactly for its author or a MANAGER, and then that review and no other is gone; anyone else → 403 with nothing changed |
| MainRoutes.RemoveLeavesOthers | app/routes/main.py:121 | deleting the row at one place of a store-ordered table removes exactly the rows with its id |
| MainRoutes.EditForm | app/routes/main.py:138 | `ReviewForm(obj=review)`: a field whose key the POST carries takes the submitted value, one it leaves out keeps the stored review's value |
| MainRoutes.TextOnlyEditValid | app/routes/main.py:138-141 | a POST carrying only a new non-blank text validates against a stored review rated 1..5, and keeps its rating |
| MainRoutes.EmptyEditKeepsReview | app/routes/main.py:138-141 | in a consistent database, a POST carrying neither field validates and leaves the stored review as it was |
| MainRoutes.EditReview | app/routes/main.py:129-146 | unknown review → 404; anyone but the author, a MANAGER too → 403; the author's GET, or a POST whose form, filled in from the stored review, is invalid → the form again with nothing changed; success exactly for the author with a valid filled-in form, and then only text and rating change, each left as stored when the POST omits it; id, game, author, flag and reason are kept |
| MainRoutes.FlagReview | app/routes/main.py:149-168 | an unknown review → the catch-all failure with nothing changed; one's own review → nothing changed; a refused commit → rolled back; otherwise the review becomes flagged with the reason or "No reason", overwriting an earlier reason; success exactly when the review exists, is someone else's and the commit goes through |
| MainRoutes.ReviewThenFlag | app/routes/main.py:153-160 | an author who is not a MANAGER reviews a game and another user flags that review: both succeed, and the new last row is the author's review, flagged with the reason |
| MainRoutes.ReviewLifecycle | app/routes/main.py:116-122 | created, flagged, then deleted by a MANAGER: the review table ends as it began, and the model's review counter stays past the id used |
| ApiRoutes.ToJson | app/routes/boardgames.py:12-17 | a stored column value is written as a JSON scalar, an integer or a string |
| ApiRoutes.FromJson | app/routes/boardgames.py:11-18 | a scalar JSON value reads back as the column value it was written from |
| ApiRoutes.ToJsonRoundTrip | app/routes/boardgames.py:12-17 | every column value written into a record reads back as itself |
| ApiRoutes.GameObject | app/routes/boardgames.py:11-18 | a game record has exactly the keys id, name, level, min_players, max_players and game_type |
| ApiRoutes.GameObjectRoundTrip | app/routes/boardgames.py:11-18 | a game record reads back as the stored game: no column is lost or altered |
| ApiRoutes.GameOfObjectIgnoresExtra | app/routes/boardgames.py:23-31 | the detail record's extra "reviews" key leaves the game's own fields readable as the game |
| ApiRoutes.GameObjects | app/routes/boardgames.py:11-18 | one record per game, in order, each with exactly the six keys and reading back as its game |
| ApiRoutes.GetBoardGames | app/routes/boardgames.py:8-18 | `get_boardgames` lists one record per stored game, in store order, each with exactly the six keys and reading back as that game |
| ApiRoutes.ReviewObject | app/routes/boardgames.py:30 | a review's record is a JSON object; its keys and what it reads back as are stated by ReviewObjectRoundTrip |
| ApiRoutes.ReviewObjectRoundTrip | app/routes/boardgames.py:30 | a review record has exactly the keys id and text and reads back as the review's id and text |
| ApiRoutes.ReviewObjects | app/routes/boardgames.py:30 | the comprehension over the game's reviews gives one record per review |
| ApiRoutes.ReviewObjectsRead | app/routes/boardgames.py:30 | the record at each place reads back as the id and text of the review at that place |
| ApiRoutes.ReviewObjectsMembers | app/routes/boardgames.py:30 | the records are exactly the records of the given reviews, both ways |
| ApiRoutes.ReviewObjectsDistinct | app/routes/boardgames.py:30 | reviews in store order give pairwise different records |
| ApiRoutes.DetailReviews | app/routes/boardgames.py:30 | the detail's review list has one record per review of the game, in store order, each reading back as that review's id and text; it holds a record for each review of the game and for nothing else; in a table in store order no record appears twice |
| ApiRoutes.GetBoardGame | app/routes/boardgames.py:20-31 | 404 exactly when no game has the id; otherwise the six game keys plus "reviews", the record reads back as the stored game with that id, and its review list has one record per review of that game, in store order, reading back as its id and text, covering exactly that game's reviews, with no record twice when the table is in store order |
| ApiRoutes.GetOr | app/routes/boardgames.py:43-46 | a body lookup with a default: the body's value when the key is there, the default otherwise |
| ApiRoutes.ApiGame | app/routes/boardgames.py:41-47 | the game built from a body has the given id and the body's name; each other column is the body's value under "level", "min_Players", "max_Players" or "game_Type" when present, and otherwise 1, 2, the string "4" or "Strategy" |
| ApiRoutes.ApiGameDefaults | app/routes/boardgames.py:41-47 | a body with only a name gives level 1, min 2, the string "4" as max and "Strategy" as type |
| ApiRoutes.SnakeCaseKeysIgnored | app/routes/boardgames.py:44-46 | a body using the record's own keys min_players, max_players and game_type still gets the three defaults |
| ApiRoutes.NameExists | app/routes/boardgames.py:39 | the 409 body has exactly the keys STATUS and message |
| ApiRoutes.ApiAddBoardGame | app/routes/boardgames.py:33-58 | no "name" → 500 with nothing changed; a name some game has exactly, untrimmed → 409 with nothing changed; a free name whose commit fails → 500 with nothing changed; created exactly when the name is free and the commit goes through, and then the game with the body's values or the defaults is appended with the next id, and the 201 body has exactly the six game keys and reads back as that game; reviews never change; no role is consulted |
| ApiRoutes.ApiAdmitsPaddedTwin | app/routes/boardgames.py:38 | with "Catan" stored, the API finds " Catan" free while the form route's stripped check finds it taken |

Three behaviours of the code are easy to misread:

- `flag_review` calls `get_or_404` inside its `try: ... except Exception`.
  So an unknown review id is not a 404. The catch-all turns it into the
  generic flagging failure (`FlagFailed`) and nothing changes.
- `view_notifications` sends a non-manager home rather than answering 403.
  The model returns `None` there.
- Trimmed-name uniqueness is checked only on the form route. The API compares
  the name exactly, so the database keeps exact-name uniqueness and no more
  (`ApiAdmitsPaddedTwin`).

## Left out

- Flask plumbing is left out: templates, `flash` messages, redirects and
  `request.referrer`. A handler's result is an `Outcome` or a `Json` value,
  not a page or an HTTP message.
- `home`, `boardgame_detail` and `secured` (app/routes/main.py:9-18, 89-92)
  only render pages. They are not modelled.
- `login_required` and the session cookie are left out. The logged-in user is
  an explicit `Actor`. The JSON create endpoint takes no actor, because it
  consults none.
- SQLAlchemy's session is modelled only as atomic add, delete and update with
  a commit.
  - A commit the database refuses is the parameter `commitOk`. This covers the
    `IntegrityError` of the form route, the catch-all of `flag_review`, and the
    uncaught error (a 500) of the API create.
  - `add_review`, `edit_review` and `delete_review` catch no commit error.
    Their failed commit, a 500, is not modelled.
- The database's own unique constraints, and races between concurrent
  requests, are left out. Only the application-level checks are modelled.
- Result order is taken to be store order, that is ascending ids. The code
  asks for no order (there is no `order_by`), so neither the database nor the
  mapper promises one. This applies to `game.reviews` (app/routes/boardgames.py:30),
  `Review.query.filter_by(game_id=id).all()` (app/routes/main.py:23),
  `Review.query.filter_by(flagged=True).all()` (app/routes/main.py:177) and
  `BoardGame.query.all()` (app/routes/boardgames.py:10). The rows for
  Store.Select, Store.ReviewsOf, Store.FlaggedReviews, MainRoutes.GetReviews,
  MainRoutes.ViewNotifications, ApiRoutes.GetBoardGames and ApiRoutes.GetBoardGame
  state store order under this assumption; the membership they state holds
  regardless of order.
- Id allocation is the model's own counter per table, starting at 1, which
  never issues an id twice. The database engine and how it allocates ids are
  not part of this model; an engine that issues the highest id plus one would
  hand a deleted last review's id out again. That an id stays issued
  (ReviewLifecycle, StoredIdsIssued) is a property of the counter, not of the
  application.
- ApiAddBoardGame: column type coercion of the JSON values is not modelled (a
  string stored into an integer column stays a string). The request body is
  taken to be a JSON object whose values are integers or strings. Values of
  other JSON types (floats, booleans, null, lists, objects) are not modelled.
  Neither are bodies that are not objects, which fail at the duplicate check.
- AddBoardGame: the width of the integer columns is not modelled. The player
  counts have no upper bound (app/forms.py:8-9), and a value too wide for the
  database's integer column makes the commit fail. `add_boardgame` catches only
  `IntegrityError` (app/routes/main.py:82); any other commit error, such as
  that one or a locked database, is an uncaught 500 and is not modelled.
  `RolledBack` stands for an `IntegrityError` only.
- EditReview: the form of `edit_review` is built from the stored review
  (app/routes/main.py:138). A field whose key the POST leaves out keeps the
  stored value (EditForm). The other forms start empty, so there a missing
  field has no data.
- The form validators do not model WTForms' CSRF check and coercion
  internals. An integer field that does not parse is simply `None`.
- Password hashing, and user registration and login themselves, are outside
  the model. Only the `UserForm` and `LoginForm` rules are.
- Debug `print` calls are left out.
