/**
 * The validator lists of app/forms.py as predicates over submitted form data.
 *
 * A form record is the form's data after WTForms has processed the request.
 * Text fields hold a string; a text field with no data is "" here, which the
 * validators refuse exactly as they refuse WTForms' None. Integer and select
 * fields are optional, with None standing for a field that has no data or did
 * not parse as an integer; that fails every validator that reads the field.
 * For a form built from a stored object, the fields a request leaves out keep
 * the object's values: ReviewPost is the request itself for that case.
 */
module Forms {
  import opened Wrappers

  /**
   * Python's str.isspace on a single code point: the ASCII controls 9 to 13
   * and 28 to 31, the space, and the Unicode space separators and line and
   * paragraph separators.
   */
  function IsSpace(c: char): (ok: bool)
    ensures c == ' ' || c == '\t' || c == '\n' || c == '\r' ==> ok
    ensures c as int == 0xA0 || c as int == 0x3000 ==> ok
    ensures ('0' <= c <= '9') || ('a' <= c <= 'z') || ('A' <= c <= 'Z') || c == '_' ==> !ok
    ensures ok ==> c as int <= 0x3000
  {
    var n := c as int;
    (9 <= n <= 13) || (28 <= n <= 32) || n == 0x85 || n == 0xA0 || n == 0x1680
    || (0x2000 <= n <= 0x200A) || n == 0x2028 || n == 0x2029 || n == 0x202F
    || n == 0x205F || n == 0x3000
  }

  /** s without its leading whitespace. */
  function TrimStart(s: string): (r: string)
    ensures |r| <= |s| && r == s[|s| - |r|..]
    ensures forall i :: 0 <= i < |s| - |r| ==> IsSpace(s[i])
    ensures r != [] ==> !IsSpace(r[0])
  {
    if s != [] && IsSpace(s[0]) then TrimStart(s[1..]) else s
  }

  /** s without its trailing whitespace. */
  function TrimEnd(s: string): (r: string)
    ensures |r| <= |s| && r == s[..|r|]
    ensures forall i :: |r| <= i < |s| ==> IsSpace(s[i])
    ensures r != [] ==> !IsSpace(r[|r| - 1])
  {
    if s != [] && IsSpace(s[|s| - 1]) then TrimEnd(s[..|s| - 1]) else s
  }

  /**
   * Python's str.strip(): the slice of s between its leading and its trailing
   * whitespace.
   */
  function Strip(s: string): (r: string)
    ensures exists k, m ::
              (0 <= k <= m <= |s| && r == s[k..m]
               && (forall i :: 0 <= i < k ==> IsSpace(s[i]))
               && (forall i :: m <= i < |s| ==> IsSpace(s[i])))
    ensures r != [] ==> !IsSpace(r[0]) && !IsSpace(r[|r| - 1])
  {
    var t := TrimStart(s);
    var r := TrimEnd(t);
    assert r == s[|s| - |t|..|s| - |t| + |r|];
    r
  }

  /** Stripping twice is stripping once. */
  lemma StripIdempotent(s: string)
    ensures Strip(Strip(s)) == Strip(s)
  {
    var r := Strip(s);
    assert TrimStart(r) == r;
    assert TrimEnd(r) == r;
  }

  /** The stripped string is empty exactly when every character is whitespace. */
  lemma StripEmptyIffBlank(s: string)
    ensures Strip(s) == [] <==> forall i :: 0 <= i < |s| ==> IsSpace(s[i])
  {
    var t := TrimStart(s);
    if Strip(s) != [] {
      var r := Strip(s);
      assert r == s[|s| - |t|..|s| - |t| + |r|];
      assert s[|s| - |t|] == r[0];
    }
  }

  /**
   * WTForms' DataRequired on a text field: the data is non-empty and does not
   * strip to nothing, that is, it holds a character that is not whitespace.
   */
  function DataRequired(s: string): (ok: bool)
    ensures ok <==> exists i :: 0 <= i < |s| && !IsSpace(s[i])
  {
    StripEmptyIffBlank(s);
    s != [] && Strip(s) != []
  }

  /**
   * WTForms' NumberRange(min=lo, max=hi) on an integer field: it refuses a
   * missing value, one below the minimum, and one above the maximum when
   * there is one. What it admits is the closed range from lo to hi.
   */
  function NumberRange(v: Option<int>, lo: int, hi: Option<int>): (ok: bool)
    ensures ok <==> v.Some? && lo <= v.value && (hi.None? || v.value <= hi.value)
  {
    match v
    case None => false
    case Some(n) => !(n < lo) && !(hi.Some? && n > hi.value)
  }

  /** The longest name BoardGameForm and UserForm accept (Length(max=100)). */
  const NAME_MAX_LENGTH := 100

  /** The values of BoardGameForm's game_type choices. */
  const GAME_TYPES: seq<string> := ["strategy", "party", "card", "dice"]

  /** The values of UserForm's role choices. */
  const ROLES: seq<string> := ["USER", "MANAGER"]

  datatype BoardGameForm = BoardGameForm(
    name: string,
    level: Option<int>,
    minPlayers: Option<int>,
    maxPlayers: Option<int>,
    gameType: Option<string>)

  /**
   * BoardGameForm.validate(): a non-blank name of at most 100 characters, a
   * level from 1 to 10, at least one player at each bound, and one of the four
   * game types. Nothing relates min_players to max_players.
   */
  function ValidBoardGame(f: BoardGameForm): (ok: bool)
    ensures ok <==>
      && (exists i :: 0 <= i < |f.name| && !IsSpace(f.name[i]))
      && |f.name| <= 100
      && f.level.Some? && 1 <= f.level.value <= 10
      && f.minPlayers.Some? && f.minPlayers.value >= 1
      && f.maxPlayers.Some? && f.maxPlayers.value >= 1
      && f.gameType.Some? && f.gameType.value in GAME_TYPES
    ensures ok ==> 0 < |Strip(f.name)| <= NAME_MAX_LENGTH
  {
    StripEmptyIffBlank(f.name);
    && DataRequired(f.name) && |f.name| <= NAME_MAX_LENGTH
    && NumberRange(f.level, 1, Some(10))
    && NumberRange(f.minPlayers, 1, None)
    && NumberRange(f.maxPlayers, 1, None)
    && f.gameType.Some? && f.gameType.value in GAME_TYPES
  }

  /** The form accepts a game whose minimum player count exceeds its maximum. */
  lemma MinAboveMaxAccepted()
    ensures ValidBoardGame(BoardGameForm("Catan", Some(3), Some(5), Some(2), Some("strategy")))
  {
    assert "Catan"[0] == 'C';
  }

  datatype ReviewForm = ReviewForm(text: string, rating: Option<int>)

  /**
   * The review fields a POST carries: None for a key the request leaves out.
   * A rating key that is present but does not parse is Some(None).
   */
  datatype ReviewPost = ReviewPost(text: Option<string>, rating: Option<Option<int>>)

  /**
   * ReviewForm.validate(): non-blank text and a rating from 1 to 5 (DataRequired
   * on the rating also refuses 0, which the range refuses anyway).
   */
  function ValidReview(f: ReviewForm): (ok: bool)
    ensures ok <==>
      && (exists i :: 0 <= i < |f.text| && !IsSpace(f.text[i]))
      && f.rating.Some? && 1 <= f.rating.value <= 5
  {
    && DataRequired(f.text)
    && f.rating.Some? && f.rating.value != 0
    && NumberRange(f.rating, 1, Some(5))
  }

  datatype UserForm = UserForm(username: string, password: string, role: Option<string>)

  /**
   * UserForm.validate(): a non-blank username of at most 100 characters, a
   * non-blank password, and the role USER or MANAGER (the select field's own
   * choice check).
   */
  function ValidUser(f: UserForm): (ok: bool)
    ensures ok <==>
      && (exists i :: 0 <= i < |f.username| && !IsSpace(f.username[i]))
      && |f.username| <= 100
      && (exists i :: 0 <= i < |f.password| && !IsSpace(f.password[i]))
      && f.role.Some? && f.role.value in ROLES
  {
    && DataRequired(f.username) && |f.username| <= NAME_MAX_LENGTH
    && DataRequired(f.password)
    && f.role.Some? && f.role.value in ROLES
  }

  datatype LoginForm = LoginForm(username: string, password: string)

  /** LoginForm.validate(): both fields non-blank, no length bound. */
  function ValidLogin(f: LoginForm): (ok: bool)
    ensures ok <==>
      && (exists i :: 0 <= i < |f.username| && !IsSpace(f.username[i]))
      && (exists i :: 0 <= i < |f.password| && !IsSpace(f.password[i]))
  {
    DataRequired(f.username) && DataRequired(f.password)
  }
}
