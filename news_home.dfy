/**
 * The home page client: the signed-in session kept in two globals that
 * mirror two local-storage keys, the comment form's lock, the comment
 * guards, the local like toggle, avatar initials and the standings sidebar.
 */
module NewsHome {
  import opened Optional
  import opened JsString
  import Sequences
  import Server
  import ArticlePage

  /** A stored string is truthy when present and non-empty. */
  predicate Truthy(s: Option<string>) {
    s.Some? && s.value != ""
  }

  /**
   * `currentUser` and `authToken`, the local-storage keys `currentUser` and
   * `authToken`, and the comment form: the input's `readonly`, its
   * login-prompting `onclick`, and the post button's `disabled`.
   */
  class Session {
    var currentUser: Option<Server.PublicUser>
    var authToken: Option<string>
    var storedUser: Option<Server.PublicUser>
    var storedToken: Option<string>
    var inputReadOnly: bool
    var inputPromptsLogin: bool
    var postDisabled: bool

    /** A signed-in user's globals are what storage holds. */
    ghost predicate Mirrored()
      reads this
    {
      currentUser.Some? ==> storedUser == currentUser && storedToken == authToken && authToken.Some?
    }

    /** The comment form is locked exactly when nobody is signed in. */
    ghost predicate FormMatches()
      reads this
    {
      && inputReadOnly == currentUser.None?
      && inputPromptsLogin == currentUser.None?
      && postDisabled == currentUser.None?
    }

    /** Page load: globals null, storage as left by earlier visits, the form as the page markup has it. */
    constructor (storedUser: Option<Server.PublicUser>, storedToken: Option<string>, formLocked: bool)
      ensures currentUser == None && authToken == None
      ensures this.storedUser == storedUser && this.storedToken == storedToken
      ensures inputReadOnly == formLocked && inputPromptsLogin == formLocked && postDisabled == formLocked
      ensures Mirrored()
    {
      currentUser, authToken := None, None;
      this.storedUser, this.storedToken := storedUser, storedToken;
      inputReadOnly, inputPromptsLogin, postDisabled := formLocked, formLocked, formLocked;
    }

    /** `updateUIForLoggedInUser`: unlocks the form for a user, locks it otherwise. */
    method UpdateForm()
      modifies this
      ensures FormMatches()
      ensures currentUser == old(currentUser) && authToken == old(authToken)
      ensures storedUser == old(storedUser) && storedToken == old(storedToken)
    {
      var locked := currentUser.None?;
      inputReadOnly, inputPromptsLogin, postDisabled := locked, locked, locked;
    }

    /**
     * `checkLoginStatus`: the token global is always read from storage; the
     * user is restored, the form updated and revalidation requested only
     * when both keys hold something.
     */
    method CheckLoginStatus() returns (revalidate: bool)
      requires Mirrored()
      modifies this
      ensures authToken == old(storedToken)
      ensures revalidate <==> Truthy(old(storedToken)) && old(storedUser).Some?
      ensures revalidate ==> currentUser == old(storedUser) && FormMatches()
      ensures !revalidate ==>
                && currentUser == old(currentUser)
                && inputReadOnly == old(inputReadOnly) && inputPromptsLogin == old(inputPromptsLogin)
                && postDisabled == old(postDisabled)
      ensures storedUser == old(storedUser) && storedToken == old(storedToken)
      ensures old(currentUser).None? || revalidate ==> Mirrored()
    {
      authToken := storedToken;
      revalidate := Truthy(storedToken) && storedUser.Some?;
      if revalidate {
        currentUser := storedUser;
        UpdateForm();
      }
    }

    /** `logout`: both globals and both keys are cleared together and the form is locked. */
    method Logout()
      modifies this
      ensures currentUser == None && authToken == None
      ensures storedUser == None && storedToken == None
      ensures FormMatches() && Mirrored()
    {
      currentUser, authToken := None, None;
      storedUser, storedToken := None, None;
      UpdateForm();
    }

    /**
     * The end of `verifyToken`: a reply that is not OK logs out; a request
     * that failed (`None`) or an OK reply changes nothing.
     */
    method FinishRevalidation(reply: Option<Server.Reply>)
      requires Mirrored()
      modifies this
      ensures reply.Some? && reply.value.Fail? ==>
                currentUser == None && authToken == None && storedUser == None && storedToken == None && FormMatches()
      ensures !(reply.Some? && reply.value.Fail?) ==> unchanged(this)
      ensures Mirrored()
    {
      if reply.Some? && reply.value.Fail? {
        Logout();
      }
    }

    /**
     * A successful login or signup: the reply's user and token become the
     * globals, are written to storage and the form is unlocked; any other
     * reply changes nothing.
     */
    method SignedIn(reply: Server.Reply)
      modifies this
      ensures reply.Authenticated? ==>
                && currentUser == Some(reply.user) && authToken == Some(reply.token)
                && storedUser == currentUser && storedToken == authToken
                && FormMatches() && !postDisabled
      ensures !reply.Authenticated? ==> unchanged(this)
      ensures reply.Authenticated? ==> Mirrored()
    {
      if reply.Authenticated? {
        currentUser, authToken := Some(reply.user), Some(reply.token);
        storedUser, storedToken := currentUser, authToken;
        UpdateForm();
      }
    }

    /** `addComment`'s guards on this page: it needs both a user and a token. */
    function PostDecision(input: string): (d: ArticlePage.PostDecision)
      reads this
      ensures d.SendComment? <==> currentUser.Some? && Truthy(authToken) && !AllSpace(input)
      ensures d.SendComment? ==> d.text == Trim(input) && d.text != ""
      ensures !(currentUser.Some? && Truthy(authToken)) ==> d == ArticlePage.PromptLogin
      ensures currentUser.Some? && Truthy(authToken) && AllSpace(input) ==> d == ArticlePage.AskForText
    {
      ArticlePage.CommentGuard(currentUser.Some? && Truthy(authToken), input)
    }
  }

  /** The article id sent with a new comment: the page's `data-article-id`, or `main-article`. */
  function PostArticleId(attribute: Option<string>): (id: string)
    ensures id != ""
    ensures Truthy(attribute) ==> id == attribute.value
  {
    if Truthy(attribute) then attribute.value else "main-article"
  }

  // ------------------------------------------------------------------ local like toggle

  /** A like button of the home page's demo comments: its `liked` class and shown count. */
  class LocalLikeButton {
    var liked: bool
    var count: int

    constructor (liked: bool, count: int)
      ensures this.liked == liked && this.count == count
    {
      this.liked, this.count := liked, count;
    }

    /** Flips the class and moves the count one step in the same direction. */
    method Toggle()
      modifies this
      ensures liked == !old(liked)
      ensures count == if liked then old(count) + 1 else old(count) - 1
    {
      liked := !liked;
      if liked {
        count := count + 1;
      } else {
        count := count - 1;
      }
    }
  }

  // ------------------------------------------------------------------ initials

  /** `n => n[0]` over the words, joined: an empty word contributes nothing. */
  function FirstLetters(words: seq<string>): (r: string)
    ensures |r| <= |words|
    decreases |words|
  {
    if words == [] then ""
    else (if words[0] == "" then "" else [words[0][0]]) + FirstLetters(words[1..])
  }

  /** `name.split(' ').map(n => n[0]).join('').toUpperCase().substring(0, 2)`. */
  function Initials(name: string): (r: string)
    ensures |r| <= 2
    ensures forall i :: 0 <= i < |r| ==> r[i] == UpperChar(r[i])
  {
    Sequences.Take(Upper(FirstLetters(Split(name, ' '))), 2)
  }

  lemma FirstLettersOfWords(words: seq<string>)
    requires |words| >= 1
    requires forall i :: 0 <= i < |words| ==> words[i] != ""
    ensures |words| == 1 ==> FirstLetters(words) == [words[0][0]]
    ensures |words| > 1 ==> |FirstLetters(words)| >= 2 && FirstLetters(words)[..2] == [words[0][0], words[1][0]]
  {
    var rest := FirstLetters(words[1..]);
    assert FirstLetters(words) == [words[0][0]] + rest;
    if |words| > 1 {
      assert words[1..][0] == words[1];
      assert rest == [words[1][0]] + FirstLetters(words[2..]) by {
        assert words[1..][1..] == words[2..];
      }
    }
  }

  predicate NonEmptyWord(w: string) {
    w != ""
  }

  /** The words of a name: the pieces of `split(' ')` that are not empty. */
  function Words(name: string): (ws: seq<string>)
    ensures forall i :: 0 <= i < |ws| ==> ws[i] != "" && ' ' !in ws[i]
  {
    var pieces := Split(name, ' ');
    Sequences.FilterMembers(pieces, NonEmptyWord);
    var ws := Sequences.Filter(pieces, NonEmptyWord);
    assert forall i :: 0 <= i < |ws| ==> ' ' !in ws[i] by {
      forall i | 0 <= i < |ws| ensures ' ' !in ws[i] {
        var j :| 0 <= j < |pieces| && pieces[j] == ws[i];
      }
    }
    ws
  }

  /** An empty piece contributes no letter, so only the non-empty pieces matter. */
  lemma {:induction false} FirstLettersSkipsEmpty(words: seq<string>)
    ensures FirstLetters(words) == FirstLetters(Sequences.Filter(words, NonEmptyWord))
    decreases |words|
  {
    if words != [] {
      FirstLettersSkipsEmpty(words[1..]);
      Sequences.FilterCons(words, NonEmptyWord);
      var rest := Sequences.Filter(words[1..], NonEmptyWord);
      if words[0] != "" {
        var ws := [words[0]] + rest;
        assert ws[0] == words[0] && ws[1..] == rest;
        assert FirstLetters(ws) == [words[0][0]] + FirstLetters(rest);
        assert FirstLetters(words) == [words[0][0]] + FirstLetters(words[1..]);
      } else {
        assert !NonEmptyWord(words[0]);
        assert [] + rest == rest;
        assert FirstLetters(words) == FirstLetters(words[1..]);
      }
    }
  }

  /**
   * The initials of any name: the upper-cased first letters of its first
   * two non-empty words, so repeated, leading or trailing spaces are
   * skipped and a blank name has none.
   */
  lemma InitialsOfName(name: string)
    ensures var ws := Words(name);
            Initials(name) ==
              if |ws| == 0 then ""
              else if |ws| == 1 then [UpperChar(ws[0][0])]
              else [UpperChar(ws[0][0]), UpperChar(ws[1][0])]
  {
    var ws := Words(name);
    FirstLettersSkipsEmpty(Split(name, ' '));
    var letters := FirstLetters(ws);
    var upper := Upper(letters);
    assert Initials(name) == Sequences.Take(upper, 2);
    if |ws| == 0 {
      assert letters == "";
    } else {
      FirstLettersOfWords(ws);
      if |ws| == 1 {
        assert upper == [UpperChar(ws[0][0])];
      } else {
        assert upper[..2] == [UpperChar(letters[0]), UpperChar(letters[1])];
      }
    }
  }

  /**
   * For a name made of non-empty words separated by single spaces, the
   * initials are the upper-cased first letters of the first two words.
   */
  lemma InitialsOfWords(words: seq<string>)
    requires |words| >= 1
    requires forall i :: 0 <= i < |words| ==> words[i] != "" && ' ' !in words[i]
    ensures Initials(Join(words, ' ')) ==
              if |words| == 1 then [UpperChar(words[0][0])]
              else [UpperChar(words[0][0]), UpperChar(words[1][0])]
  {
    SplitJoin(words, ' ');
    Sequences.FilterAllPass(words, NonEmptyWord);
    InitialsOfName(Join(words, ' '));
  }

  // ------------------------------------------------------------------ standings sidebar

  datatype SidebarRow = SidebarRow(position: int, team: string, top: bool)

  /** The first five rows of the standings; a position of 4 or better is tagged `top`. */
  function Sidebar(standings: seq<(int, string)>): (r: seq<SidebarRow>)
    ensures |r| == if |standings| < 5 then |standings| else 5
    ensures forall i :: 0 <= i < |r| ==>
              r[i].position == standings[i].0 && r[i].team == standings[i].1 && (r[i].top <==> standings[i].0 <= 4)
  {
    var shown := Sequences.Take(standings, 5);
    seq(|shown|, i requires 0 <= i < |shown| => SidebarRow(shown[i].0, shown[i].1, shown[i].0 <= 4))
  }
}
