/**
 * The comment/like store and its authentication gate: the `/api/signup`,
 * `/api/login`, `/api/profile` and `/api/comments...` routes of the
 * Express server, over in-memory user and comment collections.
 *
 * bcrypt and jsonwebtoken are foreign libraries: a password hash is a
 * symbolic value that `ComparePassword` recognises, and the token library is
 * a pair of functions (`Jwt`) whose expected behaviour is the predicate
 * `Honest`. The clock is the parameter `now` (seconds).
 */
module Server {
  import opened Optional
  import opened JsString
  import Sequences
  import Uri

  type UserId = string
  type CommentId = string
  /** A token payload: JSON field name to value. */
  type Claims = map<string, string>

  const TokenLifetime: int := 7 * 24 * 60 * 60   // expiresIn: '7d'
  const BcryptRounds: nat := 10
  const GmailSuffix := "@gmail.com"
  const BearerPrefix := "Bearer "

  const DomainError := "Only Gmail accounts are allowed (@gmail.com)"
  const DuplicateError := "Email already registered"
  const CredentialsError := "Invalid email or password"
  const NoTokenError := "No token provided"
  const BadTokenError := "Invalid token"
  const UserNotFoundError := "User not found"
  const CommentNotFoundError := "Comment not found"
  /** Status 500 bodies read "Server error: " followed by the exception's message. */
  const ServerError := "Server error: "

  // ------------------------------------------------------------------ password hashing

  datatype PasswordHash = Bcrypt(rounds: nat, secret: string)

  /** `bcrypt.hash(password, 10)`; salting is not modelled. */
  function HashPassword(password: string): PasswordHash {
    Bcrypt(BcryptRounds, password)
  }

  /** `bcrypt.compare(password, hash)`. */
  predicate ComparePassword(password: string, hash: PasswordHash) {
    hash.secret == password
  }

  // ------------------------------------------------------------------ tokens

  /** jsonwebtoken: `sign(payload, expiresAt)` and `verify(token, now)`. */
  datatype Jwt = Jwt(sign: (Claims, int) -> string, verify: (string, int) -> Option<Claims>)

  /**
   * What the server relies on from the library: a token it signed verifies
   * to its payload until the expiry instant (jsonwebtoken rejects it from
   * `exp` on), and its text is non-empty and free of spaces.
   */
  ghost predicate Honest(jwt: Jwt) {
    && (forall c, exp, now :: jwt.verify(jwt.sign(c, exp), now) == if now < exp then Some(c) else None)
    && (forall c, exp :: jwt.sign(c, exp) != [] && ' ' !in jwt.sign(c, exp))
  }

  /** The payload of every token this server issues: `{ userId, email }`. */
  function IssuedClaims(id: UserId, email: string): (c: Claims)
    ensures c.Keys == {"userId", "email"}
  {
    map["userId" := id, "email" := email]
  }

  function IssueToken(jwt: Jwt, id: UserId, email: string, now: int): string {
    jwt.sign(IssuedClaims(id, email), now + TokenLifetime)
  }

  // ------------------------------------------------------------------ records and replies

  datatype User = User(name: string, email: string, password: PasswordHash, createdAt: int)

  /** The `user` object of a reply: no password. */
  datatype PublicUser = PublicUser(id: UserId, name: string, email: string)

  datatype Comment = Comment(
    articleId: string,
    userId: UserId,
    userName: string,
    text: string,
    likes: int,
    likedBy: seq<UserId>,
    createdAt: int)

  /** A listed comment with the viewer's `hasLiked` flag. */
  datatype CommentView = CommentView(id: CommentId, comment: Comment, hasLiked: bool)

  datatype Reply =
    | Fail(status: int, error: string)
    | Authenticated(token: string, user: PublicUser)
    | CommentList(comments: seq<CommentView>)
    | Posted(id: CommentId, userName: string, text: string, likes: int, createdAt: int)
    | LikeState(likes: int, hasLiked: bool)
    | ProfileOf(user: PublicUser, createdAt: int)

  // ------------------------------------------------------------------ users

  ghost predicate EmailsUnique(users: map<UserId, User>) {
    forall a, b :: a in users && b in users && users[a].email == users[b].email ==> a == b
  }

  predicate EmailTaken(users: map<UserId, User>, email: string) {
    exists id :: id in users && users[id].email == email
  }

  /** `User.findOne({ email })`; the schema's `lowercase` setter also lower-cases the query. */
  function FindByEmail(users: map<UserId, User>, email: string): (r: Option<UserId>)
    requires EmailsUnique(users)
    ensures r.Some? <==> EmailTaken(users, Lower(email))
    ensures r.Some? ==> r.value in users && users[r.value].email == Lower(email)
  {
    var e := Lower(email);
    if EmailTaken(users, e) then Some(var id :| id in users && users[id].email == e; id) else None
  }

  /**
   * The checks of `/api/signup` that answer 400: the domain check looks at
   * nothing but the email, the duplicate check only runs on Gmail addresses.
   */
  function SignupRejection(users: map<UserId, User>, email: string): (r: Option<Reply>)
    ensures !EndsWith(Lower(email), GmailSuffix) ==> r == Some(Fail(400, DomainError))
    ensures EndsWith(Lower(email), GmailSuffix) && EmailTaken(users, Lower(email))
            ==> r == Some(Fail(400, DuplicateError))
    ensures r == None <==> EndsWith(Lower(email), GmailSuffix) && !EmailTaken(users, Lower(email))
  {
    if !EndsWith(Lower(email), GmailSuffix) then Some(Fail(400, DomainError))
    else if EmailTaken(users, Lower(email)) then Some(Fail(400, DuplicateError))
    else None
  }

  /** Some stored user has this (lower-cased) email and this password. */
  predicate CredentialsMatch(users: map<UserId, User>, email: string, password: string) {
    exists id :: id in users && users[id].email == Lower(email) && ComparePassword(password, users[id].password)
  }

  /**
   * `/api/login`: an unknown email and a wrong password give the very same
   * 400 reply; otherwise a fresh token for the stored user.
   */
  function Login(jwt: Jwt, users: map<UserId, User>, email: string, password: string, now: int): (r: Reply)
    requires EmailsUnique(users)
    ensures r.Fail? ==> r == Fail(400, CredentialsError)
    ensures r.Fail? <==> !CredentialsMatch(users, email, password)
    ensures r.Authenticated? ==>
              && r.user.id in users
              && r.user == PublicUser(r.user.id, users[r.user.id].name, Lower(email))
              && ComparePassword(password, users[r.user.id].password)
              && r.token == IssueToken(jwt, r.user.id, Lower(email), now)
    ensures r.Fail? || r.Authenticated?
  {
    match FindByEmail(users, email)
    case None => Fail(400, CredentialsError)
    case Some(id) =>
      var u := users[id];
      if !ComparePassword(password, u.password) then Fail(400, CredentialsError)
      else Authenticated(IssueToken(jwt, id, u.email, now), PublicUser(id, u.name, u.email))
  }

  // ------------------------------------------------------------------ the bearer gate

  /** `req.headers.authorization?.split(' ')[1]`. */
  function BearerToken(authorization: Option<string>): (r: Option<string>)
    ensures r.Some? ==> authorization.Some? && ' ' !in r.value
  {
    match authorization
    case None => None
    case Some(h) =>
      var parts := Split(h, ' ');
      if |parts| >= 2 then Some(parts[1]) else None
  }

  /** A header `Bearer <t>` carries `t` when `t` has no space. */
  lemma BearerTokenOf(t: string)
    requires ' ' !in t
    ensures BearerToken(Some(BearerPrefix + t)) == Some(t)
  {
    var parts := ["Bearer", t];
    assert Join(parts, ' ') == BearerPrefix + t by {
      assert Join(parts[1..], ' ') == t;
    }
    SplitJoin(parts, ' ');
  }

  datatype Gate = Denied(reply: Reply) | Admitted(userId: Option<UserId>)

  /**
   * The `verifyToken` middleware: 401 when the header carries no token or
   * the token does not verify; otherwise the handler runs with the token's
   * `userId` claim (absent when the payload has none).
   */
  function Authenticate(jwt: Jwt, authorization: Option<string>, now: int): (g: Gate)
    ensures g.Denied? ==> g.reply.Fail? && g.reply.status == 401
    ensures g.Denied? <==>
              || BearerToken(authorization) in {None, Some("")}
              || jwt.verify(BearerToken(authorization).value, now).None?
    ensures g.Admitted? ==>
              var claims := jwt.verify(BearerToken(authorization).value, now).value;
              g.userId == if "userId" in claims then Some(claims["userId"]) else None
  {
    var t := BearerToken(authorization);
    if t.None? || t.value == "" then Denied(Fail(401, NoTokenError))
    else
      match jwt.verify(t.value, now)
      case None => Denied(Fail(401, BadTokenError))
      case Some(claims) => Admitted(if "userId" in claims then Some(claims["userId"]) else None)
  }

  /**
   * A token this server issued admits its user until it expires and is
   * refused with 401 "Invalid token" from the expiry instant on.
   */
  lemma AuthenticateIssued(jwt: Jwt, id: UserId, email: string, issuedAt: int, now: int)
    requires Honest(jwt)
    ensures var header := Some(BearerPrefix + IssueToken(jwt, id, email, issuedAt));
            Authenticate(jwt, header, now)
            == if now < issuedAt + TokenLifetime then Admitted(Some(id)) else Denied(Fail(401, BadTokenError))
  {
    var t := IssueToken(jwt, id, email, issuedAt);
    BearerTokenOf(t);
  }

  // ------------------------------------------------------------------ profile

  /** `/api/profile`: the token's user without the password hash. */
  function Profile(jwt: Jwt, users: map<UserId, User>, authorization: Option<string>, now: int): (r: Reply)
    ensures Authenticate(jwt, authorization, now).Denied? ==> r.Fail? && r.status == 401
    ensures r.ProfileOf? <==>
              var g := Authenticate(jwt, authorization, now);
              g.Admitted? && g.userId.Some? && g.userId.value in users
    ensures r.ProfileOf? ==>
              r.user.id in users &&
              var u := users[r.user.id];
              r.user == PublicUser(r.user.id, u.name, u.email) && r.createdAt == u.createdAt
    ensures var g := Authenticate(jwt, authorization, now);
            g.Admitted? && (g.userId.None? || g.userId.value !in users) ==> r == Fail(404, UserNotFoundError)
    ensures r.Fail? || r.ProfileOf?
  {
    match Authenticate(jwt, authorization, now)
    case Denied(reply) => reply
    case Admitted(uid) =>
      if uid.None? || uid.value !in users then Fail(404, UserNotFoundError)
      else
        var u := users[uid.value];
        ProfileOf(PublicUser(uid.value, u.name, u.email), u.createdAt)
  }

  // ------------------------------------------------------------------ likes

  /** The like bookkeeping of a stored comment: the count is the number of distinct likers. */
  ghost predicate LikesConsistent(c: Comment) {
    c.likes == |c.likedBy| && Sequences.NoDup(c.likedBy)
  }

  function NotUser(u: UserId): UserId -> bool {
    x => x != u
  }

  /** `likedBy.filter(id => id !== u)`. */
  function Unlike(likedBy: seq<UserId>, u: UserId): (r: seq<UserId>)
    ensures u !in r
    ensures forall i :: 0 <= i < |likedBy| && likedBy[i] != u ==> likedBy[i] in r
    ensures forall i :: 0 <= i < |r| ==> r[i] in likedBy
  {
    Sequences.FilterMembers(likedBy, NotUser(u));
    Sequences.Filter(likedBy, NotUser(u))
  }

  /**
   * The like handler's update of one comment for user `u`: a liker is
   * removed (every occurrence) and the count drops by one, floored at 0; a
   * non-liker is appended once and the count rises by one. Nothing else in
   * the comment changes.
   */
  function ToggleLike(c: Comment, u: UserId): (r: Comment)
    ensures r == c.(likedBy := r.likedBy, likes := r.likes)
    ensures u in r.likedBy <==> u !in c.likedBy
    ensures forall x :: x != u ==> (x in r.likedBy <==> x in c.likedBy)
    ensures u in c.likedBy ==> r.likes == if c.likes >= 1 then c.likes - 1 else 0
    ensures u !in c.likedBy ==> r.likedBy == c.likedBy + [u] && r.likes == c.likes + 1
    ensures c.likes >= 0 ==> r.likes >= 0
  {
    if u in c.likedBy then
      var rest := Unlike(c.likedBy, u);
      assert forall x :: x != u && x in c.likedBy ==> x in rest by {
        forall x | x != u && x in c.likedBy ensures x in rest {
          var i :| 0 <= i < |c.likedBy| && c.likedBy[i] == x;
        }
      }
      c.(likedBy := rest, likes := if c.likes - 1 > 0 then c.likes - 1 else 0)
    else
      c.(likedBy := c.likedBy + [u], likes := c.likes + 1)
  }

  lemma {:induction false} UnlikeAbsent(s: seq<UserId>, u: UserId)
    requires u !in s
    ensures Unlike(s, u) == s
    decreases |s|
  {
    if s != [] {
      UnlikeAbsent(s[1..], u);
      assert s == [s[0]] + s[1..];
    }
  }

  lemma UnlikeCons(s: seq<UserId>, u: UserId)
    requires s != []
    ensures Unlike(s, u) == (if s[0] == u then [] else [s[0]]) + Unlike(s[1..], u)
  {
  }

  /** Removing a user from a duplicate-free list of likers keeps it duplicate-free. */
  lemma UnlikeNoDup(s: seq<UserId>, u: UserId)
    requires Sequences.NoDup(s)
    ensures Sequences.NoDup(Unlike(s, u))
  {
    Sequences.FilterNoDup(s, NotUser(u));
  }

  lemma {:induction false} UnlikeOnce(s: seq<UserId>, u: UserId)
    requires Sequences.NoDup(s) && u in s
    ensures multiset(Unlike(s, u)) + multiset{u} == multiset(s)
    decreases |s|
  {
    UnlikeCons(s, u);
    Sequences.NoDupTail(s);
    assert s == [s[0]] + s[1..];
    var rest := Unlike(s[1..], u);
    if s[0] == u {
      UnlikeAbsent(s[1..], u);
      assert Unlike(s, u) == s[1..];
    } else {
      UnlikeOnce(s[1..], u);
      assert Unlike(s, u) == [s[0]] + rest;
      assert multiset(Unlike(s, u)) == multiset{s[0]} + multiset(rest);
    }
  }

  /** A toggle keeps `likes == |likedBy|` with no duplicate liker. */
  lemma ToggleKeepsConsistent(c: Comment, u: UserId)
    requires LikesConsistent(c)
    ensures LikesConsistent(ToggleLike(c, u))
  {
    if u in c.likedBy {
      UnlikeOnce(c.likedBy, u);
      UnlikeNoDup(c.likedBy, u);
      assert |multiset(Unlike(c.likedBy, u))| + 1 == |multiset(c.likedBy)|;
    } else {
      var s := c.likedBy + [u];
      assert forall i :: 0 <= i < |c.likedBy| ==> s[i] == c.likedBy[i];
    }
  }

  /** Liking and then unliking restores the comment exactly. */
  lemma ToggleTwiceFromUnliked(c: Comment, u: UserId)
    requires u !in c.likedBy && c.likes >= 0
    ensures ToggleLike(ToggleLike(c, u), u) == c
  {
    var s := c.likedBy;
    Sequences.FilterAppend(s, [u], NotUser(u));
    UnlikeAbsent(s, u);
    assert Unlike([u], u) == [];
  }

  /**
   * Unliking and then liking again restores the count and the set of
   * likers; the liker moves to the end of `likedBy`.
   */
  lemma ToggleTwiceFromLiked(c: Comment, u: UserId)
    requires LikesConsistent(c) && u in c.likedBy
    ensures var r := ToggleLike(ToggleLike(c, u), u);
            r.likes == c.likes && multiset(r.likedBy) == multiset(c.likedBy) && r.likedBy[|r.likedBy| - 1] == u
  {
    UnlikeOnce(c.likedBy, u);
    assert |multiset(Unlike(c.likedBy, u))| + 1 == |multiset(c.likedBy)|;
  }

  // ------------------------------------------------------------------ listing

  /**
   * The viewer the listing derives from the header: `decoded.id` of a
   * `Bearer ` token that verifies, absent otherwise; a bad token is ignored.
   */
  function ListingViewer(jwt: Jwt, authorization: Option<string>, now: int): Option<string> {
    match authorization
    case None => None
    case Some(h) =>
      if !StartsWith(h, BearerPrefix) then None
      else
        match jwt.verify(h[|BearerPrefix|..], now)
        case None => None
        case Some(claims) => if "id" in claims then Some(claims["id"]) else None
  }

  /** `hasLiked` of one comment: only a non-empty viewer id can have liked. */
  predicate HasLiked(c: Comment, viewer: Option<string>) {
    viewer.Some? && viewer.value != "" && viewer.value in c.likedBy
  }

  /** The stored comments in posting order. */
  function Entries(comments: map<CommentId, Comment>, posted: seq<CommentId>): (r: seq<(CommentId, Comment)>)
    ensures forall i :: 0 <= i < |r| ==> r[i].0 in comments && r[i].1 == comments[r[i].0] && r[i].0 in posted
    ensures forall id :: id in posted && id in comments ==> (id, comments[id]) in r
    decreases |posted|
  {
    if posted == [] then []
    else
      var rest := Entries(comments, posted[1..]);
      assert forall id :: id in posted && id != posted[0] ==> id in posted[1..];
      assert forall id :: id in posted[1..] ==> id in posted;
      if posted[0] in comments then [(posted[0], comments[posted[0]])] + rest else rest
  }

  /** Each posted id is listed at most once. */
  lemma {:induction false} EntriesNoDup(comments: map<CommentId, Comment>, posted: seq<CommentId>)
    requires Sequences.NoDup(posted)
    ensures Sequences.NoDup(Entries(comments, posted))
    decreases |posted|
  {
    if posted != [] {
      Sequences.NoDupTail(posted);
      EntriesNoDup(comments, posted[1..]);
      var rest := Entries(comments, posted[1..]);
      if posted[0] in comments {
        var r := [(posted[0], comments[posted[0]])] + rest;
        assert r == Entries(comments, posted);
        forall i, j | 0 <= i < j < |r| ensures r[i] != r[j] {
          assert r[j] == rest[j - 1] && rest[j - 1].0 in posted[1..];
          if i > 0 {
            assert r[i] == rest[i - 1];
          }
        }
      }
    }
  }

  function OnArticle(articleId: string): ((CommentId, Comment)) -> bool {
    (e: (CommentId, Comment)) => e.1.articleId == articleId
  }

  function CreatedAt(e: (CommentId, Comment)): int {
    e.1.createdAt
  }

  /** The article's stored comments, newest first; equal times keep posting order. */
  function ArticleEntries(comments: map<CommentId, Comment>, posted: seq<CommentId>, articleId: string)
    : seq<(CommentId, Comment)>
  {
    Sequences.SortDesc(Sequences.Filter(Entries(comments, posted), OnArticle(articleId)), CreatedAt)
  }

  lemma ArticleEntriesNoDup(comments: map<CommentId, Comment>, posted: seq<CommentId>, articleId: string)
    requires Sequences.NoDup(posted)
    ensures Sequences.NoDup(ArticleEntries(comments, posted, articleId))
  {
    var all := Entries(comments, posted);
    var found := Sequences.Filter(all, OnArticle(articleId));
    EntriesNoDup(comments, posted);
    Sequences.FilterNoDup(all, OnArticle(articleId));
    Sequences.PermutationNoDup(found, Sequences.SortDesc(found, CreatedAt));
  }

  lemma ArticleEntriesStored(comments: map<CommentId, Comment>, posted: seq<CommentId>, articleId: string)
    ensures var s := ArticleEntries(comments, posted, articleId);
            forall i :: 0 <= i < |s| ==> s[i].0 in comments && s[i].1 == comments[s[i].0] && s[i].1.articleId == articleId
  {
    var found := Sequences.Filter(Entries(comments, posted), OnArticle(articleId));
    Sequences.FilterMembers(Entries(comments, posted), OnArticle(articleId));
    Sequences.SortDescMembers(found, CreatedAt);
  }

  lemma ArticleEntriesComplete(comments: map<CommentId, Comment>, posted: seq<CommentId>, articleId: string)
    ensures var s := ArticleEntries(comments, posted, articleId);
            forall id :: id in posted && id in comments && comments[id].articleId == articleId ==> (id, comments[id]) in s
  {
    var all := Entries(comments, posted);
    var found := Sequences.Filter(all, OnArticle(articleId));
    Sequences.FilterMembers(all, OnArticle(articleId));
    Sequences.SortDescMembers(found, CreatedAt);
    var s := ArticleEntries(comments, posted, articleId);
    forall id | id in posted && id in comments && comments[id].articleId == articleId
      ensures (id, comments[id]) in s
    {
      var e := (id, comments[id]);
      assert OnArticle(articleId)(e);
      var k :| 0 <= k < |all| && all[k] == e;
      assert e in found;
      var m :| 0 <= m < |found| && found[m] == e;
    }
  }

  lemma ArticleEntriesDistinct(comments: map<CommentId, Comment>, posted: seq<CommentId>, articleId: string)
    requires Sequences.NoDup(posted)
    ensures var s := ArticleEntries(comments, posted, articleId);
            forall i, j :: 0 <= i < j < |s| ==> s[i].0 != s[j].0
  {
    var s := ArticleEntries(comments, posted, articleId);
    ArticleEntriesNoDup(comments, posted, articleId);
    ArticleEntriesStored(comments, posted, articleId);
    forall i, j | 0 <= i < j < |s| ensures s[i].0 != s[j].0 {
      assert s[i] != s[j];
    }
  }

  /**
   * The article's entries are exactly its stored comments, newest first,
   * each listed once when no id was posted twice.
   */
  lemma ArticleEntriesFacts(comments: map<CommentId, Comment>, posted: seq<CommentId>, articleId: string)
    ensures var s := ArticleEntries(comments, posted, articleId);
            && (forall i :: 0 <= i < |s| ==> s[i].0 in comments && s[i].1 == comments[s[i].0] && s[i].1.articleId == articleId)
            && (forall id :: id in posted && id in comments && comments[id].articleId == articleId ==> (id, comments[id]) in s)
            && (forall i, j :: 0 <= i < j < |s| ==> s[i].1.createdAt >= s[j].1.createdAt)
            && (Sequences.NoDup(posted) ==> forall i, j :: 0 <= i < j < |s| ==> s[i].0 != s[j].0)
  {
    ArticleEntriesStored(comments, posted, articleId);
    ArticleEntriesComplete(comments, posted, articleId);
    Sequences.SortDescSorted(Sequences.Filter(Entries(comments, posted), OnArticle(articleId)), CreatedAt);
    if Sequences.NoDup(posted) {
      ArticleEntriesDistinct(comments, posted, articleId);
    }
  }

  function Views(s: seq<(CommentId, Comment)>, viewer: Option<string>): (r: seq<CommentView>)
    ensures |r| == |s|
    ensures forall i :: 0 <= i < |r| ==> r[i] == CommentView(s[i].0, s[i].1, HasLiked(s[i].1, viewer))
  {
    seq(|s|, i requires 0 <= i < |s| => CommentView(s[i].0, s[i].1, HasLiked(s[i].1, viewer)))
  }

  /**
   * The comments of one article, newest first (equal times keep posting
   * order), each with `hasLiked` for the given viewer.
   */
  function ListFor(comments: map<CommentId, Comment>, posted: seq<CommentId>, articleId: string, viewer: Option<string>)
    : (r: seq<CommentView>)
    ensures forall i :: 0 <= i < |r| ==>
              && r[i].id in comments && r[i].comment == comments[r[i].id]
              && r[i].comment.articleId == articleId
              && (r[i].hasLiked <==> HasLiked(r[i].comment, viewer))
    ensures forall id :: id in posted && id in comments && comments[id].articleId == articleId ==>
              exists i :: 0 <= i < |r| && r[i].id == id
    ensures forall i, j :: 0 <= i < j < |r| ==> r[i].comment.createdAt >= r[j].comment.createdAt
    ensures Sequences.NoDup(posted) ==> forall i, j :: 0 <= i < j < |r| ==> r[i].id != r[j].id
  {
    var s := ArticleEntries(comments, posted, articleId);
    var r := Views(s, viewer);
    assert forall i :: 0 <= i < |r| ==>
             && r[i].id in comments && r[i].comment == comments[r[i].id]
             && r[i].comment.articleId == articleId
             && (r[i].hasLiked <==> HasLiked(r[i].comment, viewer)) by {
      ArticleEntriesStored(comments, posted, articleId);
      forall i | 0 <= i < |r|
        ensures && r[i].id in comments && r[i].comment == comments[r[i].id]
                && r[i].comment.articleId == articleId
                && (r[i].hasLiked <==> HasLiked(r[i].comment, viewer))
      {
        assert r[i] == CommentView(s[i].0, s[i].1, HasLiked(s[i].1, viewer));
      }
    }
    assert forall id :: id in posted && id in comments && comments[id].articleId == articleId ==>
             exists i :: 0 <= i < |r| && r[i].id == id by {
      ArticleEntriesComplete(comments, posted, articleId);
      forall id | id in posted && id in comments && comments[id].articleId == articleId
        ensures exists i :: 0 <= i < |r| && r[i].id == id
      {
        var i :| 0 <= i < |s| && s[i] == (id, comments[id]);
        assert r[i].id == id;
      }
    }
    assert forall i, j :: 0 <= i < j < |r| ==> r[i].comment.createdAt >= r[j].comment.createdAt by {
      Sequences.SortDescSorted(Sequences.Filter(Entries(comments, posted), OnArticle(articleId)), CreatedAt);
      forall i, j | 0 <= i < j < |r| ensures r[i].comment.createdAt >= r[j].comment.createdAt {
        assert r[i].comment == s[i].1 && r[j].comment == s[j].1;
      }
    }
    assert Sequences.NoDup(posted) ==> forall i, j :: 0 <= i < j < |r| ==> r[i].id != r[j].id by {
      if Sequences.NoDup(posted) {
        ArticleEntriesDistinct(comments, posted, articleId);
        forall i, j | 0 <= i < j < |r| ensures r[i].id != r[j].id {
          assert r[i].id == s[i].0 && r[j].id == s[j].0;
        }
      }
    }
    r
  }

  /**
   * `GET /api/comments/:articleId` as written. Express has already decoded
   * the path parameter once; the handler runs `decodeURIComponent` on it
   * again, and a malformed escape there throws into the catch block (500).
   * A bad token never makes it fail.
   */
  function ListComments(jwt: Jwt, comments: map<CommentId, Comment>, posted: seq<CommentId>,
                        articleId: string, authorization: Option<string>, now: int): (r: Reply)
    ensures r.Fail? <==> Uri.DecodeUriComponent(articleId).None?
    ensures r.Fail? ==> r.status == 500
    ensures r.CommentList? ==>
              forall v :: v in r.comments ==> v.comment.articleId == Uri.DecodeUriComponent(articleId).value
    ensures r.CommentList? ==>
              r.comments == ListFor(comments, posted, Uri.DecodeUriComponent(articleId).value,
                                    ListingViewer(jwt, authorization, now))
    ensures r.Fail? || r.CommentList?
  {
    match Uri.DecodeUriComponent(articleId)
    case None => Fail(500, ServerError + "URI malformed")
    case Some(id) => CommentList(ListFor(comments, posted, id, ListingViewer(jwt, authorization, now)))
  }

  /** An id without `%` is unchanged by the second decoding: the route lists that very article. */
  lemma ListingPlainId(jwt: Jwt, comments: map<CommentId, Comment>, posted: seq<CommentId>,
                       articleId: string, authorization: Option<string>, now: int)
    requires '%' !in articleId
    ensures ListComments(jwt, comments, posted, articleId, authorization, now)
         == CommentList(ListFor(comments, posted, articleId, ListingViewer(jwt, authorization, now)))
  {
    Uri.DecodePlain(articleId);
  }

  /** The page asks for article `a%b` (sent as `a%25b`): the second decoding throws and the route answers 500. */
  lemma ListingMalformedId(jwt: Jwt, comments: map<CommentId, Comment>, posted: seq<CommentId>,
                           authorization: Option<string>, now: int)
    ensures ListComments(jwt, comments, posted, "a%b", authorization, now) == Fail(500, ServerError + "URI malformed")
  {
    Uri.DecodeStrayPercent();
  }

  /** The page asks for article `a%41`: the route lists article `aA` instead, never a comment of `a%41`. */
  lemma ListingRenamedId(jwt: Jwt, comments: map<CommentId, Comment>, posted: seq<CommentId>,
                         authorization: Option<string>, now: int)
    ensures var r := ListComments(jwt, comments, posted, "a%41", authorization, now);
            r.CommentList? && forall v :: v in r.comments ==> v.comment.articleId == "aA" != "a%41"
  {
    Uri.DecodeEscapedLetter();
  }

  /** Without a verifying `Bearer ` token every `hasLiked` is false. */
  lemma ListingAnonymous(jwt: Jwt, comments: map<CommentId, Comment>, posted: seq<CommentId>,
                         articleId: string, authorization: Option<string>, now: int)
    requires || authorization.None?
             || !StartsWith(authorization.value, BearerPrefix)
             || jwt.verify(authorization.value[|BearerPrefix|..], now).None?
    ensures var r := ListComments(jwt, comments, posted, articleId, authorization, now);
            r.CommentList? ==> forall v :: v in r.comments ==> !v.hasLiked
  {
  }

  /**
   * As written, the listing reads the `id` claim, but every token this
   * server issues carries `userId` and `email` only, so `hasLiked` is false
   * for every comment even when the viewer has liked it.
   */
  lemma ListingIgnoresIssuedTokens(jwt: Jwt, comments: map<CommentId, Comment>, posted: seq<CommentId>,
                                   articleId: string, id: UserId, email: string, issuedAt: int, now: int)
    requires Honest(jwt)
    ensures var header := Some(BearerPrefix + IssueToken(jwt, id, email, issuedAt));
            var r := ListComments(jwt, comments, posted, articleId, header, now);
            r.CommentList? ==> forall v :: v in r.comments ==> !v.hasLiked
  {
    var t := IssueToken(jwt, id, email, issuedAt);
    var h := BearerPrefix + t;
    assert h[|BearerPrefix|..] == t;
    assert "id" !in IssuedClaims(id, email);
    assert ListingViewer(jwt, Some(h), now) == None;
  }

  /** The viewer as evidently intended: the `userId` claim that `verifyToken` uses. */
  function ListingViewerByUserId(jwt: Jwt, authorization: Option<string>, now: int): Option<string> {
    match authorization
    case None => None
    case Some(h) =>
      if !StartsWith(h, BearerPrefix) then None
      else
        match jwt.verify(h[|BearerPrefix|..], now)
        case None => None
        case Some(claims) => if "userId" in claims then Some(claims["userId"]) else None
  }

  /**
   * The listing as evidently intended: the path parameter as Express
   * decoded it, and the viewer from the `userId` claim. It lists exactly the
   * article's comments.
   */
  function ListCommentsCorrected(jwt: Jwt, comments: map<CommentId, Comment>, posted: seq<CommentId>,
                                 articleId: string, authorization: Option<string>, now: int): (r: Reply)
    ensures r.CommentList?
    ensures forall v :: v in r.comments ==> v.comment.articleId == articleId
    ensures forall id :: id in posted && id in comments && comments[id].articleId == articleId ==>
              exists v :: v in r.comments && v.id == id
  {
    var r := ListFor(comments, posted, articleId, ListingViewerByUserId(jwt, authorization, now));
    assert forall id :: id in posted && id in comments && comments[id].articleId == articleId ==>
             exists v :: v in r && v.id == id by {
      forall id | id in posted && id in comments && comments[id].articleId == articleId
        ensures exists v :: v in r && v.id == id
      {
        var i :| 0 <= i < |r| && r[i].id == id;
        assert r[i] in r;
      }
    }
    CommentList(r)
  }

  /** With the `userId` claim, a signed-in viewer sees exactly the comments they have liked. */
  lemma CorrectedListingShowsOwnLikes(jwt: Jwt, comments: map<CommentId, Comment>, posted: seq<CommentId>,
                                      articleId: string, id: UserId, email: string, issuedAt: int, now: int)
    requires Honest(jwt) && id != "" && now < issuedAt + TokenLifetime
    ensures var header := Some(BearerPrefix + IssueToken(jwt, id, email, issuedAt));
            forall v :: v in ListCommentsCorrected(jwt, comments, posted, articleId, header, now).comments ==>
              (v.hasLiked <==> id in v.comment.likedBy)
  {
    var t := IssueToken(jwt, id, email, issuedAt);
    var h := BearerPrefix + t;
    assert h[|BearerPrefix|..] == t;
    assert ListingViewerByUserId(jwt, Some(h), now) == Some(id);
  }

  // ------------------------------------------------------------------ the store

  /** MongoDB's fresh `_id` for the n-th document created. */
  function ObjectId(n: nat): string {
    Decimal(n)
  }

  function NewComment(articleId: string, userId: UserId, userName: string, text: string, now: int): (c: Comment)
    ensures LikesConsistent(c)
  {
    Comment(articleId, userId, userName, text, 0, [], now)
  }

  /** The `users` and `comments` collections. */
  class Store {
    var users: map<UserId, User>
    var comments: map<CommentId, Comment>
    /** Comment ids in the order the comments were saved. */
    var posted: seq<CommentId>
    /** How many documents have been created: ids from this one on are unused. */
    var nextId: nat

    ghost predicate Valid()
      reads this
    {
      && EmailsUnique(users)
      && (forall id :: id in comments ==> LikesConsistent(comments[id]))
      && (forall id :: id in comments <==> id in posted)
      && Sequences.NoDup(posted)
      && (forall k: nat {:trigger ObjectId(k)} :: nextId <= k ==> ObjectId(k) !in users && ObjectId(k) !in comments)
    }

    constructor ()
      ensures Valid()
      ensures users == map[] && comments == map[] && posted == [] && nextId == 0
    {
      users, comments, posted, nextId := map[], map[], [], 0;
    }

    /** Every id from `nextId + 1` on is still unused once `ObjectId(nextId)` is taken. */
    lemma FreshAfter(n: nat, used: set<string>)
      requires forall k: nat {:trigger ObjectId(k)} :: n <= k ==> ObjectId(k) !in used
      ensures forall k: nat {:trigger ObjectId(k)} :: n + 1 <= k ==> ObjectId(k) !in used + {ObjectId(n)}
    {
      forall k: nat | n + 1 <= k ensures ObjectId(k) != ObjectId(n) {
        if ObjectId(k) == ObjectId(n) { DecimalInjective(k, n); }
      }
    }

    /**
     * `/api/signup`: a non-Gmail address or a taken one is refused with 400
     * and nothing is stored; an empty name fails the schema's `required`
     * check with 500; otherwise the user is stored with a lower-cased email
     * and a hashed password, and can then log in.
     */
    method Signup(jwt: Jwt, name: string, email: string, password: string, now: int) returns (r: Reply)
      requires Valid()
      modifies this
      ensures Valid()
      ensures SignupRejection(old(users), email).Some? ==>
                r == SignupRejection(old(users), email).value && unchanged(this)
      ensures SignupRejection(old(users), email).None? && name == "" ==>
                r.Fail? && r.status == 500 && unchanged(this)
      ensures SignupRejection(old(users), email).None? && name != "" ==>
                var id := ObjectId(old(nextId));
                && id !in old(users)
                && users == old(users)[id := User(name, Lower(email), HashPassword(password), now)]
                && comments == old(comments) && posted == old(posted) && nextId == old(nextId) + 1
                && r == Authenticated(IssueToken(jwt, id, Lower(email), now), PublicUser(id, name, Lower(email)))
                && Login(jwt, users, email, password, now) == r
    {
      var rejection := SignupRejection(users, email);
      if rejection.Some? {
        return rejection.value;
      }
      if name == "" {
        return Fail(500, ServerError + "users validation failed");
      }
      var id := ObjectId(nextId);
      var stored := Lower(email);
      var user := User(name, stored, HashPassword(password), now);
      FreshAfter(nextId, users.Keys + comments.Keys);
      users := users[id := user];
      nextId := nextId + 1;
      r := Authenticated(IssueToken(jwt, id, stored, now), PublicUser(id, name, stored));
      assert users[id].email == Lower(email);
      assert EmailsUnique(users);
      assert FindByEmail(users, email) == Some(id);
    }

    /**
     * `POST /api/comments`: 401 without a valid token and 404 when the
     * token's user is unknown, both without storing anything; an empty text
     * or article id fails the schema's `required` check with 500; otherwise a
     * new comment with no likes, listed after the earlier ones.
     */
    method PostComment(jwt: Jwt, authorization: Option<string>, articleId: string, text: string, now: int)
      returns (r: Reply)
      requires Valid()
      modifies this
      ensures Valid()
      ensures var g := Authenticate(jwt, authorization, now);
              && (g.Denied? ==> r == g.reply && unchanged(this))
              && (g.Admitted? && (g.userId.None? || g.userId.value !in old(users)) ==>
                    r == Fail(404, UserNotFoundError) && unchanged(this))
              && (g.Admitted? && g.userId.Some? && g.userId.value in old(users) && (articleId == "" || text == "") ==>
                    r.Fail? && r.status == 500 && unchanged(this))
              && (g.Admitted? && g.userId.Some? && g.userId.value in old(users) && articleId != "" && text != "" ==>
                    var id := ObjectId(old(nextId));
                    var author := old(users)[g.userId.value].name;
                    && id !in old(comments)
                    && comments == old(comments)[id := NewComment(articleId, g.userId.value, author, text, now)]
                    && posted == old(posted) + [id]
                    && users == old(users) && nextId == old(nextId) + 1
                    && r == Posted(id, author, text, 0, now))
    {
      var gate := Authenticate(jwt, authorization, now);
      if gate.Denied? {
        return gate.reply;
      }
      if gate.userId.None? || gate.userId.value !in users {
        return Fail(404, UserNotFoundError);
      }
      var uid := gate.userId.value;
      if articleId == "" || text == "" {
        return Fail(500, ServerError + "comments validation failed");
      }
      var author := users[uid].name;
      var id := ObjectId(nextId);
      FreshAfter(nextId, users.Keys + comments.Keys);
      assert id !in posted;
      comments := comments[id := NewComment(articleId, uid, author, text, now)];
      posted := posted + [id];
      nextId := nextId + 1;
      r := Posted(id, author, text, 0, now);
    }

    /**
     * `POST /api/comments/:commentId/like`: 401 without a valid token, 404
     * for an unknown comment, 500 when the token has no `userId` (the
     * handler's `toString` throws); otherwise the comment is toggled for the
     * user and the reply gives the new count and whether the user now likes it.
     */
    method LikeComment(jwt: Jwt, authorization: Option<string>, commentId: CommentId, now: int)
      returns (r: Reply)
      requires Valid()
      modifies this
      ensures Valid()
      ensures var g := Authenticate(jwt, authorization, now);
              && (g.Denied? ==> r == g.reply && unchanged(this))
              && (g.Admitted? && commentId !in old(comments) ==> r == Fail(404, CommentNotFoundError) && unchanged(this))
              && (g.Admitted? && commentId in old(comments) && g.userId.None? ==>
                    r.Fail? && r.status == 500 && unchanged(this))
              && (g.Admitted? && commentId in old(comments) && g.userId.Some? ==>
                    var before := old(comments)[commentId];
                    var after := ToggleLike(before, g.userId.value);
                    && comments == old(comments)[commentId := after]
                    && users == old(users) && posted == old(posted) && nextId == old(nextId)
                    && r == LikeState(after.likes, g.userId.value in after.likedBy))
    {
      var gate := Authenticate(jwt, authorization, now);
      if gate.Denied? {
        return gate.reply;
      }
      if commentId !in comments {
        return Fail(404, CommentNotFoundError);
      }
      if gate.userId.None? {
        return Fail(500, ServerError + "Cannot read properties of undefined (reading 'toString')");
      }
      var uid := gate.userId.value;
      var c := comments[commentId];
      ToggleKeepsConsistent(c, uid);
      var hasLiked := uid in c.likedBy;
      if hasLiked {
        c := c.(likedBy := Unlike(c.likedBy, uid), likes := if c.likes - 1 > 0 then c.likes - 1 else 0);
      } else {
        c := c.(likedBy := c.likedBy + [uid], likes := c.likes + 1);
      }
      comments := comments[commentId := c];
      r := LikeState(c.likes, !hasLiked);
    }
  }
}
