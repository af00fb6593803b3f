/**
 * The relational state behind db/sqlite.go, as values: the `users` and `posts`
 * tables keyed by id, with the two AUTOINCREMENT counters, and one function per
 * SQL statement the store issues. The SQLiteStore class ties its fields to these
 * functions; the lemmas here are the store's promises.
 */
module Relational {
  import opened Wrappers
  import opened Models
  import Bcrypt

  /** The largest rowid SQLite hands out; AUTOINCREMENT then fails with SQLITE_FULL. */
  const MaxRowId: int := 0x7FFF_FFFF_FFFF_FFFF

  /** A row of `users`: username and email carry UNIQUE constraints. */
  datatype UserRow = UserRow(username: string, email: string, password: string, createdAt: Time, updatedAt: Time)

  /** A row of `posts`: user_id references users.id, but the reference is not enforced. */
  datatype PostRow = PostRow(title: string, content: string, userId: int, createdAt: Time, updatedAt: Time)

  /** Both tables and the sqlite_sequence entry (largest id ever assigned) of each. */
  datatype Tables = Tables(users: map<int, UserRow>, posts: map<int, PostRow>, userSeq: int, postSeq: int)

  /** The errors the store's statements produce (sql.ErrNoRows, constraint, SQLITE_FULL, bcrypt mismatch). */
  datatype StoreError = ErrNoRows | ErrUnique(column: string) | ErrFull | ErrMismatchedPassword

  /** A database file just created by Initialize. */
  const Empty: Tables := Tables(map[], map[], 0, 0)

  /** The schema's guarantees, and that every stored password went through bcrypt. */
  ghost predicate Valid(t: Tables) {
    && 0 <= t.userSeq <= MaxRowId
    && 0 <= t.postSeq <= MaxRowId
    && (forall id :: id in t.users ==> 1 <= id <= t.userSeq)
    && (forall id :: id in t.posts ==> 1 <= id <= t.postSeq)
    && (forall a, b :: a in t.users && b in t.users && a != b ==> t.users[a].username != t.users[b].username)
    && (forall a, b :: a in t.users && b in t.users && a != b ==> t.users[a].email != t.users[b].email)
    && (forall id :: id in t.users ==> Bcrypt.IsHash(t.users[id].password))
  }

  lemma EmptyIsValid()
    ensures Valid(Empty)
  {
  }

  predicate UsernameTaken(t: Tables, name: string) {
    exists id :: id in t.users && t.users[id].username == name
  }

  predicate EmailTaken(t: Tables, email: string) {
    exists id :: id in t.users && t.users[id].email == email
  }

  /** A user with this name exists and the password verifies against its stored hash. */
  ghost predicate Authenticates(t: Tables, name: string, password: string) {
    exists id :: id in t.users && t.users[id].username == name && Bcrypt.Verify(t.users[id].password, password)
  }

  /** SELECT id, username, email, password, created_at, updated_at FROM users */
  function UserOf(t: Tables, id: int): User
    requires id in t.users
  {
    var row := t.users[id];
    User(id, row.username, row.email, row.password, row.createdAt, row.updatedAt)
  }

  /** The row FindUserByUsername finds; by the UNIQUE constraint there is at most one. */
  ghost function UserNamed(t: Tables, name: string): (r: Option<User>)
    requires Valid(t)
    ensures r.Some? <==> UsernameTaken(t, name)
    ensures r.Some? ==> r.value.id in t.users && r.value == UserOf(t, r.value.id) && r.value.username == name
    ensures r.Some? ==> forall id :: id in t.users && t.users[id].username == name ==> id == r.value.id
  {
    if UsernameTaken(t, name) then
      var id :| id in t.users && t.users[id].username == name;
      Some(UserOf(t, id))
    else None
  }

  /** Authenticate: the user by that name, if the password verifies against its stored hash. */
  ghost function AuthenticateUser(t: Tables, name: string, password: string): (r: Result<User, StoreError>)
    requires Valid(t)
    ensures r.Success? <==> Authenticates(t, name, password)
    ensures r.Success? ==> r.value.username == name && r.value.id in t.users && r.value == UserOf(t, r.value.id)
    ensures r.Failure? ==> (r.error == ErrNoRows <==> !UsernameTaken(t, name))
    ensures r.Failure? ==> r.error == ErrNoRows || r.error == ErrMismatchedPassword
  {
    match UserNamed(t, name)
    case None => Failure(ErrNoRows)
    case Some(u) => if Bcrypt.Verify(u.password, password) then Success(u) else Failure(ErrMismatchedPassword)
  }

  /** The author columns of the posts JOIN users query: the password is not selected. */
  function AuthorOf(t: Tables, id: int): User
    requires id in t.users
  {
    var row := t.users[id];
    User(id, row.username, row.email, "", row.createdAt, row.updatedAt)
  }

  /** The post survives the inner JOIN: the row exists and so does its author. */
  predicate Visible(t: Tables, id: int) {
    id in t.posts && t.posts[id].userId in t.users
  }

  /** The row that `... FROM posts p JOIN users u ON p.user_id = u.id WHERE p.id = ?` produces. */
  function PostView(t: Tables, id: int): Option<Post> {
    if Visible(t, id) then
      var row := t.posts[id];
      Some(Post(id, row.title, row.content, row.userId, Some(AuthorOf(t, row.userId)), row.createdAt, row.updatedAt))
    else None
  }

  /** The ids of all posts the JOIN keeps. */
  ghost function VisibleIds(t: Tables): set<int> {
    set id | id in t.posts && Visible(t, id)
  }

  /** Rows newest first by created_at. */
  predicate NewestFirst(s: seq<Post>) {
    forall i, j :: 0 <= i < j < |s| ==> s[i].createdAt >= s[j].createdAt
  }

  /** No post appears twice. */
  predicate DistinctIds(s: seq<Post>) {
    forall i, j :: 0 <= i < j < |s| ==> s[i].id != s[j].id
  }

  /**
   * What FindAllPosts may return: exactly the joined posts, each once, newest
   * first by created_at (rows with equal created_at in any order).
   */
  ghost predicate Listing(t: Tables, s: seq<Post>) {
    && (forall p :: p in s <==> Visible(t, p.id) && PostView(t, p.id) == Some(p))
    && DistinctIds(s)
    && NewestFirst(s)
  }

  /** The number of leading rows at least as new as `p`: where ORDER BY created_at DESC puts it. */
  function SlotFor(s: seq<Post>, p: Post): (k: nat)
    ensures k <= |s|
    ensures forall i :: 0 <= i < k ==> s[i].createdAt >= p.createdAt
    ensures k < |s| ==> s[k].createdAt < p.createdAt
  {
    if s == [] || s[0].createdAt < p.createdAt then 0 else 1 + SlotFor(s[1..], p)
  }

  /** The sorted output with one more row placed by its created_at. */
  function InsertNewestFirst(s: seq<Post>, p: Post): seq<Post> {
    var k := SlotFor(s, p);
    s[..k] + [p] + s[k..]
  }

  /** Placing a row with a new id keeps the output ordered and duplicate-free, and adds exactly that row. */
  lemma InsertNewestFirstKeeps(s: seq<Post>, p: Post)
    requires NewestFirst(s) && DistinctIds(s)
    requires forall q :: q in s ==> q.id != p.id
    ensures var r := InsertNewestFirst(s, p);
      && NewestFirst(r)
      && DistinctIds(r)
      && (forall q :: q in r <==> q in s || q == p)
  {
    var k := SlotFor(s, p);
    var r := InsertNewestFirst(s, p);
    assert |r| == |s| + 1;
    assert forall i :: 0 <= i < k ==> r[i] == s[i];
    assert r[k] == p;
    assert forall i :: k < i < |r| ==> r[i] == s[i - 1];
    forall i, j | 0 <= i < j < |r|
      ensures r[i].createdAt >= r[j].createdAt
      ensures r[i].id != r[j].id
    {
      if j == k {
        assert r[i] in s;
      } else if i == k {
        assert r[j] == s[j - 1] && r[j] in s;
        assert s[j - 1].createdAt <= s[k].createdAt;
      }
    }
    forall q | q in r
      ensures q in s || q == p
    {
      var i :| 0 <= i < |r| && r[i] == q;
      if i < k {
        assert q == s[i];
      } else if i > k {
        assert q == s[i - 1];
      }
    }
    forall q | q in s
      ensures q in r
    {
      var i :| 0 <= i < |s| && s[i] == q;
      if i < k {
        assert r[i] == q;
      } else {
        assert r[i + 1] == q;
      }
    }
  }

  // ---------------------------------------------------------------- statements

  /** INSERT INTO posts: the new row gets the id after the largest one ever assigned. */
  function InsertPost(t: Tables, title: string, content: string, userId: int, now: Time): Result<Tables, StoreError> {
    if t.postSeq >= MaxRowId then Failure(ErrFull)
    else
      var id := t.postSeq + 1;
      Success(t.(posts := t.posts[id := PostRow(title, content, userId, now, now)], postSeq := id))
  }

  /** UPDATE posts SET title = ?, content = ?, updated_at = ? WHERE id = ? */
  function UpdatePostRow(t: Tables, id: int, title: string, content: string, now: Time): Tables {
    if id in t.posts then
      t.(posts := t.posts[id := t.posts[id].(title := title, content := content, updatedAt := now)])
    else t
  }

  /** DELETE FROM posts WHERE id = ? */
  function DeletePostRow(t: Tables, id: int): Tables {
    t.(posts := t.posts - {id})
  }

  /** INSERT INTO users: rowid allocation, then the two UNIQUE constraints. */
  function InsertUser(t: Tables, username: string, email: string, password: string, now: Time): Result<Tables, StoreError> {
    if t.userSeq >= MaxRowId then Failure(ErrFull)
    else if UsernameTaken(t, username) then Failure(ErrUnique("users.username"))
    else if EmailTaken(t, email) then Failure(ErrUnique("users.email"))
    else
      var id := t.userSeq + 1;
      Success(t.(users := t.users[id := UserRow(username, email, password, now, now)], userSeq := id))
  }

  /** Another row than `id` already holds this username. */
  predicate UsernameTakenByOther(t: Tables, id: int, name: string) {
    exists other :: other in t.users && other != id && t.users[other].username == name
  }

  predicate EmailTakenByOther(t: Tables, id: int, email: string) {
    exists other :: other in t.users && other != id && t.users[other].email == email
  }

  /** UPDATE users SET username = ?, email = ?, updated_at = ? WHERE id = ? */
  function UpdateUserRow(t: Tables, id: int, username: string, email: string, now: Time): Result<Tables, StoreError> {
    if id !in t.users then Success(t)
    else if UsernameTakenByOther(t, id, username) then Failure(ErrUnique("users.username"))
    else if EmailTakenByOther(t, id, email) then Failure(ErrUnique("users.email"))
    else Success(t.(users := t.users[id := t.users[id].(username := username, email := email, updatedAt := now)]))
  }

  /** DELETE FROM users WHERE id = ?; without PRAGMA foreign_keys nothing cascades. */
  function DeleteUserRow(t: Tables, id: int): Tables {
    t.(users := t.users - {id})
  }

  // ---------------------------------------------------------------- posts

  /** CreatePost fails only when the id space is exhausted; otherwise the id is new and larger than all before. */
  lemma InsertPostFresh(t: Tables, title: string, content: string, userId: int, now: Time)
    requires Valid(t)
    ensures InsertPost(t, title, content, userId, now).Success? <==> t.postSeq < MaxRowId
    ensures InsertPost(t, title, content, userId, now).Success? ==>
      var t' := InsertPost(t, title, content, userId, now).value;
      var id := t.postSeq + 1;
      && id !in t.posts
      && (forall old_id :: old_id in t.posts ==> old_id < id)
      && Valid(t')
      && t'.postSeq == id
      && t'.users == t.users
      && t'.posts == t.posts[id := PostRow(title, content, userId, now, now)]
      && t'.posts[id].createdAt == t'.posts[id].updatedAt
  {
  }

  /** Create then find: the new post reads back with its title, content and author, when the author exists. */
  lemma CreateThenFind(t: Tables, title: string, content: string, userId: int, now: Time)
    requires Valid(t) && t.postSeq < MaxRowId
    ensures var t' := InsertPost(t, title, content, userId, now).value;
      var id := t.postSeq + 1;
      && (userId in t.users ==>
            PostView(t', id) == Some(Post(id, title, content, userId, Some(AuthorOf(t, userId)), now, now)))
      && (userId !in t.users ==> id in t'.posts && PostView(t', id) == None)
  {
  }

  /** UpdatePost rewrites title, content and updated_at of one row and nothing else; an absent id changes nothing. */
  lemma UpdatePostFrame(t: Tables, id: int, title: string, content: string, now: Time)
    requires Valid(t)
    ensures var t' := UpdatePostRow(t, id, title, content, now);
      && Valid(t')
      && t'.users == t.users && t'.userSeq == t.userSeq && t'.postSeq == t.postSeq
      && t'.posts.Keys == t.posts.Keys
      && (forall other :: other in t.posts && other != id ==> t'.posts[other] == t.posts[other])
      && (id in t.posts ==>
            && t'.posts[id].title == title && t'.posts[id].content == content
            && t'.posts[id].updatedAt == now
            && t'.posts[id].userId == t.posts[id].userId
            && t'.posts[id].createdAt == t.posts[id].createdAt)
      && (id !in t.posts ==> t' == t)
  {
  }

  /** DeletePost removes exactly that row, and a second delete changes nothing more. */
  lemma DeletePostIdempotent(t: Tables, id: int)
    requires Valid(t)
    ensures var t' := DeletePostRow(t, id);
      && Valid(t')
      && DeletePostRow(t', id) == t'
      && t'.posts.Keys == t.posts.Keys - {id}
      && (forall other :: other in t'.posts ==> t'.posts[other] == t.posts[other])
      && t'.users == t.users
      && PostView(t', id) == None
      && (id !in t.posts ==> t' == t)
  {
    var t' := DeletePostRow(t, id);
    assert t'.posts - {id} == t'.posts;
    if id !in t.posts {
      assert t.posts - {id} == t.posts;
    }
  }

  // ---------------------------------------------------------------- users

  /** CreateUser leaves the table alone when the username or the email is taken. */
  lemma InsertUserRejectsDuplicates(t: Tables, username: string, email: string, password: string, now: Time)
    requires UsernameTaken(t, username) || EmailTaken(t, email)
    ensures InsertUser(t, username, email, password, now).Failure?
  {
  }

  /** A successful CreateUser stores the bcrypt hash (never the plaintext) under a fresh id, and keeps the constraints. */
  lemma InsertUserStoresHash(t: Tables, username: string, email: string, salt: Bcrypt.Salt, password: string, now: Time)
    requires Valid(t)
    ensures var r := InsertUser(t, username, email, Bcrypt.Hash(salt, password), now);
      && (r.Success? <==> t.userSeq < MaxRowId && !UsernameTaken(t, username) && !EmailTaken(t, email))
      && (r.Success? ==>
            var id := t.userSeq + 1;
            && Valid(r.value)
            && id !in t.users
            && r.value.posts == t.posts
            && r.value.users == t.users[id := UserRow(username, email, Bcrypt.Hash(salt, password), now, now)]
            && r.value.users[id].password != password)
  {
    var r := InsertUser(t, username, email, Bcrypt.Hash(salt, password), now);
    Bcrypt.HashIsNotPlaintext(salt, password);
    if r.Success? {
      var id := t.userSeq + 1;
      var t' := r.value;
      forall a, b | a in t'.users && b in t'.users && a != b
        ensures t'.users[a].username != t'.users[b].username
        ensures t'.users[a].email != t'.users[b].email
      {
        if a == id {
          assert b in t.users;
        } else if b == id {
          assert a in t.users;
        }
      }
    }
  }

  /** Register then log in: the new account is the only one with that name, and only its password verifies. */
  lemma RegisterThenAuthenticate(t: Tables, username: string, email: string, salt: Bcrypt.Salt, password: string, now: Time)
    requires Valid(t)
    requires InsertUser(t, username, email, Bcrypt.Hash(salt, password), now).Success?
    ensures var t' := InsertUser(t, username, email, Bcrypt.Hash(salt, password), now).value;
      var id := t.userSeq + 1;
      && id in t'.users
      && (forall other :: other in t'.users && t'.users[other].username == username ==> other == id)
      && Authenticates(t', username, password)
      && (forall wrong :: wrong != password ==> !Authenticates(t', username, wrong))
  {
    var t' := InsertUser(t, username, email, Bcrypt.Hash(salt, password), now).value;
    var id := t.userSeq + 1;
    InsertUserStoresHash(t, username, email, salt, password, now);
    Bcrypt.VerifyHash(salt, password, password);
    assert Bcrypt.Verify(t'.users[id].password, password);
    forall wrong | wrong != password
      ensures !Authenticates(t', username, wrong)
    {
      Bcrypt.VerifyHash(salt, password, wrong);
    }
  }

  /** UpdateUser keeps the constraints; it fails only on a clash with another row, and then changes nothing. */
  lemma UpdateUserKeepsValid(t: Tables, id: int, username: string, email: string, now: Time)
    requires Valid(t)
    ensures var r := UpdateUserRow(t, id, username, email, now);
      && (r.Failure? <==> id in t.users && (UsernameTakenByOther(t, id, username) || EmailTakenByOther(t, id, email)))
      && (r.Success? ==> Valid(r.value) && r.value.posts == t.posts && r.value.users.Keys == t.users.Keys)
      && (r.Success? && id in t.users ==>
            && r.value.users[id].password == t.users[id].password
            && r.value.users[id].createdAt == t.users[id].createdAt)
  {
    var r := UpdateUserRow(t, id, username, email, now);
    if r.Success? && id in t.users {
      var t' := r.value;
      forall a, b | a in t'.users && b in t'.users && a != b
        ensures t'.users[a].username != t'.users[b].username
        ensures t'.users[a].email != t'.users[b].email
      {
        if a == id {
          assert !(b in t.users && b != id && t.users[b].username == username);
        } else if b == id {
          assert !(a in t.users && a != id && t.users[a].username == username);
        }
      }
    }
  }

  /** DeleteUser removes only the user row; that user's posts stay stored but drop out of every JOIN. */
  lemma DeleteUserOrphansPosts(t: Tables, userId: int, postId: int)
    requires Valid(t)
    requires postId in t.posts && t.posts[postId].userId == userId
    ensures var t' := DeleteUserRow(t, userId);
      && Valid(t')
      && t'.posts == t.posts
      && postId in t'.posts
      && PostView(t', postId) == None
  {
  }

  // ---------------------------------------------------------------- listings

  /** With no posts stored, the listing is empty. */
  lemma ListingOfNoPosts(t: Tables, s: seq<Post>)
    requires t.posts == map[] && Listing(t, s)
    ensures s == []
  {
    HeadIsListed(s);
  }

  /**
   * A non-empty listing has a first post that is a member of it. Listing
   * speaks of posts by membership, so this is the fact that lets the empty
   * posts map rule a first post out.
   */
  lemma HeadIsListed(s: seq<Post>)
    ensures s != [] ==> s[0] in s
  {
  }

  /** After DeleteUser, no listed post belongs to the deleted user. */
  lemma ListingAfterDeleteUser(t: Tables, userId: int, s: seq<Post>)
    requires Listing(DeleteUserRow(t, userId), s)
    ensures forall p :: p in s ==> p.userId != userId
  {
  }
}
