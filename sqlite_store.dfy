/**
 * db/sqlite.go: SQLiteStore. The database file is the object; its two tables
 * and their AUTOINCREMENT counters are the fields that INSERT, UPDATE and
 * DELETE change in place. Every method is tied to the statement function of
 * module Relational that it executes, so that the lemmas proved there are the
 * store's promises.
 */
module Store {
  import opened Wrappers
  import opened Models
  import opened Relational
  import Bcrypt

  class SQLiteStore {
    var users: map<int, UserRow>
    var posts: map<int, PostRow>
    var userSeq: int
    var postSeq: int

    /** The relational state the fields hold. */
    function State(): Tables
      reads this
    {
      Tables(users, posts, userSeq, postSeq)
    }

    /** The schema constraints hold (UNIQUE columns, ids below their counters, hashed passwords). */
    ghost predicate Valid()
      reads this
    {
      Relational.Valid(State())
    }

    /** NewSQLiteStore on a fresh file: Initialize creates both tables, empty. */
    constructor ()
      ensures Valid() && State() == Empty
    {
      users, posts, userSeq, postSeq := map[], map[], 0, 0;
    }

    // ------------------------------------------------------------ posts

    /**
     * FindAllPosts: no rows gives the empty list. Otherwise the JOIN scans
     * posts in rowid order, drops rows without an author, and ORDER BY places
     * each remaining row by created_at; the rows loop then copies them out in
     * that order, which the model folds into the same loop.
     */
    method FindAllPosts() returns (r: seq<Post>)
      requires Valid()
      ensures Listing(State(), r)
      ensures posts == map[] ==> r == []
    {
      ghost var t := State();
      if |posts| == 0 {
        return [];
      }
      r := [];
      var id := 1;
      while id <= postSeq
        invariant 1 <= id <= postSeq + 1
        invariant forall p :: p in r <==> p.id < id && PostView(t, p.id) == Some(p)
        invariant DistinctIds(r) && NewestFirst(r)
      {
        var view := PostView(State(), id);
        if view.Some? {
          InsertNewestFirstKeeps(r, view.value);
          r := InsertNewestFirst(r, view.value);
        }
        id := id + 1;
      }
    }

    /** The JOIN query by id: found exactly when the post and its author both exist. */
    method FindPostByID(id: int) returns (r: Result<Post, StoreError>)
      ensures r.Success? <==> Visible(State(), id)
      ensures r.Success? ==> PostView(State(), id) == Some(r.value)
      ensures r.Success? ==> r.value.id == id && r.value.author.Some? && r.value.author.value.id == r.value.userId
      ensures r.Success? ==> r.value.author.value.password == ""
      ensures r.Failure? ==> r.error == ErrNoRows
    {
      var view := PostView(State(), id);
      if view.None? {
        return Failure(ErrNoRows);
      }
      r := Success(view.value);
    }

    /** CreatePost: the INSERT, then the id and both timestamps written back into the post. */
    method CreatePost(post: Post, now: Time) returns (r: Result<Post, StoreError>)
      requires Valid()
      modifies this
      ensures Valid()
      ensures var ins := InsertPost(old(State()), post.title, post.content, post.userId, now);
        && (ins.Failure? ==> r == Failure(ins.error) && State() == old(State()))
        && (ins.Success? ==> State() == ins.value && r == Success(post.(id := old(postSeq) + 1, createdAt := now, updatedAt := now)))
      ensures r.Success? ==> r.value.id !in old(posts) && (forall k :: k in old(posts) ==> k < r.value.id)
      ensures r.Success? ==> r.value.createdAt == r.value.updatedAt
    {
      InsertPostFresh(State(), post.title, post.content, post.userId, now);
      var ins := InsertPost(State(), post.title, post.content, post.userId, now);
      if ins.Failure? {
        return Failure(ins.error);
      }
      var id := postSeq + 1;
      posts, postSeq := ins.value.posts, ins.value.postSeq;
      r := Success(post.(id := id, createdAt := now, updatedAt := now));
    }

    /** UpdatePost: rewrites title, content and updated_at of row post.id; an absent id is not an error. */
    method UpdatePost(post: Post, now: Time) returns (r: Post)
      requires Valid()
      modifies this
      ensures Valid()
      ensures State() == UpdatePostRow(old(State()), post.id, post.title, post.content, now)
      ensures r == post.(updatedAt := now)
    {
      UpdatePostFrame(State(), post.id, post.title, post.content, now);
      if post.id in posts {
        posts := posts[post.id := posts[post.id].(title := post.title, content := post.content, updatedAt := now)];
      }
      r := post.(updatedAt := now);
    }

    /** DeletePost: removes the row if present; never an error. */
    method DeletePost(id: int)
      requires Valid()
      modifies this
      ensures Valid()
      ensures State() == DeletePostRow(old(State()), id)
    {
      DeletePostIdempotent(State(), id);
      posts := posts - {id};
    }

    // ------------------------------------------------------------ users

    method FindUserByID(id: int) returns (r: Result<User, StoreError>)
      ensures r.Success? <==> id in users
      ensures r.Success? ==> r.value == UserOf(State(), id) && r.value.id == id
      ensures r.Failure? ==> r.error == ErrNoRows
    {
      if id !in users {
        return Failure(ErrNoRows);
      }
      r := Success(UserOf(State(), id));
    }

    /** SELECT ... WHERE username = ?: by the UNIQUE constraint at most one row matches. */
    method FindUserByUsername(username: string) returns (r: Result<User, StoreError>)
      requires Valid()
      ensures r.Success? <==> UsernameTaken(State(), username)
      ensures r.Success? ==> Some(r.value) == UserNamed(State(), username)
      ensures r.Failure? ==> r.error == ErrNoRows
    {
      if !UsernameTaken(State(), username) {
        return Failure(ErrNoRows);
      }
      var id :| id in users && users[id].username == username;
      r := Success(UserOf(State(), id));
    }

    /** SELECT ... WHERE email = ?: by the UNIQUE constraint at most one row matches. */
    method FindUserByEmail(email: string) returns (r: Result<User, StoreError>)
      requires Valid()
      ensures r.Success? <==> EmailTaken(State(), email)
      ensures r.Success? ==> r.value.id in users && r.value == UserOf(State(), r.value.id) && r.value.email == email
      ensures r.Success? ==> forall id :: id in users && users[id].email == email ==> id == r.value.id
      ensures r.Failure? ==> r.error == ErrNoRows
    {
      if !EmailTaken(State(), email) {
        return Failure(ErrNoRows);
      }
      var id :| id in users && users[id].email == email;
      r := Success(UserOf(State(), id));
    }

    /**
     * CreateUser: hashes the plaintext with the given salt, INSERTs, and writes
     * the id and timestamps back. The caller's record keeps its plaintext
     * password; only the table holds the hash.
     */
    method CreateUser(user: User, salt: Bcrypt.Salt, now: Time) returns (r: Result<User, StoreError>)
      requires Valid()
      modifies this
      ensures Valid()
      ensures var ins := InsertUser(old(State()), user.username, user.email, Bcrypt.Hash(salt, user.password), now);
        && (ins.Failure? ==> r == Failure(ins.error) && State() == old(State()))
        && (ins.Success? ==> State() == ins.value && r == Success(user.(id := old(userSeq) + 1, createdAt := now, updatedAt := now)))
      ensures r.Success? ==> r.value.id in users && users[r.value.id].password != user.password
      ensures r.Success? ==> Bcrypt.Verify(users[r.value.id].password, user.password)
    {
      var hashed := Bcrypt.Hash(salt, user.password);
      InsertUserStoresHash(State(), user.username, user.email, salt, user.password, now);
      Bcrypt.VerifyHash(salt, user.password, user.password);
      var ins := InsertUser(State(), user.username, user.email, hashed, now);
      if ins.Failure? {
        return Failure(ins.error);
      }
      var id := userSeq + 1;
      users, userSeq := ins.value.users, ins.value.userSeq;
      r := Success(user.(id := id, createdAt := now, updatedAt := now));
    }

    /** UpdateUser: username, email and updated_at of row user.id; the password is never rewritten. */
    method UpdateUser(user: User, now: Time) returns (r: Result<User, StoreError>)
      requires Valid()
      modifies this
      ensures Valid()
      ensures var upd := UpdateUserRow(old(State()), user.id, user.username, user.email, now);
        && (upd.Failure? ==> r == Failure(upd.error) && State() == old(State()))
        && (upd.Success? ==> State() == upd.value && r == Success(user.(updatedAt := now)))
    {
      UpdateUserKeepsValid(State(), user.id, user.username, user.email, now);
      var upd := UpdateUserRow(State(), user.id, user.username, user.email, now);
      if upd.Failure? {
        return Failure(upd.error);
      }
      users := upd.value.users;
      r := Success(user.(updatedAt := now));
    }

    /** DeleteUser: removes the user row only; posts are not touched. */
    method DeleteUser(id: int)
      requires Valid()
      modifies this
      ensures Valid()
      ensures State() == DeleteUserRow(old(State()), id)
    {
      users := users - {id};
    }

    /**
     * Authenticate: look the user up by name, then compare the stored hash.
     * The two failures are different errors here; the login handler maps both
     * to the same response.
     */
    method Authenticate(username: string, password: string) returns (r: Result<User, StoreError>)
      requires Valid()
      ensures r == AuthenticateUser(State(), username, password)
      ensures r.Success? <==> Authenticates(State(), username, password)
    {
      var found := FindUserByUsername(username);
      if found.Failure? {
        return Failure(found.error);
      }
      var user := found.value;
      if !Bcrypt.Verify(user.password, password) {
        return Failure(ErrMismatchedPassword);
      }
      r := Success(user);
    }
  }
}
