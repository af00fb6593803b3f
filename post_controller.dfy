/**
 * controllers/post.go. Each handler is a chain of early returns in the
 * order its Go function has them, ending in at most one store write and a
 * redirect. The functions below state each chain
 * over the relational state; the handler methods run it against the store
 * object and are proved to agree with them; the lemmas are the handlers'
 * promises. Template rendering is reduced to the page and its data;
 * `storeOpen` says whether NewSQLiteStore succeeded for this request, and
 * `now` is the clock reading the store stamps rows with.
 */
module PostController {
  import opened Wrappers
  import opened Models
  import opened Relational
  import opened Http
  import opened Strings
  import opened Strconv
  import opened Sessions
  import opened Store

  const LoginPath: string := "/login"
  const ListPath: string := "/posts"
  const PostsPrefix: string := "/posts/"
  const EditPrefix: string := "/posts/edit/"
  const UpdatePrefix: string := "/posts/update/"
  const DeletePrefix: string := "/posts/delete/"

  /** How a handler that may write ends, and the tables after it. */
  datatype Effect = Effect(out: Outcome, tables: Tables)

  /** strings.TrimPrefix then strconv.Atoi: the post id a path names after a route prefix. */
  function PathId(path: string, prefix: string): Option<int> {
    Atoi(TrimPrefix(path, prefix))
  }

  /** "/posts/" + strconv.Itoa(id) */
  function PostLocation(id: int): string {
    PostsPrefix + Itoa(id)
  }

  // ------------------------------------------------------------ the pipelines

  /** GetPostHandler */
  function GetPost(path: string, user: Option<User>, storeOpen: bool, t: Tables): Outcome {
    match PathId(path, PostsPrefix)
    case None => NotFound
    case Some(id) =>
      if !storeOpen then Error(StatusInternalServerError, MsgServerError)
      else match PostView(t, id)
        case None => NotFound
        case Some(post) => Render(PostPage(post, user))
  }

  /** NewPostFormHandler */
  function NewPostForm(user: Option<User>): Outcome {
    if user.None? then Redirect(LoginPath) else Render(NewPostPage(user.value))
  }

  /** CreatePostHandler */
  function CreatePost(req: Request, user: Option<User>, storeOpen: bool, t: Tables, now: Time): Effect {
    if user.None? then Effect(Redirect(LoginPath), t)
    else
      var title := FormValue(req, "title");
      var content := FormValue(req, "content");
      if title == "" || content == "" then Effect(Error(StatusBadRequest, MsgEmptyPost), t)
      else if !storeOpen then Effect(Error(StatusInternalServerError, MsgServerError), t)
      else match InsertPost(t, title, content, user.value.id, now)
        case Failure(_) => Effect(Error(StatusInternalServerError, MsgCannotCreatePost), t)
        case Success(t') => Effect(Redirect(PostLocation(t.postSeq + 1)), t')
  }

  /** EditPostFormHandler */
  function EditPostForm(path: string, user: Option<User>, storeOpen: bool, t: Tables): Outcome {
    if user.None? then Redirect(LoginPath)
    else match PathId(path, EditPrefix)
      case None => NotFound
      case Some(id) =>
        if !storeOpen then Error(StatusInternalServerError, MsgServerError)
        else match PostView(t, id)
          case None => NotFound
          case Some(post) =>
            if post.userId != user.value.id then Error(StatusForbidden, MsgCannotEdit)
            else Render(EditPostPage(post, user.value))
  }

  /** UpdatePostHandler: ownership is checked before the form. */
  function UpdatePost(req: Request, user: Option<User>, storeOpen: bool, t: Tables, now: Time): Effect {
    if user.None? then Effect(Redirect(LoginPath), t)
    else match PathId(req.path, UpdatePrefix)
      case None => Effect(NotFound, t)
      case Some(id) =>
        if !storeOpen then Effect(Error(StatusInternalServerError, MsgServerError), t)
        else match PostView(t, id)
          case None => Effect(NotFound, t)
          case Some(post) =>
            if post.userId != user.value.id then Effect(Error(StatusForbidden, MsgCannotEdit), t)
            else
              var title := FormValue(req, "title");
              var content := FormValue(req, "content");
              if title == "" || content == "" then Effect(Error(StatusBadRequest, MsgEmptyPost), t)
              else Effect(Redirect(PostLocation(post.id)), UpdatePostRow(t, post.id, title, content, now))
  }

  /** DeletePostHandler */
  function DeletePost(path: string, user: Option<User>, storeOpen: bool, t: Tables): Effect {
    if user.None? then Effect(Redirect(LoginPath), t)
    else match PathId(path, DeletePrefix)
      case None => Effect(NotFound, t)
      case Some(id) =>
        if !storeOpen then Effect(Error(StatusInternalServerError, MsgServerError), t)
        else match PostView(t, id)
          case None => Effect(NotFound, t)
          case Some(post) =>
            if post.userId != user.value.id then Effect(Error(StatusForbidden, MsgCannotDelete), t)
            else Effect(Redirect(ListPath), DeletePostRow(t, id))
  }

  // ------------------------------------------------------------ the handlers

  /** ListPostsHandler: every joined post, newest first, or 500 when the store cannot be opened. */
  method ListPostsHandler(session: Session, db: SQLiteStore, storeOpen: bool) returns (out: Outcome)
    requires session.Valid() && db.Valid()
    ensures !storeOpen ==> out == Error(StatusInternalServerError, MsgServerError)
    ensures storeOpen ==> out.Render? && out.view.PostList? && Listing(db.State(), out.view.posts)
    ensures storeOpen ==> out.view.user == GetUserFromSession(session.State())
  {
    if !storeOpen {
      return Error(StatusInternalServerError, MsgServerError);
    }
    var posts := db.FindAllPosts();
    var user := GetUserFromSession(session.State());
    out := Render(PostList(posts, user));
  }

  method GetPostHandler(req: Request, session: Session, db: SQLiteStore, storeOpen: bool) returns (out: Outcome)
    requires session.Valid()
    ensures out == GetPost(req.path, GetUserFromSession(session.State()), storeOpen, db.State())
  {
    var id := PathId(req.path, PostsPrefix);
    if id.None? {
      return NotFound;
    }
    if !storeOpen {
      return Error(StatusInternalServerError, MsgServerError);
    }
    var post := db.FindPostByID(id.value);
    if post.Failure? {
      return NotFound;
    }
    var user := GetUserFromSession(session.State());
    out := Render(PostPage(post.value, user));
  }

  method NewPostFormHandler(session: Session) returns (out: Outcome)
    requires session.Valid()
    ensures out == NewPostForm(GetUserFromSession(session.State()))
  {
    var user := GetUserFromSession(session.State());
    if user.None? {
      return Redirect(LoginPath);
    }
    out := Render(NewPostPage(user.value));
  }

  method CreatePostHandler(req: Request, session: Session, db: SQLiteStore, storeOpen: bool, now: Time) returns (out: Outcome)
    requires session.Valid() && db.Valid()
    modifies db
    ensures db.Valid()
    ensures Effect(out, db.State()) == CreatePost(req, GetUserFromSession(session.State()), storeOpen, old(db.State()), now)
  {
    var user := GetUserFromSession(session.State());
    if user.None? {
      return Redirect(LoginPath);
    }
    var title := FormValue(req, "title");
    var content := FormValue(req, "content");
    if title == "" || content == "" {
      return Error(StatusBadRequest, MsgEmptyPost);
    }
    var post := Post(0, title, content, user.value.id, None, ZeroTime, ZeroTime);
    if !storeOpen {
      return Error(StatusInternalServerError, MsgServerError);
    }
    var created := db.CreatePost(post, now);
    if created.Failure? {
      return Error(StatusInternalServerError, MsgCannotCreatePost);
    }
    out := Redirect(PostLocation(created.value.id));
  }

  method EditPostFormHandler(req: Request, session: Session, db: SQLiteStore, storeOpen: bool) returns (out: Outcome)
    requires session.Valid()
    ensures out == EditPostForm(req.path, GetUserFromSession(session.State()), storeOpen, db.State())
  {
    var user := GetUserFromSession(session.State());
    if user.None? {
      return Redirect(LoginPath);
    }
    var id := PathId(req.path, EditPrefix);
    if id.None? {
      return NotFound;
    }
    if !storeOpen {
      return Error(StatusInternalServerError, MsgServerError);
    }
    var post := db.FindPostByID(id.value);
    if post.Failure? {
      return NotFound;
    }
    if post.value.userId != user.value.id {
      return Error(StatusForbidden, MsgCannotEdit);
    }
    out := Render(EditPostPage(post.value, user.value));
  }

  method UpdatePostHandler(req: Request, session: Session, db: SQLiteStore, storeOpen: bool, now: Time) returns (out: Outcome)
    requires session.Valid() && db.Valid()
    modifies db
    ensures db.Valid()
    ensures Effect(out, db.State()) == UpdatePost(req, GetUserFromSession(session.State()), storeOpen, old(db.State()), now)
  {
    var user := GetUserFromSession(session.State());
    if user.None? {
      return Redirect(LoginPath);
    }
    var id := PathId(req.path, UpdatePrefix);
    if id.None? {
      return NotFound;
    }
    if !storeOpen {
      return Error(StatusInternalServerError, MsgServerError);
    }
    var found := db.FindPostByID(id.value);
    if found.Failure? {
      return NotFound;
    }
    var post := found.value;
    if post.userId != user.value.id {
      return Error(StatusForbidden, MsgCannotEdit);
    }
    var title := FormValue(req, "title");
    var content := FormValue(req, "content");
    if title == "" || content == "" {
      return Error(StatusBadRequest, MsgEmptyPost);
    }
    post := post.(title := title, content := content);
    var updated := db.UpdatePost(post, now);
    out := Redirect(PostLocation(updated.id));
  }

  method DeletePostHandler(req: Request, session: Session, db: SQLiteStore, storeOpen: bool) returns (out: Outcome)
    requires session.Valid() && db.Valid()
    modifies db
    ensures db.Valid()
    ensures Effect(out, db.State()) == DeletePost(req.path, GetUserFromSession(session.State()), storeOpen, old(db.State()))
  {
    var user := GetUserFromSession(session.State());
    if user.None? {
      return Redirect(LoginPath);
    }
    var id := PathId(req.path, DeletePrefix);
    if id.None? {
      return NotFound;
    }
    if !storeOpen {
      return Error(StatusInternalServerError, MsgServerError);
    }
    var post := db.FindPostByID(id.value);
    if post.Failure? {
      return NotFound;
    }
    if post.value.userId != user.value.id {
      return Error(StatusForbidden, MsgCannotDelete);
    }
    db.DeletePost(id.value);
    out := Redirect(ListPath);
  }

  // ------------------------------------------------------------ properties

  /** Without a session user every protected handler redirects to /login and touches nothing. */
  lemma AnonymousGoesToLogin(req: Request, storeOpen: bool, t: Tables, now: Time)
    ensures NewPostForm(None) == Redirect(LoginPath)
    ensures CreatePost(req, None, storeOpen, t, now) == Effect(Redirect(LoginPath), t)
    ensures EditPostForm(req.path, None, storeOpen, t) == Redirect(LoginPath)
    ensures UpdatePost(req, None, storeOpen, t, now) == Effect(Redirect(LoginPath), t)
    ensures DeletePost(req.path, None, storeOpen, t) == Effect(Redirect(LoginPath), t)
  {
  }

  /** Create with an empty title or content: 400 and no post. */
  lemma CreateNeedsTitleAndContent(req: Request, u: User, storeOpen: bool, t: Tables, now: Time)
    requires FormValue(req, "title") == "" || FormValue(req, "content") == ""
    ensures CreatePost(req, Some(u), storeOpen, t, now) == Effect(Error(StatusBadRequest, MsgEmptyPost), t)
  {
  }

  /**
   * A successful Create stores the session user's post under the next id and
   * redirects to /posts/{id}; following the redirect shows that post.
   */
  lemma {:induction false} CreateThenShow(req: Request, u: User, viewer: Option<User>, t: Tables, now: Time)
    requires Valid(t) && t.postSeq < MaxRowId && u.id in t.users
    requires FormValue(req, "title") != "" && FormValue(req, "content") != ""
    ensures var e := CreatePost(req, Some(u), true, t, now);
      var id := t.postSeq + 1;
      var title := FormValue(req, "title");
      var content := FormValue(req, "content");
      && e.out == Redirect("/posts/" + Itoa(id))
      && e.tables.users == t.users
      && e.tables.posts == t.posts[id := PostRow(title, content, u.id, now, now)]
      && GetPost(e.out.location, viewer, true, e.tables)
           == Render(PostPage(Post(id, title, content, u.id, Some(AuthorOf(t, u.id)), now, now), viewer))
  {
    var id := t.postSeq + 1;
    InsertPostFresh(t, FormValue(req, "title"), FormValue(req, "content"), u.id, now);
    CreateThenFind(t, FormValue(req, "title"), FormValue(req, "content"), u.id, now);
    TrimPrefixOfConcat(PostsPrefix, Itoa(id));
    AtoiItoa(id);
  }

  /**
   * A session whose user row has since been deleted can still create: the
   * post is stored, but the redirect leads to a 404 because the JOIN drops it.
   */
  lemma {:induction false} CreateByDeletedUserIsHidden(req: Request, u: User, viewer: Option<User>, t: Tables, now: Time)
    requires Valid(t) && t.postSeq < MaxRowId && u.id !in t.users
    requires FormValue(req, "title") != "" && FormValue(req, "content") != ""
    ensures var e := CreatePost(req, Some(u), true, t, now);
      && e.out == Redirect(PostLocation(t.postSeq + 1))
      && t.postSeq + 1 in e.tables.posts
      && GetPost(e.out.location, viewer, true, e.tables) == NotFound
  {
    var id := t.postSeq + 1;
    CreateThenFind(t, FormValue(req, "title"), FormValue(req, "content"), u.id, now);
    TrimPrefixOfConcat(PostsPrefix, Itoa(id));
    AtoiItoa(id);
  }

  /** A path suffix that strconv.Atoi rejects: 404 from all four id routes, nothing written. */
  lemma BadIdIsNotFound(req: Request, user: Option<User>, u: User, storeOpen: bool, t: Tables, now: Time)
    ensures PathId(req.path, PostsPrefix).None? ==> GetPost(req.path, user, storeOpen, t) == NotFound
    ensures PathId(req.path, EditPrefix).None? ==> EditPostForm(req.path, Some(u), storeOpen, t) == NotFound
    ensures PathId(req.path, UpdatePrefix).None? ==> UpdatePost(req, Some(u), storeOpen, t, now) == Effect(NotFound, t)
    ensures PathId(req.path, DeletePrefix).None? ==> DeletePost(req.path, Some(u), storeOpen, t) == Effect(NotFound, t)
  {
  }

  /** An id with no post, or whose author row is gone: 404 from all four id routes, nothing written. */
  lemma MissingPostIsNotFound(req: Request, user: Option<User>, u: User, t: Tables, now: Time, id: int)
    requires !Visible(t, id)
    ensures PathId(req.path, PostsPrefix) == Some(id) ==> GetPost(req.path, user, true, t) == NotFound
    ensures PathId(req.path, EditPrefix) == Some(id) ==> EditPostForm(req.path, Some(u), true, t) == NotFound
    ensures PathId(req.path, UpdatePrefix) == Some(id) ==> UpdatePost(req, Some(u), true, t, now) == Effect(NotFound, t)
    ensures PathId(req.path, DeletePrefix) == Some(id) ==> DeletePost(req.path, Some(u), true, t) == Effect(NotFound, t)
  {
  }

  /**
   * Someone other than the author gets 403 from edit, update and delete, and
   * the store is unchanged; update says so whatever the form holds, because
   * ownership is checked first.
   */
  lemma NonAuthorIsForbidden(req: Request, u: User, t: Tables, now: Time, id: int)
    requires Visible(t, id) && t.posts[id].userId != u.id
    ensures PathId(req.path, EditPrefix) == Some(id) ==>
      EditPostForm(req.path, Some(u), true, t) == Error(StatusForbidden, MsgCannotEdit)
    ensures PathId(req.path, UpdatePrefix) == Some(id) ==>
      UpdatePost(req, Some(u), true, t, now) == Effect(Error(StatusForbidden, MsgCannotEdit), t)
    ensures PathId(req.path, DeletePrefix) == Some(id) ==>
      DeletePost(req.path, Some(u), true, t) == Effect(Error(StatusForbidden, MsgCannotDelete), t)
  {
  }

  /** The author's update with an empty title or content: 400 and no change. */
  lemma UpdateNeedsTitleAndContent(req: Request, u: User, t: Tables, now: Time, id: int)
    requires PathId(req.path, UpdatePrefix) == Some(id) && Visible(t, id) && t.posts[id].userId == u.id
    requires FormValue(req, "title") == "" || FormValue(req, "content") == ""
    ensures UpdatePost(req, Some(u), true, t, now) == Effect(Error(StatusBadRequest, MsgEmptyPost), t)
  {
  }

  /**
   * The author's update replaces title and content (and updated_at) of that
   * post only and redirects to it; the page then shows the new text.
   */
  lemma {:induction false} UpdateByAuthor(req: Request, u: User, viewer: Option<User>, t: Tables, now: Time, id: int)
    requires Valid(t)
    requires PathId(req.path, UpdatePrefix) == Some(id) && Visible(t, id) && t.posts[id].userId == u.id
    requires FormValue(req, "title") != "" && FormValue(req, "content") != ""
    ensures var e := UpdatePost(req, Some(u), true, t, now);
      var title := FormValue(req, "title");
      var content := FormValue(req, "content");
      && e.out == Redirect(PostLocation(id))
      && e.tables.users == t.users
      && e.tables.posts.Keys == t.posts.Keys
      && e.tables.posts[id] == t.posts[id].(title := title, content := content, updatedAt := now)
      && (forall other :: other in t.posts && other != id ==> e.tables.posts[other] == t.posts[other])
      && GetPost(e.out.location, viewer, true, e.tables).Render?
      && GetPost(e.out.location, viewer, true, e.tables).view.post.title == title
      && GetPost(e.out.location, viewer, true, e.tables).view.post.content == content
  {
    UpdatePostFrame(t, id, FormValue(req, "title"), FormValue(req, "content"), now);
    TrimPrefixOfConcat(PostsPrefix, Itoa(id));
    AtoiItoa(id);
  }

  /**
   * The author's delete removes exactly that post and redirects to /posts;
   * the post page is then 404, and so is repeating the delete.
   */
  lemma {:induction false} DeleteByAuthor(req: Request, u: User, viewer: Option<User>, t: Tables, id: int)
    requires Valid(t)
    requires PathId(req.path, DeletePrefix) == Some(id) && Visible(t, id) && t.posts[id].userId == u.id
    ensures var e := DeletePost(req.path, Some(u), true, t);
      && e.out == Redirect(ListPath)
      && e.tables.users == t.users
      && e.tables.posts.Keys == t.posts.Keys - {id}
      && (forall other :: other in e.tables.posts ==> e.tables.posts[other] == t.posts[other])
      && GetPost(PostLocation(id), viewer, true, e.tables) == NotFound
      && DeletePost(req.path, Some(u), true, e.tables) == Effect(NotFound, e.tables)
  {
    DeletePostIdempotent(t, id);
    TrimPrefixOfConcat(PostsPrefix, Itoa(id));
    AtoiItoa(id);
  }

  /** Only the success path writes: any error, 404 or login redirect leaves the tables as they were. */
  lemma NoWriteUnlessSuccessful(req: Request, user: Option<User>, storeOpen: bool, t: Tables, now: Time)
    ensures var e := CreatePost(req, user, storeOpen, t, now);
      (e.out.Error? || e.out.NotFound? || e.out == Redirect(LoginPath)) ==> e.tables == t
    ensures var e := UpdatePost(req, user, storeOpen, t, now);
      (e.out.Error? || e.out.NotFound? || e.out == Redirect(LoginPath)) ==> e.tables == t
    ensures var e := DeletePost(req.path, user, storeOpen, t);
      (e.out.Error? || e.out.NotFound? || e.out == Redirect(LoginPath)) ==> e.tables == t
  {
  }
}
