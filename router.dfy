/**
 * router/router.go: the route table, ServeMux dispatch and the middleware
 * chain. A pattern that ends in "/" names a subtree and matches every path
 * beneath it; any other pattern matches only itself; of the patterns that
 * match, the longest wins. SetupRouter registers the table one pattern at a
 * time and wraps the mux as Recover(Logger(mux)).
 */
module Router {
  import opened Wrappers
  import opened Strings
  import Http

  /**
   * The handler ServeMux.Handler hands a request to: the one registered with
   * the winning pattern, or the 301 redirect ServeMux itself answers with.
   */
  datatype Route =
    | MovedPermanently(location: string)   // http.RedirectHandler(location, http.StatusMovedPermanently)
    | FileServer(strip: string)   // http.StripPrefix(strip, http.FileServer(http.Dir("./public")))
    | Home
    | ListPosts
    | GetPost
    | NewPostForm
    | CreatePost
    | EditPostForm
    | UpdatePost
    | DeletePost
    | LoginForm
    | LoginProcess
    | Logout
    | RegisterForm
    | RegisterProcess

  datatype Entry = Entry(pattern: string, route: Route)

  /** A pattern ending in "/" is rooted at a subtree. */
  predicate IsSubtree(pattern: string) {
    |pattern| > 0 && pattern[|pattern| - 1] == '/'
  }

  predicate Matches(pattern: string, path: string) {
    pattern == path || (IsSubtree(pattern) && HasPrefix(path, pattern))
  }

  /** ServeMux refuses a second registration of a pattern. */
  predicate DistinctPatterns(table: seq<Entry>) {
    forall i, j :: 0 <= i < j < |table| ==> table[i].pattern != table[j].pattern
  }

  /** The entry of the longest pattern matching `path`, if any matches. */
  function Longest(table: seq<Entry>, path: string): (r: Option<Entry>)
    ensures r.None? <==> forall e :: e in table ==> !Matches(e.pattern, path)
    ensures r.Some? ==> r.value in table && Matches(r.value.pattern, path)
    ensures r.Some? ==> forall e :: e in table && Matches(e.pattern, path) ==> |e.pattern| <= |r.value.pattern|
  {
    if table == [] then None
    else
      var rest := Longest(table[1..], path);
      assert forall e :: e in table ==> e == table[0] || e in table[1..];
      if Matches(table[0].pattern, path) && (rest.None? || |rest.value.pattern| < |table[0].pattern|) then Some(table[0])
      else rest
  }

  /** Some entry is registered under exactly this pattern. */
  predicate Registered(table: seq<Entry>, pattern: string) {
    exists e :: e in table && e.pattern == pattern
  }

  /**
   * A path without a trailing slash that is not registered itself, while the
   * same path with a slash is a registered subtree: ServeMux redirects it there.
   */
  predicate RedirectsToSubtree(table: seq<Entry>, path: string) {
    && path != ""
    && path[|path| - 1] != '/'
    && !Registered(table, path)
    && Registered(table, path + "/")
  }

  /** The handler ServeMux picks for `path`; None is its 404. */
  function Dispatch(table: seq<Entry>, path: string): Option<Route> {
    if RedirectsToSubtree(table, path) then Some(MovedPermanently(path + "/"))
    else
      match Longest(table, path)
      case None => None
      case Some(e) => Some(e.route)
  }

  /** Two patterns of the same length that both match a path are the same pattern. */
  lemma SameLengthMatchesAgree(p: string, q: string, path: string)
    requires Matches(p, path) && Matches(q, path) && |p| == |q|
    ensures p == q
  {
    assert HasPrefix(path, p) by { assert path[..|path|] == path; }
    assert HasPrefix(path, q) by { assert path[..|path|] == path; }
  }

  /**
   * With distinct patterns the winner does not depend on the order of
   * registration: the entry whose pattern matches and is at least as long as
   * every other match is the one dispatched to.
   */
  lemma {:induction false} LongestMatchWins(table: seq<Entry>, path: string, e: Entry)
    requires DistinctPatterns(table)
    requires e in table && Matches(e.pattern, path)
    requires forall f :: f in table && Matches(f.pattern, path) ==> |f.pattern| <= |e.pattern|
    ensures Longest(table, path) == Some(e)
    ensures !RedirectsToSubtree(table, path) ==> Dispatch(table, path) == Some(e.route)
  {
    var r := Longest(table, path).value;
    SameLengthMatchesAgree(r.pattern, e.pattern, path);
    var i :| 0 <= i < |table| && table[i] == r;
    var j :| 0 <= j < |table| && table[j] == e;
    if i < j {
      assert table[i].pattern != table[j].pattern;
    } else if j < i {
      assert table[j].pattern != table[i].pattern;
    }
  }

  // ------------------------------------------------------------ the mux

  /**
   * http.ServeMux: the registrations so far, in order, and the set of
   * registered patterns (the key set of the library's own map).
   */
  class ServeMux {
    var table: seq<Entry>
    var patterns: set<string>

    ghost predicate Valid()
      reads this
    {
      && DistinctPatterns(table)
      && "" !in patterns
      && forall i :: 0 <= i < |table| ==> table[i].pattern in patterns
    }

    /** http.NewServeMux */
    constructor ()
      ensures Valid() && table == [] && patterns == {}
    {
      table, patterns := [], {};
    }

    /** Handle / HandleFunc: ServeMux panics on an empty or already registered pattern. */
    method Handle(pattern: string, route: Route)
      requires Valid() && pattern != "" && pattern !in patterns
      modifies this
      ensures Valid()
      ensures patterns == old(patterns) + {pattern}
      ensures table == old(table) + [Entry(pattern, route)]
    {
      table, patterns := table + [Entry(pattern, route)], patterns + {pattern};
    }
  }

  // ------------------------------------------------------------ middleware

  /** The handler chain: the mux, wrapped by middleware. */
  datatype Handler = Mux(table: seq<Entry>) | Logger(next: Handler) | Recover(next: Handler)

  /** What reaches the client: a handler ran, a 404, an http.Error, or a panic still unwinding. */
  datatype Reply =
    | Dispatched(route: Route, path: string)
    | NotFoundReply
    | Failed(status: int, message: string)
    | Panicking

  /** Logger's access line and Recover's crash report. */
  datatype LogLine = AccessLine(verb: string, path: string) | PanicLine

  datatype Served = Served(reply: Reply, log: seq<LogLine>)

  const MsgInternalError: string := "内部服务器错误"

  /**
   * ServeHTTP through the chain; `panics` says whether the dispatched
   * handler panics. Logger writes its line after the inner handler returns,
   * so a panic skips it; Recover turns a panic into a 500 and logs it.
   */
  function Serve(h: Handler, verb: string, path: string, panics: bool): Served {
    match h
    case Mux(table) =>
      (match Dispatch(table, path)
      case None => Served(NotFoundReply, [])
      case Some(route) =>
        if route.MovedPermanently? then Served(Dispatched(route, path), [])
        else if panics then Served(Panicking, [])
        else if route.FileServer? then
          if HasPrefix(path, route.strip) then Served(Dispatched(route, TrimPrefix(path, route.strip)), [])
          else Served(NotFoundReply, [])
        else Served(Dispatched(route, path), []))
    case Logger(next) =>
      var s := Serve(next, verb, path, panics);
      if s.reply.Panicking? then s else s.(log := s.log + [AccessLine(verb, path)])
    case Recover(next) =>
      var s := Serve(next, verb, path, panics);
      if s.reply.Panicking? then Served(Failed(Http.StatusInternalServerError, MsgInternalError), s.log + [PanicLine])
      else s
  }

  // ------------------------------------------------------------ SetupRouter

  const StaticPrefix: string := "/static"

  /** The registrations of SetupRouter, in order. */
  const RouteTable: seq<Entry> :=
    [Entry("/static/", FileServer(StaticPrefix)), Entry("/", Home)]
    + PostPages + PostActions + LoginRoutes + SignupRoutes

  const PostPages: seq<Entry> := [
    Entry("/posts", ListPosts),
    Entry("/posts/", GetPost),
    Entry("/posts/new", NewPostForm),
    Entry("/posts/create", CreatePost)
  ]

  const PostActions: seq<Entry> := [
    Entry("/posts/edit/", EditPostForm),
    Entry("/posts/update/", UpdatePost),
    Entry("/posts/delete/", DeletePost)
  ]

  const LoginRoutes: seq<Entry> := [
    Entry("/login", LoginForm),
    Entry("/login/process", LoginProcess),
    Entry("/logout", Logout)
  ]

  const SignupRoutes: seq<Entry> := [
    Entry("/register", RegisterForm),
    Entry("/register/process", RegisterProcess)
  ]

  /** SetupRouter: every registration is accepted, and the chain is Recover(Logger(mux)). */
  method SetupRouter() returns (h: Handler)
    ensures h == Recover(Logger(Mux(RouteTable)))
    ensures DistinctPatterns(h.next.next.table)
  {
    var mux := new ServeMux();
    mux.Handle("/static/", FileServer(StaticPrefix));
    mux.Handle("/", Home);
    assert mux.table == [Entry("/static/", FileServer(StaticPrefix)), Entry("/", Home)];
    assert mux.patterns == {"/static/", "/"};
    RegisterPostPages(mux);
    RegisterPostActions(mux);
    RegisterLoginRoutes(mux);
    RegisterSignupRoutes(mux);
    h := Mux(mux.table);
    h := Logger(h);
    h := Recover(h);
  }

  /** The post list, post pages and the new-post form and action of SetupRouter. */
  method RegisterPostPages(mux: ServeMux)
    requires mux.Valid() && mux.patterns == {"/static/", "/"}
    modifies mux
    ensures mux.Valid() && mux.patterns == {"/static/", "/", "/posts", "/posts/", "/posts/new", "/posts/create"}
    ensures mux.table == old(mux.table) + PostPages
  {
    mux.Handle("/posts", ListPosts);
    mux.Handle("/posts/", GetPost);
    mux.Handle("/posts/new", NewPostForm);
    mux.Handle("/posts/create", CreatePost);
  }

  /** The edit, update and delete routes of SetupRouter. */
  method RegisterPostActions(mux: ServeMux)
    requires mux.Valid() && mux.patterns == {"/static/", "/", "/posts", "/posts/", "/posts/new", "/posts/create"}
    modifies mux
    ensures mux.Valid() && mux.patterns == {"/static/", "/", "/posts", "/posts/", "/posts/new", "/posts/create", "/posts/edit/", "/posts/update/", "/posts/delete/"}
    ensures mux.table == old(mux.table) + PostActions
  {
    mux.Handle("/posts/edit/", EditPostForm);
    mux.Handle("/posts/update/", UpdatePost);
    mux.Handle("/posts/delete/", DeletePost);
  }

  /** The login and logout routes of SetupRouter. */
  method RegisterLoginRoutes(mux: ServeMux)
    requires mux.Valid() && mux.patterns == {"/static/", "/", "/posts", "/posts/", "/posts/new", "/posts/create", "/posts/edit/", "/posts/update/", "/posts/delete/"}
    modifies mux
    ensures mux.Valid() && mux.patterns == {"/static/", "/", "/posts", "/posts/", "/posts/new", "/posts/create", "/posts/edit/", "/posts/update/", "/posts/delete/", "/login", "/login/process", "/logout"}
    ensures mux.table == old(mux.table) + LoginRoutes
  {
    mux.Handle("/login", LoginForm);
    mux.Handle("/login/process", LoginProcess);
    mux.Handle("/logout", Logout);
  }

  /** The registration routes of SetupRouter. */
  method RegisterSignupRoutes(mux: ServeMux)
    requires mux.Valid() && mux.patterns == {"/static/", "/", "/posts", "/posts/", "/posts/new", "/posts/create", "/posts/edit/", "/posts/update/", "/posts/delete/", "/login", "/login/process", "/logout"}
    modifies mux
    ensures mux.Valid() && mux.patterns == {"/static/", "/", "/posts", "/posts/", "/posts/new", "/posts/create", "/posts/edit/", "/posts/update/", "/posts/delete/", "/login", "/login/process", "/logout", "/register", "/register/process"}
    ensures mux.table == old(mux.table) + SignupRoutes
  {
    mux.Handle("/register", RegisterForm);
    mux.Handle("/register/process", RegisterProcess);
  }

  // ------------------------------------------------------------ properties of the table

  /** Every pattern of SetupRouter is registered once. */
  lemma RouteTablePatternsDistinct()
    ensures DistinctPatterns(RouteTable)
  {
  }

  /** A pattern that differs from the path at some position does not match it. */
  lemma DiffersAt(pattern: string, path: string, i: nat)
    requires i < |pattern| && i < |path| && pattern[i] != path[i]
    ensures !Matches(pattern, path)
    ensures pattern != path + "/"
  {
    if |pattern| <= |path| {
      assert path[..|pattern|][i] == path[i];
    }
    assert (path + "/")[i] == path[i];
  }

  /** A pattern that does not end in "/" is never some path with a slash appended. */
  lemma NotSlashed(pattern: string, path: string)
    requires !IsSubtree(pattern)
    ensures pattern != path + "/"
  {
    assert (path + "/")[|path|] == '/';
  }

  /** Two paths with a slash appended are equal only if the paths are. */
  lemma SlashCancel(p: string, path: string)
    ensures p + "/" == path + "/" ==> p == path
  {
    if p + "/" == path + "/" {
      assert p == (p + "/")[..|p|];
      assert path == (path + "/")[..|path|];
    }
  }

  /** head + name with a slash appended is head + rest with a slash appended only if name is rest. */
  lemma ChildSlashed(head: string, name: string, rest: string)
    ensures head + name + "/" == head + rest + "/" ==> name == rest
  {
    if head + name + "/" == head + rest + "/" {
      assert name == (head + name + "/")[|head|..|head| + |name|];
      assert rest == (head + rest + "/")[|head|..|head| + |rest|];
    }
  }

  /** A path that is head + tail once a slash is appended to both lies under head. */
  lemma SlashedUnder(head: string, tail: string, path: string)
    ensures head + tail + "/" == path + "/" ==> HasPrefix(path, head)
  {
    SlashCancel(head + tail, path);
    if head + tail == path {
      assert path[..|head|] == head;
    }
  }

  /** A prefix extended by the same head is a prefix exactly when the tail is. */
  lemma PrefixCancel(head: string, tail: string, rest: string)
    ensures HasPrefix(head + rest, head + tail) <==> HasPrefix(rest, tail)
  {
    if HasPrefix(rest, tail) {
      assert (head + rest)[..|head + tail|] == head + rest[..|tail|];
    }
    if HasPrefix(head + rest, head + tail) {
      assert rest[..|tail|] == (head + rest)[..|head + tail|][|head|..];
    }
  }

  /**
   * A path dispatches to the entry at index k of the table when that pattern
   * matches, no longer pattern does, and the path is either registered
   * itself or no pattern is the path with a slash appended.
   */
  lemma {:induction false} WinsAt(path: string, k: nat)
    requires k < |RouteTable| && Matches(RouteTable[k].pattern, path)
    requires forall j :: 0 <= j < |RouteTable| && |RouteTable[j].pattern| > |RouteTable[k].pattern| ==>
      !Matches(RouteTable[j].pattern, path)
    requires RouteTable[k].pattern == path ||
      forall j :: 0 <= j < |RouteTable| && |RouteTable[j].pattern| > |path| ==> RouteTable[j].pattern != path + "/"
    ensures Dispatch(RouteTable, path) == Some(RouteTable[k].route)
  {
    RouteTablePatternsDistinct();
    LongestMatchWins(RouteTable, path, RouteTable[k]);
    if RouteTable[k].pattern != path {
      forall e | e in RouteTable
        ensures e.pattern != path + "/"
      {
        var j :| 0 <= j < |RouteTable| && RouteTable[j] == e;
        assert |path + "/"| > |path|;
      }
    }
  }

  /** /posts/edit/N reaches EditPostFormHandler, not GetPostHandler: the longer pattern wins. */
  lemma {:induction false} EditWins(n: string)
    ensures Dispatch(RouteTable, "/posts/edit/" + n) == Some(EditPostForm)
  {
    var path := "/posts/edit/" + n;
    TrimPrefixOfConcat("/posts/edit/", n);
    ActionLongerMiss("edit", path);
    WinsAt(path, 6);
  }

  /**
   * No pattern longer than the action subtree "/posts/" + action + "/"
   * matches a path under it or is its slash form.
   */
  lemma ActionLongerMiss(action: string, path: string)
    requires action == "edit" || action == "update" || action == "delete"
    requires HasPrefix(path, "/posts/" + action + "/")
    ensures forall j :: 0 <= j < |RouteTable| && |RouteTable[j].pattern| > |"/posts/" + action + "/"| ==>
      !Matches(RouteTable[j].pattern, path) && RouteTable[j].pattern != path + "/"
  {
    assert path[1] == ("/posts/" + action + "/")[1] == 'p';
    assert path[7] == ("/posts/" + action + "/")[7] == action[0];
    DiffersAt("/posts/create", path, 7);
    if action != "edit" {
      DiffersAt("/posts/edit/", path, 7);
    }
    if action != "update" {
      DiffersAt("/posts/update/", path, 7);
    }
    if action != "delete" {
      DiffersAt("/posts/delete/", path, 7);
    }
    DiffersAt("/login/process", path, 1);
    DiffersAt("/register/process", path, 1);
  }

  /** /posts/update/N reaches UpdatePostHandler. */
  lemma {:induction false} UpdateWins(n: string)
    ensures Dispatch(RouteTable, "/posts/update/" + n) == Some(UpdatePost)
  {
    var path := "/posts/update/" + n;
    TrimPrefixOfConcat("/posts/update/", n);
    ActionLongerMiss("update", path);
    WinsAt(path, 7);
  }

  /** /posts/delete/N reaches DeletePostHandler. */
  lemma {:induction false} DeleteWins(n: string)
    ensures Dispatch(RouteTable, "/posts/delete/" + n) == Some(DeletePost)
  {
    var path := "/posts/delete/" + n;
    TrimPrefixOfConcat("/posts/delete/", n);
    ActionLongerMiss("delete", path);
    WinsAt(path, 8);
  }

  /** /posts itself is the list, not a post: an exact pattern beats the subtree "/". */
  lemma {:induction false} PostsIsTheList()
    ensures Dispatch(RouteTable, "/posts") == Some(ListPosts)
  {
    WinsAt("/posts", 2);
  }

  /** The patterns registered under /posts/ that a path "/posts/" + rest avoids. */
  lemma PostsChildrenMiss(rest: string)
    requires rest != "new" && rest != "create"
    requires !HasPrefix(rest, "edit/") && !HasPrefix(rest, "update/") && !HasPrefix(rest, "delete/")
    ensures !Matches("/posts/new", "/posts/" + rest) && !Matches("/posts/create", "/posts/" + rest)
    ensures !Matches("/posts/edit/", "/posts/" + rest) && !Matches("/posts/update/", "/posts/" + rest)
    ensures !Matches("/posts/delete/", "/posts/" + rest)
  {
    assert "/posts/new" == "/posts/" + "new";
    assert "/posts/create" == "/posts/" + "create";
    assert "/posts/edit/" == "/posts/" + "edit/";
    assert "/posts/update/" == "/posts/" + "update/";
    assert "/posts/delete/" == "/posts/" + "delete/";
    PrefixCancel("/posts/", "new", rest);
    PrefixCancel("/posts/", "create", rest);
    PrefixCancel("/posts/", "edit/", rest);
    PrefixCancel("/posts/", "update/", rest);
    PrefixCancel("/posts/", "delete/", rest);
  }

  /**
   * Any other path under /posts/ that is not registered itself, and is not
   * one of the action subtrees' roots without its slash (redirected, see
   * EditRootRedirects and its siblings), reaches GetPostHandler.
   */
  lemma {:induction false} PostsSubtreeIsGetPost(rest: string)
    requires rest != "new" && rest != "create"
    requires rest != "edit" && rest != "update" && rest != "delete"
    requires !HasPrefix(rest, "edit/") && !HasPrefix(rest, "update/") && !HasPrefix(rest, "delete/")
    ensures Dispatch(RouteTable, "/posts/" + rest) == Some(GetPost)
  {
    PostsChildHasNoSlashForm(rest);
    PostsChildNoLongerMatch(rest);
    TrimPrefixOfConcat("/posts/", rest);
    WinsAt("/posts/" + rest, 3);
  }

  /** No pattern longer than "/posts/" matches "/posts/" + rest when PostsChildrenMiss applies. */
  lemma PostsChildNoLongerMatch(rest: string)
    requires rest != "new" && rest != "create"
    requires !HasPrefix(rest, "edit/") && !HasPrefix(rest, "update/") && !HasPrefix(rest, "delete/")
    ensures forall j :: 0 <= j < |RouteTable| && |RouteTable[j].pattern| > |"/posts/"| ==>
      !Matches(RouteTable[j].pattern, "/posts/" + rest)
  {
    var path := "/posts/" + rest;
    PostsChildrenMiss(rest);
    DiffersAt("/login/process", path, 1);
    DiffersAt("/register/process", path, 1);
    DiffersAt("/static/", path, 1);
    DiffersAt("/register", path, 1);
  }

  /** No pattern longer than "/posts/" + rest is its slash form, unless rest names an action subtree. */
  lemma PostsChildHasNoSlashForm(rest: string)
    requires rest != "edit" && rest != "update" && rest != "delete"
    ensures forall j :: 0 <= j < |RouteTable| && |RouteTable[j].pattern| > |"/posts/" + rest| ==>
      RouteTable[j].pattern != "/posts/" + rest + "/"
  {
    var path := "/posts/" + rest;
    NotSlashed("/posts/new", path);
    NotSlashed("/posts/create", path);
    NotSlashed("/login/process", path);
    NotSlashed("/register/process", path);
    NotSlashed("/register", path);
    assert "/posts/edit/" == "/posts/" + "edit" + "/";
    assert "/posts/update/" == "/posts/" + "update" + "/";
    assert "/posts/delete/" == "/posts/" + "delete" + "/";
    ChildSlashed("/posts/", "edit", rest);
    ChildSlashed("/posts/", "update", rest);
    ChildSlashed("/posts/", "delete", rest);
    DiffersAt("/static/", path, 1);
  }

  /**
   * A path outside /static/ and /posts/ that no pattern names exactly, and
   * that is not "/static" (redirected, see StaticRootRedirects), falls
   * through to "/", HomeHandler, which answers 404 unless the path is "/".
   */
  lemma {:induction false} UnregisteredFallsToHome(path: string)
    requires HasPrefix(path, "/")
    requires !HasPrefix(path, "/static/") && !HasPrefix(path, "/posts/")
    requires path !in {"/static", "/posts", "/login", "/login/process", "/logout", "/register", "/register/process"}
    ensures Dispatch(RouteTable, path) == Some(Home)
  {
    UnregisteredHasNoSlashForm(path);
    assert "/posts/edit/" == "/posts/" + "edit/";
    assert "/posts/update/" == "/posts/" + "update/";
    assert "/posts/delete/" == "/posts/" + "delete/";
    PrefixOfPrefix(path, "/posts/", "edit/");
    PrefixOfPrefix(path, "/posts/", "update/");
    PrefixOfPrefix(path, "/posts/", "delete/");
    WinsAt(path, 1);
  }

  /** No pattern is the slash form of a path that UnregisteredFallsToHome admits. */
  lemma UnregisteredHasNoSlashForm(path: string)
    requires path != ""
    requires !HasPrefix(path, "/posts/")
    requires path !in {"/static", "/posts"}
    ensures forall j :: 0 <= j < |RouteTable| && |RouteTable[j].pattern| > |path| ==> RouteTable[j].pattern != path + "/"
  {
    NotSlashed("/posts", path);
    NotSlashed("/posts/new", path);
    NotSlashed("/posts/create", path);
    NotSlashed("/login", path);
    NotSlashed("/login/process", path);
    NotSlashed("/logout", path);
    NotSlashed("/register", path);
    NotSlashed("/register/process", path);
    assert "/static/" == "/static" + "/";
    assert "/posts/" == "/posts" + "/";
    SlashCancel("/static", path);
    SlashCancel("/posts", path);
    assert "/posts/edit/" == "/posts/" + "edit" + "/";
    assert "/posts/update/" == "/posts/" + "update" + "/";
    assert "/posts/delete/" == "/posts/" + "delete" + "/";
    SlashedUnder("/posts/", "edit", path);
    SlashedUnder("/posts/", "update", path);
    SlashedUnder("/posts/", "delete", path);
  }

  /**
   * The roots of the four subtrees registered under a longer name, written
   * without their slash, answer with a 301 to the slash form.
   */
  lemma {:induction false} StaticRootRedirects()
    ensures Dispatch(RouteTable, "/static") == Some(MovedPermanently("/static/"))
  {
    RedirectsAt(RouteTable, "/static", 0);
  }

  lemma {:induction false} EditRootRedirects()
    ensures Dispatch(RouteTable, "/posts/edit") == Some(MovedPermanently("/posts/edit/"))
  {
    RedirectsAt(RouteTable, "/posts/edit", 6);
  }

  lemma {:induction false} UpdateRootRedirects()
    ensures Dispatch(RouteTable, "/posts/update") == Some(MovedPermanently("/posts/update/"))
  {
    RedirectsAt(RouteTable, "/posts/update", 7);
  }

  lemma {:induction false} DeleteRootRedirects()
    ensures Dispatch(RouteTable, "/posts/delete") == Some(MovedPermanently("/posts/delete/"))
  {
    RedirectsAt(RouteTable, "/posts/delete", 8);
  }

  /** A path that no entry names, whose slash form the entry at k names, is redirected there. */
  lemma RedirectsAt(table: seq<Entry>, path: string, k: nat)
    requires k < |table| && table[k].pattern == path + "/"
    requires path != "" && path[|path| - 1] != '/'
    requires forall j :: 0 <= j < |table| ==> table[j].pattern != path
    ensures Dispatch(table, path) == Some(MovedPermanently(path + "/"))
  {
    assert table[k] in table;
  }

  /** A path that starts with head + tail starts with head. */
  lemma PrefixOfPrefix(path: string, head: string, tail: string)
    ensures HasPrefix(path, head + tail) ==> HasPrefix(path, head)
  {
    if HasPrefix(path, head + tail) {
      assert path[..|head|] == (head + tail)[..|head|];
    }
  }

  /** /static/F dispatches to the file server. */
  lemma {:induction false} StaticIsFileServer(file: string)
    ensures Dispatch(RouteTable, "/static/" + file) == Some(FileServer(StaticPrefix))
  {
    var path := "/static/" + file;
    TrimPrefixOfConcat("/static/", file);
    StaticLongerMiss(path);
    WinsAt(path, 0);
  }

  /** No pattern longer than "/static/" matches a path under it or is its slash form. */
  lemma StaticLongerMiss(path: string)
    requires HasPrefix(path, "/static/")
    ensures forall j :: 0 <= j < |RouteTable| && |RouteTable[j].pattern| > |"/static/"| ==>
      !Matches(RouteTable[j].pattern, path) && RouteTable[j].pattern != path + "/"
  {
    assert path[1] == 's';
    DiffersAt("/posts/new", path, 1);
    DiffersAt("/posts/create", path, 1);
    DiffersAt("/posts/edit/", path, 1);
    DiffersAt("/posts/update/", path, 1);
    DiffersAt("/posts/delete/", path, 1);
    DiffersAt("/login/process", path, 1);
    DiffersAt("/register/process", path, 1);
    DiffersAt("/register", path, 1);
  }

  /** /static/F reaches the file server as /F: StripPrefix removes "/static". */
  lemma {:induction false} StaticIsStripped(verb: string, file: string)
    ensures Serve(Recover(Logger(Mux(RouteTable))), verb, "/static/" + file, false)
      == Served(Dispatched(FileServer(StaticPrefix), "/" + file), [AccessLine(verb, "/static/" + file)])
  {
    StaticIsFileServer(file);
    StaticPathSplits(file);
    ServesFile(RouteTable, verb, StaticPrefix, "/" + file);
  }

  lemma StaticPathSplits(file: string)
    ensures "/static/" + file == StaticPrefix + ("/" + file)
  {
  }

  // ------------------------------------------------------------ properties of the chain

  /**
   * Recover(Logger(mux)): a handler that panics becomes a 500 with the crash
   * logged and no access line; one that returns gets exactly one access
   * line and its reply passes through unchanged. ServeMux's own redirect
   * never panics.
   */
  lemma ChainOrder(table: seq<Entry>, verb: string, path: string)
    requires Dispatch(table, path).Some?
    ensures !Dispatch(table, path).value.MovedPermanently? ==>
      Serve(Recover(Logger(Mux(table))), verb, path, true)
        == Served(Failed(Http.StatusInternalServerError, MsgInternalError), [PanicLine])
    ensures Dispatch(table, path).value.MovedPermanently? ==>
      Serve(Recover(Logger(Mux(table))), verb, path, true)
        == Served(Dispatched(Dispatch(table, path).value, path), [AccessLine(verb, path)])
    ensures Serve(Recover(Logger(Mux(table))), verb, path, false)
      == Served(Serve(Mux(table), verb, path, false).reply, [AccessLine(verb, path)])
  {
    if !Dispatch(table, path).value.MovedPermanently? {
      assert Serve(Logger(Mux(table)), verb, path, true) == Served(Panicking, []);
    } else {
      assert Serve(Mux(table), verb, path, true) == Served(Dispatched(Dispatch(table, path).value, path), []);
    }
    assert Serve(Logger(Mux(table)), verb, path, false).log == [AccessLine(verb, path)];
  }

  /** The other order, Logger(Recover(mux)), would log the crashed request as an access as well. */
  lemma SwappedChainLogsPanics(table: seq<Entry>, verb: string, path: string)
    requires Dispatch(table, path).Some? && !Dispatch(table, path).value.MovedPermanently?
    ensures Serve(Logger(Recover(Mux(table))), verb, path, true)
      == Served(Failed(Http.StatusInternalServerError, MsgInternalError), [PanicLine, AccessLine(verb, path)])
  {
    assert Serve(Recover(Mux(table)), verb, path, true) == Served(Failed(Http.StatusInternalServerError, MsgInternalError), [PanicLine]);
  }

  /** Every path the server can receive has a handler: "/" catches what nothing else does. */
  lemma EveryPathIsHandled(path: string)
    requires HasPrefix(path, "/")
    ensures Dispatch(RouteTable, path).Some?
  {
    assert RouteTable[1] == Entry("/", Home);
  }

  /** A path dispatched to a file server under its strip prefix is served with the prefix removed. */
  lemma ServesFile(table: seq<Entry>, verb: string, strip: string, rest: string)
    requires Dispatch(table, strip + rest) == Some(FileServer(strip))
    ensures Serve(Recover(Logger(Mux(table))), verb, strip + rest, false)
      == Served(Dispatched(FileServer(strip), rest), [AccessLine(verb, strip + rest)])
  {
    TrimPrefixOfConcat(strip, rest);
    assert Serve(Mux(table), verb, strip + rest, false) == Served(Dispatched(FileServer(strip), rest), []);
  }
}
