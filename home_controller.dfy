/**
 * controllers/home.go: the home page. Only "/" itself is the home page;
 * the page never fails for want of posts: when the store cannot be opened
 * it shows an empty list.
 */
module HomeController {
  import opened Models
  import opened Relational
  import opened Http
  import opened Sessions
  import opened Store

  const RootPath: string := "/"

  /**
   * HomeHandler: 404 for any path but "/"; otherwise the home page with the
   * session user (signed in or not) and every joined post, newest first, or
   * no posts at all when the store cannot be opened.
   */
  method HomeHandler(path: string, session: Session, db: SQLiteStore, storeOpen: bool) returns (out: Outcome)
    requires session.Valid() && db.Valid()
    ensures path != RootPath ==> out == NotFound
    ensures path == RootPath ==> out.Render? && out.view.HomePage?
    ensures path == RootPath ==> out.view.user == GetUserFromSession(session.State())
    ensures path == RootPath && storeOpen ==> Listing(db.State(), out.view.posts)
    ensures path == RootPath && (!storeOpen || db.posts == map[]) ==> out.view.posts == []
  {
    if path != RootPath {
      return NotFound;
    }
    var user := GetUserFromSession(session.State());
    var posts: seq<Post> := [];
    if storeOpen {
      var retrieved := db.FindAllPosts();
      posts := retrieved;
    }
    out := Render(HomePage(posts, user));
  }
}
