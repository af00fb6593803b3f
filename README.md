# goblog in Dafny

A model of the core of goblog, a small Go blog server. It covers:
- a SQLite store of users and posts;
- cookie sessions that carry the signed-in user;
- handlers for the home page, post pages (list, show, create, edit, update, delete) and accounts (login, logout, register);
- the router that dispatches paths to those handlers through a `ServeMux`, wrapped in logging and panic-recovery middleware.

The store is a class (`Store.SQLiteStore`) whose fields are the two tables and their AUTOINCREMENT counters. Each of its methods is tied to the pure relational state (`Relational.Tables`). The writes and Authenticate are proved equal to one statement function over it. FindAllPosts is tied to the predicate `Relational.Listing`. The lookups state when they succeed in terms of the tables (`Visible`, key membership, `UsernameTaken`, `EmailTaken`) and which row they return. That state carries the schema's guarantees:
- usernames and emails are unique;
- every id lies below its counter;
- every stored password is a bcrypt hash.

A request's session is also a class (`Sessions.Session`). Its `Values` map and `MaxAge` change in place, and `Save` records the `Set-Cookie` of the response. `GetUserFromSession` reads the user back through JSON, where numbers are float64.

Each handler is a chain of early returns, in the order its Go function has them. For example, UpdatePostHandler checks in this order:
1. the session user;
2. the post id in the path;
3. that the store opens;
4. that the post exists;
5. that the user is the author;
6. the form fields.

It then does the one write and redirects. Only the two login and register process handlers check the HTTP method.

Each chain is stated as a function from the request, the tables and the session to the outcome, the new tables and the new session. Each handler method, running against the store and session objects, is proved to agree with its function. The lemmas beside them state what the handlers promise:
- only authors change their posts;
- nothing is written on an error path;
- create-then-show and update-then-show show the new text;
- register-then-login signs the new user in;
- logout signs out;
- passwords are never stored in plaintext or in the session.

The router is a table of `(pattern, route)` entries that `ServeMux.Handle` builds in the order `SetupRouter` registers them. Dispatch picks the longest matching pattern, where a pattern ending in `/` matches its whole subtree. A path without a trailing slash that is not registered, while its slash form is a registered subtree, gets a 301 to the slash form instead. `Serve` runs `Recover(Logger(mux))`. Lemmas fix the route of every class of path and the order of the middleware.

Inputs that the running program gets from its environment are parameters here:
- the clock (`now`);
- the bcrypt salt (`salt`);
- whether `db.NewSQLiteStore` succeeded (`storeOpen`);
- whether a handler panics (`panics`);
- the request's cookie (`Cookie`).

Files:
- `wrappers.dfy`, `models.dfy`, `strings.dfy`, `strconv.dfy`, `bcrypt.dfy`: helpers, the record types, `strings.TrimPrefix`, `strconv.Atoi`/`Itoa`, and an ideal bcrypt.
- `relational.dfy`, `sqlite_store.dfy`: the database.
- `session.dfy`: the session.
- `http.dfy`: requests, outcomes and pages.
- `post_controller.dfy`, `user_controller.dfy`, `home_controller.dfy`: the handlers.
- `router.dfy`: routing and middleware.

## Model

| member | source | states |
|---|---|---|
| Store.SQLiteStore.constructor | db/sqlite.go:19-85 | opening a fresh database file creates both tables empty, and the schema constraints hold |
| Store.SQLiteStore.FindAllPosts | db/sqlite.go:94-167 | the result lists exactly the posts whose author still exists, each once, joined with its author, newest `created_at` first; no posts gives the empty list |
| Store.SQLiteStore.FindPostByID | db/sqlite.go:171-196 | found iff the post and its author both exist; the result carries the post's id and its author, without the password; otherwise `sql.ErrNoRows` |
| Store.SQLiteStore.CreatePost | db/sqlite.go:200-219 | inserts under the next AUTOINCREMENT id, which is larger than every earlier id; writes id and both timestamps back into the post; fails only when the rowid space is exhausted, and then nothing changes |
| Store.SQLiteStore.UpdatePost | db/sqlite.go:223-235 | rewrites title, content and `updated_at` of that row only; an absent id changes nothing and is not an error |
| Store.SQLiteStore.DeletePost | db/sqlite.go:239-241 | removes that row only; never an error |
| Store.SQLiteStore.FindUserByID | db/sqlite.go:245-260 | found iff the id exists, with that row's fields; otherwise `sql.ErrNoRows` |
| Store.SQLiteStore.FindUserByUsername | db/sqlite.go:264-279 | found iff some user has that name; by the UNIQUE constraint it is that one user; otherwise `sql.ErrNoRows` |
| Store.SQLiteStore.FindUserByEmail | db/sqlite.go:283-298 | found iff some user has that email, and it is the only one; otherwise `sql.ErrNoRows` |
| Store.SQLiteStore.CreateUser | db/sqlite.go:302-327 | stores the bcrypt hash of the password, never the plaintext, under the next id; a duplicate username or email fails and changes nothing; the stored hash verifies the given password |
| Store.SQLiteStore.UpdateUser | db/sqlite.go:331-343 | rewrites username, email and `updated_at`; a clash with another row fails and changes nothing; the password hash is never rewritten |
| Store.SQLiteStore.DeleteUser | db/sqlite.go:347-349 | removes the user row only |
| Store.SQLiteStore.Authenticate | db/sqlite.go:353-369 | succeeds iff a user of that name exists and the password verifies against the stored hash |
| Relational.EmptyIsValid | db/sqlite.go:48-85 | the freshly created schema satisfies every constraint |
| Relational.UserNamed | db/sqlite.go:264-279 | the user row with that username, if any, and it is unique |
| Relational.AuthenticateUser | db/sqlite.go:353-369 | success iff the credentials verify; a failure is `ErrNoRows` exactly when the name is unknown, otherwise a password mismatch |
| Relational.SlotFor | db/sqlite.go:123-129 | the position ORDER BY `created_at` DESC gives a row: every row before it is at least as new, the next is older |
| Relational.InsertNewestFirstKeeps | db/sqlite.go:123-160 | placing a row with a new id keeps the output newest-first and duplicate-free, and adds exactly that row |
| Relational.InsertPostFresh | db/sqlite.go:200-219 | the insert succeeds iff the counter is below the largest rowid; the new id is fresh and above every older id; the constraints hold after; `created_at` equals `updated_at` |
| Relational.CreateThenFind | db/sqlite.go:171-219 | after CreatePost, FindPostByID returns the new post with its author, or nothing when the author row is missing |
| Relational.UpdatePostFrame | db/sqlite.go:223-235 | the update touches title, content and `updated_at` of one row and nothing else; it keeps the constraints |
| Relational.DeletePostIdempotent | db/sqlite.go:239-241 | delete removes exactly that row; deleting again changes nothing; afterwards the post is not found |
| Relational.InsertUserRejectsDuplicates | db/sqlite.go:302-327 | an insert with a taken username or email fails |
| Relational.InsertUserStoresHash | db/sqlite.go:302-327 | the insert succeeds iff the name and email are free and the id space is not exhausted; the new row holds the hash, which differs from the plaintext; the constraints hold after |
| Relational.RegisterThenAuthenticate | db/sqlite.go:302-369 | after CreateUser, Authenticate accepts the registered password for that username and rejects every other password |
| Relational.UpdateUserKeepsValid | db/sqlite.go:331-343 | UpdateUser fails iff another row holds the new username or email; on success the constraints hold, and the password and `created_at` are kept |
| Relational.DeleteUserOrphansPosts | db/sqlite.go:347-349 | DeleteUser leaves the user's posts stored, but the JOIN no longer shows them |
| Relational.ListingOfNoPosts | db/sqlite.go:110-120 | with no posts stored, FindAllPosts returns the empty list |
| Relational.ListingAfterDeleteUser | db/sqlite.go:123-129 | after DeleteUser, no listed post belongs to that user |
| Bcrypt.Hash | db/sqlite.go:304 | GenerateFromPassword yields a string in bcrypt's format |
| Bcrypt.VerifyHash | db/sqlite.go:362 | CompareHashAndPassword accepts a hash of `p` for password `q` iff `p == q` |
| Bcrypt.HashIsNotPlaintext | db/sqlite.go:304-311 | the stored hash is never the password itself |
| Bcrypt.VerifiedIsNotPlaintext | db/sqlite.go:362 | a string that verifies a password is not that password |
| Strings.TrimPrefix | controllers/post.go:62 | with the prefix present, prefix followed by the result gives back the path; otherwise the path is unchanged |
| Strings.TrimPrefixOfConcat | controllers/post.go:62 | trimming a prefix from prefix + rest gives rest |
| Strconv.Atoi | controllers/post.go:63 | parses iff the string is an optional sign followed by at least one decimal digit and nothing else, and the signed value fits in 64 bits; the result is that signed value |
| Strconv.NatDigits | controllers/post.go:192 | the digits of `n`, whose decimal value is `n` |
| Strconv.AtoiItoa | controllers/post.go:192 | `strconv.Atoi(strconv.Itoa(n)) == n` for every 64-bit `n` |
| Strconv.ItoaOfNatIsDigits | controllers/post.go:192 | Itoa of a non-negative id is a non-empty string of digits |
| Sessions.Float64Exact | utils/session.go:65-71 | an id below 2^53 in magnitude survives the float64 round trip of `encoding/json` |
| Sessions.Float64LosesId | utils/session.go:65-71 | the id 2^53+1 comes back as 2^53 |
| Sessions.UnmarshalObject | utils/session.go:65 | malformed bytes are an error; the text of a marshalled JSON object gives back its fields |
| Sessions.Load | utils/session.go:23-26 | store.Get: a cookie this program wrote yields its values; no cookie gives an empty session; a cookie that fails decoding gives an empty session and the error |
| Sessions.Written | utils/session.go:43-46 | Save writes the values as the cookie; a negative MaxAge deletes the cookie |
| Sessions.GetUserFromSession | utils/session.go:50-79 | no user when the cookie failed decoding, the key is absent or the JSON is malformed; a user read back has no password and zero timestamps |
| Sessions.SetUser | utils/session.go:21-47 | fails iff the cookie failed decoding; otherwise sets only the `user` key, to the JSON of the user's id, username and email, sets MaxAge to seven days and writes the cookie |
| Sessions.ClearUser | utils/session.go:82-95 | fails iff the cookie failed decoding; otherwise removes only the `user` key, sets MaxAge to -1 and deletes the cookie |
| Sessions.SetThenGet | utils/session.go:21-79 | after SetUserSession, GetUserFromSession returns the same id, username and email, in this request and from the cookie sent back |
| Sessions.PasswordNeverStored | utils/session.go:28-33 | the session never depends on the password; the stored projection has no password field |
| Sessions.ClearThenGet | utils/session.go:50-95 | after ClearUserSession no user is found, in this request or from the deleted cookie |
| Sessions.RejectedCookie | utils/session.go:23-26 | a cookie that fails decoding yields no user, and setting or clearing then fails |
| Sessions.Session.Get | utils/session.go:23 | the loaded session is the one store.Get produces from the cookie |
| Sessions.Session.Save | utils/session.go:46 | records the cookie for the current values and MaxAge, and changes nothing else |
| Sessions.Session.SetUserSession | utils/session.go:21-47 | the new session state is SetUser's; on error the state is unchanged |
| Sessions.Session.ClearUserSession | utils/session.go:82-95 | the new session state is ClearUser's; on error the state is unchanged |
| Http.FormValue | controllers/user.go:59-60 | a missing form field reads as the empty string |
| PostController.ListPostsHandler | controllers/post.go:15-57 | 500 when the store cannot be opened; otherwise the post list is FindAllPosts' listing, shown with the session user |
| PostController.GetPostHandler | controllers/post.go:60-110 | agrees with GetPost: 404 for a bad id or a missing post, 500 when the store cannot be opened, otherwise the post page |
| PostController.NewPostFormHandler | controllers/post.go:113-143 | anonymous users go to /login; others get the form |
| PostController.CreatePostHandler | controllers/post.go:146-193 | agrees with CreatePost: login redirect, then 400 on an empty title or content, then 500, then an insert and a redirect to the new post |
| PostController.EditPostFormHandler | controllers/post.go:196-256 | agrees with EditPostForm: login redirect, 404, 500, 404, 403 for non-authors, then the form |
| PostController.UpdatePostHandler | controllers/post.go:259-324 | agrees with UpdatePost: ownership is checked before the form; then one update and a redirect |
| PostController.DeletePostHandler | controllers/post.go:327-372 | agrees with DeletePost: ownership is checked; then one delete and a redirect to /posts |
| PostController.AnonymousGoesToLogin | controllers/post.go:113-118 | all five post-writing routes send an anonymous user to /login and write nothing |
| PostController.CreateNeedsTitleAndContent | controllers/post.go:160-168 | an empty title or content gives 400 and nothing is written |
| PostController.CreateThenShow | controllers/post.go:146-193 | create inserts exactly one row and redirects to `/posts/{id}`; following the redirect shows the new post with its author |
| PostController.CreateByDeletedUserIsHidden | controllers/post.go:172-193 | a session whose user row is gone still stores the post, but the redirect then gives 404 |
| PostController.BadIdIsNotFound | controllers/post.go:62-67 | a path suffix Atoi rejects gives 404 on show, edit, update and delete, and nothing is written |
| PostController.MissingPostIsNotFound | controllers/post.go:78-82 | an id with no visible post gives 404 on all four routes, and nothing is written |
| PostController.NonAuthorIsForbidden | controllers/post.go:228-231 | a non-author gets 403 from edit, update and delete, and nothing changes |
| PostController.UpdateNeedsTitleAndContent | controllers/post.go:303-310 | the author's update with an empty field gives 400 and no change |
| PostController.UpdateByAuthor | controllers/post.go:259-324 | the author's update rewrites that post only and redirects to it; the page then shows the new title and content |
| PostController.DeleteByAuthor | controllers/post.go:327-372 | the author's delete removes exactly that post and redirects to /posts; the post page then gives 404, and so does a repeated delete |
| PostController.NoWriteUnlessSuccessful | controllers/post.go:146-372 | any error, 404 or login redirect from create, update or delete leaves the tables unchanged |
| UserController.LoginFormHandler | controllers/user.go:13-42 | agrees with LoginForm: a signed-in user goes to /, others get the login page |
| UserController.RegisterFormHandler | controllers/user.go:103-132 | agrees with RegisterForm: a signed-in user goes to /, others get the register page |
| UserController.LoginProcessHandler | controllers/user.go:45-91 | agrees with LoginProcess: 405, 400, 500, 401, 500, then a session and a redirect to / |
| UserController.LogoutHandler | controllers/user.go:94-100 | agrees with Logout; the tables are not touched |
| UserController.RegisterProcessHandler | controllers/user.go:135-208 | agrees with RegisterProcess, where the duplicate checks and the insert see the same tables |
| UserController.OnlyPostIsAllowed | controllers/user.go:47-50 | login and register reject any method but POST with 405 and change nothing |
| UserController.LoginNeedsBothFields | controllers/user.go:59-66 | an empty username or password gives 400 |
| UserController.LoginFailuresLookAlike | controllers/user.go:77-81 | an unknown user and a wrong password get the same 401, and nothing changes |
| UserController.LoginSignsIn | controllers/user.go:77-90 | valid credentials redirect to /, the session then holds that user, and so does the cookie sent back |
| UserController.RegisterValidatesForm | controllers/user.go:149-163 | a missing field or a mismatched confirmation gives 400 and no user |
| UserController.RegisterConflicts | controllers/user.go:180-192 | a taken username gives 409 "username exists" even if the email is taken too; otherwise a taken email gives 409 "email exists" |
| UserController.RegisterRaceIsServerError | controllers/user.go:194-198 | a duplicate committed after the lookups is caught by the UNIQUE constraint and gives 500 |
| UserController.RegisterSignsIn | controllers/user.go:135-208 | a valid registration stores exactly one new row with the hashed password, signs that user in and redirects to /; those credentials authenticate and no other password does |
| UserController.RegisterWithBadCookieStillCreates | controllers/user.go:194-204 | when the session cannot be written the answer is 500, yet the user row is already stored |
| UserController.FormsSendSignedInUsersHome | controllers/user.go:15-19 | both forms redirect a signed-in user to / and render for an anonymous one |
| UserController.LogoutSignsOut | controllers/user.go:94-100 | logout always redirects to /; afterwards no user is in the session, and the cookie is deleted |
| UserController.RegisterThenLogin | controllers/user.go:45-208 | after registering, logging in with the same credentials signs in as the new user id |
| HomeController.HomeHandler | controllers/home.go:14-76 | 404 for any path but /; otherwise the home page with the session user and FindAllPosts' listing, or no posts when the store cannot be opened |
| Router.Longest | router/router.go:12 | no pattern matches iff the result is none; otherwise a matching entry no pattern of which is longer |
| Router.SameLengthMatchesAgree | router/router.go:12 | two patterns of the same length that both match a path are equal |
| Router.LongestMatchWins | router/router.go:12 | with distinct patterns, the longest matching entry wins, and it is dispatched unless ServeMux redirects the path to its slash form |
| Router.RedirectsAt | router/router.go:12 | a path without a trailing slash, not registered itself, whose slash form is registered, is answered with a 301 to the slash form |
| Router.ServeMux.constructor | router/router.go:12 | a new mux has no patterns |
| Router.ServeMux.Handle | router/router.go:16-35 | registration adds one entry at the end and keeps the patterns distinct |
| Router.SetupRouter | router/router.go:10-43 | the handler is Recover around Logger around the mux holding the fourteen routes, with distinct patterns |
| Router.RegisterPostPages | router/router.go:22-25 | registers /posts, /posts/, /posts/new and /posts/create in order |
| Router.RegisterPostActions | router/router.go:26-28 | registers the edit, update and delete subtrees in order |
| Router.RegisterLoginRoutes | router/router.go:31-33 | registers /login, /login/process and /logout in order |
| Router.RegisterSignupRoutes | router/router.go:34-35 | registers /register and /register/process in order |
| Router.RouteTablePatternsDistinct | router/router.go:15-35 | no pattern is registered twice, so no registration panics |
| Router.DiffersAt | router/router.go:12 | a pattern that differs from the path at some position neither matches it nor is its slash form |
| Router.PrefixCancel | router/router.go:12 | a shared head does not affect prefix matching |
| Router.PrefixOfPrefix | router/router.go:12 | a path under head + tail is under head |
| Router.WinsAt | router/router.go:15-35 | a matching route that no longer matching pattern beats is dispatched, when the path is that pattern or has no registered slash form |
| Router.EditWins | router/router.go:26 | every `/posts/edit/…` path goes to EditPostFormHandler |
| Router.UpdateWins | router/router.go:27 | every `/posts/update/…` path goes to UpdatePostHandler |
| Router.DeleteWins | router/router.go:28 | every `/posts/delete/…` path goes to DeletePostHandler |
| Router.PostsIsTheList | router/router.go:22 | `/posts` goes to ListPostsHandler |
| Router.PostsChildrenMiss | router/router.go:24-28 | other `/posts/…` paths match none of the longer post patterns |
| Router.PostsSubtreeIsGetPost | router/router.go:23-28 | every other `/posts/…` path goes to GetPostHandler, apart from the three action roots without their slash |
| Router.UnregisteredFallsToHome | router/router.go:19 | every other path beginning with / goes to HomeHandler, apart from `/static` |
| Router.StaticRootRedirects | router/router.go:16 | `/static` is answered with a 301 to `/static/` |
| Router.EditRootRedirects | router/router.go:26 | `/posts/edit` is answered with a 301 to `/posts/edit/` rather than reaching GetPostHandler |
| Router.UpdateRootRedirects | router/router.go:27 | `/posts/update` is answered with a 301 to `/posts/update/` |
| Router.DeleteRootRedirects | router/router.go:28 | `/posts/delete` is answered with a 301 to `/posts/delete/` |
| Router.StaticIsFileServer | router/router.go:15-16 | every `/static/…` path goes to the file server |
| Router.StaticPathSplits | router/router.go:16 | `/static/` + file is `/static` followed by `/` + file |
| Router.StaticIsStripped | router/router.go:15-16 | the file server sees `/static/` + file as `/` + file, and the request is logged |
| Router.ServesFile | router/router.go:16 | a path dispatched to a file server is served with the prefix stripped |
| Router.ChainOrder | router/router.go:38-40 | a panicking handler yields 500 "内部服务器错误" and only the panic is logged; otherwise, and always for ServeMux's own redirect, the reply is the mux's and one access line is logged |
| Router.SwappedChainLogsPanics | router/router.go:38-40 | with the middleware swapped, a panic would be logged and then also access-logged |
| Router.EveryPathIsHandled | router/router.go:19 | "/" catches every path, so dispatch never gives a 404 |

## Left out

- I/O and process: database files, connections, `Close`, `Ping`, SQL text and driver errors are not modelled. Whether `db.NewSQLiteStore` succeeded is the `storeOpen` input. The query and scan errors inside FindAllPosts ("无法获取文章") do not arise in the model.
- Templates: parsing and rendering ("模板解析错误", "模板渲染错误") are reduced to the page and the data handed to it. Their 500 responses are not modelled.
- Form parsing: `r.ParseForm` errors ("表单解析错误") are not modelled. A form is a map of fields in which a missing field reads as "".
- PostController.UpdatePostHandler: the 500 "无法更新文章" branch cannot arise, because an UPDATE on an existing row never fails in the model. The same holds for the 500 "无法删除文章" branch of PostController.DeletePostHandler.
- Post handlers: the post handlers do not check the HTTP method, and the model follows that code. A GET to `/posts/create`, `/posts/update/{id}` or `/posts/delete/{id}` writes just like a POST, although the forms that use these routes send POST.
- Sessions.SetThenGet: this holds only for ids below 2^53 in magnitude. The user id travels as a JSON float64, and Sessions.Float64LosesId shows the id 2^53+1 coming back as 2^53. UserController.LoginSignsIn, UserController.RegisterSignsIn and UserController.RegisterThenLogin carry the same bound on `userSeq`.
- Sessions.SetThenGet: strings are sequences of characters here, so the model cannot hold invalid UTF-8. A Go string can, for example a username posted as `%FF`. `json.Marshal` replaces such bytes with U+FFFD, so the username read back from the session would differ from the one stored; the round trip is not promised for such names. UserController.LoginSignsIn and UserController.RegisterSignsIn share this limit.
- Cookie codec: the signing (an HMAC with the key hard-coded at utils/session.go:14), the expiry check and the 4096-byte size limit are replaced by an ideal codec. There is no encryption, because the store gets no block key, so the client can read the username and email in its cookie. A cookie this program wrote decodes to its values, and any other cookie is rejected. Save therefore never fails in the model.
- Cookie forgery: the ideal codec assumes that no client can forge a cookie, and the program does not provide that. Anyone who knows the published key can sign any `user` value. PostController.NonAuthorIsForbidden, PostController.AnonymousGoesToLogin, UserController.LoginSignsIn, UserController.RegisterSignsIn, UserController.LogoutSignsOut and Sessions.SetThenGet rest on that assumption about who the session user is.
- Bcrypt: the hash is an ideal, injective stand-in with the salt as an input. Not modelled:
  - the 72-byte password limit;
  - errors from GenerateFromPassword;
  - the cost of hashing.

  Verify accepts exactly the hashed password.
- Store.SQLiteStore.CreateUser: it returns the caller's record, which keeps its plaintext password as the Go struct does. Only the table holds the hash.
- Store.SQLiteStore.FindAllPosts: Go's nil slice and the empty slice are both the empty sequence. Rows with equal `created_at` may come in any order; the contract allows any such order.
- Store.SQLiteStore.FindUserByUsername: only `sql.ErrNoRows` is modelled. Any other driver error would let RegisterProcessHandler go on to the insert, where the UNIQUE constraint still stops a duplicate.
- UserController.LogoutHandler: the error from ClearUserSession is ignored, as in the code. With a cookie that fails decoding, the redirect happens and nothing is cleared.
- Store.SQLiteStore.Authenticate: the two failures, unknown user and wrong password, are different errors. LoginProcessHandler maps both to the same 401.
- Logging: `log.Printf` lines, request timing, `RemoteAddr`, `RequestURI` and the stack trace of a panic are reduced to the access and panic lines of `Router.LogLine`.
- Panics: whether the dispatched handler panics is the input `panics`. What a handler wrote before panicking is not modelled.
- Router.ServeMux.Handle: Go's ServeMux panics on an empty or duplicate pattern. The model makes both a precondition, and Router.RouteTablePatternsDistinct shows that SetupRouter never violates it.
- ServeMux behaviour left out:
  - host-specific patterns, which the table does not use;
  - path cleaning of `..` and `//`, which ServeMux answers with a redirect to the cleaned path;
  - the query string that the trailing-slash redirect carries over.

  The trailing-slash redirect itself is modelled (Router.RedirectsToSubtree). It answers `/static`, `/posts/edit`, `/posts/update` and `/posts/delete` with a 301.
- Router.SetupRouter: the fourteen registrations are grouped into four helper methods that follow the source's comment sections. The registration order and the final table are unchanged.
- The static file server's reading of `./public` is not modelled. The model states which path reaches it.
- Clock: `time.Now` is the input `now`. Timestamps are integers.
- Integer width: post and user ids are Go `int` (64 bits). The model bounds them by SQLite's largest rowid (2^63-1), at which an insert fails.
