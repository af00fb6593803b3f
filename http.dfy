/**
 * The request and response vocabulary of the handlers: what a handler reads
 * from *http.Request and what it ends by writing (http.Redirect with 303,
 * http.Error, http.NotFound, or a rendered template).
 */
module Http {
  import opened Wrappers
  import opened Models

  const MethodPost: string := "POST"

  const StatusSeeOther: int := 303
  const StatusBadRequest: int := 400
  const StatusUnauthorized: int := 401
  const StatusForbidden: int := 403
  const StatusMethodNotAllowed: int := 405
  const StatusConflict: int := 409
  const StatusInternalServerError: int := 500

  /**
   * The parts of a request the handlers look at: `verb` is r.Method,
   * `path` is r.URL.Path, and `form` is r.Form after ParseForm (the body's
   * fields merged with the query string's).
   */
  datatype Request = Request(verb: string, path: string, form: map<string, string>)

  /** r.FormValue: the field's value, or "" when the field is absent. */
  function FormValue(r: Request, key: string): (v: string)
    ensures key !in r.form ==> v == ""
    ensures key in r.form ==> v == r.form[key]
  {
    if key in r.form then r.form[key] else ""
  }

  /** The template a handler renders, with the data it hands over. */
  datatype View =
    | HomePage(posts: seq<Post>, user: Option<User>)
    | PostList(posts: seq<Post>, user: Option<User>)
    | PostPage(post: Post, user: Option<User>)
    | NewPostPage(author: User)
    | EditPostPage(post: Post, author: User)
    | LoginPage
    | RegisterPage

  /**
   * How a handler ends: http.Redirect (always with 303 See Other here),
   * http.Error with a status and its message, http.NotFound, or a page.
   */
  datatype Outcome =
    | Redirect(location: string)
    | Error(status: int, message: string)
    | NotFound
    | Render(view: View)

  // The messages the handlers pass to http.Error.
  const MsgServerError: string := "服务器内部错误"
  const MsgEmptyPost: string := "标题和内容不能为空"
  const MsgCannotCreatePost: string := "无法创建文章"
  const MsgCannotEdit: string := "没有权限编辑该文章"
  const MsgCannotDelete: string := "没有权限删除该文章"
  const MsgMethodNotAllowed: string := "方法不允许"
  const MsgEmptyLogin: string := "用户名和密码不能为空"
  const MsgBadCredentials: string := "用户名或密码错误"
  const MsgCannotCreateSession: string := "无法创建会话"
  const MsgEmptyRegistration: string := "所有字段都必须填写"
  const MsgPasswordMismatch: string := "两次密码输入不一致"
  const MsgUsernameExists: string := "用户名已存在"
  const MsgEmailExists: string := "邮箱已存在"
  const MsgCannotCreateUser: string := "无法创建用户"
}
