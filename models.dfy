/** The records of models/user.go and models/post.go. */
module Models {
  import opened Wrappers

  /** Instants in whole seconds; the store keeps RFC 3339 text with second precision. */
  type Time = int

  /** The zero `time.Time{}` that a user decoded from the session carries. */
  const ZeroTime: Time := 0

  /** models.User: `password` is the stored bcrypt hash, or the plaintext before CreateUser. */
  datatype User = User(
    id: int,
    username: string,
    email: string,
    password: string,
    createdAt: Time,
    updatedAt: Time)

  /** models.Post: `author` is the `User` pointer that the store's JOIN fills in. */
  datatype Post = Post(
    id: int,
    title: string,
    content: string,
    userId: int,
    author: Option<User>,
    createdAt: Time,
    updatedAt: Time)
}
