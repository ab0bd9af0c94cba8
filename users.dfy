/** The user table. The record has the fields of server/models/User.js (`googleId`, `name`,
    `email`, `isAdmin`) and the `isBanned` flag that server/routes/admin.js reads and writes. */
module Users {
  import opened Common

  datatype User = User(
    googleId: string,
    name: string,
    email: string,
    isAdmin: bool,
    isBanned: bool)

  class UserCollection {
    var users: map<UserId, User>
  }
}
