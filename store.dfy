/** The MySQL database behind the routes, as one object whose fields are the
    tables. Handlers change the fields in place; `Tables()` reads them back
    as a `Db` value so that each handler can be specified by a function on
    values. `withTransaction` of be/src/db.js is the snapshot/restore pair. */
module Store {
  import opened Common
  import opened Entities

  class Forum {
    var users: Table<User>
    var roles: map<int, string>
    var ideas: Table<Idea>
    var comments: Table<Comment>
    var ideaLikes: set<(int, int)>
    var commentLikes: set<(int, int)>
    var reports: Table<Report>
    var categories: Table<Category>
    var logs: seq<LogRow>

    function Tables(): Db
      reads this
    {
      Db(users, roles, ideas, comments, ideaLikes, commentLikes, reports, categories, logs)
    }

    ghost predicate Valid()
      reads this
    {
      Entities.Valid(Tables())
    }

    /** A fresh database holding only the role names; every counter starts at 1. */
    constructor (roles: map<int, string>)
      ensures Tables() == Db(Table(map[], 1), roles, Table(map[], 1), Table(map[], 1), {}, {},
                             Table(map[], 1), Table(map[], 1), [])
      ensures Valid()
    {
      this.users := Table(map[], 1);
      this.roles := roles;
      this.ideas := Table(map[], 1);
      this.comments := Table(map[], 1);
      this.ideaLikes := {};
      this.commentLikes := {};
      this.reports := Table(map[], 1);
      this.categories := Table(map[], 1);
      this.logs := [];
    }

    /** Writes a whole database back: the rollback of a transaction. */
    method Restore(db: Db)
      modifies this
      ensures Tables() == db
    {
      users := db.users;
      roles := db.roles;
      ideas := db.ideas;
      comments := db.comments;
      ideaLikes := db.ideaLikes;
      commentLikes := db.commentLikes;
      reports := db.reports;
      categories := db.categories;
      logs := db.logs;
    }
  }
}
