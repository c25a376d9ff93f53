/** The database as the services update it: one field per table. */
module Database {
  import opened Domain

  class Database {
    var users: map<UserId, User>
    var jobs: map<JobId, Job>
    var usage: UsageTable
    var events: seq<Event>
    ghost var hist: History

    constructor (users: map<UserId, User>)
      ensures Snapshot() == EmptyDb(users)
    {
      this.users := users;
      jobs, usage, events := map[], map[], [];
      hist := History(map[], {}, map[], map[], map[]);
    }

    /** The tables as one value. */
    ghost function Snapshot(): (db: Db)
      reads this
    {
      Db(users, jobs, usage, events, hist)
    }
  }

  function EmptyDb(users: map<UserId, User>): Db {
    Db(users, map[], map[], [], History(map[], {}, map[], map[], map[]))
  }
}
