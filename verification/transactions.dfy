/** All-or-nothing transactions over the tables, as WithTx runs them: statements
    go to the open transaction if there is one, else to the database itself. */
module Transactions {
  import opened Common

  // internal/services/users/repository/repository/auth.go
  class Database<T> {
    var db: T
    var tx: Option<T>

    constructor (rows: T)
      ensures db == rows && tx == None
    {
      db, tx := rows, None;
    }

    function Rows(): T
      reads this
    {
      match tx case None => db case Some(t) => t
    }

    method Exec(t: T)
      modifies this
      ensures Rows() == t && tx.Some? == old(tx.Some?)
      ensures tx.Some? ==> db == old(db)
    {
      if tx.Some? { tx := Some(t); } else { db := t; }
    }

    method BeginTx()
      requires tx.None?
      modifies this
      ensures tx == Some(old(db)) && db == old(db)
    {
      tx := Some(db);
    }

    method Rollback()
      requires tx.Some?
      modifies this
      ensures tx == None && db == old(db)
    {
      tx := None;
    }

    method Commit()
      requires tx.Some?
      modifies this
      ensures tx == None && db == old(tx).value
    {
      db, tx := tx.value, None;
    }
  }
}
