/** The single-owner lock a drain holds.  Models RunLock of core/lock.py: the file's lock belongs to at most
    one holder, taking it never waits, and giving it back twice does nothing. */
module Lock {
  import opened Common

  /** The operating system's side of one lock file. */
  class LockFile {
    var owner: Option<nat>

    constructor ()
      ensures owner == None
    {
      owner := None;
    }
  }

  class RunLock {
    const file: LockFile
    const token: nat
    var acquired: bool

    constructor (file: LockFile, token: nat)
      ensures this.file == file && this.token == token && !acquired
    {
      this.file := file;
      this.token := token;
      acquired := false;
    }

    /** What this object believes about the lock is true. */
    ghost predicate Valid()
      reads this, file
    {
      acquired ==> file.owner == Some(token)
    }

    /** False stands for RunLockError: the lock is held, and nothing changed. */
    method Acquire() returns (ok: bool)
      requires Valid()
      modifies this, file
      ensures Valid()
      ensures ok <==> old(file.owner) == None
      ensures ok ==> acquired && file.owner == Some(token)
      ensures !ok ==> file.owner == old(file.owner) && acquired == old(acquired)
    {
      ok := file.owner == None;
      if ok {
        file.owner := Some(token);
        acquired := true;
      }
    }

    method Release()
      requires Valid()
      modifies this, file
      ensures Valid() && !acquired
      ensures file.owner == if old(acquired) then None else old(file.owner)
    {
      if acquired {
        file.owner := None;
        acquired := false;
      }
    }
  }
}
