/**
 * `FileChangedWatcher`: a change detector over one file's modification
 * time. The file system is not modelled: each `os.stat(...).st_mtime` read is
 * a value passed in.
 */
module Watch {

  /**
   * One `has_changed()` call seen from outside: the answer, and the time it
   * stores. The call reads the mtime twice; it compares the SECOND read with
   * the stored time but stores the FIRST read.
   */
  datatype Poll = Poll(changed: bool, stored: real)

  function HasChangedSpec(last: real, firstRead: real, secondRead: real): Poll {
    Poll(secondRead != last, firstRead)
  }

  /**
   * Two polls of a file whose mtime stays at `m` from the first read of the
   * first call to the second read of the second: the second poll reports no
   * change, whatever the first reported.
   */
  lemma SteadyFileReportsOnce(last: real, m: real)
    ensures HasChangedSpec(last, m, m).changed <==> m != last
    ensures !HasChangedSpec(HasChangedSpec(last, m, m).stored, m, m).changed
  {
  }

  /**
   * A modification that lands between the two reads of one call is
   * reported by that call AND by the next one: the first read, stored, is
   * the old time, while the compared second read is already the new one.
   */
  lemma ChangeBetweenReadsReportedTwice(last: real, newer: real)
    requires newer != last
    ensures HasChangedSpec(last, last, newer).changed
    ensures HasChangedSpec(HasChangedSpec(last, last, newer).stored, newer, newer).changed
    ensures !HasChangedSpec(HasChangedSpec(HasChangedSpec(last, last, newer).stored, newer, newer).stored, newer, newer).changed
  {
  }

  class FileChangedWatcher {
    const fname: string
    var lastMtime: real

    /** Records the file's modification time as read at construction. */
    constructor (fname: string, mtime: real)
      ensures this.fname == fname && lastMtime == mtime
    {
      this.fname := fname;
      lastMtime := mtime;
    }

    /**
     * Re-reads the mtime (twice, as the source does), reports whether the
     * second read differs from the stored time, and stores the first read.
     */
    method HasChanged(firstRead: real, secondRead: real) returns (changed: bool)
      modifies this
      ensures Poll(changed, lastMtime) == HasChangedSpec(old(lastMtime), firstRead, secondRead)
    {
      var nowMtime := firstRead;
      changed := secondRead != lastMtime;
      lastMtime := nowMtime;
    }
  }
}
