/**
 * util/FileWriteOperation.java: the options a writer is opened with for each
 * write mode. Opening the file itself is outside the model.
 */
module FileWrite {
  import opened Wrappers

  /** FileWriteOperation.Mode. */
  datatype Mode = CREATE_NEW | OVERWRITE | APPEND

  /** The java.nio StandardOpenOption values getWriteOptions uses. */
  datatype StandardOpenOption = CREATE | CREATE_NEW | TRUNCATE_EXISTING | APPEND | WRITE

  /**
   * The options of a mode: the file is truncated exactly when it is
   * overwritten, written at its end otherwise, and required not to exist
   * exactly in CREATE_NEW mode; writing is always the last option.
   */
  function WriteOptions(m: Mode): (r: seq<StandardOpenOption>)
    ensures |r| == 3 && r[2] == WRITE
    ensures TRUNCATE_EXISTING in r <==> m == Mode.OVERWRITE
    ensures StandardOpenOption.APPEND in r <==> m != Mode.OVERWRITE
    ensures StandardOpenOption.CREATE_NEW in r <==> m == Mode.CREATE_NEW
    ensures CREATE in r <==> m != Mode.CREATE_NEW
  {
    match m
    case OVERWRITE => [CREATE, TRUNCATE_EXISTING, WRITE]
    case CREATE_NEW => [StandardOpenOption.CREATE_NEW, StandardOpenOption.APPEND, WRITE]
    case APPEND => [CREATE, StandardOpenOption.APPEND, WRITE]
  }

  /** No mode asks for both truncating the file and writing at its end. */
  lemma NeverTruncateAndAppend(m: Mode)
    ensures !(TRUNCATE_EXISTING in WriteOptions(m) && StandardOpenOption.APPEND in WriteOptions(m))
  {
  }

  /** Every mode gives different options, so the three modes are told apart by the writer. */
  lemma ModesDiffer(m1: Mode, m2: Mode)
    requires m1 != m2
    ensures WriteOptions(m1) != WriteOptions(m2)
  {
    if m1 == Mode.OVERWRITE || m2 == Mode.OVERWRITE {
      assert (TRUNCATE_EXISTING in WriteOptions(m1)) != (TRUNCATE_EXISTING in WriteOptions(m2));
    } else {
      assert (StandardOpenOption.CREATE_NEW in WriteOptions(m1)) != (StandardOpenOption.CREATE_NEW in WriteOptions(m2));
    }
  }

  /**
   * getWriteOptions(): a fresh array of three slots (None for Java's null)
   * whose first two are set by the mode and whose last is WRITE.
   */
  method GetWriteOptions(m: Mode) returns (opts: array<Option<StandardOpenOption>>)
    ensures fresh(opts) && opts.Length == 3
    ensures forall i :: 0 <= i < 3 ==> opts[i] == Some(WriteOptions(m)[i])
  {
    opts := new Option<StandardOpenOption>[3](_ => None);
    match m {
      case OVERWRITE =>
        opts[0] := Some(CREATE);
        opts[1] := Some(TRUNCATE_EXISTING);
      case CREATE_NEW =>
        opts[0] := Some(StandardOpenOption.CREATE_NEW);
        opts[1] := Some(StandardOpenOption.APPEND);
      case APPEND =>
        opts[0] := Some(CREATE);
        opts[1] := Some(StandardOpenOption.APPEND);
    }
    opts[2] := Some(WRITE);
  }
}
