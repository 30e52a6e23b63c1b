/** Self-update (micromamba/src/update.cpp:46-63, 138-177): the version chosen, and the swap of the executable. */
module SelfUpdate {
  import opened Outcomes

  /** `rank` stands for the order of parsed versions. */
  method LatestPackage<T>(packages: seq<T>, rank: T -> int) returns (out: Option<T>)
    ensures out.None? <==> packages == []
    ensures out.Some? ==>
              exists i | 0 <= i < |packages| ::
                && out.value == packages[i]
                && (forall k | 0 <= k < i :: rank(packages[k]) < rank(packages[i]))
                && (forall k | i <= k < |packages| :: rank(packages[k]) <= rank(packages[i]))
  {
    out := None;
    ghost var best := 0;
    for i := 0 to |packages|
      invariant out.None? <==> i == 0
      invariant out.Some? ==>
                  && best < i && out.value == packages[best]
                  && (forall k | 0 <= k < best :: rank(packages[k]) < rank(packages[best]))
                  && (forall k | best <= k < i :: rank(packages[k]) <= rank(packages[best]))
    {
      if out.None? || rank(packages[i]) > rank(out.value) {
        out := Some(packages[i]);
        best := i;
      }
    }
  }

  /** The steps on the disk that may fail. */
  datatype Step = MoveAway | Copy | Sign | DropBackup | DropExe | Restore

  datatype Host = Windows | Apple | Linux

  /** A step inside the `try` block fails. */
  predicate TryFails(host: Host, faults: set<Step>) {
    || Copy in faults
    || (host == Apple && Sign in faults)
    || (host != Windows && DropBackup in faults)
  }

  predicate AtMostOne(faults: set<Step>) {
    forall a, b | a in faults && b in faults :: a == b
  }

  class Installation {
    var exe: Option<string>
    var backup: Option<string>

    constructor (program: string)
      ensures exe == Some(program) && backup == None
    {
      exe, backup := Some(program), None;
    }

    /**
     Puts `program` in place of the executable; a copy that fails may leave `partial`. The executable is
     missing at the end only after two faults or more, and the old one is never lost on a failure.
     */
    method Swap(program: string, partial: Option<string>, host: Host, faults: set<Step>) returns (ok: bool)
      requires exe.Some?
      modifies this
      ensures ok <==> MoveAway !in faults && !TryFails(host, faults)
      ensures ok ==> exe == Some(program) && backup == if host == Windows then old(exe) else None
      ensures !ok ==> exe == old(exe) || backup == old(exe)
      ensures !ok && DropExe !in faults && Restore !in faults ==> exe == old(exe)
      ensures exe.None? <==>
              && !ok && MoveAway !in faults
              && if DropExe in faults then Copy in faults && partial.None? else Restore in faults
      ensures AtMostOne(faults) ==> exe.Some? && (ok || exe == old(exe))
    {
      if MoveAway in faults {
        return false;
      }
      backup, exe := exe, None;
      ok := false;
      if Copy in faults {
        exe := partial;
      } else {
        exe := Some(program);
        if host == Windows {
          ok := true;
        } else if host == Apple && Sign in faults {
        } else if DropBackup in faults {
        } else {
          backup := None;
          ok := true;
        }
      }
      if !ok {
        if DropExe in faults {
          return;
        }
        exe := None;
        if Restore in faults {
          return;
        }
        exe, backup := backup, None;
      }
    }
  }
}
