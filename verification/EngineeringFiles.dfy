/** Which files a run of the engineering agent tracks: those its implementation calls report. */
module EngineeringFiles {
  import opened Common
  import opened EngineeringAgents

  function Paths(files: seq<FileChange>): set<string> {
    set i | 0 <= i < |files| :: files[i].path
  }

  /** All changes that the implementation calls of a run reported, in order. */
  function Reported(trace: seq<Event>): seq<FileChange> {
    if trace == [] then []
    else
      var e := trace[|trace| - 1];
      Reported(trace[..|trace| - 1]) + if e.Implemented? then e.changes else []
  }

  lemma {:induction false} PathsAppend(files: seq<FileChange>, more: seq<FileChange>)
    ensures Paths(files + more) == Paths(files) + Paths(more)
  {
    forall p | p in Paths(files) + Paths(more)
      ensures p in Paths(files + more)
    {
      if p in Paths(files) {
        var i :| 0 <= i < |files| && files[i].path == p;
        assert (files + more)[i].path == p;
      } else {
        var i :| 0 <= i < |more| && more[i].path == p;
        assert (files + more)[|files| + i].path == p;
      }
    }
  }

  lemma {:induction false} DistinctPathsCount(files: seq<FileChange>)
    requires DistinctPaths(files)
    ensures |Paths(files)| == |files|
  {
    if files != [] {
      var n := |files| - 1;
      DistinctPathsCount(files[..n]);
      PathsAppend(files[..n], files[n..]);
      assert files == files[..n] + files[n..];
      assert Paths(files[n..]) == {files[n].path};
    }
  }

  /** The first change of each path that was not tracked before, in order. */
  ghost predicate FirstOfPath(files: seq<FileChange>, changes: seq<FileChange>, i: nat)
    requires i < |changes|
  {
    changes[i].path !in Paths(files) + Paths(changes[..i])
  }

  /** Exactly the paths tracked before and those of the changes are tracked, what was tracked
      stays, and each new path is kept with the first change that named it. */
  lemma {:induction false} TrackedAllPaths(files: seq<FileChange>, changes: seq<FileChange>)
    ensures var tracked := TrackedAll(files, changes);
            && files <= tracked
            && Paths(tracked) == Paths(files) + Paths(changes)
            && forall i :: 0 <= i < |changes| && FirstOfPath(files, changes, i) ==> changes[i] in tracked
  {
    if changes != [] {
      var n := |changes| - 1;
      var before, change := changes[..n], changes[n];
      TrackedAllPaths(files, before);
      var tracked := TrackedAll(files, before);
      assert changes == before + [change];
      PathsAppend(before, [change]);
      PathsAppend(tracked, [change]);
      assert Paths([change]) == {change.path} by {
        assert [change][0].path == change.path;
      }
      forall i | 0 <= i < |changes| && FirstOfPath(files, changes, i)
        ensures changes[i] in TrackedAll(files, changes)
      {
        if i < n {
          assert before[..i] == changes[..i] && FirstOfPath(files, before, i);
        }
      }
    }
  }

  lemma {:induction false} TrackedAllInTurn(files: seq<FileChange>, changes: seq<FileChange>, more: seq<FileChange>)
    ensures TrackedAll(TrackedAll(files, changes), more) == TrackedAll(files, changes + more)
  {
    if more == [] {
      assert changes + more == changes;
    } else {
      var n := |more| - 1;
      TrackedAllInTurn(files, changes, more[..n]);
      assert (changes + more)[..|changes| + n] == changes + more[..n];
    }
  }

  lemma NextFiles(limits: Limits, analyzer: bool, p: Position, e: Event)
    requires Next(limits, analyzer, p, e).Some?
    ensures Next(limits, analyzer, p, e).value.files ==
            TrackedAll(p.files, if e.Implemented? then e.changes else [])
  {
  }

  /** In every run the tracked files are those tracked at the start and then whatever the
      implementation calls reported. */
  lemma {:induction false} TracksWhatWasReported(limits: Limits, analyzer: bool, files: seq<FileChange>, trace: seq<Event>)
    requires Scan(limits, analyzer, files, trace).Some?
    ensures var p := Scan(limits, analyzer, files, trace).value;
            && p.files == TrackedAll(files, Reported(trace))
            && Paths(p.files) == Paths(files) + Paths(Reported(trace))
  {
    TrackedAllPaths(files, Reported(trace));
    if trace != [] {
      var before, e := trace[..|trace| - 1], trace[|trace| - 1];
      TracksWhatWasReported(limits, analyzer, files, before);
      NextFiles(limits, analyzer, Scan(limits, analyzer, files, before).value, e);
      TrackedAllInTurn(files, Reported(before), if e.Implemented? then e.changes else []);
    }
  }

  /** How many files a run has touched so far: the distinct paths tracked at its start or
      reported since. */
  function Touched(files: seq<FileChange>, trace: seq<Event>): nat {
    |Paths(files) + Paths(Reported(trace))|
  }

  lemma {:induction false} ImplementedStage(limits: Limits, analyzer: bool, files: seq<FileChange>, trace: seq<Event>)
    requires Scan(limits, analyzer, files, trace).Some?
    ensures var stage := Scan(limits, analyzer, files, trace).value.stage;
            stage.Coded? || stage.TooManyFiles? <==> trace != [] && trace[|trace| - 1].Implemented?
  {
  }

  /** An implementation call that touched too many files stops the run there, and only such a
      one; so a completed run has touched no more files than the limit allows. */
  lemma {:induction false} FileLimitDecides(limits: Limits, analyzer: bool, files: seq<FileChange>, trace: seq<Event>)
    requires limits.Valid() && DistinctPaths(files)
    requires Scan(limits, analyzer, files, trace).Some?
    ensures var stage := Scan(limits, analyzer, files, trace).value.stage;
            && (stage.TooManyFiles? <==>
                  trace != [] && trace[|trace| - 1].Implemented? && Touched(files, trace) > limits.maxFiles)
            && (stage.Done? ==> Touched(files, trace) <= limits.maxFiles)
  {
    var p := Scan(limits, analyzer, files, trace).value;
    RunsAreBounded(limits, analyzer, files, trace);
    TracksWhatWasReported(limits, analyzer, files, trace);
    ImplementedStage(limits, analyzer, files, trace);
    DistinctPathsCount(p.files);
    assert Touched(files, trace) == |p.files|;
  }
}
