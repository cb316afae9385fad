/** The recovery file protocol shared by the packet and log recorders: the new state is written to
    a `.part` file, the main file is removed, and the part is renamed over it; a reader takes the
    copy with the higher generation. A crash may fall between any two steps, and inside the write
    of the part, which then does not decode. */
module Recovery {
  import opened Options

  datatype Desired = Running | Stopped

  /** What is persisted; `subject` stands for the session or run. */
  datatype State = State(generation: nat, desired: Desired, subject: string)

  datatype File = Absent | Torn | Whole(state: State)

  datatype Directory = Directory(main: File, part: File)

  // ---------- Reading ----------

  /** The copy a reader picks: the main file's, unless the part's is newer. */
  function Read(dir: Directory): Option<State> {
    if PartWins(dir) then Some(dir.part.state)
    else if dir.main.Whole? then Some(dir.main.state)
    else None
  }

  predicate PartWins(dir: Directory) {
    dir.part.Whole? && (dir.main.Whole? ==> dir.part.state.generation > dir.main.state.generation)
  }

  /** readRecovery, candidate by candidate. */
  method ReadRecovery(dir: Directory) returns (best: Option<State>)
    ensures best == Read(dir)
    ensures best.None? <==> !dir.main.Whole? && !dir.part.Whole?
    ensures best.Some? ==> best.value.generation >= Newest(dir.main) && best.value.generation >= Newest(dir.part)
    ensures best.Some? ==>
              if dir.main.Whole? && (dir.part.Whole? ==> dir.part.state.generation <= dir.main.state.generation)
              then best.value == dir.main.state
              else dir.part.Whole? && best.value == dir.part.state
  {
    best := None;
    var candidates := [dir.main, dir.part];
    for i := 0 to 2
      invariant i == 1 ==> best == if dir.main.Whole? then Some(dir.main.state) else None
      invariant i == 2 ==> best == Read(dir)
      invariant i == 0 ==> best.None?
    {
      var file := candidates[i];
      if file.Whole? && (best.None? || file.state.generation > best.value.generation) {
        best := Some(file.state);
      }
    }
  }

  function Newest(file: File): int {
    if file.Whole? then file.state.generation else -1
  }

  // ---------- Writing, with a crash at any point ----------

  /** How far a write got before the crash. */
  datatype Progress = NotBegun | PartTorn | PartWritten | MainRemoved | Renamed

  function Crashed(dir: Directory, state: State, progress: Progress): Directory {
    match progress
    case NotBegun => dir
    case PartTorn => dir.(part := Torn)
    case PartWritten => dir.(part := Whole(state))
    case MainRemoved => Directory(Absent, Whole(state))
    case Renamed => Directory(Whole(state), Absent)
  }

  class RecoveryFiles {
    var dir: Directory

    constructor (dir: Directory)
      ensures this.dir == dir
    {
      this.dir := dir;
    }

    /** writeRecovery, stopped after `steps` file-system operations; four are a complete write. */
    method WriteRecovery(state: State, steps: nat) returns (ghost progress: Progress)
      modifies this
      ensures dir == Crashed(old(dir), state, progress)
      ensures steps >= 4 <==> progress == Renamed
    {
      progress := NotBegun;
      if steps >= 1 {
        dir, progress := dir.(part := Torn), PartTorn;
      }
      if steps >= 2 {
        dir, progress := dir.(part := Whole(state)), PartWritten;
      }
      if steps >= 3 {
        dir, progress := dir.(main := Absent), MainRemoved;
      }
      if steps >= 4 {
        dir, progress := Directory(dir.part, Absent), Renamed;
      }
    }

    /** SetSessionDesiredState: read, change, write one generation up. */
    method SetDesired(desired: Desired, steps: nat) returns (ok: bool, ghost progress: Progress)
      modifies this
      ensures ok <==> Read(old(dir)).Some?
      ensures !ok ==> dir == old(dir)
      ensures ok ==> dir == Crashed(old(dir), Next(Read(old(dir)).value, desired), progress)
      ensures ok && !PartWins(old(dir)) ==>
                Read(dir) == if Committed(progress) then Some(Next(Read(old(dir)).value, desired)) else Read(old(dir))
      ensures ok && steps >= 4 ==>
                && Read(dir).Some? && Read(dir).value.desired == desired
                && Read(dir).value.generation == Read(old(dir)).value.generation + 1
                && Read(dir).value.subject == Read(old(dir)).value.subject
    {
      progress := NotBegun;
      var current := ReadRecovery(dir);
      if current.None? {
        return false, progress;
      }
      ok := true;
      progress := WriteRecovery(Next(current.value, desired), steps);
    }
  }

  function Next(state: State, desired: Desired): State {
    state.(desired := desired, generation := state.generation + 1)
  }

  /** The write takes effect the moment its part file is whole. */
  predicate Committed(progress: Progress) {
    progress.PartWritten? || progress.MainRemoved? || progress.Renamed?
  }

  /** A crash at any point leaves the old state or the new one, and nothing else. */
  ghost predicate CrashAtomic(dir: Directory, state: State) {
    forall p :: Read(Crashed(dir, state, p)) == if Committed(p) then Some(state) else Read(dir)
  }

  predicate Newer(state: State, dir: Directory) {
    Read(dir).None? || state.generation > Read(dir).value.generation
  }

  /** Exactly when a write is crash-atomic: unless the state to be replaced lives only in the part
      file, which the write truncates first. */
  lemma AtomicUnlessPartWins(dir: Directory, state: State)
    requires Newer(state, dir)
    ensures CrashAtomic(dir, state) <==> !PartWins(dir)
  {
    if PartWins(dir) {
      assert Read(Crashed(dir, state, PartTorn)) != Read(dir);
    }
  }

  // ---------- Any number of writes, then one crash ----------

  /** The directory after complete writes of all these states. */
  function WriteAll(dir: Directory, states: seq<State>): Directory {
    if states == [] then dir
    else Crashed(WriteAll(dir, states[..|states| - 1]), states[|states| - 1], Renamed)
  }

  ghost predicate Rising(states: seq<State>) {
    forall i, j :: 0 <= i < j < |states| ==> states[i].generation < states[j].generation
  }

  lemma {:induction false} WriteAllReads(dir: Directory, states: seq<State>)
    requires states != []
    ensures WriteAll(dir, states) == Directory(Whole(states[|states| - 1]), Absent)
  {
  }

  /** After any number of completed writes and one that a crash cut short anywhere, a reader finds
      the last state or the one before it; which one depends only on whether the part was whole. */
  lemma LastOrPrevious(dir: Directory, states: seq<State>, progress: Progress)
    requires !PartWins(dir) && states != [] && Rising(states) && Newer(states[0], dir)
    ensures var n := |states| - 1;
            var found := Read(Crashed(WriteAll(dir, states[..n]), states[n], progress));
            found == if Committed(progress) then Some(states[n]) else if n == 0 then Read(dir) else Some(states[n - 1])
  {
    var n := |states| - 1;
    if n > 0 {
      WriteAllReads(dir, states[..n]);
      assert states[..n][n - 1] == states[n - 1];
      assert states[n - 1].generation < states[n].generation;
    }
    var before := WriteAll(dir, states[..n]);
    AtomicUnlessPartWins(before, states[n]);
    assert CrashAtomic(before, states[n]);
  }

  /** The guarantee is for one crash: after a crash that left the new state only in the part file, a
      second crash inside the next write brings back neither of the last two states. */
  lemma SecondCrashLoses(old': State, new': State, next: State)
    requires old'.generation < new'.generation < next.generation
    ensures var first := Crashed(Directory(Whole(old'), Absent), new', PartWritten);
            Read(first) == Some(new') && Read(Crashed(first, next, PartTorn)) == Some(old')
    ensures var first := Crashed(Directory(Whole(old'), Absent), new', MainRemoved);
            Read(first) == Some(new') && Read(Crashed(first, next, PartTorn)) == None
  {
  }
}
