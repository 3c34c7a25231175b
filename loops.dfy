/** Loop frames (`Closure`) and the lexical picture they mirror: the
    positions of the `[` that are still unmatched in a prefix of the
    program. */
module Loops {
  import opened Tape
  import opened Instructions

  /** One loop frame. `start` is the position of the `[` that opened it;
      `skip` is fixed when it is opened: the cell under the pointer was 0.
      `root` marks the sentinel frame at the bottom of the stack. */
  datatype Closure = Closure(skip: bool, root: bool, start: nat)

  /** The sentinel frame every processor starts with: not skipping. */
  const RootFrame := Closure(skip := false, root := true, start := 0)

  /** The `start` positions of the frames above the bottom one, top first. */
  function Starts(closures: seq<Closure>): (r: seq<nat>)
    requires |closures| >= 1
    ensures |r| == |closures| - 1
    ensures forall i :: 0 <= i < |r| ==> r[i] == closures[i].start
  {
    if |closures| == 1 then [] else [closures[0].start] + Starts(closures[1..])
  }

  /** Positions of the `[` in `program[..n]` that no later `]` in that
      prefix closes, innermost first. A `]` with nothing open closes
      nothing here (the interpreter stops there with an error). */
  function Open(program: seq<byte>, n: nat): (r: seq<nat>)
    requires n <= |program|
    ensures forall i :: 0 <= i < |r| ==> r[i] < n && program[r[i]] == InstLoopStart
  {
    if n == 0 then []
    else
      var before := Open(program, n - 1);
      if program[n - 1] == InstLoopStart then [n - 1] + before
      else if program[n - 1] == InstLoopEnd && before != [] then before[1..]
      else before
  }

  /** The innermost open `[` splits the picture: below it lies exactly what
      was open just before that `[`. This is what lets a jump back to the
      `[` resume with the same frames. */
  lemma {:induction false} TopSplit(program: seq<byte>, n: nat)
    requires n <= |program| && Open(program, n) != []
    ensures Open(program, n)[1..] == Open(program, Open(program, n)[0])
    ensures Open(program, Open(program, n)[0] + 1) == Open(program, n)
    decreases n
  {
    var before := Open(program, n - 1);
    if program[n - 1] == InstLoopStart {
    } else if program[n - 1] == InstLoopEnd && before != [] {
      TopSplit(program, n - 1);
      TopSplit(program, before[0]);
    } else {
      TopSplit(program, n - 1);
    }
  }
}
