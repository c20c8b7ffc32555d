/** The output tails of a command, kept chunk by chunk. */
module StreamTail {

  const OutputTailLimit: nat := 8192

  /** `tail` */
  function Tail(value: string, limit: nat): string {
    if |value| <= limit then value else value[|value| - limit..]
  }

  /** Keeping only the tail between chunks loses nothing of the final tail. */
  lemma TailOfTail(a: string, b: string, limit: nat)
    ensures Tail(Tail(a, limit) + b, limit) == Tail(a + b, limit)
  {
    if |a| > limit {
      assert a == a[..|a| - limit] + Tail(a, limit);
      assert a + b == a[..|a| - limit] + (Tail(a, limit) + b);
    }
  }

  /** The tail is the suffix of length min(limit, total). */
  lemma TailIsSuffix(value: string, limit: nat, s: string)
    ensures Tail(value, limit) == s <==>
            && |s| == (if |value| <= limit then |value| else limit)
            && exists k :: 0 <= k <= |value| && value[k..] == s
  {
    var t := Tail(value, limit);
    assert value[|value| - |t|..] == t;
  }

  /** The variables that the stream handlers of one command reassign. */
  class Capture {
    var stdoutFull: string
    var stdout: string
    var stderr: string

    constructor ()
      ensures stdoutFull == "" && stdout == "" && stderr == ""
    {
      stdoutFull, stdout, stderr := "", "", "";
    }

    /** The standard output is kept whole and cut again at every chunk. */
    method OnStdout(chunk: string)
      modifies this
      ensures stdoutFull == old(stdoutFull) + chunk && stdout == Tail(stdoutFull, OutputTailLimit)
      ensures stderr == old(stderr)
    {
      stdoutFull := stdoutFull + chunk;
      stdout := Tail(stdoutFull, OutputTailLimit);
    }

    /** The error output is cut before the next chunk arrives. */
    method OnStderr(chunk: string)
      modifies this
      ensures stderr == Tail(old(stderr) + chunk, OutputTailLimit)
      ensures stdoutFull == old(stdoutFull) && stdout == old(stdout)
    {
      stderr := Tail(stderr + chunk, OutputTailLimit);
    }
  }

  datatype Chunk = Out(text: string) | Err(text: string)

  function TextOf(chunks: seq<Chunk>, out: bool): string {
    if chunks == [] then ""
    else
      var last := chunks[|chunks| - 1];
      TextOf(chunks[..|chunks| - 1], out) + (if last.Out? == out then last.text else "")
  }

  /** However the two outputs are split and interleaved, each tail is the tail of
      its whole output. */
  method Collect(chunks: seq<Chunk>) returns (c: Capture)
    ensures c.stdoutFull == TextOf(chunks, true)
    ensures c.stdout == Tail(TextOf(chunks, true), OutputTailLimit)
    ensures c.stderr == Tail(TextOf(chunks, false), OutputTailLimit)
  {
    c := new Capture();
    for i := 0 to |chunks|
      invariant c.stdoutFull == TextOf(chunks[..i], true)
      invariant c.stdout == Tail(TextOf(chunks[..i], true), OutputTailLimit)
      invariant c.stderr == Tail(TextOf(chunks[..i], false), OutputTailLimit)
    {
      assert chunks[..i + 1][..i] == chunks[..i];
      TailOfTail(TextOf(chunks[..i], false), chunks[i].text, OutputTailLimit);
      match chunks[i] {
        case Out(text) =>
          assert TextOf(chunks[..i], false) + "" == TextOf(chunks[..i], false);
          c.OnStdout(text);
        case Err(text) =>
          assert TextOf(chunks[..i], true) + "" == TextOf(chunks[..i], true);
          c.OnStderr(text);
      }
    }
    assert chunks[..|chunks|] == chunks;
  }
}
