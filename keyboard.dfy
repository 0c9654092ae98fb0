/**
 * The operator's keyboard, as seen by the controller.
 *
 * In the program every poll is a call of `kbhit`, which peeks at the terminal
 * without blocking, followed (when a key is pending) by a `getchar` that
 * consumes it. Here the whole session is a script with one entry per poll:
 * `None` when no key is pending, `Some(c)` when the poll finds `c` and the
 * following read consumes it. Once the script is exhausted no more keys
 * arrive, so every further poll reads `None`.
 */
module Keyboard {
  import opened Wrappers

  type Script = seq<Option<char>>

  /** What the poll number `i` of a session returns. */
  function Poll(script: Script, i: nat): Option<char>
  {
    if i < |script| then script[i] else None
  }

  /** The script left over once `n` polls have been made. */
  function Drop(script: Script, n: nat): (rest: Script)
    ensures n <= |script| ==> |rest| == |script| - n
    ensures |script| <= n ==> rest == []
  {
    if n <= |script| then script[n..] else []
  }

  /** Polling the rest of a script is polling the script further on. */
  lemma PollDrop(script: Script, n: nat, k: nat)
    ensures Poll(Drop(script, n), k) == Poll(script, n + k)
  {
  }

  lemma DropDrop(script: Script, a: nat, b: nat)
    ensures Drop(Drop(script, a), b) == Drop(script, a + b)
  {
    if a + b <= |script| {
      assert script[a..][b..] == script[a + b..];
    }
  }

  /** The key that makes a running action fail. */
  predicate IsAbortKey(c: char)
  {
    c == 'f' || c == 'F'
  }

  /** The key that makes the idle machine start a coffee. */
  predicate IsStartKey(c: char)
  {
    c == 'c' || c == 'C'
  }

  predicate AbortAt(script: Script, i: nat)
  {
    Poll(script, i).Some? && IsAbortKey(Poll(script, i).value)
  }

  predicate StartAt(script: Script, i: nat)
  {
    Poll(script, i).Some? && IsStartKey(Poll(script, i).value)
  }

  /** The operator presses the start key at some point of the script. */
  predicate HasStartKey(script: Script)
  {
    exists k :: 0 <= k < |script| && StartAt(script, k)
  }
}
