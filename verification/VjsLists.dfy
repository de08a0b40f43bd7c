// What a loop has read so far, and what is still to be read.

module VjsLists {
  import opened Wrappers
  import opened VjsSyntax

  /** The elements read so far, in front of the rest of them. */
  ghost function After<T>(done: seq<T>, rest: Option<seq<T>>): (all: Option<seq<T>>) {
    if rest.None? then None else Some(done + rest.value)
  }

  lemma {:induction false} AfterOne<T>(done: seq<T>, x: T, rest: Option<seq<T>>)
    ensures After(done + [x], rest) == After(done, After([x], rest))
  {
    if rest.Some? { assert (done + [x]) + rest.value == done + ([x] + rest.value); }
  }

  lemma {:induction false} AfterNothing<T>(rest: Option<seq<T>>)
    ensures After([], rest) == rest
  {
    if rest.Some? { assert [] + rest.value == rest.value; }
  }
}
