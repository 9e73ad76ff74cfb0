/**
  The mutex-protected list of utils/list.go as its callers see it between calls: a FIFO of items and a
  one-slot signal channel.  `Wakeup` takes the same operations apart into their interleavable steps.

  A Go callback captures variables and receives pointers.  Here a callback maps the captured state and
  the element to the captured state and the element as it leaves them.
*/
module UtilsList {
  import opened Common

  /** What Each leaves: the captured state and the list, visiting up to the first element that says stop. */
  function EachSpec<S, T>(xs: seq<T>, cb: (S, T) -> (S, T, bool), s: S): (r: (S, seq<T>))
    ensures |r.1| == |xs|
  {
    if xs == [] then (s, [])
    else
      var (s1, x, stop) := cb(s, xs[0]);
      if stop then (s1, [x] + xs[1..])
      else
        var (s2, rest) := EachSpec(xs[1..], cb, s1);
        (s2, [x] + rest)
  }

  /** What Remove leaves: the callback says of each element whether to delete it and whether to go on. */
  function RemoveSpec<S, T>(xs: seq<T>, cb: (S, T) -> (S, bool, bool), s: S): (r: (S, seq<T>)) {
    if xs == [] then (s, [])
    else
      var (s1, del, go) := cb(s, xs[0]);
      var kept := if del then [] else [xs[0]];
      if !go then (s1, kept + xs[1..])
      else
        var (s2, rest) := RemoveSpec(xs[1..], cb, s1);
        (s2, kept + rest)
  }

  class List<T> {
    var items: seq<T>
    var signal: bool

    constructor ()
      ensures items == [] && !signal
    {
      items, signal := [], false;
    }

    method Push(v: T)
      modifies this
      ensures items == old(items) + [v] && signal
    {
      items := items + [v];
      signal := true;
    }

    /** Take the head; signal again when something is left. */
    method Pop() returns (v: Option<T>)
      modifies this
      ensures old(items) == [] ==> v == None && items == [] && signal == old(signal)
      ensures old(items) != [] ==> v == Some(old(items)[0]) && items == old(items)[1..]
      ensures old(items) != [] ==> signal == (old(signal) || items != [])
    {
      if items == [] { return None; }
      v := Some(items[0]);
      items := items[1..];
      if items != [] { signal := true; }
    }

    method Len() returns (n: nat)
      ensures n == |items|
    {
      n := |items|;
    }

    method Each<S>(cb: (S, T) -> (S, T, bool), s0: S) returns (s: S)
      modifies this
      ensures (s, items) == EachSpec(old(items), cb, s0)
      ensures signal == old(signal)
    {
      var i := 0;
      s := s0;
      ghost var done, todo := [], items;
      while i < |items|
        invariant items == done + todo && i == |done| && signal == old(signal)
        invariant SameOutcome(EachSpec(old(items), cb, s0), done, EachSpec(todo, cb, s))
      {
        ghost var tail := todo[1..];
        var (s1, x, stop) := cb(s, items[i]);
        s := s1;
        ReplaceHead(done, todo, x);
        items := items[i := x];
        if stop { return; }
        Shift(done, x, tail);
        Shift(done, x, EachSpec(tail, cb, s).1);
        done, todo := done + [x], tail;
        i := i + 1;
      }
    }

    method Remove<S>(cb: (S, T) -> (S, bool, bool), s0: S) returns (s: S)
      modifies this
      ensures (s, items) == RemoveSpec(old(items), cb, s0)
      ensures signal == old(signal)
    {
      var f := 0;
      s := s0;
      ghost var done, todo := [], items;
      while f < |items|
        invariant items == done + todo && f == |done| && signal == old(signal)
        invariant SameOutcome(RemoveSpec(old(items), cb, s0), done, RemoveSpec(todo, cb, s))
        decreases |items| - f
      {
        ghost var x, tail := todo[0], todo[1..];
        var (s1, del, go) := cb(s, items[f]);
        s := s1;
        if del {
          items := items[..f] + items[f + 1..];
          assert items == done + tail;
          assert [] + RemoveSpec(tail, cb, s).1 == RemoveSpec(tail, cb, s).1;
          if !go { assert [] + tail == tail; return; }
          todo := tail;
        } else {
          if !go { assert [x] + tail == todo; return; }
          Shift(done, x, tail);
          Shift(done, x, RemoveSpec(tail, cb, s).1);
          done, todo := done + [x], tail;
          f := f + 1;
        }
      }
    }
  }

  ghost predicate SameOutcome<S, T>(whole: (S, seq<T>), done: seq<T>, rest: (S, seq<T>)) {
    whole.0 == rest.0 && whole.1 == done + rest.1
  }

  lemma ReplaceHead<T>(a: seq<T>, b: seq<T>, x: T)
    requires b != []
    ensures (a + b)[|a| := x] == a + ([x] + b[1..])
  {
  }

  lemma Shift<T>(a: seq<T>, x: T, b: seq<T>)
    ensures a + ([x] + b) == (a + [x]) + b
  {
  }
}
