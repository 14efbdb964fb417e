/** A FIFO stream between two stages. */
module Streams {
  class Stream<T> {
    var items: seq<T>

    constructor ()
      ensures items == []
    {
      items := [];
    }

    /** A blocking read: it returns only once a word is there. */
    method Read() returns (x: T)
      requires items != []
      modifies this
      ensures x == old(items)[0] && items == old(items)[1..]
    {
      x := items[0];
      items := items[1..];
    }

    method Write(x: T)
      modifies this
      ensures items == old(items) + [x]
    {
      items := items + [x];
    }
  }

  /** Read n words in order. */
  method ReadMany<T>(s: Stream<T>, n: nat) returns (xs: seq<T>)
    requires |s.items| >= n
    modifies s
    ensures xs == old(s.items)[..n] && s.items == old(s.items)[n..]
  {
    xs := [];
    for i := 0 to n
      invariant xs == old(s.items)[..i] && s.items == old(s.items)[i..]
    {
      var x := s.Read();
      xs := xs + [x];
    }
  }

  /** Write all words in order. */
  method WriteAll<T>(s: Stream<T>, xs: seq<T>)
    modifies s
    ensures s.items == old(s.items) + xs
  {
    for i := 0 to |xs|
      invariant s.items == old(s.items) + xs[..i]
    {
      s.Write(xs[i]);
    }
  }
}
