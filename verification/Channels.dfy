/** Words of fixed-size groups travelling through a channel, read and written one at a time. */
module Channels {
  /** Everything ever written to a channel, and how much of it has been read. */
  datatype Chan<T> = Chan(hist: seq<T>, rd: nat)

  ghost function Push<T>(c: Chan<T>, x: T): Chan<T> {
    c.(hist := c.hist + [x])
  }

  ghost function Pop<T>(c: Chan<T>): Chan<T> {
    c.(rd := c.rd + 1)
  }

  ghost predicate Nonempty<T>(c: Chan<T>) {
    c.rd < |c.hist|
  }

  ghost function Head<T>(c: Chan<T>): T
    requires Nonempty(c)
  {
    c.hist[c.rd]
  }

  ghost function Concat<T>(gs: seq<seq<T>>): (s: seq<T>) {
    if gs == [] then [] else Concat(gs[..|gs| - 1]) + gs[|gs| - 1]
  }

  ghost predicate Sizes<T>(gs: seq<seq<T>>, z: nat) {
    forall i :: 0 <= i < |gs| ==> |gs[i]| == z
  }

  lemma {:induction false} ConcatLength<T>(gs: seq<seq<T>>, z: nat)
    requires Sizes(gs, z)
    ensures |Concat(gs)| == z * |gs|
    decreases |gs|
  {
    if gs != [] {
      ConcatLength(gs[..|gs| - 1], z);
      NextMultiple(z, |gs| - 1);
    }
  }

  lemma NextMultiple(z: nat, n: nat)
    ensures z * n + z == z * (n + 1)
  {
  }

  lemma {:induction false} ConcatSlice<T>(gs: seq<seq<T>>, z: nat, k: nat)
    requires Sizes(gs, z) && k < |gs|
    ensures |Concat(gs)| == z * |gs| && z * k + z <= |Concat(gs)| && Concat(gs)[z * k..z * k + z] == gs[k]
    decreases |gs|
  {
    var p := gs[..|gs| - 1];
    ConcatLength(gs, z);
    ConcatLength(p, z);
    Room(z, k, |gs|);
    if k < |p| {
      Room(z, k, |p|);
      ConcatSlice(p, z, k);
    }
  }

  lemma Room(z: nat, k: nat, n: nat)
    requires k < n
    ensures z * k + z <= z * n
  {
    assert z * (k + 1) <= z * n;
  }

  /** The writer side: the groups emitted so far are what is on the channel plus what is still to be written. */
  ghost predicate Writer<T>(c: Chan<T>, pend: seq<T>, gs: seq<seq<T>>, z: nat) {
    Sizes(gs, z) && c.hist + pend == Concat(gs)
  }

  lemma WriterBound<T>(c: Chan<T>, pend: seq<T>, gs: seq<seq<T>>, z: nat)
    requires Writer(c, pend, gs, z)
    ensures |c.hist| <= z * |gs|
  {
    ConcatLength(gs, z);
  }

  lemma WriteOne<T>(c: Chan<T>, pend: seq<T>, gs: seq<seq<T>>, z: nat)
    requires Writer(c, pend, gs, z) && pend != []
    ensures Writer(Push(c, pend[0]), pend[1..], gs, z)
  {
    assert c.hist + [pend[0]] + pend[1..] == c.hist + pend;
  }

  lemma Emit<T>(c: Chan<T>, gs: seq<seq<T>>, z: nat, g: seq<T>)
    requires Writer(c, [], gs, z) && |g| == z
    ensures Writer(c, g, gs + [g], z)
  {
    assert (gs + [g])[..|gs + [g]| - 1] == gs;
    assert c.hist + [] == c.hist;
  }

  /** The reader side: whole groups have been consumed, and buf is the part of the next one read so far. */
  ghost predicate Reader<T>(c: Chan<T>, buf: seq<T>, fired: nat, z: nat) {
    && c.rd == z * fired + |buf| && c.rd <= |c.hist| && |buf| < z
    && buf == c.hist[z * fired..c.rd]
  }

  lemma ReaderSeesWrite<T>(c: Chan<T>, buf: seq<T>, fired: nat, z: nat, x: T)
    requires Reader(c, buf, fired, z)
    ensures Reader(Push(c, x), buf, fired, z)
  {
  }

  lemma ReadPart<T>(c: Chan<T>, buf: seq<T>, fired: nat, z: nat)
    requires Reader(c, buf, fired, z) && Nonempty(c) && |buf| + 1 < z
    ensures Reader(Pop(c), buf + [Head(c)], fired, z)
  {
  }

  /** The word that completes a group: what was read is exactly the next emitted group. */
  lemma ReadLast<T>(c: Chan<T>, buf: seq<T>, fired: nat, z: nat, pend: seq<T>, gs: seq<seq<T>>)
    requires Reader(c, buf, fired, z) && Writer(c, pend, gs, z) && Nonempty(c) && |buf| + 1 == z
    ensures fired < |gs| && buf + [Head(c)] == gs[fired]
    ensures Reader(Pop(c), [], fired + 1, z)
  {
    ConcatLength(gs, z);
    var g := buf + [Head(c)];
    assert z * fired + z == z * (fired + 1) == c.rd + 1 <= |Concat(gs)|;
    Fewer(z, fired, |gs|);
    ConcatSlice(gs, z, fired);
    assert g == c.hist[z * fired..c.rd + 1] == (c.hist + pend)[z * fired..z * fired + z];
  }

  lemma Fewer(z: nat, k: nat, n: nat)
    requires z > 0 && z * (k + 1) <= z * n
    ensures k < n
  {
    if k >= n { Room(z, n, k + 1); }
  }

  /** What has been read in whole groups never exceeds what was emitted. */
  lemma Behind<T>(c: Chan<T>, buf: seq<T>, fired: nat, z: nat, pend: seq<T>, gs: seq<seq<T>>)
    requires Reader(c, buf, fired, z) && Writer(c, pend, gs, z)
    ensures fired <= |gs|
  {
    ConcatLength(gs, z);
    if fired > |gs| { Room(z, |gs|, fired); }
  }

  /** A drained channel has delivered every group. */
  lemma DrainedChan<T>(c: Chan<T>, buf: seq<T>, fired: nat, z: nat, gs: seq<seq<T>>)
    requires Reader(c, buf, fired, z) && Writer(c, [], gs, z) && !Nonempty(c)
    ensures fired == |gs| && buf == []
  {
    ConcatLength(gs, z);
    assert c.hist + [] == c.hist;
    Behind(c, buf, fired, z, [], gs);
    if fired < |gs| { Room(z, fired, |gs|); }
  }
}
