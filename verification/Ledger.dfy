/** Where the bytes of the port have gone: conservation of bytes, for any code that uses the port. */
module Ledger {
  import opened Options
  import opened Port

  /** The port, and logs of the bytes that reads consumed, that drivers were handed, and that flushes discarded. */
  datatype Books = Books(port: seq<Poll>, consumed: seq<Arrival>, dispatched: seq<Delivery>, flushed: seq<Arrival>) {
    function After(r: Outcome): Books {
      Books(r.rest, consumed + r.taken, dispatched + r.dispatched, flushed)
    }

    /** A plain read. */
    function Read(dev: Stream, startup: bool): Books {
      After(ReadPlain(dev, startup, BUDGET, port))
    }

    /** A flush discards the bytes that are ready. */
    function Flushed(): Books {
      this.(port := AfterFlush(port), flushed := flushed + ReadyBytes(port))
    }

    /** An interrupt hands them to the drivers. */
    function Interrupted(): Books {
      this.(port := AfterFlush(port), dispatched := dispatched + ReadyBytes(port))
    }
  }

  // ----- The bytes that are ready now

  /** How many bytes are ready in front of the port. */
  function ReadyPrefix(port: seq<Poll>): (n: nat)
    ensures n <= |port|
    ensures forall i :: 0 <= i < n ==> port[i].Ready?
    ensures n < |port| ==> port[n].NotReady?
  {
    if port == [] || port[0].NotReady? then 0 else 1 + ReadyPrefix(port[1..])
  }

  function ReadyBytes(port: seq<Poll>): (r: seq<Arrival>) {
    Arrivals(port[..ReadyPrefix(port)])
  }

  /** The poll that finds nothing more is used up too. */
  function AfterFlush(port: seq<Poll>): (rest: seq<Poll>) {
    var n := ReadyPrefix(port);
    if n == |port| then [] else port[n + 1..]
  }

  /** One byte of a loop that reads for as long as something is ready. */
  lemma {:induction false} ReadyStep(b: Books)
    requires b.port != [] && b.port[0].Ready?
    ensures ReadyPrefix(b.port) == 1 + ReadyPrefix(b.port[1..])
    ensures var a, rest := b.port[0].arrival, b.port[1..];
            && b.Flushed() == b.(port := rest, flushed := b.flushed + [a]).Flushed()
            && b.Interrupted() == b.(port := rest, dispatched := b.dispatched + [a]).Interrupted()
  {
    var a, rest := b.port[0].arrival, b.port[1..];
    var n := ReadyPrefix(rest);
    assert b.port[..n + 1][1..] == rest[..n];
    assert ReadyBytes(b.port) == [a] + ReadyBytes(rest);
    assert b.flushed + ([a] + ReadyBytes(rest)) == b.flushed + [a] + ReadyBytes(rest);
    assert b.dispatched + ([a] + ReadyBytes(rest)) == b.dispatched + [a] + ReadyBytes(rest);
  }

  /** The poll that ends the loop. */
  lemma {:induction false} ReadyEnd(b: Books)
    ensures b.port == [] || b.port[0].NotReady? ==>
            && ReadyPrefix(b.port) == 0
            && b.Flushed() == b.Interrupted() == b.(port := if b.port == [] then [] else b.port[1..])
  {
    if b.port == [] || b.port[0].NotReady? {
      assert b.port[..0] == [] && ReadyBytes(b.port) == [];
    }
  }

  lemma {:induction false} ReadyBytesUsed(port: seq<Poll>)
    ensures Suffix(AfterFlush(port), port)
    ensures Arrivals(Used(port, AfterFlush(port))) == ReadyBytes(port)
  {
    var n := ReadyPrefix(port);
    var used := Used(port, AfterFlush(port));
    if n == |port| {
      assert used == port[..n];
    } else {
      assert used == port[..n] + [NotReady];
      ArrivalsConcat(port[..n], [NotReady]);
    }
  }

  // ----- Conservation

  /** What a log has gained. */
  function New(before: seq<Arrival>, now: seq<Arrival>): seq<Arrival>
    requires before <= now
  {
    now[|before|..]
  }

  /** From `b` to `b'` the port lost a prefix and the logs only grew.  The bytes of stream `s` in that prefix are an
      order-preserving merge of those consumed, those handed to that stream's driver, and those flushed. */
  ghost predicate TracedOn(s: Stream, b: Books, b': Books) {
    && Suffix(b'.port, b.port)
    && b.consumed <= b'.consumed && b.dispatched <= b'.dispatched && b.flushed <= b'.flushed
    && Merge(OnStream(s, New(b.consumed, b'.consumed)), OnStream(s, New(b.dispatched, b'.dispatched)),
             OnStream(s, New(b.flushed, b'.flushed)), OnStream(s, Arrivals(Used(b.port, b'.port))))
  }

  /** No byte is lost, doubled, misrouted or overtaken within its stream. */
  ghost predicate Traced(b: Books, b': Books) {
    forall s: Stream :: TracedOn(s, b, b')
  }

  /** It is enough to account for the bytes used. */
  lemma {:induction false} TracedIf(b: Books, b': Books, c: seq<Arrival>, d: seq<Delivery>, f: seq<Arrival>)
    requires Suffix(b'.port, b.port) && Accounted(c, d, f, Arrivals(Used(b.port, b'.port)))
    requires b'.consumed == b.consumed + c && b'.dispatched == b.dispatched + d && b'.flushed == b.flushed + f
    ensures Traced(b, b')
  {
    assert New(b.consumed, b'.consumed) == c && New(b.dispatched, b'.dispatched) == d;
    assert New(b.flushed, b'.flushed) == f;
  }

  lemma {:induction false} NothingTraced(b: Books)
    ensures Traced(b, b)
  {
    assert Used(b.port, b.port) == [];
    TracedIf(b, b, [], [], []);
  }

  lemma {:induction false} ReadTraced(b: Books, r: Outcome)
    requires Accounts(r, [], b.port)
    ensures Traced(b, b.After(r))
  {
    var u := Arrivals(Used(b.port, r.rest));
    assert [] + u == u && b.flushed + [] == b.flushed;
    TracedIf(b, b.After(r), r.taken, r.dispatched, []);
  }

  lemma {:induction false} FlushedAccounted(all: seq<Arrival>)
    ensures Accounted([], [], all, all)
  {
    if all != [] {
      FlushedAccounted(all[1..]);
      AccountedConcat([], [], [all[0]], [all[0]], [], [], all[1..], all[1..]);
      assert [all[0]] + all[1..] == all;
    }
  }

  lemma {:induction false} DispatchedAccounted(all: seq<Arrival>)
    ensures Accounted([], all, [], all)
  {
    if all != [] {
      DispatchedAccounted(all[1..]);
      AccountedConcat([], [all[0]], [], [all[0]], [], all[1..], [], all[1..]);
      assert [all[0]] + all[1..] == all;
    }
  }

  lemma {:induction false} FlushTraced(b: Books)
    ensures Traced(b, b.Flushed())
  {
    ReadyBytesUsed(b.port);
    FlushedAccounted(ReadyBytes(b.port));
    assert b.consumed + [] == b.consumed && b.dispatched + [] == b.dispatched;
    TracedIf(b, b.Flushed(), [], [], ReadyBytes(b.port));
  }

  lemma {:induction false} InterruptTraced(b: Books)
    ensures Traced(b, b.Interrupted())
  {
    ReadyBytesUsed(b.port);
    DispatchedAccounted(ReadyBytes(b.port));
    assert b.consumed + [] == b.consumed && b.flushed + [] == b.flushed;
    TracedIf(b, b.Interrupted(), [], ReadyBytes(b.port), []);
  }

  lemma {:induction false} TracedTransitive(a: Books, b: Books, c: Books)
    requires Traced(a, b) && Traced(b, c)
    ensures Traced(a, c)
  {
    forall s: Stream ensures TracedOn(s, a, c) {
      TracedOnTransitive(s, a, b, c);
    }
  }

  lemma {:induction false} TracedOnTransitive(s: Stream, a: Books, b: Books, c: Books)
    requires TracedOn(s, a, b) && TracedOn(s, b, c)
    ensures TracedOn(s, a, c)
  {
    Rejoin(s, a.consumed, b.consumed, c.consumed);
    Rejoin(s, a.dispatched, b.dispatched, c.dispatched);
    Rejoin(s, a.flushed, b.flushed, c.flushed);
    UsedTwice(s, a.port, b.port, c.port);
    MergeConcat(OnStream(s, New(a.consumed, b.consumed)), OnStream(s, New(a.dispatched, b.dispatched)),
                OnStream(s, New(a.flushed, b.flushed)), OnStream(s, Arrivals(Used(a.port, b.port))),
                OnStream(s, New(b.consumed, c.consumed)), OnStream(s, New(b.dispatched, c.dispatched)),
                OnStream(s, New(b.flushed, c.flushed)), OnStream(s, Arrivals(Used(b.port, c.port))));
  }

  lemma {:induction false} Rejoin(s: Stream, a: seq<Arrival>, b: seq<Arrival>, c: seq<Arrival>)
    requires a <= b <= c
    ensures a <= c && OnStream(s, New(a, b)) + OnStream(s, New(b, c)) == OnStream(s, New(a, c))
  {
    assert New(a, b) + New(b, c) == New(a, c);
    OnStreamConcat(s, New(a, b), New(b, c));
  }

  lemma {:induction false} UsedTwice(s: Stream, port: seq<Poll>, mid: seq<Poll>, rest: seq<Poll>)
    requires Suffix(mid, port) && Suffix(rest, mid)
    ensures Suffix(rest, port)
    ensures OnStream(s, Arrivals(Used(port, rest))) ==
            OnStream(s, Arrivals(Used(port, mid))) + OnStream(s, Arrivals(Used(mid, rest)))
  {
    assert Used(port, rest) == Used(port, mid) + Used(mid, rest);
    ArrivalsConcat(Used(port, mid), Used(mid, rest));
    OnStreamConcat(s, Arrivals(Used(port, mid)), Arrivals(Used(mid, rest)));
  }
}
