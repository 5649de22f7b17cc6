/** The request queue, as a value: submissions enter at the back, a drain takes the whole queue, and
    submissions that land while the drain runs stay behind for the next one. */
module RequestQueue {

  datatype Entry<R> = Async(request: R) | Blocking(request: R)

  /** `log` is what has been processed, in order. */
  datatype State<R> = State(queue: seq<R>, log: seq<Entry<R>>)

  /** `landing[i]` is what other threads and completion routines submit while the drain's i-th request runs. */
  datatype Op<R> = Submit(request: R) | Drain(landing: seq<seq<R>>) | Block(request: R, landing: seq<seq<R>>)

  function Landed<R>(landing: seq<seq<R>>, n: nat): (r: seq<R>) {
    if n == 0 || landing == [] then [] else landing[0] + Landed(landing[1..], n - 1)
  }

  lemma {:induction false} LandedNext<R>(landing: seq<seq<R>>, n: nat)
    ensures Landed(landing, n + 1) == Landed(landing, n) + (if n < |landing| then landing[n] else [])
  {
    if landing != [] {
      if n == 0 {
        assert Landed(landing[1..], 0) == [];
        assert landing[0] + [] == [] + landing[0];
      } else {
        LandedNext(landing[1..], n - 1);
        var more := if n < |landing| then landing[n] else [];
        assert landing[0] + (Landed(landing[1..], n - 1) + more) == landing[0] + Landed(landing[1..], n - 1) + more;
      }
    }
  }

  function AsAsync<R>(rs: seq<R>): (r: seq<Entry<R>>)
    ensures |r| == |rs| && forall i :: 0 <= i < |rs| ==> r[i] == Async(rs[i])
  {
    seq(|rs|, i requires 0 <= i < |rs| => Async(rs[i]))
  }

  function Apply<R>(s: State<R>, op: Op<R>): (s': State<R>)
    ensures s.log <= s'.log
  {
    match op
    case Submit(r) => State(s.queue + [r], s.log)
    case Drain(landing) => State(Landed(landing, |s.queue|), s.log + AsAsync(s.queue))
    case Block(r, landing) => State(Landed(landing, |s.queue|), s.log + AsAsync(s.queue) + [Blocking(r)])
  }

  function ApplyAll<R>(s: State<R>, ops: seq<Op<R>>): (s': State<R>)
    ensures s.log <= s'.log
    decreases |ops|
  {
    if ops == [] then s else ApplyAll(Apply(s, ops[0]), ops[1..])
  }

  /** A drain of `s.queue` after its first `i` requests. */
  function Draining<R>(s: State<R>, landing: seq<seq<R>>, i: nat): (s': State<R>)
    requires i <= |s.queue|
  {
    State(Landed(landing, i), s.log + AsAsync(s.queue[..i]))
  }

  lemma {:induction false} DrainingNext<R>(s: State<R>, landing: seq<seq<R>>, i: nat)
    requires i < |s.queue|
    ensures var now, more := Draining(s, landing, i), if i < |landing| then landing[i] else [];
            Draining(s, landing, i + 1) == State(now.queue + more, now.log + [Async(s.queue[i])])
  {
    LandedNext(landing, i);
    assert AsAsync(s.queue[..i + 1]) == AsAsync(s.queue[..i]) + [Async(s.queue[i])];
  }

  lemma {:induction false} DrainingEnds<R>(s: State<R>, landing: seq<seq<R>>)
    ensures Draining(s, landing, 0) == State([], s.log)
    ensures Draining(s, landing, |s.queue|) == Apply(s, Drain(landing))
  {
    assert s.queue[..|s.queue|] == s.queue && s.queue[..0] == [];
    assert s.log + AsAsync(s.queue[..0]) == s.log;
  }

  lemma {:induction false} ApplyAllConcat<R>(s: State<R>, a: seq<Op<R>>, b: seq<Op<R>>)
    ensures ApplyAll(s, a + b) == ApplyAll(ApplyAll(s, a), b)
    decreases |a|
  {
    if a == [] {
      assert a + b == b;
    } else {
      assert (a + b)[0] == a[0] && (a + b)[1..] == a[1..] + b;
      ApplyAllConcat(Apply(s, a[0]), a[1..], b);
    }
  }

  lemma {:induction false} ApplyAllOne<R>(s: State<R>, op: Op<R>)
    ensures ApplyAll(s, [op]) == Apply(s, op)
  {
    assert [op][1..] == [];
    assert ApplyAll(Apply(s, op), []) == Apply(s, op);
  }

  /** The asynchronous submissions that an operation makes from state `s`. */
  function Submitted<R>(s: State<R>, op: Op<R>): (r: seq<R>) {
    match op
    case Submit(r) => [r]
    case Drain(landing) => Landed(landing, |s.queue|)
    case Block(_, landing) => Landed(landing, |s.queue|)
  }

  function AllSubmitted<R>(s: State<R>, ops: seq<Op<R>>): (r: seq<R>)
    decreases |ops|
  {
    if ops == [] then [] else Submitted(s, ops[0]) + AllSubmitted(Apply(s, ops[0]), ops[1..])
  }

  function AsyncOf<R>(log: seq<Entry<R>>): (r: seq<R>) {
    if log == [] then []
    else if log[0].Async? then [log[0].request] + AsyncOf(log[1..])
    else AsyncOf(log[1..])
  }

  lemma {:induction false} AsyncOfConcat<R>(a: seq<Entry<R>>, b: seq<Entry<R>>)
    ensures AsyncOf(a + b) == AsyncOf(a) + AsyncOf(b)
  {
    if a == [] {
      assert a + b == b;
    } else {
      assert (a + b)[1..] == a[1..] + b;
      AsyncOfConcat(a[1..], b);
    }
  }

  lemma {:induction false} AsyncOfAsAsync<R>(rs: seq<R>)
    ensures AsyncOf(AsAsync(rs)) == rs
  {
    if rs != [] {
      assert AsAsync(rs)[1..] == AsAsync(rs[1..]);
      AsyncOfAsAsync(rs[1..]);
    }
  }

  /** One operation moves requests from submission to queue to log without loss, copy or reordering. */
  lemma {:induction false} ApplyKeepsOrder<R>(s: State<R>, op: Op<R>)
    ensures AsyncOf(Apply(s, op).log) + Apply(s, op).queue == AsyncOf(s.log) + s.queue + Submitted(s, op)
  {
    AsyncOfAsAsync(s.queue);
    AsyncOfConcat(s.log, AsAsync(s.queue));
    if op.Block? {
      AsyncOfConcat(s.log + AsAsync(s.queue), [Blocking(op.request)]);
      assert AsyncOf([Blocking(op.request)]) == [] by {
        assert [Blocking(op.request)][1..] == [];
      }
    }
  }

  /** Over every interleaving: each asynchronous request is processed exactly once, in submission order,
      or is still waiting in that order. */
  lemma {:induction false} ProcessedOnceInOrder<R>(s: State<R>, ops: seq<Op<R>>)
    ensures var s' := ApplyAll(s, ops);
            AsyncOf(s'.log) + s'.queue == AsyncOf(s.log) + s.queue + AllSubmitted(s, ops)
    decreases |ops|
  {
    if ops != [] {
      ApplyKeepsOrder(s, ops[0]);
      ProcessedOnceInOrder(Apply(s, ops[0]), ops[1..]);
    }
  }

  /** A blocking request runs when, and only when, every request submitted before it has been processed;
      what lands during its drain is still queued. */
  lemma {:induction false} BlockingRunsLast<R>(ops: seq<Op<R>>, r: R, landing: seq<seq<R>>)
    ensures var before := ApplyAll(State([], []), ops);
            var after := Apply(before, Block(r, landing));
            var log := after.log[..|after.log| - 1];
            && after.log[|after.log| - 1] == Blocking(r)
            && AsyncOf(log) == AllSubmitted(State([], []), ops)
            && after.queue == Submitted(before, Block(r, landing))
  {
    var start: State<R> := State([], []);
    var before := ApplyAll(start, ops);
    ProcessedOnceInOrder(start, ops);
    BlockLog(before, r, landing);
    assert [] + [] + AllSubmitted(start, ops) == AllSubmitted(start, ops);
  }

  lemma {:induction false} BlockLog<R>(s: State<R>, r: R, landing: seq<seq<R>>)
    ensures var log := Apply(s, Block(r, landing)).log;
            log != [] && log[|log| - 1] == Blocking(r) && AsyncOf(log[..|log| - 1]) == AsyncOf(s.log) + s.queue
  {
    var done := s.log + AsAsync(s.queue);
    assert (done + [Blocking(r)])[..|done|] == done;
    AsyncOfConcat(s.log, AsAsync(s.queue));
    AsyncOfAsAsync(s.queue);
  }
}
