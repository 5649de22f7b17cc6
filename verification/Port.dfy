/** The 8042 data port as the work loop sees it, and the two polling reads.

    Reading the status register gives `NotReady`, or `Ready` with the stream that
    the mouse-data bit marks; a `Ready` byte stays until it is read.  A run of the
    driver sees some finite sequence of such polls, and afterwards only `NotReady`.
    Every device, whatever it does in answer to writes, produces one such sequence. */
module Port {
  import opened Options

  /** A port byte.  Nothing below depends on its range, which is 0..255. */
  type Byte = int

  datatype Stream = Keyboard | Mouse

  function Other(s: Stream): Stream {
    if s.Keyboard? then Mouse else Keyboard
  }

  /** A byte with the stream that its status marks. */
  datatype Arrival = Arrival(stream: Stream, data: Byte)

  /** An entry of the dispatch log: the byte, and in the place of its stream the driver whose interrupt handler was
      called.  A byte that reaches the wrong driver is a different entry from its arrival. */
  type Delivery = Arrival

  function ToDriver(driver: Stream, data: Byte): Delivery {
    Arrival(driver, data)
  }

  datatype Poll = NotReady | Ready(arrival: Arrival)

  /** Not-ready polls after which a read gives up. */
  const BUDGET: nat := 10000

  function Arrivals(polls: seq<Poll>): (r: seq<Arrival>) {
    if polls == [] then []
    else if polls[0].NotReady? then Arrivals(polls[1..])
    else [polls[0].arrival] + Arrivals(polls[1..])
  }

  function OnStream(s: Stream, xs: seq<Arrival>): (r: seq<Arrival>) {
    if xs == [] then []
    else if xs[0].stream != s then OnStream(s, xs[1..])
    else [xs[0]] + OnStream(s, xs[1..])
  }

  function NotReadyCount(polls: seq<Poll>): (n: nat) {
    if polls == [] then 0
    else (if polls[0].NotReady? then 1 else 0) + NotReadyCount(polls[1..])
  }

  /** `data` is what the read returns, `taken` the arrival it comes from (none when
      the value is the fake zero of a timeout), `dispatched` what went to the interrupt
      handlers, in order, and `rest` the polls still to come. */
  datatype Outcome = Outcome(data: Byte, taken: seq<Arrival>, dispatched: seq<Delivery>, rest: seq<Poll>) {
    function Before(a: Delivery): Outcome {
      this.(dispatched := [a] + dispatched)
    }

    /** This outcome after a dispatch log `start` is outcome `now` after a dispatch log `log`. */
    ghost predicate LeadsTo(start: seq<Delivery>, now: Outcome, log: seq<Delivery>) {
      data == now.data && taken == now.taken && rest == now.rest && start + dispatched == log + now.dispatched
    }

    lemma Dispatch(start: seq<Delivery>, a: Delivery, now: Outcome, log: seq<Delivery>)
      requires LeadsTo(start, now.Before(a), log)
      ensures LeadsTo(start, now, log + [a])
    {
      assert log + ([a] + now.dispatched) == log + [a] + now.dispatched;
    }
  }

  /** The read without an expected value.  `startup` is the mode in which any stream is accepted. */
  function ReadPlain(dev: Stream, startup: bool, budget: nat, port: seq<Poll>): (r: Outcome)
    decreases |port|
  {
    if budget == 0 || port == [] then Outcome(0, [], [], port)
    else match port[0]
      case NotReady => ReadPlain(dev, startup, budget - 1, port[1..])
      case Ready(a) =>
        if startup || a.stream == dev then Outcome(a.data, [a], [], port[1..])
        else ReadPlain(dev, startup, budget, port[1..]).Before(ToDriver(Other(dev), a.data))
  }

  /** The read with an expected value and a second chance: `held` is the first
      mismatching byte, put aside. */
  function ReadExpecting(dev: Stream, expected: Byte, held: Option<Byte>, budget: nat, port: seq<Poll>): (r: Outcome)
    decreases |port|
  {
    if budget == 0 || port == [] then
      if held.Some? then Outcome(held.value, [Arrival(dev, held.value)], [], port) else Outcome(0, [], [], port)
    else match port[0]
      case NotReady => ReadExpecting(dev, expected, held, budget - 1, port[1..])
      case Ready(a) =>
        if a.stream != dev then
          ReadExpecting(dev, expected, held, budget, port[1..]).Before(ToDriver(Other(dev), a.data))
        else if a.data == expected then
          Outcome(a.data, [a], if held.Some? then [ToDriver(dev, held.value)] else [], port[1..])
        else if held.None? then
          ReadExpecting(dev, expected, Some(a.data), budget, port[1..])
        else
          Outcome(held.value, [Arrival(dev, held.value)], [ToDriver(dev, a.data)], port[1..])
  }

  /** The inner polling loop that both reads share: the budget left and the port when a byte is
      ready, or an exhausted budget. */
  function Await(budget: nat, port: seq<Poll>): (r: (nat, seq<Poll>))
    ensures r.0 > 0 ==> r.1 != [] && r.1[0].Ready?
    ensures |r.1| <= |port|
    decreases |port|
  {
    if budget == 0 || port == [] then (0, port)
    else if port[0].Ready? then (budget, port)
    else Await(budget - 1, port[1..])
  }

  lemma {:induction false} AwaitThenPlain(dev: Stream, startup: bool, budget: nat, port: seq<Poll>)
    ensures var (left, p) := Await(budget, port);
            ReadPlain(dev, startup, budget, port) == ReadPlain(dev, startup, left, p)
    decreases |port|
  {
    if budget > 0 && port != [] && port[0].NotReady? {
      AwaitThenPlain(dev, startup, budget - 1, port[1..]);
    }
  }

  lemma {:induction false} AwaitThenExpecting(dev: Stream, expected: Byte, held: Option<Byte>, budget: nat,
                                              port: seq<Poll>)
    ensures var (left, p) := Await(budget, port);
            ReadExpecting(dev, expected, held, budget, port) == ReadExpecting(dev, expected, held, left, p)
    decreases |port|
  {
    if budget > 0 && port != [] && port[0].NotReady? {
      AwaitThenExpecting(dev, expected, held, budget - 1, port[1..]);
    }
  }

  // ----- When does a comparing read succeed?

  /** The bytes of stream `dev` that come before the poll that exhausts the budget. */
  function InSight(dev: Stream, budget: nat, port: seq<Poll>): (r: seq<Byte>) {
    if budget == 0 || port == [] then []
    else match port[0]
      case NotReady => InSight(dev, budget - 1, port[1..])
      case Ready(a) =>
        if a.stream == dev then [a.data] + InSight(dev, budget, port[1..]) else InSight(dev, budget, port[1..])
  }

  /** A comparing read returns the expected byte exactly when it is the first or the second
      own-stream byte in sight, or when nothing of that stream is in sight and the expected
      byte is the zero that a timeout fakes. */
  lemma {:induction false} CompareSucceedsIff(dev: Stream, expected: Byte, budget: nat, port: seq<Poll>)
    ensures var own := InSight(dev, budget, port);
            ReadExpecting(dev, expected, None, budget, port).data == expected <==>
              || (|own| >= 1 && own[0] == expected)
              || (|own| >= 2 && own[1] == expected)
              || (own == [] && expected == 0)
    decreases |port|
  {
    if budget == 0 || port == [] {
    } else if port[0].NotReady? {
      CompareSucceedsIff(dev, expected, budget - 1, port[1..]);
    } else {
      var a := port[0].arrival;
      if a.stream != dev {
        CompareSucceedsIff(dev, expected, budget, port[1..]);
      } else if a.data != expected {
        SecondChanceIff(dev, expected, a.data, budget, port[1..]);
      }
    }
  }

  /** With a byte held, the read succeeds exactly when the next own-stream byte is the expected one. */
  lemma {:induction false} SecondChanceIff(dev: Stream, expected: Byte, held: Byte, budget: nat, port: seq<Poll>)
    requires held != expected
    ensures var own := InSight(dev, budget, port);
            ReadExpecting(dev, expected, Some(held), budget, port).data == expected <==>
              |own| >= 1 && own[0] == expected
    decreases |port|
  {
    if budget == 0 || port == [] {
    } else if port[0].NotReady? {
      SecondChanceIff(dev, expected, held, budget - 1, port[1..]);
    } else if port[0].arrival.stream != dev {
      SecondChanceIff(dev, expected, held, budget, port[1..]);
    }
  }

  // ----- What a read returns

  /** The bytes of either stream that come before the poll that exhausts the budget. */
  function AllInSight(budget: nat, port: seq<Poll>): (r: seq<Byte>) {
    if budget == 0 || port == [] then []
    else match port[0]
      case NotReady => AllInSight(budget - 1, port[1..])
      case Ready(a) => [a.data] + AllInSight(budget, port[1..])
  }

  /** The first byte, or the zero that a timeout fakes. */
  function FirstOrZero(bytes: seq<Byte>): (b: Byte) {
    if bytes == [] then 0 else bytes[0]
  }

  /** A plain read returns the first byte of its stream in sight, or 0; in startup mode, the first byte of either. */
  lemma {:induction false} PlainReturns(dev: Stream, startup: bool, budget: nat, port: seq<Poll>)
    ensures var bytes := if startup then AllInSight(budget, port) else InSight(dev, budget, port);
            var r := ReadPlain(dev, startup, budget, port);
            && r.data == FirstOrZero(bytes)
            && (r.taken == [] <==> bytes == [])
            && (r.taken != [] ==> r.taken[0].data == r.data && (startup || r.taken[0].stream == dev))
    decreases |port|
  {
    if budget == 0 || port == [] {
    } else if port[0].NotReady? {
      PlainReturns(dev, startup, budget - 1, port[1..]);
    } else if !startup && port[0].arrival.stream != dev {
      PlainReturns(dev, startup, budget, port[1..]);
    }
  }

  /** A comparing read returns the expected byte if it is the first or second of its stream in sight, else the first;
      of the two, it is the other one that goes to the stream's own driver. */
  lemma {:induction false} ExpectingReturns(dev: Stream, expected: Byte, budget: nat, port: seq<Poll>)
    ensures var own := InSight(dev, budget, port);
            var r := ReadExpecting(dev, expected, None, budget, port);
            if |own| <= 1 || own[0] == expected then
              r.data == FirstOrZero(own) && OnStream(dev, r.dispatched) == []
            else if own[1] == expected then
              r.data == own[1] && OnStream(dev, r.dispatched) == [ToDriver(dev, own[0])]
            else
              r.data == own[0] && OnStream(dev, r.dispatched) == [ToDriver(dev, own[1])]
    decreases |port|
  {
    if budget == 0 || port == [] {
    } else if port[0].NotReady? {
      ExpectingReturns(dev, expected, budget - 1, port[1..]);
    } else {
      var a := port[0].arrival;
      if a.stream != dev {
        ExpectingReturns(dev, expected, budget, port[1..]);
        ForeignFirst(dev, a.data, ReadExpecting(dev, expected, None, budget, port[1..]).dispatched);
      } else if a.data != expected {
        HeldReturns(dev, expected, a.data, budget, port[1..]);
      }
    }
  }

  lemma {:induction false} HeldReturns(dev: Stream, expected: Byte, held: Byte, budget: nat, port: seq<Poll>)
    ensures var own := InSight(dev, budget, port);
            var r := ReadExpecting(dev, expected, Some(held), budget, port);
            if own == [] then r.data == held && OnStream(dev, r.dispatched) == []
            else if own[0] == expected then r.data == own[0] && OnStream(dev, r.dispatched) == [ToDriver(dev, held)]
            else r.data == held && OnStream(dev, r.dispatched) == [ToDriver(dev, own[0])]
    decreases |port|
  {
    if budget == 0 || port == [] {
    } else if port[0].NotReady? {
      HeldReturns(dev, expected, held, budget - 1, port[1..]);
    } else {
      var a := port[0].arrival;
      if a.stream != dev {
        HeldReturns(dev, expected, held, budget, port[1..]);
        ForeignFirst(dev, a.data, ReadExpecting(dev, expected, Some(held), budget, port[1..]).dispatched);
      } else {
        OwnAlone(dev, if a.data == expected then held else a.data);
      }
    }
  }

  lemma {:induction false} ForeignFirst(dev: Stream, data: Byte, rest: seq<Delivery>)
    ensures OnStream(dev, [ToDriver(Other(dev), data)] + rest) == OnStream(dev, rest)
  {
    assert ([ToDriver(Other(dev), data)] + rest)[1..] == rest;
  }

  lemma {:induction false} OwnAlone(dev: Stream, data: Byte)
    ensures OnStream(dev, [ToDriver(dev, data)]) == [ToDriver(dev, data)]
  {
    assert [ToDriver(dev, data)][1..] == [];
  }

  // ----- Conservation: where every byte goes, and in what order

  /** `all` is an order-preserving merge of `x`, `y` and `z`: each element of `all`
      is in exactly one of the three. */
  ghost predicate Merge(x: seq<Arrival>, y: seq<Arrival>, z: seq<Arrival>, all: seq<Arrival>) {
    if all == [] then x == [] && y == [] && z == []
    else
      || (x != [] && x[0] == all[0] && Merge(x[1..], y, z, all[1..]))
      || (y != [] && y[0] == all[0] && Merge(x, y[1..], z, all[1..]))
      || (z != [] && z[0] == all[0] && Merge(x, y, z[1..], all[1..]))
  }

  /** Per stream, `all` is an order-preserving merge of bytes consumed, dispatched and flushed. */
  ghost predicate Accounted(consumed: seq<Arrival>, dispatched: seq<Delivery>, flushed: seq<Arrival>,
                            all: seq<Arrival>) {
    forall s: Stream ::
      Merge(OnStream(s, consumed), OnStream(s, dispatched), OnStream(s, flushed), OnStream(s, all))
  }

  lemma {:induction false} MergeConcat(
    x: seq<Arrival>, y: seq<Arrival>, z: seq<Arrival>, all: seq<Arrival>,
    x': seq<Arrival>, y': seq<Arrival>, z': seq<Arrival>, all': seq<Arrival>)
    requires Merge(x, y, z, all) && Merge(x', y', z', all')
    ensures Merge(x + x', y + y', z + z', all + all')
    decreases |all|
  {
    if all == [] {
      assert x + x' == x' && y + y' == y' && z + z' == z' && all + all' == all';
    } else {
      assert (all + all')[1..] == all[1..] + all';
      if x != [] && x[0] == all[0] && Merge(x[1..], y, z, all[1..]) {
        MergeConcat(x[1..], y, z, all[1..], x', y', z', all');
        assert (x + x')[1..] == x[1..] + x';
      } else if y != [] && y[0] == all[0] && Merge(x, y[1..], z, all[1..]) {
        MergeConcat(x, y[1..], z, all[1..], x', y', z', all');
        assert (y + y')[1..] == y[1..] + y';
      } else {
        MergeConcat(x, y, z[1..], all[1..], x', y', z', all');
        assert (z + z')[1..] == z[1..] + z';
      }
    }
  }

  lemma {:induction false} OnStreamConcat(s: Stream, a: seq<Arrival>, b: seq<Arrival>)
    ensures OnStream(s, a + b) == OnStream(s, a) + OnStream(s, b)
  {
    if a == [] {
      assert a + b == b;
    } else {
      assert (a + b)[1..] == a[1..] + b;
      OnStreamConcat(s, a[1..], b);
    }
  }

  lemma {:induction false} ArrivalsConcat(a: seq<Poll>, b: seq<Poll>)
    ensures Arrivals(a + b) == Arrivals(a) + Arrivals(b)
  {
    if a == [] {
      assert a + b == b;
    } else {
      assert (a + b)[1..] == a[1..] + b;
      ArrivalsConcat(a[1..], b);
    }
  }

  lemma {:induction false} AccountedConcat(
    c: seq<Arrival>, d: seq<Arrival>, f: seq<Arrival>, all: seq<Arrival>,
    c': seq<Arrival>, d': seq<Arrival>, f': seq<Arrival>, all': seq<Arrival>)
    requires Accounted(c, d, f, all) && Accounted(c', d', f', all')
    ensures Accounted(c + c', d + d', f + f', all + all')
  {
    forall s: Stream
      ensures Merge(OnStream(s, c + c'), OnStream(s, d + d'), OnStream(s, f + f'), OnStream(s, all + all'))
    {
      OnStreamConcat(s, c, c');
      OnStreamConcat(s, d, d');
      OnStreamConcat(s, f, f');
      OnStreamConcat(s, all, all');
      MergeConcat(OnStream(s, c), OnStream(s, d), OnStream(s, f), OnStream(s, all),
                  OnStream(s, c'), OnStream(s, d'), OnStream(s, f'), OnStream(s, all'));
    }
  }

  /** The polls that are gone once `rest` is what remains. */
  function Used(port: seq<Poll>, rest: seq<Poll>): (r: seq<Poll>)
    requires |rest| <= |port|
  {
    port[..|port| - |rest|]
  }

  ghost predicate Suffix(rest: seq<Poll>, port: seq<Poll>) {
    |rest| <= |port| && rest == port[|port| - |rest|..]
  }

  lemma {:induction false} SuffixTail(rest: seq<Poll>, port: seq<Poll>)
    requires port != [] && Suffix(rest, port[1..])
    ensures Suffix(rest, port)
    ensures Used(port, rest) == [port[0]] + Used(port[1..], rest)
    ensures Arrivals(Used(port, rest)) ==
            if port[0].Ready? then [port[0].arrival] + Arrivals(Used(port[1..], rest))
            else Arrivals(Used(port[1..], rest))
  {
    var u := Used(port, rest);
    assert u[1..] == Used(port[1..], rest);
  }

  /** Seen per stream, a byte of the other stream commutes with the held byte. */
  lemma {:induction false} OtherStreamCommutes(a: Arrival, held: seq<Arrival>, u: seq<Arrival>)
    requires forall i :: 0 <= i < |held| ==> held[i].stream != a.stream
    ensures forall s: Stream :: OnStream(s, [a] + (held + u)) == OnStream(s, held + ([a] + u))
    decreases |held|
  {
    if held == [] {
      assert [] + u == u && [] + ([a] + u) == [a] + u;
    } else {
      OtherStreamCommutes(a, held[1..], u);
      forall s: Stream
        ensures OnStream(s, [a] + (held + u)) == OnStream(s, held + ([a] + u))
      {
        OnStreamCons(s, a, held + u);
        OnStreamCons(s, a, held[1..] + u);
        assert held + u == [held[0]] + (held[1..] + u);
        assert held + ([a] + u) == [held[0]] + (held[1..] + ([a] + u));
        OnStreamCons(s, held[0], held[1..] + u);
        OnStreamCons(s, held[0], held[1..] + ([a] + u));
      }
    }
  }

  lemma {:induction false} OnStreamCons(s: Stream, a: Arrival, xs: seq<Arrival>)
    ensures OnStream(s, [a] + xs) == (if a.stream == s then [a] else []) + OnStream(s, xs)
  {
    assert ([a] + xs)[0] == a && ([a] + xs)[1..] == xs;
  }

  /** The read `r` of `port`, begun with the bytes `held` in hand, accounts for them and for every byte it has used:
      at most one is taken, and the others are handed to the drivers of their own streams. */
  ghost predicate Accounts(r: Outcome, held: seq<Arrival>, port: seq<Poll>) {
    && Suffix(r.rest, port) && |r.taken| <= 1
    && Accounted(r.taken, r.dispatched, [], held + Arrivals(Used(port, r.rest)))
  }

  lemma {:induction false} StopAccounts(r: Outcome, held: seq<Arrival>, port: seq<Poll>)
    requires r.rest == port && r.taken == held && r.dispatched == [] && |held| <= 1
    ensures Accounts(r, held, port)
  {
    assert Used(port, port) == [] && held + Arrivals([]) == held;
  }

  lemma {:induction false} NotReadyAccounts(r: Outcome, held: seq<Arrival>, port: seq<Poll>)
    requires port != [] && port[0].NotReady? && Accounts(r, held, port[1..])
    ensures Accounts(r, held, port)
  {
    SuffixTail(r.rest, port);
  }

  /** A byte of the other stream is dispatched at once, whether or not a byte is held. */
  lemma {:induction false} OtherAccounts(r: Outcome, held: seq<Arrival>, port: seq<Poll>)
    requires port != [] && port[0].Ready? && Accounts(r, held, port[1..])
    requires forall i :: 0 <= i < |held| ==> held[i].stream != port[0].arrival.stream
    ensures Accounts(r.Before(port[0].arrival), held, port)
  {
    var a := port[0].arrival;
    var u := Arrivals(Used(port[1..], r.rest));
    SuffixTail(r.rest, port);
    AccountedConcat([], [a], [], [a], r.taken, r.dispatched, [], held + u);
    assert [] + r.taken == r.taken;
    OtherStreamCommutes(a, held, u);
  }

  /** A byte put aside is in hand from then on. */
  lemma {:induction false} HoldAccounts(r: Outcome, port: seq<Poll>)
    requires port != [] && port[0].Ready? && Accounts(r, [port[0].arrival], port[1..])
    ensures Accounts(r, [], port)
  {
    SuffixTail(r.rest, port);
    var all := Arrivals(Used(port, r.rest));
    assert [] + all == all;
  }

  /** The byte that ends the read is taken and the held one dispatched, or the other way round. */
  lemma {:induction false} LastAccounts(r: Outcome, held: seq<Arrival>, port: seq<Poll>)
    requires port != [] && port[0].Ready? && r.rest == port[1..] && |held| <= 1
    requires var a := port[0].arrival;
             (r.taken == [a] && r.dispatched == held) || (r.taken == held && r.dispatched == [a])
    ensures Accounts(r, held, port)
  {
    var a := port[0].arrival;
    SuffixTail(r.rest, port);
    assert Used(port[1..], r.rest) == [] && [a] + Arrivals([]) == [a];
    LastByteAccounted(held, a);
  }

  lemma {:induction false} LastByteAccounted(h: seq<Arrival>, a: Arrival)
    requires |h| <= 1
    ensures Accounted([a], h, [], h + [a])
    ensures Accounted(h, [a], [], h + [a])
  {
    assert [] + [a] == [a] && h + [] == h;
    AccountedConcat([], h, [], h, [a], [], [], [a]);
    AccountedConcat(h, [], [], h, [], [a], [], [a]);
  }

  lemma {:induction false} PlainAccounted(dev: Stream, startup: bool, budget: nat, port: seq<Poll>)
    ensures Accounts(ReadPlain(dev, startup, budget, port), [], port)
    ensures !startup ==> forall a :: a in ReadPlain(dev, startup, budget, port).taken ==> a.stream == dev
    decreases |port|
  {
    var r := ReadPlain(dev, startup, budget, port);
    if budget == 0 || port == [] {
      StopAccounts(r, [], port);
    } else if port[0].NotReady? {
      PlainAccounted(dev, startup, budget - 1, port[1..]);
      NotReadyAccounts(r, [], port);
    } else if startup || port[0].arrival.stream == dev {
      LastAccounts(r, [], port);
    } else {
      PlainAccounted(dev, startup, budget, port[1..]);
      OtherAccounts(ReadPlain(dev, startup, budget, port[1..]), [], port);
    }
  }

  /** With a byte held, the bytes accounted for are the held one and those read since. */
  lemma {:induction false} HeldAccounted(dev: Stream, expected: Byte, held: Byte, budget: nat, port: seq<Poll>)
    ensures Accounts(ReadExpecting(dev, expected, Some(held), budget, port), [Arrival(dev, held)], port)
    decreases |port|
  {
    var r := ReadExpecting(dev, expected, Some(held), budget, port);
    var h := [Arrival(dev, held)];
    if budget == 0 || port == [] {
      StopAccounts(r, h, port);
    } else if port[0].NotReady? {
      HeldAccounted(dev, expected, held, budget - 1, port[1..]);
      NotReadyAccounts(r, h, port);
    } else if port[0].arrival.stream == dev {
      LastAccounts(r, h, port);
    } else {
      HeldAccounted(dev, expected, held, budget, port[1..]);
      OtherAccounts(ReadExpecting(dev, expected, Some(held), budget, port[1..]), h, port);
    }
  }

  lemma {:induction false} ExpectingAccounted(dev: Stream, expected: Byte, budget: nat, port: seq<Poll>)
    ensures Accounts(ReadExpecting(dev, expected, None, budget, port), [], port)
    decreases |port|
  {
    var r := ReadExpecting(dev, expected, None, budget, port);
    if budget == 0 || port == [] {
      StopAccounts(r, [], port);
    } else if port[0].NotReady? {
      ExpectingAccounted(dev, expected, budget - 1, port[1..]);
      NotReadyAccounts(r, [], port);
    } else {
      var a := port[0].arrival;
      if a.stream != dev {
        ExpectingAccounted(dev, expected, budget, port[1..]);
        OtherAccounts(ReadExpecting(dev, expected, None, budget, port[1..]), [], port);
      } else if a.data == expected {
        LastAccounts(r, [], port);
      } else {
        HeldAccounted(dev, expected, a.data, budget, port[1..]);
        HoldAccounts(r, port);
      }
    }
  }

  // ----- Second chance: noise around an expected answer

  /** Polls that end with the expected answer, after fewer not-ready polls than the budget allows, any
      bytes of the other stream, and at most one stray byte of the answer's own stream. */
  ghost predicate Noisy(segment: seq<Poll>, answer: Arrival) {
    && segment != []
    && segment[|segment| - 1] == Ready(answer)
    && var noise := segment[..|segment| - 1];
    && NotReadyCount(noise) < BUDGET
    && var own := OnStream(answer.stream, Arrivals(noise));
    && |own| <= 1
    && (own != [] ==> own[0].data != answer.data)
  }

  lemma {:induction false} ReadThroughNoise(held: Option<Byte>, budget: nat, noise: seq<Poll>, answer: Arrival,
                                            rest: seq<Poll>)
    requires NotReadyCount(noise) < budget
    requires var own := OnStream(answer.stream, Arrivals(noise));
             && |own| + (if held.Some? then 1 else 0) <= 1
             && (own != [] ==> own[0].data != answer.data)
    ensures var r := ReadExpecting(answer.stream, answer.data, held, budget, noise + [Ready(answer)] + rest);
            var h := if held.Some? then [Arrival(answer.stream, held.value)] else [];
            && r.data == answer.data && r.taken == [answer] && r.rest == rest
            && forall s: Stream :: OnStream(s, r.dispatched) == OnStream(s, h + Arrivals(noise))
    decreases |noise|
  {
    var port := noise + [Ready(answer)] + rest;
    var h := if held.Some? then [Arrival(answer.stream, held.value)] else [];
    if noise == [] {
      assert port[1..] == rest;
      assert h + Arrivals(noise) == h;
    } else {
      assert port[1..] == noise[1..] + [Ready(answer)] + rest;
      if noise[0].NotReady? {
        ReadThroughNoise(held, budget - 1, noise[1..], answer, rest);
      } else {
        var a := noise[0].arrival;
        assert Arrivals(noise)[1..] == Arrivals(noise[1..]);
        if a.stream != answer.stream {
          ReadThroughNoise(held, budget, noise[1..], answer, rest);
          var t := ReadExpecting(answer.stream, answer.data, held, budget, port[1..]);
          assert ToDriver(Other(answer.stream), a.data) == a;
          forall s: Stream
            ensures OnStream(s, [a] + t.dispatched) == OnStream(s, h + Arrivals(noise))
          {
            OnStreamConcat(s, [a], t.dispatched);
            OnStreamConcat(s, [a], h + Arrivals(noise[1..]));
            OtherStreamCommutes(a, h, Arrivals(noise[1..]));
          }
        } else {
          ReadThroughNoise(Some(a.data), budget, noise[1..], answer, rest);
          assert h + Arrivals(noise) == [a] + Arrivals(noise[1..]);
        }
      }
    }
  }
}
