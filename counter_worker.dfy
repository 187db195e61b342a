/**
 * counter/worker.go: the older counter. Each read that returned data adds
 * `bytes.Count` over the whole buffer to a uint64 total, and one buffer is
 * shared by all the sources a worker takes. counter/source.go is not part of
 * this model: a source here is an origin and a `ChunkReader`.
 */
module CounterWorker {
  import opened Wrappers
  import opened Stream
  import opened BytesCount

  /** The modulus of Go's uint64 arithmetic. */
  const U64: nat := 0x1_0000_0000_0000_0000

  /** The length of the buffer each worker allocates (`make([]byte, 2e+6)`). */
  const BufferSize: nat := 2_000_000

  datatype Task = Task(origin: string, body: ChunkReader)

  datatype CounterResult = CounterResult(subtotal: nat, origin: string)

  /** A non-negative integer truncated to uint64: whole multiples of 2^64 are dropped. */
  function Wrap(x: nat): (r: nat)
    ensures r < U64 && (x < U64 ==> r == x)
    decreases x
  {
    if x < U64 then x else Wrap(x - U64)
  }

  /** `Wrap` is the remainder modulo 2^64. */
  lemma {:induction false} WrapIsModulo(x: nat)
    ensures Wrap(x) == x % U64
    decreases x
  {
    if x >= U64 {
      WrapIsModulo(x - U64);
    }
  }

  /** Wrapping after every addition is wrapping once at the end. */
  lemma {:induction false} AddModulo(a: nat, c: nat)
    ensures Wrap(Wrap(a) + c) == Wrap(a + c)
    decreases a
  {
    if a >= U64 {
      AddModulo(a - U64, c);
      assert Wrap(a + c) == Wrap(a - U64 + c);
    }
  }

  function Sum(xs: seq<nat>): nat
  {
    if xs == [] then 0 else Sum(xs[..|xs| - 1]) + xs[|xs| - 1]
  }

  /** Go's `total += x` on a uint64, over a series of additions from 0. */
  function Uint64Sum(xs: seq<nat>): (r: nat)
    ensures r < U64
  {
    if xs == [] then 0 else Wrap(Uint64Sum(xs[..|xs| - 1]) + xs[|xs| - 1])
  }

  /** Truncating after every addition ends where truncating the exact sum once does. */
  lemma {:induction false} Uint64SumIsWrappedSum(xs: seq<nat>)
    ensures Uint64Sum(xs) == Wrap(Sum(xs))
  {
    if xs != [] {
      var init := xs[..|xs| - 1];
      Uint64SumIsWrappedSum(init);
      AddModulo(Sum(init), xs[|xs| - 1]);
    }
  }

  /** What each read adds to the whole-buffer tally: `bytes.Count(buf)` if it returned data, else 0. */
  function TallyCounts(buf: seq<Byte>, rs: seq<seq<Byte>>, sep: seq<Byte>): (xs: seq<nat>)
    requires |sep| > 0 && AllFit(rs, |buf|)
    ensures |xs| == |rs| && Sum(xs) == WholeBufferTally(buf, rs, sep).total
  {
    if rs == [] then []
    else
      var init := rs[..|rs| - 1];
      var data := rs[|rs| - 1];
      var prev := TallyCounts(buf, init, sep);
      var c := if |data| > 0 then Count(Fill(WholeBufferTally(buf, init, sep).buf, data), sep) else 0;
      assert (prev + [c])[..|prev|] == prev;
      prev + [c]
  }

  /**
   * `countSubstringIn`'s uint64 `total`, truncated after every read's
   * addition, is the exact whole-buffer tally truncated once.
   */
  lemma Uint64TallyIsWrappedTally(buf: seq<Byte>, rs: seq<seq<Byte>>, sep: seq<Byte>)
    requires |sep| > 0 && AllFit(rs, |buf|)
    ensures Uint64Sum(TallyCounts(buf, rs, sep)) == Wrap(WholeBufferTally(buf, rs, sep).total)
  {
    Uint64SumIsWrappedSum(TallyCounts(buf, rs, sep));
  }

  /**
   * `countSubstringIn`: reads until the source reports any error, EOF or
   * not; the error is dropped and only the total is returned; the source is
   * closed on the way out. The model adds without bound and truncates to
   * uint64 once, on return; `Uint64TallyIsWrappedTally` shows that this is
   * Go's truncation after every addition.
   */
  method CountSubstringIn(source: ChunkReader, buf: array<Byte>, sep: seq<Byte>) returns (total: nat)
    requires |sep| > 0
    requires source.Valid() && source.next == 0 && FitsIn(source.content, buf.Length)
    modifies source, buf
    ensures source.closed && source.Exhausted()
    ensures var t := WholeBufferTally(old(buf[..]), Reads(source.content), sep);
            total == Wrap(t.total) && buf[..] == t.buf
  {
    var exact: nat := 0;
    ghost var buf0 := buf[..];
    assert Reads(source.content)[..0] == [];
    while true
      invariant TalliedSoFar(source, buf, buf0, sep, exact) && !source.Exhausted()
      decreases |Reads(source.content)| - source.next
    {
      var n, err := ReadTallied(source, buf, sep, buf0, exact);
      if n > 0 {
        exact := exact + Count(buf[..], sep);
      }
      if err == Some(EOF) {
        break;
      }
      if err.Some? {
        break;
      }
    }
    assert Reads(source.content)[..source.next] == Reads(source.content);
    source.Close();
    total := Wrap(exact);
  }

  /**
   * `countSubstringIn` counting only the `n` bytes each read delivered
   * (`bytes.Count(buf[:n], sep)`): the total no longer depends on what the
   * buffer held before, so one source cannot leak into the next.
   */
  method CountReadBytes(source: ChunkReader, buf: array<Byte>, sep: seq<Byte>) returns (total: nat)
    requires |sep| > 0
    requires source.Valid() && source.next == 0 && FitsIn(source.content, buf.Length)
    modifies source, buf
    ensures source.closed && source.Exhausted()
    ensures total == Wrap(PerReadSum(Reads(source.content), sep))
  {
    var exact: nat := 0;
    ghost var rs := Reads(source.content);
    assert rs[..0] == [];
    while true
      invariant source.Valid() && !source.Exhausted() && rs == Reads(source.content)
      invariant FitsIn(source.content, buf.Length)
      invariant exact == PerReadSum(rs[..source.next], sep)
      decreases |rs| - source.next
    {
      ghost var i := source.next;
      var n, err := source.Read(buf);
      assert buf[..n] == rs[i];
      assert rs[..i + 1][..i] == rs[..i];
      if n > 0 {
        exact := exact + Count(buf[..n], sep);
      }
      if err.Some? {
        break;
      }
    }
    assert rs[..source.next] == rs;
    source.Close();
    total := Wrap(exact);
  }

  /** The contents of the tasks' sources, in order. */
  function Contents(tasks: seq<Task>): seq<Content>
  {
    seq(|tasks|, i requires 0 <= i < |tasks| => tasks[i].body.content)
  }

  predicate AllFitIn(cs: seq<Content>, size: nat)
  {
    forall i :: 0 <= i < |cs| ==> FitsIn(cs[i], size)
  }

  datatype SharedRun = SharedRun(buf: seq<Byte>, subtotals: seq<nat>)

  /**
   * The subtotals of sources counted one after another through one buffer
   * that starts as `buf`: each source starts where the previous one left the
   * buffer.
   */
  function WorkerRun(buf: seq<Byte>, cs: seq<Content>, sep: seq<Byte>): (r: SharedRun)
    requires |sep| > 0 && AllFitIn(cs, |buf|)
    ensures |r.buf| == |buf| && |r.subtotals| == |cs|
    ensures forall i :: 0 <= i < |cs| ==> r.subtotals[i] < U64
  {
    if cs == [] then SharedRun(buf, [])
    else
      var prev := WorkerRun(buf, cs[..|cs| - 1], sep);
      var c := cs[|cs| - 1];
      assert AllFit(Reads(c), |prev.buf|) by {
        assert FitsIn(c, |buf|);
      }
      var t := WholeBufferTally(prev.buf, Reads(c), sep);
      SharedRun(t.buf, prev.subtotals + [Wrap(t.total)])
  }

  /** One more source: its subtotal is the wrapped tally over the buffer the sources before it left. */
  lemma WorkerRunSnoc(buf: seq<Byte>, cs: seq<Content>, c: Content, sep: seq<Byte>)
    requires |sep| > 0 && AllFitIn(cs + [c], |buf|)
    ensures AllFitIn(cs, |buf|) && AllFit(Reads(c), |buf|)
    ensures var prev := WorkerRun(buf, cs, sep);
            var t := WholeBufferTally(prev.buf, Reads(c), sep);
            WorkerRun(buf, cs + [c], sep) == SharedRun(t.buf, prev.subtotals + [Wrap(t.total)])
  {
    assert (cs + [c])[..|cs|] == cs;
    assert FitsIn((cs + [c])[|cs|], |buf|);
  }

  /** The worker's buffer as `make` returns it. */
  ghost const ZeroBuffer: seq<Byte> := seq(BufferSize, _ => 0)

  /** Sources counted one after another through one buffer each fits in, each still unread. */
  ghost predicate Fresh(tasks: seq<Task>)
    reads set i | 0 <= i < |tasks| :: tasks[i].body
  {
    && (forall i :: 0 <= i < |tasks| ==>
         tasks[i].body.Valid() && tasks[i].body.next == 0 && FitsIn(tasks[i].body.content, BufferSize))
    && (forall i, j :: 0 <= i < j < |tasks| ==> tasks[i].body != tasks[j].body)
  }

  /**
   * The worker after taking the first `k` sources: their results are sent,
   * they are closed and read to the end, the rest are untouched, and the
   * buffer holds what the `k` sources left in it.
   */
  ghost predicate TakenFirst(tasks: seq<Task>, k: nat, buf: array<Byte>, results: seq<CounterResult>, substring: seq<Byte>)
    reads buf, set i | 0 <= i < |tasks| :: tasks[i].body
  {
    && k <= |tasks| && |results| == k && |substring| > 0 && buf.Length == BufferSize
    && AllFitIn(Contents(tasks), BufferSize)
    && (forall i, j :: 0 <= i < j < |tasks| ==> tasks[i].body != tasks[j].body)
    && (forall i :: 0 <= i < k ==> tasks[i].body.closed && tasks[i].body.next > |tasks[i].body.content.chunks|)
    && (forall i :: k <= i < |tasks| ==> tasks[i].body.next == 0)
    && var run := WorkerRun(ZeroBuffer, Contents(tasks)[..k], substring);
       && buf[..] == run.buf
       && (forall i :: 0 <= i < k ==> results[i] == CounterResult(run.subtotals[i], tasks[i].origin))
  }

  /** One turn of the worker's loop: counts source `k` and sends its result. */
  method TakeNext(tasks: seq<Task>, k: nat, buf: array<Byte>, results: seq<CounterResult>, substring: seq<Byte>)
    returns (results': seq<CounterResult>)
    requires TakenFirst(tasks, k, buf, results, substring) && k < |tasks|
    modifies tasks[k].body, buf
    ensures TakenFirst(tasks, k + 1, buf, results', substring)
    ensures results' == results + [results'[k]]
  {
    ghost var cs := Contents(tasks);
    var source := tasks[k];
    assert cs[..k + 1] == cs[..k] + [cs[k]];
    assert AllFitIn(cs[..k + 1], BufferSize);
    WorkerRunSnoc(ZeroBuffer, cs[..k], cs[k], substring);
    assert source.body.Valid();
    ghost var prevRun := WorkerRun(ZeroBuffer, cs[..k], substring);
    label BeforeCount:
    var subtotal := CountSubstringIn(source.body, buf, substring);
    forall i | 0 <= i < |tasks| && i != k
      ensures tasks[i].body.closed == old@BeforeCount(tasks[i].body.closed)
      ensures tasks[i].body.next == old@BeforeCount(tasks[i].body.next)
    {
      assert tasks[i].body != source.body;
    }
    results' := results + [CounterResult(subtotal, source.origin)];
    assert WorkerRun(ZeroBuffer, cs[..k + 1], substring).subtotals == prevRun.subtotals + [subtotal];
  }

  /**
   * `workerFunc`: takes the sources in order until the task channel is
   * closed, counting each through the worker's one zeroed buffer, and sends
   * one result per source with its origin.
   */
  method RunCounterWorker(tasks: seq<Task>, substring: seq<Byte>) returns (results: seq<CounterResult>)
    requires |substring| > 0 && Fresh(tasks)
    modifies set i | 0 <= i < |tasks| :: tasks[i].body
    ensures |results| == |tasks|
    ensures forall i :: 0 <= i < |tasks| ==> tasks[i].body.closed && tasks[i].body.Exhausted()
    ensures var run := WorkerRun(ZeroBuffer, Contents(tasks), substring);
            forall i :: 0 <= i < |tasks| ==> results[i] == CounterResult(run.subtotals[i], tasks[i].origin)
  {
    var buf := new Byte[BufferSize](_ => 0);
    assert buf[..] == ZeroBuffer;
    ghost var cs := Contents(tasks);
    assert AllFitIn(cs, BufferSize);
    assert cs[..0] == [];
    results := [];
    var k := 0;
    while k < |tasks|
      invariant k <= |tasks|
      invariant TakenFirst(tasks, k, buf, results, substring)
    {
      results := TakeNext(tasks, k, buf, results, substring);
      k := k + 1;
    }
    assert cs[..k] == cs;
  }
}

/** The shared buffer of counter/worker.go, on a two-byte buffer. */
module CounterWorkerExamples {
  import opened Stream
  import opened BytesCount
  import opened CounterWorker

  /**
   * Source "ab" then source "a", counting "ab": the second source holds no
   * "ab", yet its subtotal is 1, because the "b" the first source left in the
   * buffer follows its "a".
   */
  lemma PreviousSourceLeaksIntoSubtotal()
    ensures WorkerRun([0, 0], [Content([], [97, 98], EOF), Content([], [97], EOF)], [97, 98]).subtotals == [1, 1]
    ensures PerReadSum(Reads(Content([], [97], EOF)), [97, 98]) == 0
  {
    var c0 := Content([], [97, 98], EOF);
    var c1 := Content([], [97], EOF);
    assert Reads(c1) == [[97]] && Reads(c1)[..0] == [];
    FirstSourceRun();
    SecondSourceTally();
    assert [c0] + [c1] == [c0, c1];
    WorkerRunSnoc([0, 0], [c0], c1, [97, 98]);
  }

  lemma FirstSourceRun()
    ensures WorkerRun([0, 0], [Content([], [97, 98], EOF)], [97, 98]) == SharedRun([97, 98], [1])
  {
    var c0 := Content([], [97, 98], EOF);
    assert Reads(c0) == [[97, 98]];
    FirstSourceTally();
    assert [] + [c0] == [c0];
    WorkerRunSnoc([0, 0], [], c0, [97, 98]);
  }

  lemma FirstSourceTally()
    ensures WholeBufferTally([0, 0], [[97, 98]], [97, 98]) == Tally([97, 98], 1)
  {
    var rs: seq<seq<Byte>> := [[97, 98]];
    assert rs[..0] == [];
    assert Fill([0, 0], [97, 98]) == [97, 98];
    assert OccursAt([97, 98], [97, 98], 0);
  }

  lemma SecondSourceTally()
    ensures WholeBufferTally([97, 98], [[97]], [97, 98]) == Tally([97, 98], 1)
  {
    var rs: seq<seq<Byte>> := [[97]];
    assert rs[..0] == [];
    assert Fill([97, 98], [97]) == [97, 98];
    assert OccursAt([97, 98], [97, 98], 0);
  }
}
