/**
 * count/run.go (and count/count.go, which repeats `processInput` and
 * `calculateTotal` line for line over `Result` and `NewSource`): reading
 * origin lines into sources, and adding up the subtotals of the results.
 */
module Run {
  import opened Wrappers
  import opened Sources

  /** One origin's outcome. `subtotal` is a big.Int, never negative. */
  datatype Result = Result(subtotal: nat, origin: string, error: Option<string>)

  /** The sources `processInput` forwards for `lines`: failed classifications dropped, order kept. */
  function Forwarded(lines: seq<string>, timeout: int, regularFiles: set<string>): (r: seq<SourceSpec>)
    ensures |r| <= |lines|
  {
    if lines == [] then []
    else
      var prev := Forwarded(lines[..|lines| - 1], timeout, regularFiles);
      match NewSource(lines[|lines| - 1], timeout, regularFiles)
      case Success(spec) => prev + [spec]
      case Failure(_) => prev
  }

  /** Forwarding distributes over concatenation: a skipped line does not disturb the lines after it. */
  lemma {:induction false} ForwardedAppend(a: seq<string>, b: seq<string>, timeout: int, regularFiles: set<string>)
    ensures Forwarded(a + b, timeout, regularFiles) == Forwarded(a, timeout, regularFiles) + Forwarded(b, timeout, regularFiles)
    decreases |b|
  {
    if b == [] {
      assert a + b == a;
    } else {
      var b' := b[..|b| - 1];
      assert (a + b)[..|a + b| - 1] == a + b';
      ForwardedAppend(a, b', timeout, regularFiles);
    }
  }

  /** Everything forwarded is the classification of one of the lines. */
  lemma {:induction false} ForwardedSound(lines: seq<string>, timeout: int, regularFiles: set<string>)
    ensures forall x :: x in Forwarded(lines, timeout, regularFiles) ==>
      x.origin in lines && NewSource(x.origin, timeout, regularFiles) == Success(x)
  {
    if lines != [] {
      ForwardedSound(lines[..|lines| - 1], timeout, regularFiles);
    }
  }

  /** Every line that classifies is forwarded. */
  lemma {:induction false} ForwardedComplete(lines: seq<string>, timeout: int, regularFiles: set<string>)
    ensures forall i :: 0 <= i < |lines| && NewSource(lines[i], timeout, regularFiles).Success? ==>
      NewSource(lines[i], timeout, regularFiles).value in Forwarded(lines, timeout, regularFiles)
  {
    if lines != [] {
      var init := lines[..|lines| - 1];
      ForwardedComplete(init, timeout, regularFiles);
      forall i | 0 <= i < |lines| - 1
        ensures lines[i] == init[i]
      {
      }
    }
  }

  /**
   * `processInput(ctx, input, timeout)`: scans `lines` until they run out or
   * the context is seen done (`doneAt`: the loop turn from which ctx.Done()
   * is ready; |lines| + 1 or more for a context never cancelled); each line
   * goes through NewSource, failures are skipped, the rest sent on `tasks`.
   * The deferred `close(tasks)` runs on every exit: once the method returns,
   * `tasks` is all the channel will ever carry.
   */
  method ProcessInput(lines: seq<string>, doneAt: nat, timeout: int, regularFiles: set<string>)
    returns (tasks: seq<SourceSpec>, scanned: nat)
    ensures scanned == (if doneAt < |lines| then doneAt else |lines|)
    ensures tasks == Forwarded(lines[..scanned], timeout, regularFiles)
  {
    tasks := [];
    scanned := 0;
    while true
      invariant scanned <= |lines| && scanned <= doneAt
      invariant tasks == Forwarded(lines[..scanned], timeout, regularFiles)
      decreases |lines| - scanned
    {
      if scanned == doneAt {
        break;
      }
      if scanned == |lines| {
        break;
      }
      var origin := lines[scanned];
      assert lines[..scanned + 1][..scanned] == lines[..scanned];
      scanned := scanned + 1;
      var source := NewSource(origin, timeout, regularFiles);
      if source.Failure? {
        continue;
      }
      tasks := tasks + [source.value];
    }
  }

  /** The subtotals of the results without an error, added up. */
  function SumOfSuccessful(results: seq<Result>): (r: nat)
    ensures forall i :: 0 <= i < |results| && results[i].error == None ==> results[i].subtotal <= r
    ensures (forall i :: 0 <= i < |results| ==> results[i].error != None) ==> r == 0
  {
    if results == [] then 0
    else
      var r := results[|results| - 1];
      SumOfSuccessful(results[..|results| - 1]) + (if r.error == None then r.subtotal else 0)
  }

  /**
   * `calculateTotal(results)`: from 0, adds the subtotal of every result
   * without an error; errored results are skipped and the loop goes on.
   */
  method CalculateTotal(results: seq<Result>) returns (total: nat)
    ensures total == SumOfSuccessful(results)
  {
    total := 0;
    for i := 0 to |results|
      invariant total == SumOfSuccessful(results[..i])
    {
      assert results[..i + 1][..i] == results[..i];
      var result := results[i];
      if result.error != None {
        continue;
      }
      total := total + result.subtotal;
    }
    assert results[..|results|] == results;
  }

  lemma {:induction false} SumAppend(a: seq<Result>, b: seq<Result>)
    ensures SumOfSuccessful(a + b) == SumOfSuccessful(a) + SumOfSuccessful(b)
    decreases |b|
  {
    if b == [] {
      assert a + b == a;
    } else {
      assert (a + b)[..|a + b| - 1] == a + b[..|b| - 1];
      SumAppend(a, b[..|b| - 1]);
    }
  }

  /** The total does not depend on the order in which the results arrive. */
  lemma {:induction false} SumOrderIndependent(a: seq<Result>, b: seq<Result>)
    requires multiset(a) == multiset(b)
    ensures SumOfSuccessful(a) == SumOfSuccessful(b)
    decreases |a|
  {
    if a != [] {
      var x := a[|a| - 1];
      assert x in b by {
        assert x in multiset(b);
      }
      var k :| 0 <= k < |b| && b[k] == x;
      var a', b' := a[..|a| - 1], b[..k] + b[k + 1..];
      assert multiset(a') == multiset(b') by {
        MultisetWithout(a, |a| - 1);
        MultisetWithout(b, k);
        assert a[..|a| - 1] + a[|a|..] == a';
      }
      SumOrderIndependent(a', b');
      SumWithout(a, |a| - 1);
      SumWithout(b, k);
      assert a[..|a| - 1] + a[|a|..] == a';
    }
  }

  /** Taking out the element at `k` takes one copy of it out of the multiset. */
  lemma MultisetWithout(b: seq<Result>, k: nat)
    requires k < |b|
    ensures multiset(b[..k] + b[k + 1..]) == multiset(b) - multiset{b[k]}
  {
    SplitAround(b, k);
  }

  /** A sequence is what lies before position `k`, the element there, and what lies after. */
  lemma SplitAround<T>(b: seq<T>, k: nat)
    requires k < |b|
    ensures b == b[..k] + ([b[k]] + b[k + 1..])
  {
    assert b[k..] == [b[k]] + b[k + 1..];
    assert b == b[..k] + b[k..];
  }

  /** Taking out the element at `k` takes its contribution out of the sum. */
  lemma SumWithout(b: seq<Result>, k: nat)
    requires k < |b|
    ensures SumOfSuccessful(b) == SumOfSuccessful(b[..k] + b[k + 1..]) + (if b[k].error == None then b[k].subtotal else 0)
  {
    var left, x, right := b[..k], [b[k]], b[k + 1..];
    SplitAround(b, k);
    SumAppend(left, x + right);
    SumAppend(x, right);
    assert x[..0] == [];
    SumAppend(left, right);
  }

  /** Results with an error add nothing: dropping them leaves the total unchanged. */
  lemma {:induction false} ErroredResultsExcluded(results: seq<Result>, r: Result)
    requires r.error != None
    ensures SumOfSuccessful(results + [r]) == SumOfSuccessful(results)
  {
    assert (results + [r])[..|results|] == results;
  }
}
