/**
 * `bytes.Count` from Go's standard library and the per-read counting that
 * count/worker.go `countSubstring` and counter/worker.go `countSubstringIn`
 * build on it: after every read that returned data, count over the WHOLE
 * buffer, whose tail still holds bytes of earlier reads.
 */
module BytesCount {
  import opened Wrappers
  import opened Stream

  /** Does `sep` occur in `s` starting at position `i`? */
  predicate OccursAt(s: seq<Byte>, sep: seq<Byte>, i: int)
  {
    0 <= i && i + |sep| <= |s| && s[i..i + |sep|] == sep
  }

  /** `bytes.Count(s, sep)` for a non-empty `sep`: leftmost, non-overlapping occurrences. */
  function Count(s: seq<Byte>, sep: seq<Byte>): (r: nat)
    requires |sep| > 0
    ensures r <= |s|
    ensures r > 0 ==> |sep| <= |s|
    decreases |s|
  {
    if |s| < |sep| then 0
    else if s[..|sep|] == sep then 1 + Count(s[|sep|..], sep)
    else Count(s[1..], sep)
  }

  /** The occurrences counted are disjoint, so together they take no more room than `s`. */
  lemma {:induction false} CountBound(s: seq<Byte>, sep: seq<Byte>)
    requires |sep| > 0
    ensures Count(s, sep) * |sep| <= |s|
    decreases |s|
  {
    if |s| >= |sep| {
      if s[..|sep|] == sep {
        CountBound(s[|sep|..], sep);
        assert (1 + Count(s[|sep|..], sep)) * |sep| == |sep| + Count(s[|sep|..], sep) * |sep|;
      } else {
        CountBound(s[1..], sep);
      }
    }
  }

  /** Occurrences in `s` past its first byte are the occurrences in `s[1..]`, one position earlier. */
  lemma OccursShift(s: seq<Byte>, sep: seq<Byte>, i: int)
    requires 1 <= i && |s| > 0
    ensures OccursAt(s, sep, i) <==> OccursAt(s[1..], sep, i - 1)
  {
    if i + |sep| <= |s| {
      assert s[1..][i - 1..i - 1 + |sep|] == s[i..i + |sep|];
    }
  }

  /** `bytes.Count` finds something exactly when `sep` occurs somewhere in `s`. */
  lemma {:induction false} CountPositiveIffOccurs(s: seq<Byte>, sep: seq<Byte>)
    requires |sep| > 0
    ensures Count(s, sep) > 0 <==> exists i :: OccursAt(s, sep, i)
    decreases |s|
  {
    if |s| < |sep| {
    } else if s[..|sep|] == sep {
      assert OccursAt(s, sep, 0);
    } else {
      CountPositiveIffOccurs(s[1..], sep);
      if exists i :: OccursAt(s, sep, i) {
        var i :| OccursAt(s, sep, i);
        assert i != 0;
        OccursShift(s, sep, i);
      }
      if exists j :: OccursAt(s[1..], sep, j) {
        var j :| OccursAt(s[1..], sep, j);
        OccursShift(s, sep, j + 1);
      }
    }
  }

  /** Appending bytes never lowers the count: the greedy scan of `s` is a prefix of the scan of `s + t`. */
  lemma {:induction false} CountMonotone(s: seq<Byte>, t: seq<Byte>, sep: seq<Byte>)
    requires |sep| > 0
    ensures Count(s + t, sep) >= Count(s, sep)
    decreases |s|
  {
    if |s| >= |sep| {
      assert (s + t)[..|sep|] == s[..|sep|];
      if s[..|sep|] == sep {
        assert (s + t)[|sep|..] == s[|sep|..] + t;
        CountMonotone(s[|sep|..], t, sep);
      } else {
        assert (s + t)[1..] == s[1..] + t;
        CountMonotone(s[1..], t, sep);
      }
    }
  }

  /** The buffer after a read of `data`: the data in front, the old bytes behind it. */
  function Fill(buf: seq<Byte>, data: seq<Byte>): (r: seq<Byte>)
    requires |data| <= |buf|
    ensures |r| == |buf| && r[..|data|] == data && r[|data|..] == buf[|data|..]
  {
    data + buf[|data|..]
  }

  predicate AllFit(rs: seq<seq<Byte>>, size: nat)
  {
    forall i :: 0 <= i < |rs| ==> |rs[i]| <= size
  }

  datatype Tally = Tally(buf: seq<Byte>, total: nat)

  /**
   * Reads `rs` one after another into a buffer that starts as `buf`; after
   * each read that returned data, adds `bytes.Count` over the whole buffer.
   */
  function WholeBufferTally(buf: seq<Byte>, rs: seq<seq<Byte>>, sep: seq<Byte>): (r: Tally)
    requires |sep| > 0 && AllFit(rs, |buf|)
    ensures |r.buf| == |buf|
  {
    if rs == [] then Tally(buf, 0)
    else
      var prev := WholeBufferTally(buf, rs[..|rs| - 1], sep);
      var data := rs[|rs| - 1];
      var b := Fill(prev.buf, data);
      Tally(b, prev.total + if |data| > 0 then Count(b, sep) else 0)
  }

  /** One more read: fill the buffer with it, then count over the whole buffer if it returned data. */
  lemma TallyStep(buf: seq<Byte>, rs: seq<seq<Byte>>, i: nat, prev: Tally, next: seq<Byte>, sep: seq<Byte>)
    requires |sep| > 0 && i < |rs| && AllFit(rs, |buf|)
    requires WholeBufferTally(buf, rs[..i], sep) == prev && next == Fill(prev.buf, rs[i])
    ensures WholeBufferTally(buf, rs[..i + 1], sep) == Tally(next, prev.total + if |rs[i]| > 0 then Count(next, sep) else 0)
  {
    assert rs[..i + 1][..i] == rs[..i];
  }

  /**
   * The reads taken so far from `source`, through a buffer that started as
   * `buf0`, left `buf` as it is and tallied `exact`.
   */
  ghost predicate TalliedSoFar(source: ChunkReader, buf: array<Byte>, buf0: seq<Byte>, sep: seq<Byte>, exact: nat)
    reads source, buf
  {
    && |sep| > 0 && source.Valid() && buf.Length == |buf0|
    && AllFit(Reads(source.content), |buf0|)
    && assert AllFit(Reads(source.content)[..source.next], |buf0|);
       WholeBufferTally(buf0, Reads(source.content)[..source.next], sep) == Tally(buf[..], exact)
  }

  /** `source.Read(buf)`, and what the read adds to the whole-buffer tally. */
  method ReadTallied(source: ChunkReader, buf: array<Byte>, sep: seq<Byte>, ghost buf0: seq<Byte>, ghost exact: nat)
    returns (n: nat, err: Option<ReadError>)
    requires TalliedSoFar(source, buf, buf0, sep, exact) && !source.Exhausted()
    modifies source, buf
    ensures TalliedSoFar(source, buf, buf0, sep, exact + if n > 0 then Count(buf[..], sep) else 0)
    ensures source.next == old(source.next) + 1 && source.closed == old(source.closed)
    ensures err == if source.Exhausted() then Some(source.content.end) else None
  {
    ghost var prevBuf := buf[..];
    ghost var i := source.next;
    n, err := source.Read(buf);
    TallyStep(buf0, Reads(source.content), i, Tally(prevBuf, exact), buf[..], sep);
  }

  /** The sum of `bytes.Count` over each read's own data. */
  function PerReadSum(rs: seq<seq<Byte>>, sep: seq<Byte>): nat
    requires |sep| > 0
  {
    if rs == [] then 0 else PerReadSum(rs[..|rs| - 1], sep) + Count(rs[|rs| - 1], sep)
  }

  /** Stale bytes can only add: the whole-buffer tally is never below the per-read counts. */
  lemma {:induction false} TallyAtLeastPerRead(buf: seq<Byte>, rs: seq<seq<Byte>>, sep: seq<Byte>)
    requires |sep| > 0 && AllFit(rs, |buf|)
    ensures WholeBufferTally(buf, rs, sep).total >= PerReadSum(rs, sep)
  {
    if rs != [] {
      var init := rs[..|rs| - 1];
      assert AllFit(init, |buf|);
      TallyAtLeastPerRead(buf, init, sep);
      var data := rs[|rs| - 1];
      var b := Fill(WholeBufferTally(buf, init, sep).buf, data);
      CountMonotone(data, b[|data|..], sep);
      assert b == data + b[|data|..];
      if |data| == 0 {
        assert Count(data, sep) == 0;
      }
    }
  }

  /** When every read fills the buffer, nothing stale is left and the tally is the per-read sum. */
  lemma {:induction false} TallyOfFullReads(buf: seq<Byte>, rs: seq<seq<Byte>>, sep: seq<Byte>)
    requires |sep| > 0 && |buf| > 0
    requires forall i :: 0 <= i < |rs| ==> |rs[i]| == |buf|
    ensures WholeBufferTally(buf, rs, sep).total == PerReadSum(rs, sep)
  {
    if rs != [] {
      var init := rs[..|rs| - 1];
      TallyOfFullReads(buf, init, sep);
      var data := rs[|rs| - 1];
      assert Fill(WholeBufferTally(buf, init, sep).buf, data) == data;
    }
  }
}
