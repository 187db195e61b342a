/**
 * count/worker.go: the two substring counters.
 *
 * `CountSubstr` runs a one-cursor automaton over the bytes of every read; the
 * cursor survives from one read to the next, so the result depends only on
 * the bytes delivered, not on where the reads split them. The automaton is
 * not KMP: on a mismatch it restarts against the first byte of the substring
 * only, so its count is not the number of occurrences ("aaab"/"aab" gives 0).
 *
 * `CountSubstring` is the older counter: it checks a stop signal before each
 * read and adds `bytes.Count` over the whole buffer after each read.
 */
module CountWorker {
  import opened Wrappers
  import opened Stream
  import opened BytesCount

  const ErrStopSignal: string := "got.stop.signal"

  /** The cursor of the automaton and the matches it completed. */
  datatype Cursor = Cursor(index: nat, count: nat)

  /** One byte through the automaton. */
  function Step(substr: seq<Byte>, index: nat, b: Byte): (r: Cursor)
    requires index < |substr|
    ensures r.index < |substr| && r.count <= 1
    // a match completes exactly when the cursor sits on the last byte and the byte matches it
    ensures r.count == 1 <==> index == |substr| - 1 && b == substr[index]
    ensures r.count == 1 ==> r.index == 0
    // a matching byte advances the cursor
    ensures b == substr[index] && index < |substr| - 1 ==> r.index == index + 1
    // a mismatch restarts, re-testing the same byte against substr[0] only
    ensures b != substr[index] ==> r.index == (if b == substr[0] && |substr| > 1 then 1 else 0)
  {
    var k := if b == substr[index] then index + 1 else if b == substr[0] then 1 else 0;
    if k == |substr| then Cursor(0, 1) else Cursor(k, 0)
  }

  /** The automaton over a byte sequence, starting from cursor `index`. */
  function Scan(substr: seq<Byte>, index: nat, s: seq<Byte>): (r: Cursor)
    requires index < |substr|
    ensures r.index < |substr| && r.count <= |s|
    decreases |s|
  {
    if s == [] then Cursor(index, 0)
    else
      var c := Step(substr, index, s[0]);
      var rest := Scan(substr, c.index, s[1..]);
      Cursor(rest.index, c.count + rest.count)
  }

  /** Scanning `a + b` is scanning `a`, then `b` from where `a` left the cursor. */
  lemma {:induction false} ScanAppend(substr: seq<Byte>, index: nat, a: seq<Byte>, b: seq<Byte>)
    requires index < |substr|
    ensures var ra := Scan(substr, index, a);
            var rb := Scan(substr, ra.index, b);
            Scan(substr, index, a + b) == Cursor(rb.index, ra.count + rb.count)
    decreases |a|
  {
    if a != [] {
      assert (a + b)[0] == a[0] && (a + b)[1..] == a[1..] + b;
      ScanAppend(substr, Step(substr, index, a[0]).index, a[1..], b);
    } else {
      assert a + b == b;
    }
  }

  /** `t` ends with `u`. */
  predicate EndsWith(t: seq<Byte>, u: seq<Byte>)
  {
    |u| <= |t| && t[|t| - |u|..] == u
  }

  /** If `pre + [b]` ends with `mid`, and `mid + rest` ends with `fin`, then `pre + [b] + rest` ends with `fin`. */
  lemma EndsWithThrough(pre: seq<Byte>, b: Byte, rest: seq<Byte>, mid: seq<Byte>, fin: seq<Byte>)
    requires EndsWith(pre + [b], mid) && EndsWith(mid + rest, fin)
    ensures EndsWith(pre + ([b] + rest), fin)
  {
    var t := pre + ([b] + rest);
    assert t == (pre + [b]) + rest;
    assert t[|t| - |mid + rest|..] == mid + rest;
    assert t[|t| - |fin|..] == (mid + rest)[|mid + rest| - |fin|..];
  }

  /** After one step, the bytes behind the cursor end what was matched before plus the new byte. */
  lemma StepIsMatchedPrefix(substr: seq<Byte>, index: nat, b: Byte)
    requires index < |substr|
    ensures EndsWith(substr[..index] + [b], substr[..Step(substr, index, b).index])
  {
    var t := substr[..index] + [b];
    var k := Step(substr, index, b).index;
    if k == index + 1 {
      assert t == substr[..k];
    } else if k == 1 {
      assert t[|t| - 1..] == [b] == substr[..1];
    }
  }

  /** A cursor at `k` means the last `k` bytes seen are the first `k` bytes of the substring. */
  lemma {:induction false} CursorIsMatchedPrefix(substr: seq<Byte>, index: nat, s: seq<Byte>)
    requires index < |substr|
    ensures EndsWith(substr[..index] + s, substr[..Scan(substr, index, s).index])
    decreases |s|
  {
    if s == [] {
      assert substr[..index] + s == substr[..index];
    } else {
      var c := Step(substr, index, s[0]);
      CursorIsMatchedPrefix(substr, c.index, s[1..]);
      StepIsMatchedPrefix(substr, index, s[0]);
      EndsWithThrough(substr[..index], s[0], s[1..], substr[..c.index], substr[..Scan(substr, c.index, s[1..]).index]);
      assert [s[0]] + s[1..] == s;
    }
  }

  /** The automaton folded over the reads, one read at a time, the cursor carried across. */
  function ScanReads(substr: seq<Byte>, rs: seq<seq<Byte>>): (r: Cursor)
    requires |substr| > 0
    ensures r.index < |substr|
  {
    if rs == [] then Cursor(0, 0)
    else
      var prev := ScanReads(substr, rs[..|rs| - 1]);
      var c := Scan(substr, prev.index, rs[|rs| - 1]);
      Cursor(c.index, prev.count + c.count)
  }

  /** Folding over the reads equals one scan of their concatenation. */
  lemma {:induction false} ScanReadsIsScanOfConcatenation(substr: seq<Byte>, rs: seq<seq<Byte>>)
    requires |substr| > 0
    ensures ScanReads(substr, rs) == Scan(substr, 0, Flatten(rs))
  {
    if rs != [] {
      var init := rs[..|rs| - 1];
      ScanReadsIsScanOfConcatenation(substr, init);
      ScanAppend(substr, 0, Flatten(init), rs[|rs| - 1]);
    }
  }

  /** Hence the count does not depend on how the stream was cut into reads (the buffer size). */
  lemma BufferSizeIndependence(substr: seq<Byte>, rs1: seq<seq<Byte>>, rs2: seq<seq<Byte>>)
    requires |substr| > 0 && Flatten(rs1) == Flatten(rs2)
    ensures ScanReads(substr, rs1) == ScanReads(substr, rs2)
  {
    ScanReadsIsScanOfConcatenation(substr, rs1);
    ScanReadsIsScanOfConcatenation(substr, rs2);
  }

  /**
   * `countSubstr(source, buf, substr)`: reads until the error that ends the
   * stream, running the automaton over the bytes of every read; EOF ends with
   * a nil error, any other error is returned with the total so far, which
   * includes the bytes of the failing read. The source is closed on return.
   */
  method CountSubstr(source: ChunkReader, buf: array<Byte>, substr: seq<Byte>) returns (total: nat, err: Option<string>)
    requires |substr| > 0
    requires source.Valid() && source.next == 0 && FitsIn(source.content, buf.Length)
    modifies source, buf
    ensures source.closed && source.Exhausted()
    ensures total == Scan(substr, 0, Bytes(source.content)).count
    ensures err == Reported(source.content.end)
  {
    total := 0;
    var substrIndex := 0;
    ghost var rs := Reads(source.content);
    while true
      invariant source.Valid() && !source.Exhausted() && rs == Reads(source.content)
      invariant ScanReads(substr, rs[..source.next]) == Cursor(substrIndex, total)
      decreases |rs| - source.next
    {
      ghost var start := substrIndex;
      ghost var i := source.next;
      var n, readErr := source.Read(buf);
      ghost var data := rs[i];
      assert buf[..n] == data;
      var subtotal := 0;
      for bufIndex := 0 to n
        modifies {}
        invariant Scan(substr, start, data[..bufIndex]) == Cursor(substrIndex, subtotal)
      {
        ScanAppend(substr, start, data[..bufIndex], [buf[bufIndex]]);
        assert data[..bufIndex + 1] == data[..bufIndex] + [buf[bufIndex]];
        if buf[bufIndex] == substr[substrIndex] {
          substrIndex := substrIndex + 1;
        } else {
          substrIndex := 0;
          if buf[bufIndex] == substr[substrIndex] {
            substrIndex := substrIndex + 1;
          }
        }
        if substrIndex == |substr| {
          subtotal := subtotal + 1;
          substrIndex := 0;
        }
      }
      assert data[..n] == data;
      assert rs[..i + 1][..i] == rs[..i];
      total := total + subtotal;
      if readErr.Some? {
        assert rs[..i + 1] == rs;
        ScanReadsIsScanOfConcatenation(substr, rs);
        err := Reported(readErr.value);
        source.Close();
        return;
      }
    }
  }

  /** How many reads `countSubstring` performs: up to and including the erroring one, or until stop is seen. */
  function ReadsBeforeStop(c: Content, stopAt: Option<nat>): (m: nat)
    ensures m <= |c.chunks| + 1
    ensures m < |c.chunks| + 1 ==> stopAt == Some(m)
  {
    if stopAt.Some? && stopAt.value <= |c.chunks| then stopAt.value else |c.chunks| + 1
  }

  /**
   * `countSubstring(source, buf, sep, stop)`: before every read the stop
   * signal is checked (`stopAt == Some(i)`: it is seen from the i-th check
   * on) and ends the count with "got.stop.signal"; every read that returned
   * data adds `bytes.Count(buf, sep)` over the whole buffer.
   */
  method CountSubstring(source: ChunkReader, buf: array<Byte>, sep: seq<Byte>, stopAt: Option<nat>)
    returns (total: nat, err: Option<string>)
    requires |sep| > 0
    requires source.Valid() && source.next == 0 && FitsIn(source.content, buf.Length)
    modifies source, buf
    ensures source.closed
    ensures var m := ReadsBeforeStop(source.content, stopAt);
            var t := WholeBufferTally(old(buf[..]), Reads(source.content)[..m], sep);
            && source.next == m
            && total == t.total && buf[..] == t.buf
            && err == (if m <= |source.content.chunks| then Some(ErrStopSignal) else Reported(source.content.end))
  {
    total := 0;
    ghost var buf0 := buf[..];
    var iteration := 0;
    assert Reads(source.content)[..0] == [];
    while true
      invariant TalliedSoFar(source, buf, buf0, sep, total) && !source.Exhausted()
      invariant iteration == source.next <= ReadsBeforeStop(source.content, stopAt)
      decreases |Reads(source.content)| - iteration
    {
      if stopAt == Some(iteration) {
        source.Close();
        return total, Some(ErrStopSignal);
      }
      var n, readErr := ReadTallied(source, buf, sep, buf0, total);
      if n > 0 {
        total := total + Count(buf[..], sep);
      }
      iteration := iteration + 1;
      if readErr.Some? {
        assert Reads(source.content)[..iteration] == Reads(source.content);
        source.Close();
        return total, Reported(readErr.value);
      }
    }
  }

}

/**
 * Worked examples for the counters of count/worker.go, with the reads cut as
 * the buffer sizes of count/count_substring_test.go cut them.
 */
module CountWorkerExamples {
  import opened Stream
  import opened BytesCount
  import opened CountWorker

  /** "aaaaaaaa" / "a" read through a 10-byte buffer: 8. */
  lemma ExampleSingleByte()
    ensures ScanReads([97], [[97, 97, 97, 97, 97, 97, 97, 97]]).count == 8
  {
    var r0: seq<Byte> := [97, 97, 97, 97, 97, 97, 97, 97];
    ScanReadsIsScanOfConcatenation([97], [r0]);
    assert Flatten([r0]) == r0;
  }

  /** "abcdabcd" / "abcd" read through a 3-byte buffer: 2, both matches straddling reads. */
  lemma ExampleStraddling()
    ensures ScanReads([97, 98, 99, 100], [[97, 98, 99], [100, 97, 98], [99, 100]]).count == 2
  {
    var r0: seq<Byte>, r1: seq<Byte>, r2: seq<Byte> := [97, 98, 99], [100, 97, 98], [99, 100];
    var w: seq<Byte> := [97, 98, 99, 100];
    ScanReadsIsScanOfConcatenation(w, [r0, r1, r2]);
    FlattenThree(r0, r1, r2);
    assert r0 + r1 + r2 == w + w;
    ScanOfWord();
    ScanAppend(w, 0, w, w);
  }

  lemma FlattenThree(r0: seq<Byte>, r1: seq<Byte>, r2: seq<Byte>)
    ensures Flatten([r0, r1, r2]) == r0 + r1 + r2
  {
    assert [r0, r1, r2][..2] == [r0, r1] && [r0, r1][..1] == [r0] && [r0][..0] == [];
    assert Flatten([r0]) == r0;
    assert Flatten([r0, r1]) == r0 + r1;
  }

  /** "abcd" through the automaton for "abcd": one match, the cursor back at 0. */
  lemma ScanOfWord()
    ensures Scan([97, 98, 99, 100], 0, [97, 98, 99, 100]) == Cursor(0, 1)
  {
    var w: seq<Byte> := [97, 98, 99, 100];
    assert w[1..][1..][1..][1..] == [];
  }

  /** "ababababababa" / "aba" read through a 4-byte buffer: 3, the matches do not overlap. */
  lemma ExampleNonOverlapping()
    ensures ScanReads([97, 98, 97], [[97, 98, 97, 98], [97, 98, 97, 98], [97, 98, 97, 98], [97]]).count == 3
  {
    var w: seq<Byte> := [97, 98, 97, 98];
    var sub: seq<Byte> := [97, 98, 97];
    var rs: seq<seq<Byte>> := [w, w, w, [97]];
    assert rs[..3] == [w, w, w] && [w, w, w][..2] == [w, w] && [w, w][..1] == [w] && [w][..0] == [];
    assert Scan(sub, 0, w) == Cursor(0, 1);
    assert Scan(sub, 0, [97]) == Cursor(1, 0);
    assert ScanReads(sub, [w]) == Cursor(0, 1);
    assert ScanReads(sub, [w, w]) == Cursor(0, 2);
    assert ScanReads(sub, [w, w, w]) == Cursor(0, 3);
  }

  /** Overlapping occurrences count once: "aaa" / "aa" gives 1. */
  lemma ExampleOverlapCountsOnce()
    ensures Scan([97, 97], 0, [97, 97, 97]).count == 1
  {
  }

  /**
   * Not KMP: "aaab" holds "aab" at position 1 (and `bytes.Count` finds it),
   * but the automaton restarts only against the first byte and counts 0.
   */
  lemma ExampleNotOccurrenceCount()
    ensures OccursAt([97, 97, 97, 98], [97, 97, 98], 1)
    ensures Count([97, 97, 97, 98], [97, 97, 98]) == 1
    ensures Scan([97, 97, 98], 0, [97, 97, 97, 98]).count == 0
  {
    var s: seq<Byte> := [97, 97, 97, 98];
    assert s[1..] == [97, 97, 98];
    assert s[1..][..3] == [97, 97, 98];
  }

  /**
   * `countSubstring` counts bytes left over from earlier reads: "aba" / "ab"
   * through a 2-byte buffer is read as "ab" then "a", the buffer then holds
   * "ab" again, and the count is 2 where the stream holds one "ab".
   */
  lemma WholeBufferCountsStaleBytes()
    ensures WholeBufferTally([0, 0], [[97, 98], [97]], [97, 98]).total == 2
    ensures Count([97, 98, 97], [97, 98]) == 1
    ensures ScanReads([97, 98], [[97, 98], [97]]).count == 1
  {
    var sep: seq<Byte> := [97, 98];
    var rs: seq<seq<Byte>> := [[97, 98], [97]];
    assert rs[..1] == [[97, 98]] && rs[..1][..0] == [];
    assert WholeBufferTally([0, 0], rs[..1], sep) == Tally([97, 98], 1);
    assert Fill([97, 98], [97]) == [97, 98];
    var s: seq<Byte> := [97, 98, 97];
    assert s[..2] == sep && s[2..] == [97];
  }

  /** `countSubstring` misses a match split by a read boundary: "ab" / "ab" through a 1-byte buffer gives 0. */
  lemma WholeBufferMissesStraddling()
    ensures WholeBufferTally([0], [[97], [98]], [97, 98]).total == 0
    ensures ScanReads([97, 98], [[97], [98]]).count == 1
  {
    var rs: seq<seq<Byte>> := [[97], [98]];
    assert rs[..1] == [[97]] && rs[..1][..0] == [];
  }
}
