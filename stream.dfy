/**
 * A model of the `io.ReadCloser` that the counters consume.
 *
 * The bytes a reader will deliver are fixed up front as `Content`: the reads
 * that return data with a nil error, then one last read that returns its data
 * together with `io.EOF` or another error. Every later read returns nothing
 * and the same error again, as Go readers do.
 */
module Stream {
  import opened Wrappers

  newtype Byte = b: int | 0 <= b < 256

  datatype ReadError = EOF | ReadFailure(msg: string)

  datatype Content = Content(chunks: seq<seq<Byte>>, last: seq<Byte>, end: ReadError)

  /** The data of every read, in order, the erroring one included. */
  function Reads(c: Content): (rs: seq<seq<Byte>>)
    ensures |rs| == |c.chunks| + 1 && rs[|c.chunks|] == c.last
  {
    c.chunks + [c.last]
  }

  /** Concatenation of a sequence of reads (folded from the right end). */
  function Flatten(rs: seq<seq<Byte>>): seq<Byte>
  {
    if rs == [] then [] else Flatten(rs[..|rs| - 1]) + rs[|rs| - 1]
  }

  /** Every byte the reader delivers, in order. */
  function Bytes(c: Content): seq<Byte>
  {
    Flatten(Reads(c))
  }

  /** Every read fits a buffer of `size` bytes (Read never returns more than len(p)). */
  predicate FitsIn(c: Content, size: nat)
  {
    forall i :: 0 <= i < |Reads(c)| ==> |Reads(c)[i]| <= size
  }

  /** The error a counter reports for a stream ending in `end`: EOF becomes nil. */
  function Reported(end: ReadError): (r: Option<string>)
    ensures r == None <==> end == EOF
  {
    match end
    case EOF => None
    case ReadFailure(msg) => Some(msg)
  }

  class ChunkReader {
    const content: Content
    var next: nat      // number of reads served so far
    var closed: bool

    ghost predicate Valid()
      reads this
    {
      next <= |content.chunks| + 1
    }

    constructor (content: Content)
      ensures Valid() && this.content == content && next == 0 && !closed
    {
      this.content := content;
      next := 0;
      closed := false;
    }

    /** True once the read that carries the error has been served. */
    predicate Exhausted()
      reads this
    {
      next > |content.chunks|
    }

    /** `Read(p)`: fills `p` from the front with the next read's data and leaves the rest of `p` as it was. */
    method Read(p: array<Byte>) returns (n: nat, err: Option<ReadError>)
      requires Valid() && FitsIn(content, p.Length)
      modifies this, p
      ensures Valid() && closed == old(closed)
      ensures old(Exhausted()) ==> n == 0 && err == Some(content.end) && next == old(next) && p[..] == old(p[..])
      ensures !old(Exhausted()) ==>
        && next == old(next) + 1
        && n == |Reads(content)[old(next)]|
        && p[..] == Reads(content)[old(next)] + old(p[..])[n..]
        && err == (if old(next) == |content.chunks| then Some(content.end) else None)
    {
      if next > |content.chunks| {
        return 0, Some(content.end);
      }
      var data := Reads(content)[next];
      n := |data|;
      ghost var before := p[..];
      for i := 0 to n
        modifies p
        invariant forall j :: 0 <= j < i ==> p[j] == data[j]
        invariant forall j :: i <= j < p.Length ==> p[j] == before[j]
      {
        p[i] := data[i];
      }
      assert p[..] == data + before[n..];
      err := if next == |content.chunks| then Some(content.end) else None;
      next := next + 1;
    }

    /** `Close()`: always succeeds in this model. */
    method Close()
      modifies this
      ensures closed && next == old(next)
    {
      closed := true;
    }
  }
}
