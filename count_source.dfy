/**
 * count/source.go: classifying an origin line and the life cycle of the
 * source it names.
 *
 * The file system and the network are oracles: the set of paths that are
 * regular files, the outcome of opening a file, and the outcome of each HTTP
 * attempt (its body, or the error it failed with).
 */
module Sources {
  import opened Wrappers
  import opened Stream

  // ---------------------------------------------------------------------------
  // isHTTPURL: Go's url.Parse up to the scheme (section 3.1 of RFC 3986:
  // scheme = ALPHA *( ALPHA / DIGIT / "+" / "-" / "." ) followed by ":").
  // ---------------------------------------------------------------------------

  predicate IsLetter(c: char) { 'a' <= c <= 'z' || 'A' <= c <= 'Z' }

  predicate IsSchemeTail(c: char) { '0' <= c <= '9' || c == '+' || c == '-' || c == '.' }

  /** ASCII lower-casing, which is what strings.ToLower does to scheme characters. */
  function ToLowerAscii(c: char): (r: char)
    ensures IsLetter(c) <==> 'a' <= r <= 'z'
    ensures !IsLetter(c) ==> r == c
  {
    if 'A' <= c <= 'Z' then (c as int + 32) as char else c
  }

  function Lower(s: string): (r: string)
    ensures |r| == |s|
  {
    seq(|s|, i requires 0 <= i < |s| => ToLowerAscii(s[i]))
  }

  /** url.Parse refuses a URL holding an ASCII control byte. */
  predicate HasControlChar(s: string)
  {
    exists i :: 0 <= i < |s| && (s[i] < ' ' || s[i] as int == 0x7f)
  }

  /** url.Parse splits off the fragment at the first '#' before parsing the rest. */
  function BeforeHash(s: string): (u: string)
    ensures |u| <= |s| && u == s[..|u|]
    ensures forall i :: 0 <= i < |u| ==> u[i] != '#'
    ensures |u| < |s| ==> s[|u|] == '#'
  {
    if s == [] || s[0] == '#' then [] else [s[0]] + BeforeHash(s[1..])
  }

  datatype SchemeScan = NoScheme | MissingScheme | Scheme(name: string)

  /**
   * Go's getScheme, scanning from position `i`. A scheme is a non-empty
   * prefix of `s` followed by ':'; a ':' in first place is a missing scheme.
   */
  function GetScheme(s: string, i: nat): (r: SchemeScan)
    requires i <= |s|
    ensures r.Scheme? ==> 1 <= |r.name| < |s| && i <= |r.name|
    ensures r.Scheme? ==> r.name == s[..|r.name|] && s[|r.name|] == ':'
    ensures r.MissingScheme? ==> i == 0 && |s| > 0 && s[0] == ':'
    decreases |s| - i
  {
    if i == |s| then NoScheme
    else if IsLetter(s[i]) then GetScheme(s, i + 1)
    else if IsSchemeTail(s[i]) then (if i == 0 then NoScheme else GetScheme(s, i + 1))
    else if s[i] == ':' then (if i == 0 then MissingScheme else Scheme(s[..i]))
    else NoScheme
  }

  /**
   * `isHTTPURL`: the URL parses (up to its scheme) and the scheme, lower-cased,
   * is "http" or "https"; so an accepted URL has its ':' right after four or
   * five characters.
   */
  function IsHTTPURL(raw: string): (r: bool)
    ensures r ==> (4 < |raw| && raw[4] == ':') || (5 < |raw| && raw[5] == ':')
  {
    var u := BeforeHash(raw);
    !HasControlChar(u) &&
    match GetScheme(u, 0)
    case Scheme(name) => Lower(name) == "http" || Lower(name) == "https"
    case _ => false
  }

  /** `s` starts with `p`, ignoring ASCII case. */
  predicate HasPrefixIgnoringCase(s: string, p: string)
  {
    |p| <= |s| && Lower(s[..|p|]) == p
  }

  /** Letters and scheme characters up to a ':' at `j` make `s[..j]` the scheme. */
  lemma {:induction false} SchemeFound(s: string, i: nat, j: nat)
    requires 1 <= i <= j < |s| && s[j] == ':'
    requires forall k :: i <= k < j ==> IsLetter(s[k]) || IsSchemeTail(s[k])
    ensures GetScheme(s, i) == Scheme(s[..j])
    decreases j - i
  {
    if i < j {
      SchemeFound(s, i + 1, j);
    }
  }

  /** A case-insensitive "http:" or "https:" prefix, free of '#', makes its letters the scheme. */
  lemma {:induction false} PrefixIsScheme(raw: string, p: string)
    requires p == "http:" || p == "https:"
    requires HasPrefixIgnoringCase(raw, p)
    ensures var u := BeforeHash(raw);
      |p| <= |u| && u[..|p|] == raw[..|p|] && GetScheme(u, 0) == Scheme(u[..|p| - 1]) &&
      Lower(u[..|p| - 1]) == p[..|p| - 1]
  {
    var u := BeforeHash(raw);
    var m := |p| - 1;
    assert p[m] == ':';
    assert forall k :: 0 <= k < m ==> 'a' <= p[k] <= 'z';
    assert forall k :: 0 <= k <= m ==> Lower(raw[..|p|])[k] == ToLowerAscii(raw[k]) == p[k];
    assert forall k :: 0 <= k < m ==> IsLetter(raw[k]);
    assert raw[m] == ':';
    assert |u| > m;
    assert u[..m + 1] == raw[..m + 1];
    SchemeFound(u, 1, m);
    assert GetScheme(u, 0) == GetScheme(u, 1);
    assert Lower(u[..m]) == Lower(raw[..|p|])[..m];
  }

  /**
   * `isHTTPURL` holds exactly for strings without a control character before
   * any '#' that start with "http:" or "https:" in any letter case.
   */
  lemma HTTPURLIffPrefix(raw: string)
    ensures IsHTTPURL(raw) <==>
      !HasControlChar(BeforeHash(raw)) &&
      (HasPrefixIgnoringCase(raw, "http:") || HasPrefixIgnoringCase(raw, "https:"))
  {
    if IsHTTPURL(raw) {
      HTTPURLHasPrefix(raw);
    }
    if HasPrefixIgnoringCase(raw, "http:") {
      PrefixIsScheme(raw, "http:");
    }
    if HasPrefixIgnoringCase(raw, "https:") {
      PrefixIsScheme(raw, "https:");
    }
  }

  /** An accepted URL's scheme and its ':' are a case-insensitive "http:" or "https:" prefix. */
  lemma HTTPURLHasPrefix(raw: string)
    requires IsHTTPURL(raw)
    ensures HasPrefixIgnoringCase(raw, "http:") || HasPrefixIgnoringCase(raw, "https:")
  {
    var u := BeforeHash(raw);
    var n := GetScheme(u, 0).name;
    var p := Lower(n) + ":";
    assert raw[..|p|] == u[..|p|] == n + [':'];
    assert Lower(raw[..|p|]) == p;
  }

  /** A string with no control character has none before its first '#' either. */
  lemma NoControlCharBeforeHash(s: string)
    requires forall i :: 0 <= i < |s| ==> ' ' <= s[i] <= '~'
    ensures !HasControlChar(BeforeHash(s))
  {
  }

  /** Lower-casing leaves a string without upper-case letters as it is. */
  lemma LowerWithoutCapitals(s: string)
    requires forall i :: 0 <= i < |s| ==> !('A' <= s[i] <= 'Z')
    ensures Lower(s) == s
  {
  }

  /** From count/source_test.go: a URL with the https scheme is accepted. */
  lemma HTTPSExample()
    ensures IsHTTPURL("https://some.url")
  {
    var raw := "https://some.url";
    assert raw[..6] == "https:";
    LowerWithoutCapitals("https:");
    assert HasPrefixIgnoringCase(raw, "https:");
    NoControlCharBeforeHash(raw);
    HTTPURLIffPrefix(raw);
  }

  /** From count/source_test.go: a URL with the http scheme is accepted. */
  lemma HTTPExample()
    ensures IsHTTPURL("http://some.url")
  {
    var raw := "http://some.url";
    assert raw[..5] == "http:";
    LowerWithoutCapitals("http:");
    assert HasPrefixIgnoringCase(raw, "http:");
    NoControlCharBeforeHash(raw);
    HTTPURLIffPrefix(raw);
  }

  /** From count/source_test.go: "some.url" has no scheme. */
  lemma NoSchemeExample()
    ensures !IsHTTPURL("some.url")
  {
    var raw := "some.url";
    assert Lower(raw[..5])[0] == 's' && Lower(raw[..6])[0] == 's';
    HTTPURLIffPrefix(raw);
  }

  // ---------------------------------------------------------------------------
  // NewSource: classification with a fixed priority.
  // ---------------------------------------------------------------------------

  datatype Kind = FileSource | URLSource(timeout: int)

  datatype SourceError = EmptyOrigin | UnknownSource

  /** What `NewSource` builds: the origin and which kind of source reads it. */
  datatype SourceSpec = SourceSpec(origin: string, kind: Kind)

  /**
   * `NewSource(origin, timeout)`: an empty origin is refused first; then a
   * regular file (`regularFiles` stands for os.Stat) wins over an http(s)
   * URL; anything else is an unknown source.
   */
  function NewSource(origin: string, timeout: int, regularFiles: set<string>): (r: Result<SourceSpec, SourceError>)
    ensures r == Failure(EmptyOrigin) <==> origin == ""
    ensures r.Success? ==> r.value.origin == origin
    ensures r == Success(SourceSpec(origin, FileSource)) <==> origin != "" && origin in regularFiles
    ensures r == Success(SourceSpec(origin, URLSource(timeout))) <==>
      origin != "" && origin !in regularFiles &&
      !HasControlChar(BeforeHash(origin)) &&
      (HasPrefixIgnoringCase(origin, "http:") || HasPrefixIgnoringCase(origin, "https:"))
    ensures r == Failure(UnknownSource) <==> origin != "" && origin !in regularFiles && !IsHTTPURL(origin)
  {
    HTTPURLIffPrefix(origin);
    if |origin| == 0 then Failure(EmptyOrigin)
    else if origin in regularFiles then Success(SourceSpec(origin, FileSource))
    else if IsHTTPURL(origin) then Success(SourceSpec(origin, URLSource(timeout)))
    else Failure(UnknownSource)
  }

  /** /dev/urandom is no regular file and no URL: an unknown source (count/source_test.go). */
  lemma DevUrandomIsUnknown(timeout: int, regularFiles: set<string>)
    requires "/dev/urandom" !in regularFiles
    ensures NewSource("/dev/urandom", timeout, regularFiles) == Failure(UnknownSource)
  {
    assert GetScheme(BeforeHash("/dev/urandom"), 0) == NoScheme;
  }

  // ---------------------------------------------------------------------------
  // repeatUntilNotError
  // ---------------------------------------------------------------------------

  const LoadRepeatTimes: int := 10

  /**
   * `repeatUntilNotError(times, f)`: `outcomes[i]` is what the i-th call of
   * `f` returns (None for nil). Calls `f` until it returns nil, at most
   * `times` times; returns the last error, or nil.
   */
  method RepeatUntilNotError<E>(times: int, outcomes: seq<Option<E>>) returns (err: Option<E>, calls: nat)
    requires times <= |outcomes|
    ensures calls <= (if times < 0 then 0 else times)
    ensures times > 0 ==> calls > 0
    ensures forall j :: 0 <= j < calls - 1 ==> outcomes[j].Some?
    ensures calls > 0 ==> err == outcomes[calls - 1]
    ensures calls == 0 ==> err == None
    ensures calls < times ==> err == None
  {
    err := None;
    calls := 0;
    for i := 0 to if times < 0 then 0 else times
      invariant calls == i
      invariant forall j :: 0 <= j < i ==> outcomes[j].Some?
      invariant i > 0 ==> err == outcomes[i - 1]
      invariant i == 0 ==> err == None
    {
      err := outcomes[i];
      calls := calls + 1;
      if err == None {
        return;
      }
    }
  }

  // ---------------------------------------------------------------------------
  // The source object: Load, Read, Close.
  // ---------------------------------------------------------------------------

  datatype LoadError =
    | FileOpenError(origin: string, cause: string)    // "can't open file %s: %v"
    | URLLoadError(origin: string, cause: string)     // "can't load source data from origin %s: %s"

  /** What os.Open gives: the file's content, or the error. */
  datatype OpenOutcome = Opened(content: Content) | OpenFailed(cause: string)

  /** What one HTTP attempt gives: the body and the handle of its cancel function, or the error. */
  datatype FetchOutcome = Fetched(content: Content, cancelHandle: nat) | FetchFailed(cause: string)

  function FetchErrors(attempts: seq<FetchOutcome>): (r: seq<Option<string>>)
    ensures |r| == |attempts|
    ensures forall i :: 0 <= i < |r| ==> (r[i] == None <==> attempts[i].Fetched?)
  {
    seq(|attempts|, i requires 0 <= i < |attempts| =>
      match attempts[i] case Fetched(_, _) => None case FetchFailed(cause) => Some(cause))
  }

  /** Attempt `i` is the first that fetched, within the retry bound. */
  predicate FirstFetchedAt(attempts: seq<FetchOutcome>, i: int)
  {
    0 <= i < LoadRepeatTimes && i < |attempts| && attempts[i].Fetched? &&
    forall j :: 0 <= j < i ==> attempts[j].FetchFailed?
  }

  class Source {
    const origin: string
    const kind: Kind
    var contentIsLoaded: bool
    var body: ChunkReader?        // the embedded io.ReadCloser
    var cancel: Option<nat>       // urlSource.cancel: a handle, or nil
    var cancelled: seq<nat>       // the cancel functions called so far

    ghost predicate Valid()
      reads this, body
    {
      && (contentIsLoaded <==> body != null)
      && (body != null ==> body.Valid())
      && (cancel.Some? ==> kind.URLSource? && contentIsLoaded && cancelled == [])
      && (cancelled != [] ==> contentIsLoaded)
      && |cancelled| <= 1
    }

    /** The source `NewSource` returns: nothing loaded yet. */
    constructor (spec: SourceSpec)
      ensures Valid() && origin == spec.origin && kind == spec.kind
      ensures !contentIsLoaded && body == null && cancel == None && cancelled == []
    {
      origin := spec.origin;
      kind := spec.kind;
      contentIsLoaded := false;
      body := null;
      cancel := None;
      cancelled := [];
    }

    /** `Read(p)`: without a loaded body it returns (0, nil); otherwise the body's read. */
    method Read(p: array<Byte>) returns (n: nat, err: Option<ReadError>)
      requires Valid() && (body != null ==> FitsIn(body.content, p.Length))
      modifies body, p
      ensures Valid() && body == old(body) && contentIsLoaded == old(contentIsLoaded)
      ensures body == null ==> n == 0 && err == None && p[..] == old(p[..])
      ensures body != null ==> body.closed == old(body.closed)
      ensures body != null ==>
        && body.next == (if old(body.Exhausted()) then old(body.next) else old(body.next) + 1)
        && n == (if old(body.Exhausted()) then 0 else |Reads(body.content)[old(body.next)]|)
        && err == (if old(body.next) < |body.content.chunks| then None else Some(body.content.end))
        && p[..] == (if old(body.Exhausted()) then old(p[..])
                     else Reads(body.content)[old(body.next)] + old(p[..])[n..])
    {
      if body == null {
        return 0, None;
      }
      n, err := body.Read(p);
    }

    /** `fileSource.Load`: opens the file once; a failed open leaves the source unloaded. */
    method LoadFile(open: OpenOutcome) returns (err: Option<LoadError>)
      requires Valid() && kind == FileSource
      modifies this
      ensures Valid() && cancel == old(cancel) && cancelled == old(cancelled)
      ensures old(contentIsLoaded) ==> err == None && body == old(body) && contentIsLoaded
      ensures !old(contentIsLoaded) && open.OpenFailed? ==>
        err == Some(FileOpenError(origin, open.cause)) && !contentIsLoaded
      ensures !old(contentIsLoaded) && open.Opened? ==>
        err == None && contentIsLoaded && fresh(body) && body.content == open.content && body.next == 0 && !body.closed
    {
      err := None;
      if !contentIsLoaded {
        match open
        case OpenFailed(cause) =>
          return Some(FileOpenError(origin, cause));
        case Opened(content) =>
          contentIsLoaded := true;
          body := new ChunkReader(content);
      }
    }

    /**
     * `urlSource.Load`: up to LoadRepeatTimes attempts, stopping at the first
     * that fetched; that attempt's body and cancel function are kept. When
     * every attempt fails, the last error is returned and nothing changes.
     */
    method LoadURL(attempts: seq<FetchOutcome>) returns (err: Option<LoadError>)
      requires Valid() && kind.URLSource? && LoadRepeatTimes <= |attempts|
      modifies this
      ensures Valid()
      ensures old(contentIsLoaded) ==>
        err == None && body == old(body) && contentIsLoaded && cancel == old(cancel) && cancelled == old(cancelled)
      ensures !old(contentIsLoaded) ==>
        (err == None <==> exists i :: FirstFetchedAt(attempts, i))
      ensures !old(contentIsLoaded) && err == None ==>
        exists i :: FirstFetchedAt(attempts, i) &&
          contentIsLoaded && fresh(body) && body.content == attempts[i].content && body.next == 0 && !body.closed &&
          cancel == Some(attempts[i].cancelHandle) && cancelled == old(cancelled)
      ensures !old(contentIsLoaded) && err != None ==>
        attempts[LoadRepeatTimes - 1].FetchFailed? &&
        err == Some(URLLoadError(origin, attempts[LoadRepeatTimes - 1].cause)) &&
        !contentIsLoaded && cancel == old(cancel) && cancelled == old(cancelled)
    {
      err := None;
      if !contentIsLoaded {
        var outcomes := FetchErrors(attempts);
        var last, calls := RepeatUntilNotError(LoadRepeatTimes, outcomes);
        if last.Some? {
          return Some(URLLoadError(origin, last.value));
        }
        var i := calls - 1;
        assert FirstFetchedAt(attempts, i);
        cancel := Some(attempts[i].cancelHandle);
        body := new ChunkReader(attempts[i].content);
        contentIsLoaded := true;
      }
    }

    /**
     * `Close()`: a URL source first calls its cancel function, if it holds
     * one, and forgets it; then a loaded source closes its body and returns
     * what that close returned (`bodyCloseErr`, an input). Closing a source
     * that was never loaded changes nothing and returns nil.
     */
    method Close(bodyCloseErr: Option<string>) returns (err: Option<string>)
      requires Valid()
      modifies this, body
      ensures Valid() && err == (if old(contentIsLoaded) then bodyCloseErr else None)
      ensures body == old(body) && contentIsLoaded == old(contentIsLoaded) && cancel == None
      ensures cancelled == old(cancelled) + (if old(cancel).Some? then [old(cancel).value] else [])
      ensures body != null ==> body.closed && body.next == old(body.next)
      ensures !old(contentIsLoaded) ==> cancelled == old(cancelled)
    {
      if kind.URLSource? && cancel.Some? {
        cancelled := cancelled + [cancel.value];
        cancel := None;
      }
      err := None;
      if contentIsLoaded {
        body.Close();
        err := bodyCloseErr;
      }
    }
  }
}
