/**
 Streaming extraction of the single `file` part of a multipart/form-data body: chunks arrive cut
 anywhere, and only a boundary-sized tail is retained.  The reference is one pass over the whole
 message.
 */
module MultipartStream {
  import opened Common

  newtype Byte = b: int | 0 <= b < 256
  type Bytes = seq<Byte>

  const HEADER_LIMIT := 16 * 1024
  const CR: Byte := 13
  const LF: Byte := 10
  const DASHES: Bytes := [45, 45]
  const BLANK_LINE: Bytes := [CR, LF, CR, LF]

  function Ascii(s: string): Bytes {
    seq(|s|, i requires 0 <= i < |s| => (s[i] as int % 256) as Byte)
  }

  function Lower(s: Bytes): Bytes {
    seq(|s|, i requires 0 <= i < |s| => if 65 <= s[i] <= 90 then s[i] + 32 else s[i])
  }

  function Opening(boundary: Bytes): Bytes { DASHES + boundary + [CR, LF] }

  function Marker(boundary: Bytes): Bytes { [CR, LF] + DASHES + boundary }

  // -------------------------------------------------------------- searching

  predicate Occurs(s: Bytes, pattern: Bytes, i: int) {
    0 <= i && i + |pattern| <= |s| && s[i..i + |pattern|] == pattern
  }

  /** bytes.find: the least occurrence, or -1. */
  function Find(s: Bytes, pattern: Bytes): (r: int)
    ensures r == -1 || Occurs(s, pattern, r)
    ensures forall j :: 0 <= j && (r == -1 || j < r) ==> !Occurs(s, pattern, j)
  {
    FindFrom(s, pattern, 0)
  }

  function FindFrom(s: Bytes, pattern: Bytes, from: nat): (r: int)
    ensures r == -1 || (from <= r && Occurs(s, pattern, r))
    ensures forall j :: from <= j && (r == -1 || j < r) ==> !Occurs(s, pattern, j)
    decreases |s| - from
  {
    if from + |pattern| > |s| then -1
    else if s[from..from + |pattern|] == pattern then from
    else FindFrom(s, pattern, from + 1)
  }

  /** An occurrence is found, or not, by looking at any longer text in the same places. */
  lemma OccursInPrefix(s: Bytes, more: Bytes, pattern: Bytes, i: int)
    requires i + |pattern| <= |s|
    ensures Occurs(s + more, pattern, i) <==> Occurs(s, pattern, i)
  {
    if i >= 0 { assert (s + more)[i..i + |pattern|] == s[i..i + |pattern|]; }
  }

  lemma FindStable(s: Bytes, more: Bytes, pattern: Bytes)
    requires Find(s, pattern) >= 0
    ensures Find(s + more, pattern) == Find(s, pattern)
  {
    var k := Find(s, pattern);
    OccursInPrefix(s, more, pattern, k);
    forall j | 0 <= j < k ensures !Occurs(s + more, pattern, j) {
      OccursInPrefix(s, more, pattern, j);
    }
  }

  /** In a prefix the pattern is found exactly when its first occurrence is complete there. */
  lemma FindInPrefix(s: Bytes, more: Bytes, pattern: Bytes)
    ensures Find(s, pattern) < 0 <==>
            Find(s + more, pattern) < 0 || |s| < Find(s + more, pattern) + |pattern|
  {
    if Find(s, pattern) >= 0 {
      FindStable(s, more, pattern);
    } else {
      var k := Find(s + more, pattern);
      if k >= 0 && k + |pattern| <= |s| { OccursInPrefix(s, more, pattern, k); }
    }
  }

  /** Dropping a front in which no occurrence starts only shifts the search. */
  lemma FindShift(front: Bytes, rest: Bytes, pattern: Bytes)
    requires forall j :: 0 <= j < |front| ==> !Occurs(front + rest, pattern, j)
    ensures Find(front + rest, pattern) == if Find(rest, pattern) < 0 then -1 else |front| + Find(rest, pattern)
  {
    forall j | 0 <= j ensures Occurs(front + rest, pattern, |front| + j) <==> Occurs(rest, pattern, j) {
      if |front| + j + |pattern| <= |front + rest| {
        assert (front + rest)[|front| + j..|front| + j + |pattern|] == rest[j..j + |pattern|];
      }
    }
    var k := Find(front + rest, pattern);
    if k >= 0 { assert Occurs(rest, pattern, k - |front|); }
  }

  // ------------------------------------------------------ the one-pass reference

  datatype Error =
    | HeadersTooLong     // multipart headers exceed the limit
    | BadOpening         // multipart body has an invalid opening boundary
    | NotOneFile         // multipart request must contain one file field
    | ManyParts          // multipart request must contain exactly one part
    | HeadersIncomplete  // multipart headers are incomplete
    | NoClosing          // multipart closing boundary is missing

  datatype Outcome = File(content: Bytes) | Refused(error: Error)

  /** What the header block before the first blank line is refused for. */
  function HeaderError(header: Bytes, boundary: Bytes): Option<Error> {
    var opening := Opening(boundary);
    if !(opening <= header) then Some(BadOpening)
    else
      var disposition := Lower(header[|opening|..]);
      if Find(disposition, Ascii("content-disposition:")) < 0 || Find(disposition, Ascii("name=\"file\"")) < 0
      then Some(NotOneFile)
      else None
  }

  /** The text before the first marker, once the two bytes after that marker have arrived. */
  function DecideBody(body: Bytes, marker: Bytes): Option<Outcome> {
    var k := Find(body, marker);
    if k < 0 || |body| < k + |marker| + 2 then None
    else if body[k + |marker|..k + |marker| + 2] == DASHES then Some(File(body[..k]))
    else Some(Refused(ManyParts))
  }

  function DecideParts(refusal: Option<Error>, body: Bytes, marker: Bytes): Option<Outcome> {
    if refusal.Some? then Some(Refused(refusal.value)) else DecideBody(body, marker)
  }

  /** The outcome a prefix of the message already determines. */
  function Decide(seen: Bytes, boundary: Bytes): Option<Outcome> {
    var separator := Find(seen, BLANK_LINE);
    if separator < 0 then None
    else DecideParts(HeaderError(seen[..separator], boundary), seen[separator + 4..], Marker(boundary))
  }

  function Whole(message: Bytes, boundary: Bytes): Outcome {
    match Decide(message, boundary)
    case Some(outcome) => outcome
    case None =>
      if Find(message, BLANK_LINE) >= 0 then Refused(NoClosing)
      else if |message| > HEADER_LIMIT then Refused(HeadersTooLong)
      else Refused(HeadersIncomplete)
  }

  /** Some chunk ends beyond the limit before the blank line is complete. */
  predicate Overlong(chunks: seq<Bytes>) {
    exists k :: 0 <= k <= |chunks| && OverlongAt(chunks, k)
  }

  predicate OverlongAt(chunks: seq<Bytes>, k: nat)
    requires k <= |chunks|
  {
    |Concat(chunks[..k])| > HEADER_LIMIT && Find(Concat(chunks[..k]), BLANK_LINE) < 0
  }

  /** The outcome of a cut message: the limit is the only thing that looks at the cutting. */
  function Expected(chunks: seq<Bytes>, boundary: Bytes): Outcome {
    if Overlong(chunks) then Refused(HeadersTooLong) else Whole(Concat(chunks), boundary)
  }

  lemma DecideBodyStable(body: Bytes, more: Bytes, marker: Bytes)
    requires DecideBody(body, marker).Some?
    ensures DecideBody(body + more, marker) == DecideBody(body, marker)
  {
    var k := Find(body, marker);
    FindStable(body, more, marker);
    assert (body + more)[k + |marker|..k + |marker| + 2] == body[k + |marker|..k + |marker| + 2];
    assert (body + more)[..k] == body[..k];
  }

  lemma DecidePartsStable(refusal: Option<Error>, body: Bytes, more: Bytes, marker: Bytes)
    requires DecideParts(refusal, body, marker).Some?
    ensures DecideParts(refusal, body + more, marker) == DecideParts(refusal, body, marker)
  {
    if refusal.None? { DecideBodyStable(body, more, marker); }
  }

  lemma DecideStable(seen: Bytes, more: Bytes, boundary: Bytes)
    requires Decide(seen, boundary).Some?
    ensures Decide(seen + more, boundary) == Decide(seen, boundary)
  {
    var separator := Find(seen, BLANK_LINE);
    FindStable(seen, more, BLANK_LINE);
    assert (seen + more)[..separator] == seen[..separator];
    assert (seen + more)[separator + 4..] == seen[separator + 4..] + more;
    DecidePartsStable(HeaderError(seen[..separator], boundary), seen[separator + 4..], more, Marker(boundary));
  }

  // ---------------------------------------------------------- the extraction

  /** _final_boundary_index: nothing found, too short to tell, another part, or the end of the file. */
  datatype Scan = NotFound | TooShort | AnotherPart | Closing(index: nat)

  function FinalBoundary(buffer: Bytes, marker: Bytes): Scan {
    var k := Find(buffer, marker);
    if k < 0 then NotFound
    else if |buffer| < k + |marker| + 2 then TooShort
    else if buffer[k + |marker|..k + |marker| + 2] != DASHES then AnotherPart
    else Closing(k)
  }

  /** `out` and `tail` cut `body` where no marker can have started. */
  ghost predicate Behind(body: Bytes, out: Bytes, tail: Bytes, marker: Bytes) {
    && body == out + tail
    && (|out| > 0 ==> |marker| + |out| <= |body|)
    && (forall j :: 0 <= j < |out| ==> !Occurs(body, marker, j))
  }

  lemma BehindGrows(body: Bytes, out: Bytes, tail: Bytes, marker: Bytes, more: Bytes)
    requires Behind(body, out, tail, marker)
    ensures Behind(body + more, out, tail + more, marker)
  {
    forall j | 0 <= j < |out| ensures !Occurs(body + more, marker, j) {
      OccursInPrefix(body, more, marker, j);
    }
    assert out + tail + more == out + (tail + more);
  }

  /** The part emitted cannot contain the start of a marker. */
  lemma BehindEmits(body: Bytes, out: Bytes, tail: Bytes, marker: Bytes, emit: nat)
    requires Behind(body, out, tail, marker) && emit + |marker| + 2 == |tail|
    requires FinalBoundary(tail, marker).NotFound? || FinalBoundary(tail, marker).TooShort?
    ensures Behind(body, out + tail[..emit], tail[emit..], marker)
  {
    FindShift(out, tail, marker);
    assert tail == tail[..emit] + tail[emit..];
    forall j | 0 <= j < |out| + emit ensures !Occurs(body, marker, j) {
      var k := Find(body, marker);
      assert k >= 0 ==> k > |out| + emit;
    }
  }

  /** Everything yielded comes before the first marker. */
  ghost predicate PayloadPrefix(body: Bytes, out: Bytes, marker: Bytes) {
    out <= body && (Find(body, marker) >= 0 ==> |out| <= Find(body, marker))
  }

  /** Scanning the retained tail decides the whole body. */
  lemma TailDecides(body: Bytes, out: Bytes, tail: Bytes, marker: Bytes)
    requires Behind(body, out, tail, marker)
    ensures PayloadPrefix(body, out, marker)
    ensures match FinalBoundary(tail, marker)
            case Closing(index) =>
              && DecideBody(body, marker) == Some(File(out + tail[..index]))
              && PayloadPrefix(body, out + tail[..index], marker)
            case AnotherPart => DecideBody(body, marker) == Some(Refused(ManyParts))
            case _ => DecideBody(body, marker).None?
  {
    FindShift(out, tail, marker);
    ShiftDecides(out, tail, marker);
  }

  lemma ShiftDecides(out: Bytes, tail: Bytes, marker: Bytes)
    requires Find(out + tail, marker) == if Find(tail, marker) < 0 then -1 else |out| + Find(tail, marker)
    ensures PayloadPrefix(out + tail, out, marker)
    ensures match FinalBoundary(tail, marker)
            case Closing(index) =>
              && DecideBody(out + tail, marker) == Some(File(out + tail[..index]))
              && PayloadPrefix(out + tail, out + tail[..index], marker)
            case AnotherPart => DecideBody(out + tail, marker) == Some(Refused(ManyParts))
            case _ => DecideBody(out + tail, marker).None?
  {
    var index := Find(tail, marker);
    if index >= 0 && index + |marker| + 2 <= |tail| {
      SliceShift(out, tail, index + |marker|, index + |marker| + 2);
      assert (out + tail)[..|out| + index] == out + tail[..index];
    }
  }

  lemma SliceShift(out: Bytes, tail: Bytes, lo: nat, hi: nat)
    requires lo <= hi <= |tail|
    ensures (out + tail)[|out| + lo..|out| + hi] == tail[lo..hi]
  {
  }

  datatype Status = More | Done | Failed(error: Error)

  /** The body of a message whose header block is complete and accepted. */
  ghost predicate InBody(received: Bytes, boundary: Bytes) {
    var separator := Find(received, BLANK_LINE);
    separator >= 0 && HeaderError(received[..separator], boundary).None?
  }

  ghost function BodyOf(received: Bytes): Bytes {
    if Find(received, BLANK_LINE) < 0 then [] else received[Find(received, BLANK_LINE) + 4..]
  }

  lemma BlankStays(s: Bytes, more: Bytes)
    requires Find(s, BLANK_LINE) >= 0
    ensures Find(s + more, BLANK_LINE) == Find(s, BLANK_LINE)
    ensures Find(s, BLANK_LINE) + 4 <= |s| && (s + more)[..Find(s, BLANK_LINE)] == s[..Find(s, BLANK_LINE)]
    ensures BodyOf(s + more) == BodyOf(s) + more
  {
    FindStable(s, more, BLANK_LINE);
    var k := Find(s, BLANK_LINE);
    assert (s + more)[..k] == s[..k];
    assert (s + more)[k + 4..] == s[k + 4..] + more;
  }

  lemma BodyGrows(received: Bytes, more: Bytes, boundary: Bytes)
    requires InBody(received, boundary)
    ensures InBody(received + more, boundary) && BodyOf(received + more) == BodyOf(received) + more
  {
    BlankStays(received, more);
    var k := Find(received, BLANK_LINE);
    assert HeaderError((received + more)[..k], boundary) == HeaderError(received[..k], boundary);
  }

  /** The generator suspended between two chunks. */
  class FileExtraction {
    const boundary: Bytes
    var buffer: Bytes
    var headersDone: bool
    var yielded: seq<Bytes>
    ghost var received: Bytes

    /** The yielded pieces and the retained tail together are the body seen so far. */
    ghost predicate Valid()
      reads this
    {
      if headersDone then
        InBody(received, boundary) && Behind(BodyOf(received), Concat(yielded), buffer, Marker(boundary))
      else
        Find(received, BLANK_LINE) < 0 && buffer == received && yielded == []
    }

    /** The message is undecided and the tail is bounded. */
    ghost predicate Waiting()
      reads this
    {
      && Valid() && Decide(received, boundary).None?
      && (if headersDone then |buffer| <= |Marker(boundary)| + 2 else |buffer| <= HEADER_LIMIT)
    }

    constructor (boundary: Bytes)
      ensures Waiting() && this.boundary == boundary && received == [] && yielded == [] && !headersDone
    {
      this.boundary := boundary;
      buffer := [];
      headersDone := false;
      yielded := [];
      received := [];
    }

    /** _strip_headers. */
    method StripHeaders() returns (status: Status)
      requires !headersDone && buffer == received && yielded == []
      modifies this`buffer, this`headersDone
      ensures headersDone ==> status == More && Valid()
      ensures !headersDone && status == More ==>
                buffer == received && Find(received, BLANK_LINE) < 0 && |buffer| <= HEADER_LIMIT
      ensures status != Done
      ensures status.Failed? ==>
                if status.error == HeadersTooLong then |received| > HEADER_LIMIT && Find(received, BLANK_LINE) < 0
                else Decide(received, boundary) == Some(Refused(status.error))
    {
      var separator := Find(buffer, BLANK_LINE);
      if separator < 0 {
        return if |buffer| > HEADER_LIMIT then Failed(HeadersTooLong) else More;
      }
      var header := buffer[..separator];
      if !(Opening(boundary) <= header) {
        return Failed(BadOpening);
      }
      var disposition := Lower(header[|Opening(boundary)|..]);
      if Find(disposition, Ascii("content-disposition:")) < 0 || Find(disposition, Ascii("name=\"file\"")) < 0 {
        return Failed(NotOneFile);
      }
      buffer := buffer[separator + 4..];
      headersDone := true;
      assert Concat(yielded) + buffer == buffer;
      status := More;
    }

    /** One pass of the loop over incoming chunks. */
    method Feed(incoming: Bytes) returns (status: Status)
      requires Waiting()
      modifies this`buffer, this`headersDone, this`yielded, this`received
      ensures received == old(received) + incoming
      ensures status == More ==> Waiting()
      ensures status == Done ==> Decide(received, boundary) == Some(File(Concat(yielded)))
      ensures status.Failed? ==>
                if status.error == HeadersTooLong then |received| > HEADER_LIMIT && Find(received, BLANK_LINE) < 0
                else Decide(received, boundary) == Some(Refused(status.error))
      ensures PayloadPrefix(BodyOf(received), Concat(yielded), Marker(boundary))
    {
      if headersDone {
        BodyGrows(received, incoming, boundary);
        BehindGrows(BodyOf(received), Concat(yielded), buffer, Marker(boundary), incoming);
      }
      buffer := buffer + incoming;
      received := received + incoming;
      if !headersDone {
        status := StripHeaders();
        if !headersDone { return; }
      }
      status := Drain();
    }

    /** The inner loop: emit all but a boundary-sized tail, until the closing boundary or no progress. */
    method Drain() returns (status: Status)
      requires headersDone && Valid()
      modifies this`buffer, this`yielded
      ensures status == More ==> Waiting()
      ensures status == Done ==> Decide(received, boundary) == Some(File(Concat(yielded)))
      ensures status.Failed? ==> status.error == ManyParts && Decide(received, boundary) == Some(Refused(ManyParts))
      ensures PayloadPrefix(BodyOf(received), Concat(yielded), Marker(boundary))
    {
      var marker := Marker(boundary);
      ghost var body := BodyOf(received);
      while true
        invariant Behind(body, Concat(yielded), buffer, marker)
        decreases |buffer|
      {
        TailDecides(body, Concat(yielded), buffer, marker);
        var scan := FinalBoundary(buffer, marker);
        if scan.Closing? {
          ConcatPush(yielded, buffer[..scan.index]);
          if scan.index > 0 {
            yielded := yielded + [buffer[..scan.index]];
          } else {
            assert Concat(yielded) + buffer[..0] == Concat(yielded);
          }
          return Done;
        }
        if scan.AnotherPart? {
          return Failed(ManyParts);
        }
        var keep := |marker| + 2;
        if |buffer| <= keep {
          return More;
        }
        var emit := |buffer| - keep;
        BehindEmits(body, Concat(yielded), buffer, marker, emit);
        ConcatPush(yielded, buffer[..emit]);
        yielded := yielded + [buffer[..emit]];
        buffer := buffer[emit..];
      }
    }
  }

  /** A decision taken at some chunk end stands, and no later chunk end can be overlong. */
  lemma DecidedAt(chunks: seq<Bytes>, k: nat, boundary: Bytes)
    requires k <= |chunks| && forall i :: 0 <= i < k ==> !OverlongAt(chunks, i)
    requires Decide(Concat(chunks[..k]), boundary).Some?
    ensures Decide(Concat(chunks[..k]), boundary) == Some(Expected(chunks, boundary))
  {
    var seen := Concat(chunks[..k]);
    forall i | k <= i <= |chunks|
      ensures !OverlongAt(chunks, i) && Decide(Concat(chunks[..i]), boundary) == Decide(seen, boundary)
    {
      assert chunks[..i] == chunks[..k] + chunks[k..i];
      ConcatAppend(chunks[..k], chunks[k..i]);
      FindStable(seen, Concat(chunks[k..i]), BLANK_LINE);
      DecideStable(seen, Concat(chunks[k..i]), boundary);
    }
    assert chunks[..|chunks|] == chunks;
  }

  /** The status of the last chunk fed is the outcome of the whole message. */
  lemma Settled(chunks: seq<Bytes>, k: nat, boundary: Bytes, status: Status, out: Bytes)
    requires k <= |chunks| && forall i :: 0 <= i < k ==> !OverlongAt(chunks, i)
    requires status != More
    requires status == Done ==> Decide(Concat(chunks[..k]), boundary) == Some(File(out))
    requires status.Failed? ==>
               if status.error == HeadersTooLong then OverlongAt(chunks, k)
               else Decide(Concat(chunks[..k]), boundary) == Some(Refused(status.error))
    ensures Expected(chunks, boundary) == if status == Done then File(out) else Refused(status.error)
  {
    if status == Done || status.error != HeadersTooLong {
      DecidedAt(chunks, k, boundary);
    }
  }

  /** An undecided message is one whose headers or closing boundary never came. */
  lemma EndOfInput(chunks: seq<Bytes>, boundary: Bytes, received: Bytes)
    requires Received(chunks, |chunks|, received) && Decide(received, boundary).None?
    ensures Expected(chunks, boundary) ==
            Refused(if Find(received, BLANK_LINE) >= 0 then NoClosing else HeadersIncomplete)
  {
    assert chunks[..|chunks|] == chunks;
    assert !OverlongAt(chunks, |chunks|);
  }

  /** The first `k` chunks are received, and none of their ends was overlong. */
  ghost predicate Received(chunks: seq<Bytes>, k: nat, received: Bytes) {
    && k <= |chunks| && received == Concat(chunks[..k])
    && (forall i :: 0 <= i <= k ==> !OverlongAt(chunks, i))
  }

  lemma ReceiveNext(chunks: seq<Bytes>, k: nat, received: Bytes)
    requires k < |chunks| && Received(chunks, k, received)
    ensures Concat(chunks[..k + 1]) == received + chunks[k]
    ensures |received + chunks[k]| <= HEADER_LIMIT || Find(received + chunks[k], BLANK_LINE) >= 0 ==>
              Received(chunks, k + 1, received + chunks[k])
  {
    assert chunks[..k + 1] == chunks[..k] + [chunks[k]];
    ConcatPush(chunks[..k], chunks[k]);
  }

  /** multipart_file_chunks run to the end of its input. */
  method ExtractFile(chunks: seq<Bytes>, boundary: Bytes) returns (yielded: seq<Bytes>, failure: Option<Error>)
    ensures failure.None? ==> Expected(chunks, boundary) == File(Concat(yielded))
    ensures failure.Some? ==> Expected(chunks, boundary) == Refused(failure.value)
  {
    var extraction := new FileExtraction(boundary);
    for k := 0 to |chunks|
      invariant extraction.Waiting() && extraction.boundary == boundary && fresh(extraction)
      invariant Received(chunks, k, extraction.received)
    {
      ReceiveNext(chunks, k, extraction.received);
      var status := extraction.Feed(chunks[k]);
      if status != More {
        Settled(chunks, k + 1, boundary, status, Concat(extraction.yielded));
        return extraction.yielded, if status.Failed? then Some(status.error) else None;
      }
    }
    EndOfInput(chunks, boundary, extraction.received);
    yielded := extraction.yielded;
    failure := Some(if extraction.headersDone then NoClosing else HeadersIncomplete);
  }

  // ------------------------------------------------------------- main results

  /** A chunk end is overlong exactly when it falls between the limit and the end of the blank line. */
  lemma OverlongEnds(chunks: seq<Bytes>, k: nat)
    requires k <= |chunks|
    ensures var separator := Find(Concat(chunks), BLANK_LINE);
            OverlongAt(chunks, k) <==>
            |Concat(chunks[..k])| > HEADER_LIMIT && (separator < 0 || |Concat(chunks[..k])| <= separator + 3)
  {
    assert chunks == chunks[..k] + chunks[k..];
    ConcatAppend(chunks[..k], chunks[k..]);
    FindInPrefix(Concat(chunks[..k]), Concat(chunks[k..]), BLANK_LINE);
  }

  /** A message whose header block ends within the limit has one outcome, however it is cut. */
  lemma SplitInvariance(chunks: seq<Bytes>, boundary: Bytes)
    requires var separator := Find(Concat(chunks), BLANK_LINE); separator < 0 || separator + 3 <= HEADER_LIMIT
    ensures Expected(chunks, boundary) == Whole(Concat(chunks), boundary)
  {
    if k :| 0 <= k <= |chunks| && OverlongAt(chunks, k) {
      OverlongEnds(chunks, k);
      assert chunks == chunks[..k] + chunks[k..];
      ConcatAppend(chunks[..k], chunks[k..]);
    }
  }

  /** The outcome is independent of the cutting exactly for those messages. */
  lemma SplitInvarianceExact(message: Bytes, boundary: Bytes)
    ensures (forall a, b: seq<Bytes> :: Concat(a) == message && Concat(b) == message ==>
               Expected(a, boundary) == Expected(b, boundary))
            <==> (Find(message, BLANK_LINE) < 0 || Find(message, BLANK_LINE) + 3 <= 16384)
  {
    var separator := Find(message, BLANK_LINE);
    if separator < 0 || separator + 3 <= HEADER_LIMIT {
      forall a, b: seq<Bytes> | Concat(a) == message && Concat(b) == message
        ensures Expected(a, boundary) == Expected(b, boundary)
      {
        SplitInvariance(a, boundary);
        SplitInvariance(b, boundary);
      }
    } else {
      UncutIsAccepted(message, boundary);
      LateCutIsRefused(message, boundary);
    }
  }

  lemma UncutIsAccepted(message: Bytes, boundary: Bytes)
    requires Find(message, BLANK_LINE) >= 0
    ensures Concat([message]) == message && Expected([message], boundary) != Refused(HeadersTooLong)
  {
    var one := [message];
    ConcatOne(message);
    forall k | 0 <= k <= 1 ensures !OverlongAt(one, k) {
      assert one[..k] == if k == 0 then [] else one;
    }
  }

  lemma LateCutIsRefused(message: Bytes, boundary: Bytes)
    requires Find(message, BLANK_LINE) + 3 > HEADER_LIMIT
    ensures var two := [message[..HEADER_LIMIT + 1], message[HEADER_LIMIT + 1..]];
            Concat(two) == message && Expected(two, boundary) == Refused(HeadersTooLong)
  {
    var head, rest := message[..HEADER_LIMIT + 1], message[HEADER_LIMIT + 1..];
    ConcatPush([head], rest);
    ConcatOne(head);
    assert [head, rest] == [head] + [rest] && [head, rest][..1] == [head];
    assert message == head + rest;
    OverlongEnds([head, rest], 1);
    assert OverlongAt([head, rest], 1);
  }

  /** A well-formed message around a payload. */
  function Wrap(headers: Bytes, payload: Bytes, boundary: Bytes, epilogue: Bytes): Bytes {
    Opening(boundary) + headers + BLANK_LINE + payload + Marker(boundary) + DASHES + epilogue
  }

  /**
   With a boundary free of CR (section 5.1.1 of RFC 2046) the marker cannot overlap itself, so the
   first marker after a payload that does not contain it is the one written there.
   */
  lemma FirstMarkerIsLast(payload: Bytes, boundary: Bytes, rest: Bytes)
    requires CR !in boundary && Find(payload, Marker(boundary)) < 0
    ensures Find(payload + Marker(boundary) + rest, Marker(boundary)) == |payload|
  {
    var marker := Marker(boundary);
    var body := payload + marker + rest;
    assert Occurs(body, marker, |payload|);
    assert body == payload + (marker + rest);
    forall j | 0 <= j < |payload| ensures !Occurs(body, marker, j) {
      if j + |marker| <= |payload| {
        OccursInPrefix(payload, marker + rest, marker, j);
      } else if j + |marker| <= |body| {
        assert body[j..j + |marker|][|payload| - j] == body[|payload|] == CR;
        assert marker[|payload| - j] != CR;
      }
    }
  }

  /**
   Round trip: extracting a wrapped payload returns it for every cutting of the message, unless a
   cut falls past the header limit and before the end of the header block.
   */
  lemma WrapRoundTrip(headers: Bytes, payload: Bytes, boundary: Bytes, epilogue: Bytes, chunks: seq<Bytes>)
    requires CR !in boundary && Find(payload, Marker(boundary)) < 0
    requires HeaderError(Opening(boundary) + headers, boundary).None?
    requires Find(Opening(boundary) + headers + BLANK_LINE, BLANK_LINE) == |Opening(boundary) + headers|
    requires Concat(chunks) == Wrap(headers, payload, boundary, epilogue)
    ensures Expected(chunks, boundary) == File(payload) <==> !Overlong(chunks)
    ensures |Opening(boundary) + headers| + 3 <= HEADER_LIMIT ==> Expected(chunks, boundary) == File(payload)
  {
    WholeOfWrap(headers, payload, boundary, epilogue);
    var message := Concat(chunks);
    var block := Opening(boundary) + headers;
    if |block| + 3 <= HEADER_LIMIT { SplitInvariance(chunks, boundary); }
  }

  lemma WholeOfWrap(headers: Bytes, payload: Bytes, boundary: Bytes, epilogue: Bytes)
    requires CR !in boundary && Find(payload, Marker(boundary)) < 0
    requires HeaderError(Opening(boundary) + headers, boundary).None?
    requires Find(Opening(boundary) + headers + BLANK_LINE, BLANK_LINE) == |Opening(boundary) + headers|
    ensures Whole(Wrap(headers, payload, boundary, epilogue), boundary) == File(payload)
    ensures Find(Wrap(headers, payload, boundary, epilogue), BLANK_LINE) == |Opening(boundary) + headers|
  {
    var block := Opening(boundary) + headers;
    var body := payload + Marker(boundary) + (DASHES + epilogue);
    var message := Wrap(headers, payload, boundary, epilogue);
    WrapParts(block + BLANK_LINE, payload, Marker(boundary), DASHES, epilogue);
    FindStable(block + BLANK_LINE, body, BLANK_LINE);
    assert message[..|block|] == block;
    assert message[|block| + 4..] == body;
    BodyOfWrap(payload, boundary, epilogue);
  }

  lemma WrapParts(head: Bytes, payload: Bytes, marker: Bytes, dashes: Bytes, epilogue: Bytes)
    ensures head + payload + marker + dashes + epilogue == head + (payload + marker + (dashes + epilogue))
  {
  }

  lemma BodyOfWrap(payload: Bytes, boundary: Bytes, epilogue: Bytes)
    requires CR !in boundary && Find(payload, Marker(boundary)) < 0
    ensures DecideBody(payload + Marker(boundary) + (DASHES + epilogue), Marker(boundary)) == Some(File(payload))
  {
    var marker := Marker(boundary);
    var body := payload + marker + (DASHES + epilogue);
    FirstMarkerIsLast(payload, boundary, DASHES + epilogue);
    assert body[|payload| + |marker|..|payload| + |marker| + 2] == DASHES;
    assert body[..|payload|] == payload;
  }

  // ------------------------------------------------------- headers as people write them

  /** A byte of a header against a character of a field text that has no capitals. */
  predicate SameButCase(b: Byte, ch: char) {
    b as int == ch as int || ('a' <= ch <= 'z' && b as int == ch as int - 32)
  }

  ghost predicate AgreesAt(s: Bytes, field: string, i: int) {
    0 <= i && i + |field| <= |s| && forall k :: 0 <= k < |field| ==> SameButCase(s[i + k], field[k])
  }

  /** The field text stands somewhere in the header, in whatever letter case. */
  ghost predicate Mentions(s: Bytes, field: string) {
    exists i :: AgreesAt(s, field, i)
  }

  predicate Lowercase(field: string) {
    forall k :: 0 <= k < |field| ==> field[k] as int < 128 && !('A' <= field[k] <= 'Z')
  }

  lemma LoweredAt(s: Bytes, field: string, i: int)
    requires Lowercase(field)
    ensures Occurs(Lower(s), Ascii(field), i) <==> AgreesAt(s, field, i)
  {
    if 0 <= i && i + |field| <= |s| {
      var here := Lower(s)[i..i + |field|];
      forall k | 0 <= k < |field| ensures here[k] == Ascii(field)[k] <==> SameButCase(s[i + k], field[k]) {
        assert here[k] == Lower(s)[i + k];
      }
      assert here == Ascii(field) <==> forall k :: 0 <= k < |field| ==> here[k] == Ascii(field)[k];
    }
  }

  lemma LowerFinds(s: Bytes, field: string)
    requires Lowercase(field)
    ensures Find(Lower(s), Ascii(field)) >= 0 <==> Mentions(s, field)
  {
    if Find(Lower(s), Ascii(field)) >= 0 {
      LoweredAt(s, field, Find(Lower(s), Ascii(field)));
    }
    if i :| AgreesAt(s, field, i) {
      LoweredAt(s, field, i);
    }
  }

  /** Which header blocks are accepted, and what the others are refused for, in any letter case. */
  lemma HeaderErrorExact(header: Bytes, boundary: Bytes)
    ensures var opening := [45, 45] + boundary + [13, 10];
            var accepted := opening <= header && Mentions(header[|opening|..], "content-disposition:")
                            && Mentions(header[|opening|..], "name=\"file\"");
            && (HeaderError(header, boundary) == Some(BadOpening) <==> !(opening <= header))
            && (HeaderError(header, boundary) == Some(NotOneFile) <==> opening <= header && !accepted)
            && (HeaderError(header, boundary).None? <==> accepted)
  {
    var opening := Opening(boundary);
    if opening <= header {
      LowerFinds(header[|opening|..], "content-disposition:");
      LowerFinds(header[|opening|..], "name=\"file\"");
    }
  }

  /** Lines free of CR and not empty: the first blank line is the one after them. */
  lemma BlankAfterLines(a: Bytes, b: Bytes, c: Bytes)
    requires CR !in a && CR !in b && CR !in c && b != [] && c != []
    ensures var block := a + [CR, LF] + b + [CR, LF] + c;
            Find(block + BLANK_LINE, BLANK_LINE) == |block|
  {
    var block := a + [CR, LF] + b + [CR, LF] + c;
    var s := block + BLANK_LINE;
    var second := |a| + 2 + |b|;
    assert s[|block|..|block| + 4] == BLANK_LINE;
    assert Occurs(s, BLANK_LINE, |block|);
    forall j | 0 <= j < |block| ensures !Occurs(s, BLANK_LINE, j) {
      if j + 4 <= |s| {
        assert s[j..j + 4][0] == s[j] && s[j..j + 4][2] == s[j + 2];
        if j == |a| {
          assert s[j + 2] == b[0];
        } else if j == second {
          assert s[j + 2] == c[0];
        } else if j == |a| + 1 || j == second + 1 {
          assert s[j] == LF;
        } else if j < |a| {
          assert s[j] == a[j];
        } else if j < second {
          assert s[j] == b[j - |a| - 2];
        } else {
          assert s[j] == c[j - second - 2];
        }
      }
    }
  }

  const DISPOSITION := "Content-Disposition:"
  const FORM_DATA := " form-data; "
  const FIELD_NAME := "name=\"file\""

  /** The header of the one file part as browsers send it, with capitals in the field name. */
  function FormHeader(filename: Bytes): Bytes {
    Ascii(DISPOSITION) + Ascii(FORM_DATA) + Ascii(FIELD_NAME) + Ascii("; filename=\"") + filename + [34]
  }

  /** A whole upload: boundary line, two header lines, blank line, payload, closing line. */
  function Form(boundary: Bytes, filename: Bytes, kind: Bytes, payload: Bytes, epilogue: Bytes): Bytes {
    [45, 45] + boundary + [13, 10] + FormHeader(filename) + [13, 10] + Ascii("Content-Type: ") + kind
    + [13, 10, 13, 10] + payload + [13, 10, 45, 45] + boundary + [45, 45] + epilogue
  }

  /** A text that differs from a field text at most in capitals. */
  predicate SameText(text: string, field: string) {
    |text| == |field| && forall k :: 0 <= k < |field| ==>
      && text[k] as int < 128
      && (text[k] == field[k] || ('a' <= field[k] <= 'z' && text[k] as int == field[k] as int - 32))
  }

  lemma TextMentions(before: Bytes, text: string, after: Bytes, field: string)
    requires SameText(text, field)
    ensures Mentions(before + Ascii(text) + after, field)
  {
    var s := before + Ascii(text) + after;
    forall k | 0 <= k < |field| ensures SameButCase(s[|before| + k], field[k]) {
      assert s[|before| + k] == Ascii(text)[k];
    }
    assert AgreesAt(s, field, |before|);
  }

  lemma FormMentions(filename: Bytes, rest: Bytes)
    ensures Mentions(FormHeader(filename) + rest, "content-disposition:")
    ensures Mentions(FormHeader(filename) + rest, "name=\"file\"")
  {
    var tail := Ascii("; filename=\"") + filename + [34] + rest;
    DispositionIsLower();
    TextMentions([], DISPOSITION, Ascii(FORM_DATA) + Ascii(FIELD_NAME) + tail, "content-disposition:");
    TextMentions(Ascii(DISPOSITION) + Ascii(FORM_DATA), FIELD_NAME, tail, "name=\"file\"");
    FormHeaderParts(filename, rest);
  }

  lemma DispositionIsLower()
    ensures SameText(DISPOSITION, "content-disposition:") && SameText(FIELD_NAME, "name=\"file\"")
  {
  }

  lemma FormHeaderParts(filename: Bytes, rest: Bytes)
    ensures var tail := Ascii("; filename=\"") + filename + [34] + rest;
            && FormHeader(filename) + rest == (Ascii(DISPOSITION) + Ascii(FORM_DATA)) + Ascii(FIELD_NAME) + tail
            && FormHeader(filename) + rest == [] + Ascii(DISPOSITION) + (Ascii(FORM_DATA) + Ascii(FIELD_NAME) + tail)
  {
  }

  lemma AsciiFree(text: string)
    requires forall ch :: ch in text ==> ch as int < 128 && ch != '\r'
    ensures CR !in Ascii(text)
  {
    forall k | 0 <= k < |text| ensures Ascii(text)[k] != CR {
      assert text[k] in text;
    }
  }

  lemma FormHeaderFree(filename: Bytes, kind: Bytes)
    requires CR !in filename && CR !in kind
    ensures CR !in FormHeader(filename) && CR !in Ascii("Content-Type: ") + kind
  {
    AsciiFree(DISPOSITION);
    AsciiFree(FORM_DATA);
    AsciiFree(FIELD_NAME);
    AsciiFree("; filename=\"");
    AsciiFree("Content-Type: ");
  }

  lemma FormIsWrap(boundary: Bytes, filename: Bytes, kind: Bytes, payload: Bytes, epilogue: Bytes)
    ensures var headers := FormHeader(filename) + ([CR, LF] + (Ascii("Content-Type: ") + kind));
            Form(boundary, filename, kind, payload, epilogue) == Wrap(headers, payload, boundary, epilogue)
  {
  }

  /** The block before the blank line of a form is accepted, and the blank line is the first one. */
  lemma FormBlock(boundary: Bytes, filename: Bytes, kind: Bytes)
    requires CR !in boundary && CR !in filename && CR !in kind
    ensures var headers := FormHeader(filename) + ([CR, LF] + (Ascii("Content-Type: ") + kind));
            var block := Opening(boundary) + headers;
            && HeaderError(block, boundary).None?
            && Find(block + BLANK_LINE, BLANK_LINE) == |block|
  {
    var disposition, content := FormHeader(filename), Ascii("Content-Type: ") + kind;
    var rest := [CR, LF] + content;
    var block := Opening(boundary) + (disposition + rest);
    FormHeaderFree(filename, kind);
    BlankAfterLines(DASHES + boundary, disposition, content);
    assert block == (DASHES + boundary) + [CR, LF] + disposition + [CR, LF] + content;
    assert block[|Opening(boundary)|..] == disposition + rest;
    FormMentions(filename, rest);
    HeaderErrorExact(block, boundary);
  }

  /**
   An ordinary upload comes back: for every boundary, file name and content type free of CR and every
   payload free of the marker, however it is cut, if its header block is within the limit.
   */
  lemma FormRoundTrip(boundary: Bytes, filename: Bytes, kind: Bytes, payload: Bytes, epilogue: Bytes,
                      chunks: seq<Bytes>)
    requires CR !in boundary && CR !in filename && CR !in kind
    requires Find(payload, [13, 10, 45, 45] + boundary) < 0
    requires Concat(chunks) == Form(boundary, filename, kind, payload, epilogue)
    ensures Expected(chunks, boundary) == File(payload) <==> !Overlong(chunks)
    ensures |boundary| + |filename| + |kind| <= 16000 ==> Expected(chunks, boundary) == File(payload)
  {
    var headers := FormHeader(filename) + ([CR, LF] + (Ascii("Content-Type: ") + kind));
    FormBlock(boundary, filename, kind);
    FormIsWrap(boundary, filename, kind, payload, epilogue);
    assert Marker(boundary) == [13, 10, 45, 45] + boundary;
    WrapRoundTrip(headers, payload, boundary, epilogue, chunks);
  }

  // ------------------------------------------------------------- every outcome

  /** The first occurrence of a pattern. */
  ghost predicate FirstOf(s: Bytes, pattern: Bytes, k: nat) {
    Occurs(s, pattern, k) && forall j :: 0 <= j < k ==> !Occurs(s, pattern, j)
  }

  lemma FindFirst(s: Bytes, pattern: Bytes, k: nat)
    requires FirstOf(s, pattern, k)
    ensures Find(s, pattern) == k
  {
  }

  /** Without a blank line the headers are incomplete, or too long already. */
  lemma NoBlankLine(message: Bytes, boundary: Bytes)
    requires forall i :: !Occurs(message, [13, 10, 13, 10], i)
    ensures Whole(message, boundary) == Refused(if |message| > 16384 then HeadersTooLong else HeadersIncomplete)
  {
    assert BLANK_LINE == [13, 10, 13, 10];
  }

  /** A header block is refused before the body is looked at. */
  lemma BadHeaderDecides(message: Bytes, boundary: Bytes, k: nat)
    requires FirstOf(message, [13, 10, 13, 10], k)
    ensures var opening := [45, 45] + boundary + [13, 10];
            && (!(opening <= message[..k]) <==> Whole(message, boundary) == Refused(BadOpening))
            && (opening <= message[..k]
                && !(Mentions(message[..k][|opening|..], "content-disposition:")
                     && Mentions(message[..k][|opening|..], "name=\"file\""))
                <==> Whole(message, boundary) == Refused(NotOneFile))
  {
    DecideAt(message, boundary, k);
    HeaderErrorExact(message[..k], boundary);
  }

  lemma DecideAt(message: Bytes, boundary: Bytes, k: nat)
    requires FirstOf(message, [13, 10, 13, 10], k)
    ensures Find(message, BLANK_LINE) == k
    ensures Decide(message, boundary)
            == DecideParts(HeaderError(message[..k], boundary), message[k + 4..], [13, 10, 45, 45] + boundary)
  {
    assert BLANK_LINE == [13, 10, 13, 10] && Marker(boundary) == [13, 10, 45, 45] + boundary;
    FindFirst(message, BLANK_LINE, k);
  }

  /** After an accepted header block the body decides; undecided, the upload was cut short. */
  lemma BodyDecides(message: Bytes, boundary: Bytes, k: nat)
    requires FirstOf(message, [13, 10, 13, 10], k) && HeaderError(message[..k], boundary).None?
    ensures var decided := DecideBody(message[k + 4..], [13, 10, 45, 45] + boundary);
            Whole(message, boundary) == if decided.Some? then decided.value else Refused(NoClosing)
  {
    DecideAt(message, boundary, k);
  }

  /**
   The file is what comes before the first marker if two dashes follow it; any other two bytes are a
   second part, and with fewer nothing is decided.
   */
  lemma MarkerDecides(body: Bytes, marker: Bytes, m: nat)
    requires FirstOf(body, marker, m)
    ensures var after := m + |marker|;
            DecideBody(body, marker) ==
            if |body| < after + 2 then None
            else if body[after] == 45 && body[after + 1] == 45 then Some(File(body[..m])) else Some(Refused(ManyParts))
  {
    FindFirst(body, marker, m);
    var after := m + |marker|;
    if |body| >= after + 2 { assert body[after..after + 2] == [body[after], body[after + 1]]; }
  }

  /** Nor is anything without a marker. */
  lemma NoMarkerDecides(body: Bytes, marker: Bytes)
    ensures (forall i :: !Occurs(body, marker, i)) ==> DecideBody(body, marker).None?
  {
  }
}
