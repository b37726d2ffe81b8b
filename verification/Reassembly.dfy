/** Byte streams that arrive in pieces: the print agent's request reader and the size-limited upload reader. */
module Reassembly {
  import opened Common

  type Byte = b: int | 0 <= b < 256

  type Bytes = seq<Byte>

  const BUFFER := 8192
  const CAP := 2_097_152
  const CHUNK := 1_048_576
  const HEADER_END: Bytes := [13, 10, 13, 10]

  function Concat(chunks: seq<Bytes>): Bytes {
    if chunks == [] then [] else chunks[0] + Concat(chunks[1..])
  }

  lemma {:induction false} ConcatSplits(a: seq<Bytes>, b: seq<Bytes>)
    ensures Concat(a + b) == Concat(a) + Concat(b)
  {
    if a == [] {
      assert a + b == b;
    } else {
      assert (a + b)[1..] == a[1..] + b;
      ConcatSplits(a[1..], b);
    }
  }

  // ---- The header's end ----

  predicate EndsAt(s: Bytes, e: nat) {
    4 <= e <= |s| && s[e - 4..e] == HEADER_END
  }

  /** The first place at or after i where the header ends. */
  function EndFrom(s: Bytes, i: nat): (r: Option<nat>)
    ensures r.Some? ==> i <= r.value && EndsAt(s, r.value) && forall j :: i <= j < r.value ==> !EndsAt(s, j)
    ensures r.None? ==> forall j :: i <= j ==> !EndsAt(s, j)
    decreases |s| + 1 - i
  {
    if i > |s| then None else if EndsAt(s, i) then Some(i) else EndFrom(s, i + 1)
  }

  function HeaderEnd(s: Bytes): Option<nat> { EndFrom(s, 0) }

  /** A prefix ends its header where the stream does, once it is long enough. */
  lemma PrefixEnd(s: Bytes, n: nat)
    requires n <= |s|
    ensures HeaderEnd(s[..n])
            == if HeaderEnd(s).Some? && HeaderEnd(s).value <= n then HeaderEnd(s) else None
  {
    forall e: nat ensures EndsAt(s[..n], e) <==> e <= n && EndsAt(s, e) {
      if 4 <= e <= n {
        assert s[..n][e - 4..e] == s[e - 4..e];
      }
    }
  }

  // ---- The print agent ----

  /** What the header calls for: nothing if it is not UTF-8, a refusal if its origin is not allowed, an answer at once
      to OPTIONS, and otherwise a body of the length it states. */
  datatype Decision = Drop | Deny | Preflight | Expect(length: nat)

  datatype Outcome = Closed | TooLarge | Denied | NoContent(header: Bytes) | Request(header: Bytes, body: Bytes)

  /** How the first loop, which reads until the header ends, can end: the peer is gone, the request is refused as
      too large, or the header has been read. */
  datatype HeaderRead = Gone | Refused | Read(end: nat, received: Bytes, rest: seq<Bytes>)

  function ScanHeader(req: Bytes, chunks: seq<Bytes>): (r: HeaderRead)
    ensures r.Read? ==> HeaderEnd(r.received) == Some(r.end) && r.end <= |r.received| <= CAP
    decreases |chunks|
  {
    if chunks == [] then Gone
    else
      var req' := req + chunks[0];
      if |req'| > CAP then Refused
      else if HeaderEnd(req').Some? then Read(HeaderEnd(req').value, req', chunks[1..])
      else ScanHeader(req', chunks[1..])
  }

  /** The body slice: all of it, or nothing if the stream stops short. */
  function BodyOf(s: Bytes, end: nat, length: nat): Bytes {
    if end + length <= |s| then s[end..end + length] else []
  }

  /** What follows a header. The body is sliced from the whole stream. */
  function Answered(header: Bytes, s: Bytes, decision: Decision): Outcome {
    match decision
    case Drop => Closed
    case Deny => Denied
    case Preflight => NoContent(header)
    case Expect(length) => Request(header, BodyOf(s, |header|, length))
  }

  /** What the agent makes of the reads; decide reads the header. */
  function Handled(chunks: seq<Bytes>, decide: Bytes -> Decision): Outcome {
    match ScanHeader([], chunks)
    case Gone => Closed
    case Refused => TooLarge
    case Read(end, received, rest) => Answered(received[..end], received + Concat(rest), decide(received[..end]))
  }

  lemma {:induction false} ScanLosesNothing(req: Bytes, chunks: seq<Bytes>)
    ensures ScanHeader(req, chunks).Read? ==>
              var r := ScanHeader(req, chunks);
              r.received + Concat(r.rest) == req + Concat(chunks)
    decreases |chunks|
  {
    if chunks != [] {
      ScanLosesNothing(req + chunks[0], chunks[1..]);
      assert req + chunks[0] + Concat(chunks[1..]) == req + Concat(chunks);
    }
  }

  /** Once as much as the header states has been received, or there is no more, the body is in what has been
      received. */
  lemma BodyReceived(req: Bytes, rest: Bytes, end: nat, length: nat)
    requires end + length <= |req| || rest == []
    ensures BodyOf(req + rest, end, length) == if end + length <= |req| then req[end..end + length] else []
  {
    if end + length <= |req| {
      assert (req + rest)[end..end + length] == req[end..end + length];
    } else {
      assert req + rest == req;
    }
  }

  /** The two read loops, and the early answers between them. A read that yields nothing, or fails, ends the stream. */
  method Handle(chunks: seq<Bytes>, decide: Bytes -> Decision) returns (outcome: Outcome)
    ensures outcome == Handled(chunks, decide)
  {
    var req: Bytes := [];
    var k := 0;
    var end := 0;
    while true
      invariant k <= |chunks|
      invariant ScanHeader([], chunks) == ScanHeader(req, chunks[k..])
      decreases |chunks| - k
    {
      if k == |chunks| {
        return Closed;
      }
      ghost var before := req;
      req := req + chunks[k];
      assert chunks[k..][1..] == chunks[k + 1..];
      k := k + 1;
      if |req| > CAP {
        return TooLarge;
      }
      var p := HeaderEnd(req);
      if p.Some? {
        end := p.value;
        assert ScanHeader(before, chunks[k - 1..]) == Read(end, req, chunks[k..]);
        break;
      }
    }
    ghost var received, rest := req, chunks[k..];
    var header := req[..end];
    var decision := decide(header);
    ghost var stream := received + Concat(rest);
    assert Handled(chunks, decide) == Answered(header, stream, decision);
    if decision.Drop? {
      return Closed;
    }
    if decision.Deny? {
      return Denied;
    }
    if decision.Preflight? {
      return NoContent(header);
    }
    var length := decision.length;
    while |req| < end + length
      invariant k <= |chunks| && end <= |req|
      invariant req + Concat(chunks[k..]) == stream
      decreases |chunks| - k
    {
      if k == |chunks| {
        break;
      }
      assert chunks[k..][1..] == chunks[k + 1..];
      assert req + Concat(chunks[k..]) == req + chunks[k] + Concat(chunks[k + 1..]);
      req := req + chunks[k];
      k := k + 1;
    }
    var body := if end + length <= |req| then req[end..end + length] else [];
    assert k == |chunks| ==> Concat(chunks[k..]) == [];
    BodyReceived(req, Concat(chunks[k..]), end, length);
    outcome := Request(header, body);
  }

  /** The header read is the start of the stream, up to the first header end there is. */
  lemma HeaderIsStart(chunks: seq<Bytes>)
    requires ScanHeader([], chunks).Read?
    ensures var read, s := ScanHeader([], chunks), Concat(chunks);
            && HeaderEnd(s) == Some(read.end) && read.end <= |s| && read.received[..read.end] == s[..read.end]
            && read.received + Concat(read.rest) == s
  {
    var read, s := ScanHeader([], chunks), Concat(chunks);
    ScanLosesNothing([], chunks);
    assert [] + s == s;
    PrefixEnd(s, |read.received|);
    assert s[..|read.received|] == read.received;
  }

  /** A request is the start of the stream up to the first header end, and the bytes that follow, as many as the header
      states; or none of them if the stream stops short. */
  lemma RequestIsPartOfStream(chunks: seq<Bytes>, decide: Bytes -> Decision)
    requires Handled(chunks, decide).Request?
    ensures var s, header, body := Concat(chunks), Handled(chunks, decide).header, Handled(chunks, decide).body;
            && HeaderEnd(s) == Some(|header|) && header <= s && decide(header).Expect?
            && if |header| + decide(header).length <= |s|
               then |body| == decide(header).length && header + body <= s
               else body == []
  {
    HeaderIsStart(chunks);
  }

  /** Any other answer is the one the header calls for, or comes of there being no header in time. */
  lemma OtherAnswers(chunks: seq<Bytes>, decide: Bytes -> Decision)
    requires ScanHeader([], chunks).Read?
    ensures var read := ScanHeader([], chunks);
            var header := read.received[..read.end];
            && (decide(header) == Drop ==> Handled(chunks, decide) == Closed)
            && (decide(header) == Deny ==> Handled(chunks, decide) == Denied)
            && (decide(header) == Preflight ==> Handled(chunks, decide) == NoContent(header))
            && (decide(header).Expect? ==> Handled(chunks, decide).Request? && Handled(chunks, decide).header == header)
  {
  }

  // ---- What does not depend on how the stream is cut ----

  /** Reads return at least one byte and at most a buffer. */
  ghost predicate Reads(chunks: seq<Bytes>) {
    forall c <- chunks :: 1 <= |c| <= BUFFER
  }

  /** What a whole stream calls for. */
  function OutcomeOf(s: Bytes, decide: Bytes -> Decision): Outcome {
    var e := HeaderEnd(s);
    if e.None? then (if |s| > 2_097_152 then TooLarge else Closed)
    else if e.value > 2_097_152 then TooLarge
    else Answered(s[..e.value], s, decide(s[..e.value]))
  }

  /** The header does not end within the last buffer below the cap, or the stream stops below the cap. */
  predicate Decided(s: Bytes) {
    var e := HeaderEnd(s);
    e.Some? ==> e.value <= 2_097_152 - 8191 || e.value > 2_097_152 || |s| <= 2_097_152
  }

  lemma {:induction false} ScanDecides(req: Bytes, chunks: seq<Bytes>, s: Bytes)
    requires Reads(chunks) && s == req + Concat(chunks) && Decided(s)
    requires |req| <= CAP && (HeaderEnd(s).Some? ==> |req| < HeaderEnd(s).value)
    ensures match ScanHeader(req, chunks)
            case Gone => HeaderEnd(s).None? && |s| <= CAP
            case Refused => |s| > CAP && (HeaderEnd(s).Some? ==> HeaderEnd(s).value > CAP)
            case Read(end, received, rest) => HeaderEnd(s) == Some(end) && end <= CAP
                                              && received + Concat(rest) == s && end <= |received|
    decreases |chunks|
  {
    if chunks == [] {
      assert s == req;
    } else {
      var req' := req + chunks[0];
      assert s == req' + Concat(chunks[1..]);
      assert s[..|req'|] == req';
      PrefixEnd(s, |req'|);
      assert chunks[0] in chunks;
      if |req'| <= CAP && HeaderEnd(req').None? {
        ScanDecides(req', chunks[1..], s);
      }
    }
  }

  /** For a decided stream the answer is the same however it is cut into reads. */
  lemma CuttingDoesNotMatter(chunks: seq<Bytes>, decide: Bytes -> Decision)
    requires Reads(chunks) && Decided(Concat(chunks))
    ensures Handled(chunks, decide) == OutcomeOf(Concat(chunks), decide)
  {
    var s := Concat(chunks);
    assert [] + s == s;
    ScanDecides([], chunks, s);
    match ScanHeader([], chunks) {
      case Gone =>
      case Refused =>
      case Read(end, received, rest) =>
        assert received[..end] == s[..end];
    }
  }

  /** One byte a read. */
  function Singles(s: Bytes): (chunks: seq<Bytes>)
    ensures |chunks| == |s|
    ensures forall i :: 0 <= i < |s| ==> chunks[i] == [s[i]]
  {
    seq(|s|, i requires 0 <= i < |s| => [s[i]])
  }

  lemma {:induction false} SinglesConcat(s: Bytes)
    ensures Concat(Singles(s)) == s && Reads(Singles(s))
  {
    if s != [] {
      assert Singles(s)[1..] == Singles(s[1..]);
      SinglesConcat(s[1..]);
    }
  }

  /** Bytes that neither end the header nor pass the cap are just received. */
  lemma {:induction false} ScanReceives(req: Bytes, t: Bytes, rest: seq<Bytes>)
    requires HeaderEnd(req + t).None? && |req + t| <= CAP
    ensures ScanHeader(req, Singles(t) + rest) == ScanHeader(req + t, rest)
    decreases |t|
  {
    if t == [] {
      assert req + t == req && Singles(t) + rest == rest;
    } else {
      assert (Singles(t) + rest)[1..] == Singles(t[1..]) + rest;
      assert req + t == req + [t[0]] + t[1..];
      assert (req + t)[..|req| + 1] == req + [t[0]];
      PrefixEnd(req + t, |req| + 1);
      ScanReceives(req + [t[0]], t[1..], rest);
    }
  }

  /** Read byte by byte, a stream is received up to the byte before its header's end. */
  lemma ScanToEnd(s: Bytes, rest: seq<Bytes>)
    requires HeaderEnd(s).Some? && HeaderEnd(s).value <= CAP
    ensures var start := s[..HeaderEnd(s).value - 1];
            ScanHeader([], Singles(start) + rest) == ScanHeader(start, rest)
  {
    var start := s[..HeaderEnd(s).value - 1];
    PrefixEnd(s, |start|);
    assert [] + start == start;
    ScanReceives([], start, rest);
  }

  /** A cut of a stream: its start byte by byte, one read, and the rest byte by byte. */
  function CutAt(start: Bytes, middle: Bytes, last: Bytes): seq<Bytes> {
    Singles(start) + ([middle] + Singles(last))
  }

  lemma CutIsStream(start: Bytes, middle: Bytes, last: Bytes)
    requires 1 <= |middle| <= BUFFER
    ensures Reads(CutAt(start, middle, last)) && Concat(CutAt(start, middle, last)) == start + (middle + last)
  {
    SinglesConcat(start);
    SinglesConcat(last);
    var rest := [middle] + Singles(last);
    assert rest[1..] == Singles(last);
    ConcatSplits(Singles(start), rest);
  }

  /** What the read across the header's end leads to. */
  lemma ScanAcross(s: Bytes, middle: Bytes, last: Bytes)
    requires HeaderEnd(s).Some? && HeaderEnd(s).value <= CAP
    ensures var start := s[..HeaderEnd(s).value - 1];
            ScanHeader([], CutAt(start, middle, last)) == ScanHeader(start, [middle] + Singles(last))
  {
    ScanToEnd(s, [middle] + Singles(last));
  }

  /** Read byte by byte, an undecided stream's header is found in time. */
  lemma FineCut(s: Bytes) returns (fine: seq<Bytes>)
    requires !Decided(s)
    ensures Reads(fine) && Concat(fine) == s && ScanHeader([], fine).Read?
  {
    var e := HeaderEnd(s).value;
    var start, middle, last := s[..e - 1], s[e - 1..e], s[e..];
    fine := CutAt(start, middle, last);
    CutIsStream(start, middle, last);
    assert start + (middle + last) == s;
    ScanAcross(s, middle, last);
    PrefixEnd(s, e);
    assert start + middle == s[..e];
  }

  /** A full buffer read across the header's end takes it past the cap first. */
  lemma CoarseCut(s: Bytes) returns (coarse: seq<Bytes>)
    requires !Decided(s)
    ensures Reads(coarse) && Concat(coarse) == s && ScanHeader([], coarse) == Refused
  {
    var e := HeaderEnd(s).value;
    var big := Min(|s|, e - 1 + BUFFER);
    var start, middle, last := s[..e - 1], s[e - 1..big], s[big..];
    coarse := CutAt(start, middle, last);
    CutIsStream(start, middle, last);
    assert start + (middle + last) == s;
    ScanAcross(s, middle, last);
    assert |start + middle| > CAP;
  }

  /** For any other stream it does matter. */
  lemma CuttingMatters(s: Bytes, decide: Bytes -> Decision) returns (fine: seq<Bytes>, coarse: seq<Bytes>)
    requires !Decided(s)
    ensures Reads(fine) && Concat(fine) == s && Reads(coarse) && Concat(coarse) == s
    ensures Handled(fine, decide) != TooLarge && Handled(coarse, decide) == TooLarge
  {
    fine := FineCut(s);
    coarse := CoarseCut(s);
  }

  /** The answer depends on the stream alone exactly for decided streams. */
  lemma CuttingMattersIff(s: Bytes, decide: Bytes -> Decision)
    ensures (forall a, b :: Reads(a) && Reads(b) && Concat(a) == s && Concat(b) == s ==>
               Handled(a, decide) == Handled(b, decide))
            <==> Decided(s)
  {
    if Decided(s) {
      forall a, b | Reads(a) && Reads(b) && Concat(a) == s && Concat(b) == s
        ensures Handled(a, decide) == Handled(b, decide)
      {
        CuttingDoesNotMatter(a, decide);
        CuttingDoesNotMatter(b, decide);
      }
    } else {
      var fine, coarse := CuttingMatters(s, decide);
      assert Handled(fine, decide) != Handled(coarse, decide);
    }
  }

  /** A stream for which it matters: the header ends exactly at the cap, and one byte follows. */
  function LongHeader(): Bytes {
    seq(CAP - 4, _ => 97) + HEADER_END + [1]
  }

  lemma LongHeaderIsUndecided()
    ensures HeaderEnd(LongHeader()) == Some(CAP) && !Decided(LongHeader())
  {
    var s := LongHeader();
    assert s[CAP - 4..CAP] == HEADER_END && EndsAt(s, CAP);
    assert HEADER_END[0] == 13 && HEADER_END[3] == 10;
    forall e: nat | e < CAP ensures !EndsAt(s, e) {
      if e >= 4 {
        assert s[e - 4..e][0] == s[e - 4] && s[e - 4..e][3] == s[e - 1];
      }
    }
    assert HeaderEnd(s) == EndFrom(s, 0);
  }

  // ---- Uploads ----

  /** What the reads deliver before the first empty one. */
  function Delivered(chunks: seq<Bytes>): Bytes {
    if chunks == [] || chunks[0] == [] then [] else chunks[0] + Delivered(chunks[1..])
  }

  /** The whole upload, exactly when it is within the limit. The buffer and the chunk just added to it never hold more
      than the limit and two chunks. */
  method ReadLimited(chunks: seq<Bytes>, maxBytes: nat) returns (contents: Option<Bytes>, ghost peak: nat)
    requires forall c <- chunks :: |c| <= CHUNK
    ensures contents == if |Delivered(chunks)| <= maxBytes then Some(Delivered(chunks)) else None
    ensures peak <= maxBytes + 2 * CHUNK
  {
    var buf: Bytes := [];
    var k := 0;
    peak := 0;
    while true
      invariant k <= |chunks| && |buf| <= maxBytes && peak <= maxBytes + 2 * CHUNK
      invariant buf + Delivered(chunks[k..]) == Delivered(chunks)
      decreases |chunks| - k
    {
      var chunk: Bytes := if k < |chunks| then chunks[k] else [];
      if chunk == [] {
        break;
      }
      assert chunks[k..][1..] == chunks[k + 1..];
      assert chunk in chunks;
      assert buf + Delivered(chunks[k..]) == buf + chunk + Delivered(chunks[k + 1..]);
      buf := buf + chunk;
      k := k + 1;
      peak := Max(peak, |buf| + |chunk|);
      if |buf| > maxBytes {
        return None, peak;
      }
    }
    assert buf + [] == buf;
    return Some(buf), peak;
  }

  /** An upload read to its end is the stream it was cut from. */
  lemma {:induction false} DeliveredIsStream(chunks: seq<Bytes>)
    requires forall c <- chunks :: c != []
    ensures Delivered(chunks) == Concat(chunks)
  {
    if chunks != [] {
      assert chunks[0] in chunks && forall c <- chunks[1..] :: c in chunks;
      DeliveredIsStream(chunks[1..]);
    }
  }
}
