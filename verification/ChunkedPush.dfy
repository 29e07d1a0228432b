/** PushXrayBinary: a header, then the build in chunks, from a reader that may return short reads. */
module ChunkedPush {
  import opened Common

  const CHUNK: nat := 0x10_0000

  // ---------- the chunks a push should send

  function Chunks(s: Bytes): seq<Bytes> {
    if s == [] then []
    else if |s| <= CHUNK then [s]
    else [s[..CHUNK]] + Chunks(s[CHUNK..])
  }

  function Concat(cs: seq<Bytes>): Bytes {
    if cs == [] then [] else cs[0] + Concat(cs[1..])
  }

  /** 1 to CHUNK bytes each, and all but the last exactly CHUNK. */
  ghost predicate WellCut(cs: seq<Bytes>) {
    && (forall i :: 0 <= i < |cs| ==> 1 <= |cs[i]| <= CHUNK)
    && forall i :: 0 <= i < |cs| - 1 ==> |cs[i]| == CHUNK
  }

  lemma {:induction false} ChunksAreWellCut(s: Bytes)
    ensures WellCut(Chunks(s)) && Concat(Chunks(s)) == s
    decreases |s|
  {
    if |s| > CHUNK {
      ChunksAreWellCut(s[CHUNK..]);
      assert Chunks(s)[1..] == Chunks(s[CHUNK..]);
    } else if s != [] {
      assert Concat([s]) == s + Concat([]) by {
        assert [s][1..] == [];
      }
    }
  }

  /** There is only one way to cut a source like that. */
  lemma {:induction false} WellCutIsUnique(cs: seq<Bytes>)
    requires WellCut(cs)
    ensures Chunks(Concat(cs)) == cs
  {
    if cs != [] {
      var s := Concat(cs);
      WellCutIsUnique(cs[1..]);
      if |cs| == 1 {
        assert cs[1..] == [] && s == cs[0];
      } else {
        assert 1 <= |cs[1]| && cs[1..][0] == cs[1];
        assert |Concat(cs[1..])| >= 1;
        assert s[..CHUNK] == cs[0] && s[CHUNK..] == Concat(cs[1..]);
      }
    }
  }

  // ---------- the reader

  /** What a read reports. Stuck: nothing, for no read of it gives bytes or an error any more. */
  datatype Status = Nil | EOF | UnexpectedEOF | Failed | Stuck

  /** What the reader does on one call: give up to n bytes, and with eof set report the end along with the
      last of them; or fail after some bytes; or break off after some bytes with io.ErrUnexpectedEOF, as a
      decompressor or a body of known length does; or give nothing and no error from here on, for ever.
      A context that ends is a failing read. */
  datatype ReadStep = Give(n: nat, eof: bool) | Fail(n: nat) | Break(n: nat) | Stall

  function Offered(step: ReadStep): nat {
    if step.Stall? then 0 else step.n
  }

  function Min(a: nat, b: nat): nat {
    if a < b then a else b
  }

  /** Once the pattern is used up the reader fills every buffer it can. */
  function StepFor(data: Bytes, pattern: seq<ReadStep>, want: nat): ReadStep {
    if pattern == [] then Give(want, data == []) else pattern[0]
  }

  function Given(data: Bytes, pattern: seq<ReadStep>, want: nat): (k: nat)
    ensures k <= want && k <= |data|
  {
    Min(Offered(StepFor(data, pattern, want)), Min(want, |data|))
  }

  function Later(pattern: seq<ReadStep>): seq<ReadStep> {
    if pattern == [] then [] else pattern[1..]
  }

  function Says(step: ReadStep, left: Bytes): Status {
    match step
    case Give(_, eof) => if left == [] && eof then EOF else Nil
    case Fail(_) => Failed
    case Break(_) => UnexpectedEOF
    case Stall => Stuck
  }

  /** The bytes a reader of buffers of the given size gets out of it before it stops, when room bytes of the
      buffer in hand are still free. An error that comes with a full buffer is dropped. */
  function Taken(data: Bytes, pattern: seq<ReadStep>, size: nat, room: nat): Bytes
    decreases |pattern|
  {
    if pattern == [] then data
    else
      var k := Given(data, pattern, room);
      var left := data[k..];
      if k == room then data[..k] + Taken(left, pattern[1..], size, size)
      else if Says(pattern[0], left) == Nil then data[..k] + Taken(left, pattern[1..], size, room - k)
      else data[..k]
  }

  /** How the chunk loop takes a report that ends its reading: both ends look the same to it. */
  function AsEnd(err: Status): Status {
    if err == UnexpectedEOF then EOF else err
  }

  /** On what it stops: the end, a failure, or never. */
  function Ends(data: Bytes, pattern: seq<ReadStep>, size: nat, room: nat): Status
    decreases |pattern|
  {
    if pattern == [] then EOF
    else
      var k := Given(data, pattern, room);
      var left := data[k..];
      if k == room then Ends(left, pattern[1..], size, size)
      else if Says(pattern[0], left) == Nil then Ends(left, pattern[1..], size, room - k)
      else AsEnd(Says(pattern[0], left))
  }

  /** It stops on a reader that breaks off with the buffer not full and data left. */
  predicate CutShort(data: Bytes, pattern: seq<ReadStep>, size: nat, room: nat)
    decreases |pattern|
  {
    pattern != [] &&
    var k := Given(data, pattern, room);
    var left := data[k..];
    if k == room then CutShort(left, pattern[1..], size, size)
    else if Says(pattern[0], left) == Nil then CutShort(left, pattern[1..], size, room - k)
    else pattern[0].Break? && left != []
  }

  /** A reader that does not fail is read to the end exactly when it is not cut short. */
  lemma {:induction false} WholeExactlyWhenNotCut(data: Bytes, pattern: seq<ReadStep>, size: nat, room: nat)
    requires Ends(data, pattern, size, room) == EOF
    ensures Taken(data, pattern, size, room) <= data
    ensures Taken(data, pattern, size, room) == data <==> !CutShort(data, pattern, size, room)
    decreases |pattern|
  {
    if pattern != [] {
      var k := Given(data, pattern, room);
      var left := data[k..];
      assert data == data[..k] + left;
      if k == room {
        WholeExactlyWhenNotCut(left, pattern[1..], size, size);
        SameStart(data[..k], Taken(left, pattern[1..], size, size), left);
      } else if Says(pattern[0], left) == Nil {
        WholeExactlyWhenNotCut(left, pattern[1..], size, room - k);
        SameStart(data[..k], Taken(left, pattern[1..], size, room - k), left);
      }
    }
  }

  lemma SameStart(a: Bytes, b: Bytes, c: Bytes)
    requires b <= c
    ensures a + b <= a + c && (a + b == a + c <==> b == c)
  {
    if a + b == a + c {
      assert |b| == |c|;
    }
  }

  /** Without a step that breaks off nothing is cut short. */
  lemma {:induction false} OnlyBreaksCut(data: Bytes, pattern: seq<ReadStep>, size: nat, room: nat)
    requires forall i :: 0 <= i < |pattern| ==> !pattern[i].Break?
    ensures !CutShort(data, pattern, size, room)
    decreases |pattern|
  {
    if pattern != [] {
      var k := Given(data, pattern, room);
      OnlyBreaksCut(data[k..], pattern[1..], size, if k == room then size else room - k);
    }
  }

  /** What one more read does to all that is taken. */
  lemma OneRead(data: Bytes, pattern: seq<ReadStep>, size: nat, room: nat)
    ensures var k := Given(data, pattern, room);
            var left, then', err := data[k..], Later(pattern), Says(StepFor(data, pattern, room), data[k..]);
            var room' := if k == room then size else room - k;
            if k == room || err == Nil
            then Taken(data, pattern, size, room) == data[..k] + Taken(left, then', size, room')
                 && Ends(data, pattern, size, room) == Ends(left, then', size, room')
            else Taken(data, pattern, size, room) == data[..k] && Ends(data, pattern, size, room) == AsEnd(err)
  {
    var k := Given(data, pattern, room);
    assert data == data[..k] + data[k..];
  }

  /** A reader and what has been read from it into the buffer in hand. */
  datatype Progress = Progress(got: Bytes, err: Status, data: Bytes, pattern: seq<ReadStep>)

  function ReadInto(p: Progress, size: nat): Progress
    requires |p.got| <= size
  {
    var room := size - |p.got|;
    var k := Given(p.data, p.pattern, room);
    Progress(p.got + p.data[..k], Says(StepFor(p.data, p.pattern, room), p.data[k..]), p.data[k..], Later(p.pattern))
  }

  function StillTaken(p: Progress, size: nat): Bytes
    requires |p.got| <= size
  {
    if |p.got| == size then Taken(p.data, p.pattern, size, size)
    else if p.err == Nil then Taken(p.data, p.pattern, size, size - |p.got|)
    else []
  }

  function StillEnds(p: Progress, size: nat): Status
    requires |p.got| <= size
  {
    if |p.got| == size then Ends(p.data, p.pattern, size, size)
    else if p.err == Nil then Ends(p.data, p.pattern, size, size - |p.got|)
    else AsEnd(p.err)
  }

  /** All that is taken is what is in the buffer and what is still to come. */
  ghost predicate InHand(source: Bytes, all: Bytes, end: Status, p: Progress, size: nat) {
    && |p.got| <= size && source == p.got + p.data && (p.err == EOF ==> p.data == [])
    && all == p.got + StillTaken(p, size) && end == StillEnds(p, size)
  }

  lemma Regroup(a: Bytes, b: Bytes, c: Bytes)
    ensures a + (b + c) == a + b + c
  {}

  lemma Split(data: Bytes, k: nat)
    requires k <= |data|
    ensures data == data[..k] + data[k..]
  {}

  /** What a read leaves to be taken is what was to be taken without the bytes it gave. */
  lemma ReadTakes(p: Progress, size: nat)
    requires |p.got| < size && p.err == Nil
    ensures var q := ReadInto(p, size); |q.got| <= size && StillEnds(p, size) == StillEnds(q, size)
    ensures var k := Given(p.data, p.pattern, size - |p.got|);
            StillTaken(p, size) == p.data[..k] + StillTaken(ReadInto(p, size), size)
  {
    var room := size - |p.got|;
    var k := Given(p.data, p.pattern, room);
    OneRead(p.data, p.pattern, size, room);
    assert |ReadInto(p, size).got| == |p.got| + k;
    assert p.data[..k] + [] == p.data[..k];
  }

  lemma ReadOn(source: Bytes, all: Bytes, end: Status, p: Progress, size: nat)
    requires InHand(source, all, end, p, size) && |p.got| < size && p.err == Nil
    ensures InHand(source, all, end, ReadInto(p, size), size)
  {
    var k := Given(p.data, p.pattern, size - |p.got|);
    ReadTakes(p, size);
    Split(p.data, k);
    Regroup(p.got, p.data[..k], p.data[k..]);
    Regroup(p.got, p.data[..k], StillTaken(ReadInto(p, size), size));
  }

  lemma ReadShrinks(p: Progress, size: nat)
    requires |p.got| < size && ReadInto(p, size).err == Nil
    ensures |ReadInto(p, size).data| + |ReadInto(p, size).pattern| < |p.data| + |p.pattern|
  {}

  /** A source with any pattern of short, empty, failing, broken-off and stalled reads. */
  class Reader {
    var data: Bytes
    var pattern: seq<ReadStep>

    constructor (data: Bytes, pattern: seq<ReadStep>)
      ensures this.data == data && this.pattern == pattern
    {
      this.data, this.pattern := data, pattern;
    }

    method Read(want: nat) returns (got: Bytes, err: Status)
      modifies this
      ensures var k := Given(old(data), old(pattern), want); got == old(data)[..k] && data == old(data)[k..]
      ensures pattern == Later(old(pattern)) && err == Says(StepFor(old(data), old(pattern), want), data)
    {
      var step := StepFor(data, pattern, want);
      var k := Given(data, pattern, want);
      pattern := Later(pattern);
      got := data[..k];
      data := data[k..];
      err := Says(step, data);
    }

    /** io.ReadFull. The reader's own io.ErrUnexpectedEOF passes through. Stuck: the call does not return. */
    method ReadFull(size: nat) returns (got: Bytes, err: Status)
      requires size > 0
      modifies this
      ensures old(data) == got + data && |got| <= size
      ensures err == Nil <==> |got| == size
      ensures err == EOF ==> got == [] && data == []
      ensures var all := Taken(old(data), old(pattern), size, size);
              all == if err == Nil then got + Taken(data, pattern, size, size) else got
      ensures Ends(old(data), old(pattern), size, size) ==
              if err == Nil then Ends(data, pattern, size, size) else AsEnd(err)
    {
      got := [];
      err := Nil;
      ghost var source, all, end := data, Taken(data, pattern, size, size), Ends(data, pattern, size, size);
      ghost var p := Progress(got, err, data, pattern);
      assert [] + all == all && [] + source == source;
      while |got| < size && err == Nil
        invariant p == Progress(got, err, data, pattern) && InHand(source, all, end, p, size)
        decreases err == Nil, |data| + |pattern|
      {
        ReadOn(source, all, end, p, size);
        p := ReadInto(p, size);
        if p.err == Nil {
          ReadShrinks(Progress(got, err, data, pattern), size);
        }
        var more;
        more, err := Read(size - |got|);
        got := got + more;
      }
      if |got| >= size {
        err := Nil;
      } else if |got| > 0 && err == EOF {
        err := UnexpectedEOF;
      }
      assert got + [] == got;
    }
  }

  // ---------- the stream

  datatype Message =
    | Header(version: string, sum: string, restartAfter: bool, gzip: bool)
    | Data(bytes: Bytes)

  /** Sends succeed until the agent ends the call, if it does. */
  class Stream {
    var sent: seq<Message>
    const accepts: int // how many messages it takes; negative: all

    constructor (accepts: int)
      ensures sent == [] && this.accepts == accepts
    {
      this.accepts := accepts;
      sent := [];
    }

    method Send(m: Message) returns (ok: bool)
      modifies this
      ensures ok == (accepts < 0 || |old(sent)| < accepts)
      ensures sent == if ok then old(sent) + [m] else old(sent)
    {
      ok := accepts < 0 || |sent| < accepts;
      if ok {
        sent := sent + [m];
      }
    }
  }

  function Messages(cs: seq<Bytes>): seq<Message> {
    if cs == [] then [] else Messages(cs[..|cs| - 1]) + [Data(cs[|cs| - 1])]
  }

  lemma {:induction false} MessagesConcat(cs: seq<Bytes>, ds: seq<Bytes>)
    ensures Messages(cs + ds) == Messages(cs) + Messages(ds)
  {
    if ds == [] {
      assert cs + ds == cs;
    } else {
      var init := ds[..|ds| - 1];
      MessagesConcat(cs, init);
      assert (cs + ds)[..|cs + ds| - 1] == cs + init;
    }
  }

  /** NeverReturns: the reader gives neither bytes nor an error any more, and io.ReadFull asks it for ever. */
  datatype Outcome = Sent | SendFailed | ReadFailed | NeverReturns

  /** The cut so far and the cut of what is left are the cut of the whole. */
  ghost predicate OnTrack(source: Bytes, sent: seq<Bytes>, left: Bytes) {
    Chunks(source) == sent + Chunks(left)
  }

  lemma OneMoreChunk(source: Bytes, sent: seq<Bytes>, left: Bytes, got: Bytes, rest: Bytes)
    requires OnTrack(source, sent, left) && left == got + rest && got != []
    requires |got| == CHUNK || (|got| < CHUNK && rest == [])
    ensures OnTrack(source, sent + [got], rest)
  {
    assert Chunks(left) == [got] + Chunks(rest) by {
      if rest == [] {
        assert left == got;
      } else {
        assert left[..CHUNK] == got && left[CHUNK..] == rest;
      }
    }
    assert sent + ([got] + Chunks(rest)) == sent + [got] + Chunks(rest);
  }

  lemma MessagesPrefix(cs: seq<Bytes>, ds: seq<Bytes>, before: seq<Message>)
    ensures before + Messages(cs) <= before + Messages(cs + ds)
  {
    MessagesConcat(cs, ds);
    assert before + (Messages(cs) + Messages(ds)) == before + Messages(cs) + Messages(ds);
  }

  lemma MessagesAppend(before: seq<Message>, cs: seq<Bytes>, c: Bytes)
    ensures before + Messages(cs) + [Data(c)] == before + Messages(cs + [c])
  {
    assert (cs + [c])[..|cs|] == cs;
    assert before + Messages(cs) + [Data(c)] == before + (Messages(cs) + [Data(c)]);
  }

  /** How a push that is under way stands: what it sent is the beginning of what it should send. */
  ghost predicate UnderWay(before: seq<Message>, source: Bytes, left: Bytes, sent: seq<Message>) {
    exists cut :: OnTrack(source, cut, left) && sent == before + Messages(cut)
  }

  lemma Begun(before: seq<Message>, source: Bytes)
    ensures UnderWay(before, source, source, before)
  {
    assert [] + Chunks(source) == Chunks(source);
    assert OnTrack(source, [], source) && before == before + Messages([]);
  }

  lemma Advanced(before: seq<Message>, source: Bytes, left: Bytes, got: Bytes, rest: Bytes, sent: seq<Message>)
    requires UnderWay(before, source, left, sent) && left == got + rest && got != []
    requires |got| == CHUNK || (|got| < CHUNK && rest == [])
    ensures UnderWay(before, source, rest, sent + [Data(got)])
  {
    var cut :| OnTrack(source, cut, left) && sent == before + Messages(cut);
    OneMoreChunk(source, cut, left, got, rest);
    MessagesAppend(before, cut, got);
  }

  lemma SoFar(before: seq<Message>, source: Bytes, left: Bytes, sent: seq<Message>)
    requires UnderWay(before, source, left, sent)
    ensures sent <= before + Messages(Chunks(source))
    ensures left == [] ==> sent == before + Messages(Chunks(source))
  {
    var cut :| OnTrack(source, cut, left) && sent == before + Messages(cut);
    MessagesPrefix(cut, Chunks(left), before);
    if left == [] {
      assert cut + Chunks(left) == cut;
    }
  }

  lemma {:induction false} MessagesInjective(cs: seq<Bytes>, ds: seq<Bytes>)
    requires Messages(cs) == Messages(ds)
    ensures cs == ds
  {
    MessagesLength(cs);
    MessagesLength(ds);
    if cs != [] {
      var m := Messages(cs);
      assert m[..|m| - 1] == Messages(cs[..|cs| - 1]) && m[..|m| - 1] == Messages(ds[..|ds| - 1]);
      assert m[|m| - 1] == Data(cs[|cs| - 1]) && m[|m| - 1] == Data(ds[|ds| - 1]);
      MessagesInjective(cs[..|cs| - 1], ds[..|ds| - 1]);
      assert cs == cs[..|cs| - 1] + [cs[|cs| - 1]] && ds == ds[..|ds| - 1] + [ds[|ds| - 1]];
    }
  }

  lemma {:induction false} MessagesLength(cs: seq<Bytes>)
    ensures |Messages(cs)| == |cs|
  {
    if cs != [] {
      MessagesLength(cs[..|cs| - 1]);
    }
  }

  /** Different sources give different messages. */
  lemma SameMessagesSameSource(before: seq<Message>, a: Bytes, b: Bytes)
    ensures before + Messages(Chunks(a)) == before + Messages(Chunks(b)) <==> a == b
  {
    var m, n := Messages(Chunks(a)), Messages(Chunks(b));
    if before + m == before + n {
      assert m == (before + m)[|before|..] && n == (before + n)[|before|..];
      MessagesInjective(Chunks(a), Chunks(b));
      ChunksAreWellCut(a);
      ChunksAreWellCut(b);
    }
  }

  lemma SentWhole(before: seq<Message>, data: Bytes, pattern: seq<ReadStep>)
    requires Ends(data, pattern, CHUNK, CHUNK) == EOF
    ensures before + Messages(Chunks(Taken(data, pattern, CHUNK, CHUNK))) == before + Messages(Chunks(data))
            <==> !CutShort(data, pattern, CHUNK, CHUNK)
  {
    WholeExactlyWhenNotCut(data, pattern, CHUNK, CHUNK);
    SameMessagesSameSource(before, Taken(data, pattern, CHUNK, CHUNK), data);
  }

  /** One turn of the loop: None goes round again. */
  method PushChunk(r: Reader, stream: Stream, ghost before: seq<Message>, ghost source: Bytes)
    returns (end: Option<Outcome>)
    requires UnderWay(before, source, Taken(r.data, r.pattern, CHUNK, CHUNK), stream.sent)
    modifies r, stream
    ensures stream.sent <= before + Messages(Chunks(source))
    ensures end.None? ==>
              && UnderWay(before, source, Taken(r.data, r.pattern, CHUNK, CHUNK), stream.sent)
              && |r.data| < |old(r.data)|
              && Ends(r.data, r.pattern, CHUNK, CHUNK) == old(Ends(r.data, r.pattern, CHUNK, CHUNK))
    ensures end == Some(Sent) ==>
              stream.sent == before + Messages(Chunks(source)) && old(Ends(r.data, r.pattern, CHUNK, CHUNK)) == EOF
    ensures end == Some(ReadFailed) ==> old(Ends(r.data, r.pattern, CHUNK, CHUNK)) == Failed
    ensures end == Some(NeverReturns) ==> old(Ends(r.data, r.pattern, CHUNK, CHUNK)) == Stuck
    ensures end == Some(SendFailed) ==> 0 <= stream.accepts <= |stream.sent|
  {
    ghost var left := Taken(r.data, r.pattern, CHUNK, CHUNK);
    SoFar(before, source, left, stream.sent);
    var got, err := r.ReadFull(CHUNK);
    if err == Failed {
      return Some(ReadFailed);
    }
    if err == Stuck {
      return Some(NeverReturns);
    }
    ghost var rest := if err == Nil then Taken(r.data, r.pattern, CHUNK, CHUNK) else [];
    if |got| > 0 {
      Advanced(before, source, left, got, rest, stream.sent);
      var ok := stream.Send(Data(got));
      if !ok {
        return Some(SendFailed);
      }
    }
    SoFar(before, source, rest, stream.sent);
    end := if err == Nil then None else Some(Sent);
  }

  /** The chunk loop, for any source, any pattern of reads and any agent. It sends the header and then the
      chunks of what the reader gives before it stops, or the beginning of that if the agent ends the call.
      A push that ends Sent has sent the whole source exactly when the reader was not cut short. */
  method Push(header: Message, r: Reader, stream: Stream) returns (outcome: Outcome)
    modifies r, stream
    ensures var full := old(stream.sent) + [header] + Messages(Chunks(Taken(old(r.data), old(r.pattern), CHUNK, CHUNK)));
            (outcome == Sent ==> stream.sent == full) && stream.sent <= full
    ensures outcome == Sent ==>
              (stream.sent == old(stream.sent) + [header] + Messages(Chunks(old(r.data)))
               <==> !CutShort(old(r.data), old(r.pattern), CHUNK, CHUNK))
    ensures outcome == SendFailed ||
            outcome == (match Ends(old(r.data), old(r.pattern), CHUNK, CHUNK)
                        case Failed => ReadFailed
                        case Stuck => NeverReturns
                        case _ => Sent)
    ensures outcome == SendFailed ==> 0 <= stream.accepts <= |stream.sent|
  {
    ghost var data, pattern := r.data, r.pattern;
    ghost var source, last := Taken(data, pattern, CHUNK, CHUNK), Ends(data, pattern, CHUNK, CHUNK);
    ghost var before := stream.sent + [header];
    var ok := stream.Send(header);
    if !ok {
      return SendFailed;
    }
    Begun(before, source);
    while true
      invariant UnderWay(before, source, Taken(r.data, r.pattern, CHUNK, CHUNK), stream.sent)
      invariant last == Ends(r.data, r.pattern, CHUNK, CHUNK)
      decreases |r.data|
    {
      var end := PushChunk(r, stream, before, source);
      if end.Some? {
        if end == Some(Sent) {
          SentWhole(before, data, pattern);
        }
        return end.value;
      }
    }
  }

  /** Such a truncated push: for every source and every place in its first chunk to break off at, the push
      ends Sent with only what came before. */
  method PushCutShort(header: Message, data: Bytes, n: nat) returns (outcome: Outcome, sent: seq<Message>)
    requires n < |data| && n < CHUNK
    ensures outcome == Sent && sent == [header] + Messages(Chunks(data[..n])) && data[..n] != data
  {
    var r := new Reader(data, [Break(n)]);
    var stream := new Stream(-1);
    assert Given(data, [Break(n)], CHUNK) == n;
    outcome := Push(header, r, stream);
    sent := stream.sent;
    assert [] + [header] == [header];
  }
}
