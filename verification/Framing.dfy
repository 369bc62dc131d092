/** The bounded frame reader of daemon and client, and the daemon's loop over the frames of a connection. */
module Framing {
  import opened Prelude
  import Text

  type byte = x: int | 0 <= x < 256

  const NEWLINE: byte := 10

  function Position(s: seq<byte>): (r: Option<nat>)
    ensures r.Some? ==> r.value < |s| && s[r.value] == NEWLINE && NEWLINE !in s[..r.value]
    ensures r.None? <==> NEWLINE !in s
  {
    if s == [] then None
    else if s[0] == NEWLINE then Some(0)
    else
      var r := Position(s[1..]);
      if r.None? then None else assert s[..r.value + 1] == [s[0]] + s[1..][..r.value]; Some(r.value + 1)
  }

  // The first frame of a byte stream: up to and including the first newline, or all there is.
  function FirstFrame(stream: seq<byte>): (frame: seq<byte>)
    ensures frame <= stream && (stream != [] ==> frame != [])
  {
    var p := Position(stream);
    if p.Some? then stream[..p.value + 1] else stream
  }

  datatype Read = End | Frame(text: string) | TooLong | NotText

  // `String::from_utf8`.
  type Decoder = seq<byte> -> Option<string>

  /** What the reader answers, as a function of the whole stream ahead. */
  function ReadOf(stream: seq<byte>, max: nat, decode: Decoder): Read {
    if stream == [] then End
    else if |FirstFrame(stream)| > max then TooLong
    else match decode(FirstFrame(stream))
      case Some(text) => Frame(text)
      case None => NotText
  }

  function Joined(chunks: seq<seq<byte>>): seq<byte> {
    if chunks == [] then [] else chunks[0] + Joined(chunks[1..])
  }

  /**
   How many bytes a read consumes from a stream that arrives in these chunks, when so many have been read of the
   frame before: up to the newline, or up to the end of the chunk with which the frame exceeds the limit.
   */
  function Stop(read: nat, chunks: seq<seq<byte>>, max: nat): (n: nat)
    ensures n <= |Joined(chunks)|
    decreases |chunks|
  {
    if chunks == [] then 0
    else match Position(chunks[0])
      case Some(p) => p + 1
      case None => |chunks[0]| + (if read + |chunks[0]| > max then 0 else Stop(read + |chunks[0]|, chunks[1..], max))
  }

  lemma StopSkips(read: nat, chunks: seq<seq<byte>>, max: nat)
    requires read <= max
    ensures Stop(read, [[]] + chunks, max) == Stop(read, chunks, max)
  {
    assert ([[]] + chunks)[1..] == chunks;
  }

  /** A buffered reader over a stream that arrives in chunks. */
  class ChunkReader {
    var buffer: seq<byte>
    var pending: seq<seq<byte>>

    ghost predicate Valid()
      reads this
    {
      forall i | 0 <= i < |pending| :: pending[i] != []
    }

    // Everything that is still to be read.
    ghost function Stream(): seq<byte>
      reads this
    {
      buffer + Joined(pending)
    }

    // What is at hand, and the chunks that are still to come.
    ghost function Chunks(): seq<seq<byte>>
      reads this
    {
      [buffer] + pending
    }

    constructor (chunks: seq<seq<byte>>)
      requires forall i | 0 <= i < |chunks| :: chunks[i] != []
      ensures Valid() && Stream() == Joined(chunks) && Chunks() == [[]] + chunks
    {
      buffer := [];
      pending := chunks;
    }

    // `fill_buf`: what is at hand, after fetching the next chunk when nothing is; empty only at the end.
    method FillBuf() returns (available: seq<byte>)
      requires Valid()
      modifies this
      ensures Valid() && Stream() == old(Stream()) && available == buffer <= Stream() && (available == [] <==> Stream() == [])
      ensures Chunks() == old(Chunks()) || [[]] + Chunks() == old(Chunks())
      ensures available == [] ==> pending == []
    {
      if buffer == [] && pending != [] {
        buffer := pending[0];
        pending := pending[1..];
      }
      available := buffer;
    }

    // `consume`.
    method Consume(n: nat)
      requires Valid() && n <= |buffer|
      modifies this
      ensures Valid() && Stream() == old(Stream())[n..] && buffer == old(buffer)[n..] && pending == old(pending)
    {
      buffer := buffer[n..];
    }

    /**
     `read_bounded_line`. The answer depends on the stream alone, not on how it is cut into chunks. A frame is
     read to exactly behind its newline; of a frame that is too long, more than the limit but nothing behind
     its end has been consumed, how much depending on the chunks; and at no time are more bytes accumulated
     than the limit allows (`peak`).
     */
    method ReadBoundedLine(max: nat, decode: Decoder) returns (r: Read, ghost peak: nat)
      requires Valid()
      modifies this
      ensures Valid() && r == ReadOf(old(Stream()), max, decode)
      ensures !r.TooLong? ==> Stream() == old(Stream())[|FirstFrame(old(Stream()))|..] && peak == |FirstFrame(old(Stream()))|
      ensures r.TooLong? ==> Overrun(old(Stream()), Stream(), max)
      ensures Stream() == old(Stream())[Stop(0, old(Chunks()), max)..]
      ensures peak <= max
    {
      hide Joined, Position, FirstFrame, Overrun, ReadOf, Stop, ChunkReader.Stream, ChunkReader.Valid, ChunkReader.Chunks;
      ghost var stream, chunks := Stream(), Chunks();
      StreamIsJoined();
      var bytes: seq<byte> := [];
      peak := 0;
      while true
        invariant Valid() && stream == bytes + Stream() && |bytes| <= max && NEWLINE !in bytes && peak == |bytes|
        invariant Stop(0, chunks, max) == |bytes| + Stop(|bytes|, Chunks(), max)
        decreases |Stream()|
      {
        ghost var before := Chunks();
        var available := FillBuf();
        StopSkips(|bytes|, Chunks(), max);
        ghost var ahead := Stream();
        NextStop(|bytes|, max);
        if available == [] {
          assert stream == bytes;
          WholeFrame(bytes, decode);
          if bytes == [] { return End, peak; }
          break;
        }
        var pos := Position(available);
        if pos.Some? {
          var take := pos.value + 1;
          FrameEnds(bytes, available, ahead);
          Moved(bytes, ahead, take);
          Consume(take);
          assert available[..take] == ahead[..take];
          if |bytes| + take > max {
            OverrunBy(stream, Stream(), max, |bytes| + take, decode);
            return TooLong, peak;
          }
          bytes := bytes + available[..take];
          peak := |bytes|;
          break;
        }
        FrameGoesOn(bytes, available, ahead);
        Moved(bytes, ahead, |available|);
        Consume(|available|);
        assert available == ahead[..|available|];
        if |bytes| + |available| > max {
          OverrunBy(stream, Stream(), max, |bytes| + |available|, decode);
          return TooLong, peak;
        }
        ChunkDone(|bytes| + |available|, max);
        bytes := bytes + available;
        peak := |bytes|;
      }
      FrameRead(stream, max, decode);
      var text := decode(bytes);
      return (if text.Some? then Frame(text.value) else NotText), peak;
    }

    lemma StreamIsJoined()
      ensures Stream() == Joined(Chunks())
    {
      assert Chunks()[1..] == pending;
    }

    // Where the read stops, as far as it shows in what is at hand.
    lemma NextStop(read: nat, max: nat)
      requires read <= max
      ensures buffer == [] && pending == [] ==> Stop(read, Chunks(), max) == 0
      ensures Position(buffer).Some? ==> Stop(read, Chunks(), max) == Position(buffer).value + 1
      ensures Position(buffer).None? ==>
                Stop(read, Chunks(), max) == |buffer| + (if read + |buffer| > max then 0 else Stop(read + |buffer|, pending, max))
    {
      assert Chunks()[1..] == pending;
    }

    lemma ChunkDone(read: nat, max: nat)
      requires buffer == [] && read <= max
      ensures Stop(read, Chunks(), max) == Stop(read, pending, max)
    {
      StopSkips(read, pending, max);
    }
  }

  // At the end of the stream all that has been read is the frame.
  lemma WholeFrame(bytes: seq<byte>, decode: Decoder)
    requires NEWLINE !in bytes
    ensures FirstFrame(bytes) == bytes && bytes[|bytes|..] == []
    ensures bytes == [] ==> forall max: nat :: ReadOf(bytes, max, decode) == End
  {
  }

  lemma FrameRead(stream: seq<byte>, max: nat, decode: Decoder)
    requires stream != [] && |FirstFrame(stream)| <= max
    ensures ReadOf(stream, max, decode) ==
            var text := decode(FirstFrame(stream)); if text.Some? then Frame(text.value) else NotText
  {
  }

  // More than the limit but nothing behind the end of the frame has been consumed.
  ghost predicate Overrun(stream: seq<byte>, now: seq<byte>, max: nat) {
    exists n: nat :: max < n <= |FirstFrame(stream)| && n <= |stream| && now == stream[n..]
  }

  lemma OverrunBy(stream: seq<byte>, now: seq<byte>, max: nat, n: nat, decode: Decoder)
    requires max < n <= |FirstFrame(stream)| && now == stream[n..]
    ensures Overrun(stream, now, max) && ReadOf(stream, max, decode) == TooLong
  {
  }

  // The newline at hand ends the frame.
  lemma FrameEnds(bytes: seq<byte>, available: seq<byte>, ahead: seq<byte>)
    requires NEWLINE !in bytes && available <= ahead && Position(available).Some?
    ensures FirstFrame(bytes + ahead) == bytes + available[..Position(available).value + 1]
  {
    var s, p := bytes + ahead, Position(available).value;
    var q := Position(s).value;
    assert s[|bytes| + p] == NEWLINE;
    assert forall i | 0 <= i < p :: available[..p][i] == s[|bytes| + i] != NEWLINE;
    assert forall i | 0 <= i < |bytes| + p :: s[i] != NEWLINE;
    assert forall i | 0 <= i < q :: s[..q][i] == s[i] != NEWLINE;
    assert q == |bytes| + p;
    assert s[..q + 1] == bytes + available[..p + 1];
  }

  // Without a newline at hand, all of it belongs to the frame.
  lemma FrameGoesOn(bytes: seq<byte>, available: seq<byte>, ahead: seq<byte>)
    requires NEWLINE !in bytes && NEWLINE !in available && available <= ahead
    ensures bytes + available <= FirstFrame(bytes + ahead)
  {
    var s := bytes + ahead;
    assert s[..|bytes| + |available|] == bytes + available;
    assert forall i | 0 <= i < |bytes| + |available| :: s[i] == (bytes + available)[i] != NEWLINE;
  }

  lemma Moved(bytes: seq<byte>, ahead: seq<byte>, n: nat)
    requires n <= |ahead|
    ensures (bytes + ahead)[|bytes| + n..] == ahead[n..] && bytes + ahead == bytes + ahead[..n] + ahead[n..]
  {
  }

  // ---------- when the position does not depend on the chunks ----------

  /** A frame that exceeds the limit by one byte at most is consumed as a whole, however it is chunked. */
  lemma {:induction false} StopAtFrame(head: seq<byte>, chunks: seq<seq<byte>>, max: nat)
    requires NEWLINE !in head && |head| <= max && |FirstFrame(head + Joined(chunks))| <= max + 1
    ensures |head| + Stop(|head|, chunks, max) == |FirstFrame(head + Joined(chunks))|
    decreases |chunks|
  {
    hide Position, FirstFrame;
    if chunks == [] {
      assert head + [] == head;
      WholeFrame(head, _ => None);
    } else {
      var ahead := Joined(chunks);
      if Position(chunks[0]).Some? {
        FrameEnds(head, chunks[0], ahead);
      } else {
        FrameGoesOn(head, chunks[0], ahead);
        assert head + ahead == (head + chunks[0]) + Joined(chunks[1..]);
        if |head + chunks[0]| <= max {
          StopAtFrame(head + chunks[0], chunks[1..], max);
        }
      }
    }
  }

  function OneByOne(s: seq<byte>): seq<seq<byte>> {
    if s == [] then [] else [[s[0]]] + OneByOne(s[1..])
  }

  lemma {:induction false} OneByOneJoins(s: seq<byte>)
    ensures Joined(OneByOne(s)) == s
  {
    if s != [] {
      assert OneByOne(s)[1..] == OneByOne(s[1..]);
      OneByOneJoins(s[1..]);
    }
  }

  // Byte by byte, a longer frame is given up one byte behind the limit.
  lemma {:induction false} StopOneByOne(read: nat, s: seq<byte>, max: nat)
    requires read <= max && read + |FirstFrame(s)| > max + 1
    ensures read + Stop(read, OneByOne(s), max) == max + 1
    decreases |s|
  {
    var chunk := [s[0]];
    assert s[0] == NEWLINE ==> |FirstFrame(s)| == 1;
    assert OneByOne(s)[0] == chunk && OneByOne(s)[1..] == OneByOne(s[1..]);
    assert Position(chunk).None?;
    if read < max {
      assert |FirstFrame(s)| == 1 + |FirstFrame(s[1..])|;
      StopOneByOne(read + 1, s[1..], max);
    }
  }

  lemma StopAtOnce(s: seq<byte>, max: nat)
    requires s != []
    ensures Joined([s]) == s && Stop(0, [s], max) == |FirstFrame(s)|
  {
    assert [s][1..] == [];
    assert s + [] == s;
  }

  /**
   Where a read stops is the same for every chunking exactly if the frame exceeds the limit by one byte at most;
   so in particular whenever the frame fits.
   */
  lemma StopFixedIff(s: seq<byte>, max: nat)
    ensures (forall chunks | Joined(chunks) == s :: Stop(0, chunks, max) == |FirstFrame(s)|) <==> |FirstFrame(s)| <= max + 1
  {
    if |FirstFrame(s)| <= max + 1 {
      forall chunks | Joined(chunks) == s ensures Stop(0, chunks, max) == |FirstFrame(s)| {
        assert [] + s == s;
        StopAtFrame([], chunks, max);
      }
    } else {
      OneByOneJoins(s);
      StopOneByOne(0, s, max);
      assert Joined(OneByOne(s)) == s && Stop(0, OneByOne(s), max) == max + 1;
    }
  }

  /** And where it is not the same, two chunkings show it. */
  lemma StopsDiffer(s: seq<byte>, max: nat)
    requires |FirstFrame(s)| > max + 1
    ensures Joined([s]) == s && Joined(OneByOne(s)) == s && Stop(0, [s], max) == |FirstFrame(s)| && Stop(0, OneByOne(s), max) == max + 1
  {
    OneByOneJoins(s);
    StopOneByOne(0, s, max);
    StopAtOnce(s, max);
  }

  // ---------- the frames of a stream ----------

  function Frames(stream: seq<byte>): seq<seq<byte>> {
    if stream == [] then [] else [FirstFrame(stream)] + Frames(stream[|FirstFrame(stream)|..])
  }

  predicate EndsInNewline(frame: seq<byte>) {
    frame != [] && frame[|frame| - 1] == NEWLINE && NEWLINE !in frame[..|frame| - 1]
  }

  lemma FirstFrameShape(stream: seq<byte>)
    requires stream != []
    ensures var first := FirstFrame(stream);
            if Position(stream).Some? then EndsInNewline(first) else first == stream && NEWLINE !in first && stream[|first|..] == []
  {
    var first := FirstFrame(stream);
    if Position(stream).Some? { assert first[..|first| - 1] == stream[..Position(stream).value]; }
  }

  /** Reading again and again splits the stream into its lines: nothing is lost, and only the last may lack its newline. */
  lemma {:induction false} FramesAreLines(stream: seq<byte>)
    ensures Joined(Frames(stream)) == stream
    ensures forall i | 0 <= i < |Frames(stream)| :: Frames(stream)[i] != []
    ensures forall i | 0 <= i < |Frames(stream)| - 1 :: EndsInNewline(Frames(stream)[i])
    ensures stream != [] ==> Frames(stream) != [] && LastLine(Frames(stream)[|Frames(stream)| - 1])
    decreases |stream|
  {
    hide FirstFrame, Position, EndsInNewline;
    if stream != [] {
      var first := FirstFrame(stream);
      var rest := stream[|first|..];
      FirstFrameShape(stream);
      FramesAreLines(rest);
      assert Frames(stream) == [first] + Frames(rest) && Frames(stream)[1..] == Frames(rest);
      assert stream == first + rest;
    }
  }

  // The last line ends in the newline or in the end of the stream.
  predicate LastLine(frame: seq<byte>) {
    EndsInNewline(frame) || NEWLINE !in frame
  }

  // ---------- the daemon's loop over a connection ----------

  datatype Response<A> = Invalid(code: int) | Answer(answer: A)

  const INVALID_FRAME := -32600
  const INVALID_REQUEST := -32700

  // The daemon behind the loop: how a request text is read, and what a request does to the store.
  datatype Daemon<!S, !R, A> = Daemon(decode: Decoder, parse: string -> Option<R>, dispatch: (S, R) -> (S, A))

  function Respond<S, R, A>(d: Daemon<S, R, A>, store: S, text: string): (S, Response<A>) {
    match d.parse(Text.Trim(text))
    case Some(request) =>
      var (store', answer) := d.dispatch(store, request);
      (store', Answer(answer))
    case None => (store, Invalid(INVALID_REQUEST))
  }

  /** What a connection leads to, frame by frame: the store afterwards and the responses written. */
  function Serve<S, R, A>(d: Daemon<S, R, A>, store: S, frames: seq<seq<byte>>, max: nat): (S, seq<Response<A>>) {
    if frames == [] then (store, [])
    else if |frames[0]| > max || d.decode(frames[0]).None? then (store, [Invalid(INVALID_FRAME)])
    else
      var text := d.decode(frames[0]).value;
      if Text.Blank(text) then Serve(d, store, frames[1..], max)
      else
        var (store1, response) := Respond(d, store, text);
        var (store2, responses) := Serve(d, store1, frames[1..], max);
        (store2, [response] + responses)
  }

  // What serving a stream comes to, depending on how its next frame is read.
  lemma ServeNext<S, R, A>(d: Daemon<S, R, A>, store: S, ahead: seq<byte>, max: nat)
    ensures var line := ReadOf(ahead, max, d.decode);
            var served := Serve(d, store, Frames(ahead), max); var rest := Frames(ahead[|FirstFrame(ahead)|..]);
            (line.End? ==> served == (store, [])) &&
            (line.TooLong? || line.NotText? ==> served == (store, [Invalid(INVALID_FRAME)])) &&
            (line.Frame? && Text.Blank(line.text) ==> served == Serve(d, store, rest, max)) &&
            (line.Frame? && !Text.Blank(line.text) ==>
              var (store', response) := Respond(d, store, line.text);
              served.0 == Serve(d, store', rest, max).0 && served.1 == [response] + Serve(d, store', rest, max).1)
  {
    hide FirstFrame, Respond;
    if ahead != [] {
      assert Frames(ahead)[0] == FirstFrame(ahead) && Frames(ahead)[1..] == Frames(ahead[|FirstFrame(ahead)|..]);
    }
  }

  /** `handle_client`: the store and the responses are those of the frames of the stream, however it was chunked. */
  method HandleClient<S, R, A>(d: Daemon<S, R, A>, reader: ChunkReader, before: S, max: nat)
    returns (store: S, written: seq<Response<A>>)
    requires reader.Valid()
    modifies reader
    ensures store == Serve(d, before, Frames(old(reader.Stream())), max).0
    ensures written == Serve(d, before, Frames(old(reader.Stream())), max).1
  {
    hide Serve, Frames, Respond, FirstFrame, ReadOf, Overrun, ChunkReader.Stream, ChunkReader.Valid;
    store, written := before, [];
    ghost var stream := reader.Stream();
    ghost var goal := Serve(d, before, Frames(stream), max);
    while true
      invariant reader.Valid()
      invariant goal.0 == Serve(d, store, Frames(reader.Stream()), max).0
      invariant goal.1 == written + Serve(d, store, Frames(reader.Stream()), max).1
      decreases |reader.Stream()|
    {
      ServeNext(d, store, reader.Stream(), max);
      FrameShortens(reader.Stream(), max, d.decode);
      ghost var peak;
      var line;
      line, peak := reader.ReadBoundedLine(max, d.decode);
      match line {
        case End =>
          break;
        case TooLong =>
          written := written + [Invalid(INVALID_FRAME)];
          break;
        case NotText =>
          written := written + [Invalid(INVALID_FRAME)];
          break;
        case Frame(text) =>
          if Text.Blank(text) { continue; }
          var answered := Respond(d, store, text);
          store := answered.0;
          Written(written, answered.1, Serve(d, store, Frames(reader.Stream()), max).1);
          written := written + [answered.1];
      }
    }
  }

  lemma FrameShortens(ahead: seq<byte>, max: nat, decode: Decoder)
    ensures ReadOf(ahead, max, decode).Frame? ==> |ahead[|FirstFrame(ahead)|..]| < |ahead|
  {
  }

  lemma Written<A>(written: seq<Response<A>>, response: Response<A>, more: seq<Response<A>>)
    ensures written + ([response] + more) == written + [response] + more
  {
  }

  // ---------- one response per frame that is not blank ----------

  predicate Sound<S, R, A>(d: Daemon<S, R, A>, frame: seq<byte>, max: nat) {
    |frame| <= max && d.decode(frame).Some?
  }

  predicate Asks<S, R, A>(d: Daemon<S, R, A>, frame: seq<byte>, max: nat) {
    Sound(d, frame, max) && !Text.Blank(d.decode(frame).value)
  }

  // The frames before the first unsound one that are not blank.
  function Questions<S, R, A>(d: Daemon<S, R, A>, frames: seq<seq<byte>>, max: nat): seq<string> {
    if frames == [] || !Sound(d, frames[0], max) then []
    else (if Asks(d, frames[0], max) then [d.decode(frames[0]).value] else []) + Questions(d, frames[1..], max)
  }

  // The store after answering the texts one after the other.
  function StoreAfter<S, R, A>(d: Daemon<S, R, A>, store: S, texts: seq<string>): S {
    if texts == [] then store else StoreAfter(d, Respond(d, store, texts[0]).0, texts[1..])
  }

  function Answers<S, R, A>(d: Daemon<S, R, A>, store: S, texts: seq<string>): seq<Response<A>> {
    if texts == [] then [] else [Respond(d, store, texts[0]).1] + Answers(d, Respond(d, store, texts[0]).0, texts[1..])
  }

  predicate AllSound<S, R, A>(d: Daemon<S, R, A>, frames: seq<seq<byte>>, max: nat) {
    forall i | 0 <= i < |frames| :: Sound(d, frames[i], max)
  }

  /**
   Every frame that is not blank gets exactly one response, in order, up to the first frame that is too long or
   no text; that one gets a last response, and ends the connection.
   */
  lemma {:induction false} OneResponseEach<S, R, A>(d: Daemon<S, R, A>, store: S, frames: seq<seq<byte>>, max: nat)
    ensures var (end, responses) := Serve(d, store, frames, max); var asked := Questions(d, frames, max);
            end == StoreAfter(d, store, asked) && |Answers(d, store, asked)| == |asked| &&
            responses == Answers(d, store, asked) + (if AllSound(d, frames, max) then [] else [Invalid(INVALID_FRAME)])
  {
    if frames != [] && Sound(d, frames[0], max) {
      var asked, rest := Questions(d, frames, max), Questions(d, frames[1..], max);
      assert AllSound(d, frames, max) <==> AllSound(d, frames[1..], max) by {
        if AllSound(d, frames[1..], max) {
          forall i | 0 <= i < |frames| ensures Sound(d, frames[i], max) { if i > 0 { assert Sound(d, frames[1..][i - 1], max); } }
        }
      }
      if Asks(d, frames[0], max) {
        assert asked[0] == d.decode(frames[0]).value && asked[1..] == rest;
        OneResponseEach(d, Respond(d, store, asked[0]).0, frames[1..], max);
      } else {
        assert asked == rest;
        OneResponseEach(d, store, frames[1..], max);
      }
    }
  }

  // ---------- the answers of reader and daemon, told by the bytes ----------

  /**
   What a read answers: nothing more at the end; too long exactly if there are more bytes than the limit and no
   newline among as many as it allows; and else the text of the bytes up to the newline, or up to the end.
   */
  lemma ReadTells(stream: seq<byte>, max: nat, decode: Decoder)
    ensures var r := ReadOf(stream, max, decode);
            (r.End? <==> stream == []) && (r.TooLong? <==> |stream| > max && NEWLINE !in stream[..max])
    ensures ReadOf(stream, max, decode).Frame? || ReadOf(stream, max, decode).NotText? ==>
              exists n: nat :: 0 < n <= |stream| && n <= max && LineTo(stream, n) && ReadOf(stream, max, decode) ==
                var text := decode(stream[..n]); if text.Some? then Frame(text.value) else NotText
  {
    hide Position;
    if stream != [] {
      var p := Position(stream);
      if p.Some? {
        assert stream[..p.value + 1][..p.value] == stream[..p.value];
        if |stream| > max {
          if p.value < max {
            assert stream[..max][p.value] == NEWLINE;
          } else {
            assert forall i | 0 <= i < max :: stream[..max][i] == stream[..p.value][i];
          }
        }
        assert LineTo(stream, p.value + 1);
      } else {
        assert stream[..|stream|] == stream;
        assert LineTo(stream, |stream|);
      }
    }
  }

  // The first n bytes are a line: one newline at their end, or none at all and nothing behind them.
  predicate LineTo(stream: seq<byte>, n: nat)
    requires n <= |stream|
  {
    n > 0 && NEWLINE !in stream[..n - 1] && (stream[n - 1] == NEWLINE || n == |stream|)
  }

  /** A frame that cannot be read is answered with code -32600, a text that is no request with -32700, which leaves the store as it is. */
  lemma ErrorCodes<S, R, A>(d: Daemon<S, R, A>, store: S, frame: seq<byte>, text: string, max: nat)
    ensures |frame| > max || d.decode(frame).None? ==> Serve(d, store, [frame], max) == (store, [Invalid(-32600)])
    ensures d.parse(Text.Trim(text)).None? ==> Respond(d, store, text) == (store, Invalid(-32700))
    ensures d.parse(Text.Trim(text)).Some? ==>
              Respond(d, store, text) == var (after, answer) := d.dispatch(store, d.parse(Text.Trim(text)).value); (after, Answer(answer))
  {
  }

  /** A line ends behind its line feed, and nowhere else: neither at a carriage return nor at the limit itself. */
  lemma LineSample(decode: Decoder)
    ensures ReadOf([97, 13, 98, 10, 99], 4, decode) == var text := decode([97, 13, 98, 10]); if text.Some? then Frame(text.value) else NotText
    ensures ReadOf([97, 13, 98, 10, 99], 3, decode) == TooLong && ReadOf([], 0, decode) == End
  {
    var s: seq<byte> := [97, 13, 98, 10, 99];
    ReadTells(s, 4, decode);
    ReadTells(s, 3, decode);
    assert s[..3] == [97, 13, 98] && s[..4] == [97, 13, 98, 10];
    assert LineTo(s, 4);
    assert forall n: nat | 0 < n <= 4 :: LineTo(s, n) ==> n == 4;
  }
}
