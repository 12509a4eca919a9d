/**
 `StdioAppServerTransport` (src/imcodex/appserver/client.py): newline-framed messages read from a
 byte pipe that delivers its bytes in arbitrary chunks.
 */
module Frames {
  import opened Prelude

  const NEWLINE: Byte := 10

  // The bytes `bytes.strip` removes.
  predicate IsBlankByte(b: Byte) {
    b == 32 || 9 <= b <= 13
  }

  // `not raw.strip()`
  predicate Blank(raw: seq<Byte>) {
    forall i :: 0 <= i < |raw| ==> IsBlankByte(raw[i])
  }

  /** A line is blank when it has only spaces, tabs, line and page breaks: the ASCII whitespace. */
  lemma BlankExactly(raw: seq<Byte>)
    ensures Blank(raw) <==> forall i :: 0 <= i < |raw| ==> raw[i] as int as char in " \t\n\U{b}\U{c}\r"
    ensures NEWLINE as int as char == '\n'
  {
    assert IsBlankByte(32) && forall b: Byte :: IsBlankByte(b) <==> b as int as char in " \t\n\U{b}\U{c}\r";
  }

  predicate OneLine(raw: seq<Byte>) {
    NEWLINE !in raw
  }

  // ---- What a byte stream says ----

  // `bytes.find(b"\n")`, with the length for "not found".
  function Find(s: seq<Byte>): (n: nat)
    ensures n <= |s|
    ensures OneLine(s[..n])
    ensures n < |s| ==> s[n] == NEWLINE
  {
    if s == [] || s[0] == NEWLINE then 0 else 1 + Find(s[1..])
  }

  // The lines of a stream; the last one has no terminator.
  function Lines(s: seq<Byte>): (lines: seq<seq<Byte>>)
    ensures lines != [] && forall k :: 0 <= k < |lines| ==> OneLine(lines[k])
    decreases |s|
  {
    var n := Find(s);
    if n == |s| then [s] else [s[..n]] + Lines(s[n + 1..])
  }

  function Joined(lines: seq<seq<Byte>>): seq<Byte>
    requires lines != []
  {
    if |lines| == 1 then lines[0] else lines[0] + [NEWLINE] + Joined(lines[1..])
  }

  function NonBlank(lines: seq<seq<Byte>>): (r: seq<seq<Byte>>)
  {
    if lines == [] then []
    else if Blank(lines[0]) then NonBlank(lines[1..])
    else [lines[0]] + NonBlank(lines[1..])
  }

  // The messages a stream carries.
  function FramesOf(stream: seq<Byte>): seq<seq<Byte>> {
    NonBlank(Lines(stream))
  }

  function Concat(chunks: seq<seq<Byte>>): seq<Byte> {
    if chunks == [] then [] else chunks[0] + Concat(chunks[1..])
  }

  // ---- The reader ----

  datatype Error = Closed

  class StdioTransport {
    // What was read and not yet returned.
    var buffer: seq<Byte>
    // What the pipe has still to deliver, chunk by chunk; an empty read means the end.
    var incoming: seq<seq<Byte>>

    ghost predicate Valid()
      reads this
    {
      forall k :: 0 <= k < |incoming| ==> incoming[k] != []
    }

    // The bytes not yet turned into messages.
    ghost function Stream(): seq<Byte>
      reads this
    {
      buffer + Concat(incoming)
    }

    constructor (chunks: seq<seq<Byte>>)
      requires forall k :: 0 <= k < |chunks| ==> chunks[k] != []
      ensures Valid() && Stream() == Concat(chunks)
    {
      buffer, incoming := [], chunks;
    }

    // `_read_chunk`
    method ReadChunk() returns (chunk: seq<Byte>)
      requires Valid()
      modifies this`incoming
      ensures Valid()
      ensures Concat(old(incoming)) == chunk + Concat(incoming)
      ensures chunk == [] ==> old(incoming) == [] == incoming
      ensures chunk != [] ==> |incoming| < |old(incoming)|
    {
      if incoming == [] {
        chunk := [];
      } else {
        chunk := incoming[0];
        incoming := incoming[1..];
      }
    }

    // `receive_json`: the next message, however the pipe cuts the bytes.
    method ReceiveJson() returns (r: Result<seq<Byte>, Error>)
      requires Valid()
      modifies this
      ensures Valid()
      ensures match r
              case Ok(raw) => FramesOf(old(Stream())) == [raw] + FramesOf(Stream())
              case Err(_) => FramesOf(old(Stream())) == [] && incoming == [] && FramesOf(buffer) == []
      ensures |incoming| <= |old(incoming)| && |Stream()| <= |old(Stream())|
      ensures r.Ok? ==> |Stream()| < |old(Stream())|
    {
      hide Blank, FramesOf, Find;
      while true
        invariant Valid() && FramesOf(Stream()) == FramesOf(old(Stream()))
        invariant |incoming| <= |old(incoming)| && |Stream()| <= |old(Stream())|
        decreases |incoming|, |buffer|
      {
        var newline := Find(buffer);
        if newline < |buffer| {
          ghost var before := Stream();
          var raw := buffer[..newline];
          buffer := buffer[newline + 1..];
          assert before == raw + [NEWLINE] + Stream();
          FirstLine(before, raw, Stream());
          if Blank(raw) {
            continue;
          }
          return Ok(raw);
        }
        ghost var before := Stream();
        var chunk := ReadChunk();
        assert (buffer + chunk) + Concat(incoming) == before;
        if chunk == [] {
          assert Stream() == buffer == before;
          LastLine(buffer);
          if buffer == [] {
            return Err(Closed);
          }
          var raw := buffer;
          buffer := [];
          assert Stream() == [];
          EmptyStream();
          if Blank(raw) {
            return Err(Closed);
          }
          return Ok(raw);
        }
        buffer := buffer + chunk;
      }
    }
  }

  // The first line comes off the front of the stream.
  lemma FirstLine(stream: seq<Byte>, raw: seq<Byte>, rest: seq<Byte>)
    requires stream == raw + [NEWLINE] + rest && OneLine(raw)
    ensures FramesOf(stream) == (if Blank(raw) then [] else [raw]) + FramesOf(rest)
  {
    hide Blank, Find, Lines, NonBlank;
    LinesCons(stream, raw, rest);
    NonBlankCons(Lines(stream), raw, Lines(rest));
  }

  lemma FramesUnfold(s: seq<Byte>)
    ensures Find(s) < |s| ==>
      FramesOf(s) == (if Blank(s[..Find(s)]) then [] else [s[..Find(s)]]) + FramesOf(s[Find(s) + 1..])
    ensures Find(s) == |s| ==> FramesOf(s) == if Blank(s) then [] else [s]
  {
    hide Blank, Find, NonBlank;
    if Find(s) < |s| {
      NonBlankCons(Lines(s), s[..Find(s)], Lines(s[Find(s) + 1..]));
    } else {
      NonBlankCons(Lines(s), s, []);
    }
  }

  lemma NonBlankCons(lines: seq<seq<Byte>>, first: seq<Byte>, rest: seq<seq<Byte>>)
    requires lines == [first] + rest
    ensures NonBlank(lines) == (if Blank(first) then [] else [first]) + NonBlank(rest)
    ensures NonBlank([]) == []
  {
    hide Blank;
    assert lines[0] == first && lines[1..] == rest;
  }

  lemma EmptyStream()
    ensures FramesOf([]) == [] && Blank([]) && Find([]) == 0
  {
    FramesUnfold([]);
  }

  lemma {:induction false} FindInFront(front: seq<Byte>, back: seq<Byte>)
    ensures Find(front) < |front| ==> Find(front + back) == Find(front)
    ensures OneLine(front) ==> Find(front + back) == |front| + Find(back)
    decreases |front|
  {
    if front == [] {
      assert front + back == back;
    } else {
      assert (front + back)[1..] == front[1..] + back;
      FindInFront(front[1..], back);
    }
  }

  lemma FindNewline(later: seq<Byte>)
    ensures Find([NEWLINE] + later) == 0
  {
  }

  // What is left at the end of the stream without a newline is one line.
  lemma LastLine(buffer: seq<Byte>)
    requires Find(buffer) == |buffer|
    ensures FramesOf(buffer) == if Blank(buffer) then [] else [buffer]
    ensures FramesOf([]) == []
  {
    FramesUnfold(buffer);
    EmptyStream();
  }

  // Repeated `receive_json` calls until the connection is closed, as the receive loop makes them:
  // the messages are those of the bytes, whatever the chunks.
  method ReceiveAll(chunks: seq<seq<Byte>>) returns (frames: seq<seq<Byte>>)
    requires forall k :: 0 <= k < |chunks| ==> chunks[k] != []
    ensures frames == FramesOf(Concat(chunks))
  {
    hide FramesOf;
    var transport := new StdioTransport(chunks);
    frames := [];
    while true
      invariant transport.Valid()
      invariant frames + FramesOf(transport.Stream()) == FramesOf(Concat(chunks))
      decreases |transport.Stream()|
    {
      var r := transport.ReceiveJson();
      if r.Err? {
        return;
      }
      frames := frames + [r.value];
    }
  }

  // ---- What the lines of a stream are ----

  // Every byte of the stream is in one line or is one separator.
  lemma {:induction false} LinesRejoin(s: seq<Byte>)
    ensures Joined(Lines(s)) == s
    decreases |s|
  {
    hide Find, Lines, Joined, OneLine;
    LinesUnfold(s);
    var n := Find(s);
    if n == |s| {
      JoinedOne(s);
    } else {
      LinesRejoin(s[n + 1..]);
      JoinedCons(s[..n], Lines(s[n + 1..]));
      assert s == s[..n] + [NEWLINE] + s[n + 1..];
    }
  }

  lemma LinesUnfold(s: seq<Byte>)
    ensures var n := Find(s); Lines(s) == if n == |s| then [s] else [s[..n]] + Lines(s[n + 1..])
  {
    hide Find, OneLine;
  }

  lemma JoinedOne(line: seq<Byte>)
    ensures Joined([line]) == line
  {
  }

  lemma JoinedCons(first: seq<Byte>, rest: seq<seq<Byte>>)
    requires rest != []
    ensures Joined([first] + rest) == first + [NEWLINE] + Joined(rest)
  {
    assert ([first] + rest)[1..] == rest;
  }

  lemma {:induction false} JoinedSplits(lines: seq<seq<Byte>>)
    requires lines != [] && forall k :: 0 <= k < |lines| ==> OneLine(lines[k])
    ensures Lines(Joined(lines)) == lines
  {
    if |lines| == 1 {
      FindInFront(lines[0], []);
      assert lines[0] + [] == lines[0];
    } else {
      hide Find, Lines;
      JoinedSplits(lines[1..]);
      LinesCons(Joined(lines), lines[0], Joined(lines[1..]));
      assert lines == [lines[0]] + lines[1..];
    }
  }

  lemma LinesCons(stream: seq<Byte>, raw: seq<Byte>, rest: seq<Byte>)
    requires stream == raw + [NEWLINE] + rest && OneLine(raw)
    ensures Find(stream) == |raw|
    ensures Lines(stream) == [raw] + Lines(rest)
  {
    hide Find;
    assert stream == raw + ([NEWLINE] + rest);
    FindInFront(raw, [NEWLINE] + rest);
    FindNewline(rest);
    assert stream[..|raw|] == raw;
    assert stream[|raw| + 1..] == rest;
  }

  // ---- The round trip ----

  // `json.dumps(payload) + "\n"`, one message after the other.
  function Sent(frames: seq<seq<Byte>>): seq<Byte> {
    if frames == [] then [] else frames[0] + [NEWLINE] + Sent(frames[1..])
  }

  predicate Sendable(frames: seq<seq<Byte>>) {
    forall k :: 0 <= k < |frames| ==> OneLine(frames[k]) && !Blank(frames[k])
  }

  // Whatever is sent comes back: all messages, in order, and after them whatever follows.
  lemma {:induction false} SentComesBack(frames: seq<seq<Byte>>, later: seq<Byte>)
    requires Sendable(frames)
    ensures FramesOf(Sent(frames) + later) == frames + FramesOf(later)
  {
    hide Blank, FramesOf;
    if frames == [] {
      assert Sent(frames) + later == later;
    } else {
      SentComesBack(frames[1..], later);
      var rest := Sent(frames[1..]) + later;
      assert Sent(frames) + later == frames[0] + [NEWLINE] + rest;
      FirstLine(Sent(frames) + later, frames[0], rest);
      assert frames == [frames[0]] + frames[1..];
    }
  }

  // A last message that misses its newline because the process ended is still returned.
  lemma LastMessageWithoutNewline(frames: seq<seq<Byte>>, last: seq<Byte>)
    requires Sendable(frames) && OneLine(last) && !Blank(last)
    ensures FramesOf(Sent(frames)) == frames
    ensures FramesOf(Sent(frames) + last) == frames + [last]
  {
    SentComesBack(frames, []);
    assert Sent(frames) + [] == Sent(frames);
    LastLine([]);
    SentComesBack(frames, last);
    FindInFront(last, []);
    assert last + [] == last;
    LastLine(last);
  }

  lemma {:induction false} NonBlankIsSendable(lines: seq<seq<Byte>>)
    requires forall k :: 0 <= k < |lines| ==> OneLine(lines[k])
    ensures Sendable(NonBlank(lines))
  {
    hide Blank;
    if lines != [] {
      NonBlankIsSendable(lines[1..]);
    }
  }

  // Every stream carries exactly the messages of a well-formed one.
  lemma ReframedStream(stream: seq<Byte>)
    ensures Sendable(FramesOf(stream)) && FramesOf(Sent(FramesOf(stream))) == FramesOf(stream)
  {
    NonBlankIsSendable(Lines(stream));
    SentComesBack(FramesOf(stream), []);
    EmptyStream();
    assert Sent(FramesOf(stream)) + [] == Sent(FramesOf(stream));
  }
}
