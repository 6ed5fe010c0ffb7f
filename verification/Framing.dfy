/** The control socket's wire format: one newline-terminated line each way, however the stream
    is cut into chunks. */
module Framing {
  import opened Basics
  import opened Uid

  const NEWLINE: Byte := 10
  const MAX_REQUEST_BYTES := 8192
  const SERVER_CHUNK := 1024
  const CLIENT_CHUNK := 4096

  datatype Received = Line(bytes: seq<Byte>) | TooLarge | Closed

  function Joined(chunks: seq<seq<Byte>>): seq<Byte> {
    if chunks == [] then [] else chunks[0] + Joined(chunks[1..])
  }

  /** What precedes the first newline of `s`, or all of `s` when there is none. */
  function UpToNewline(s: seq<Byte>): seq<Byte> {
    if s == [] || s[0] == NEWLINE then [] else [s[0]] + UpToNewline(s[1..])
  }

  /** What `recv(n)` may deliver: the list ends where the peer stops sending. */
  predicate Chunked(chunks: seq<seq<Byte>>, n: nat) {
    forall i :: 0 <= i < |chunks| ==> 0 < |chunks[i]| <= n
  }

  function Receive(buf: seq<Byte>, chunks: seq<seq<Byte>>): Received
    decreases |chunks|
  {
    if NEWLINE in buf then Line(UpToNewline(buf))
    else if chunks == [] then Closed
    else if |buf + chunks[0]| > MAX_REQUEST_BYTES then TooLarge
    else Receive(buf + chunks[0], chunks[1..])
  }

  /** The server's read loop; `buf` is what it had buffered when it stopped. */
  method ReadRequest(chunks: seq<seq<Byte>>) returns (r: Received, buf: seq<Byte>)
    requires Chunked(chunks, SERVER_CHUNK)
    ensures r == Receive([], chunks)
    ensures |buf| <= 8192 + 1024
  {
    buf := [];
    var i := 0;
    while NEWLINE !in buf
      invariant 0 <= i <= |chunks| && |buf| <= MAX_REQUEST_BYTES
      invariant Receive([], chunks) == Receive(buf, chunks[i..])
      decreases |chunks| - i
    {
      if i == |chunks| {
        return Closed, buf;
      }
      assert chunks[i..][1..] == chunks[i + 1..];
      buf := buf + chunks[i];
      i := i + 1;
      if |buf| > MAX_REQUEST_BYTES {
        return TooLarge, buf;
      }
    }
    r := Line(UpToNewline(buf));
  }

  /** The client's read loop: `None` when the service closed without sending a byte. */
  method ReadReply(chunks: seq<seq<Byte>>) returns (r: Option<seq<Byte>>)
    requires Chunked(chunks, CLIENT_CHUNK)
    ensures r == if Joined(chunks) == [] then None else Some(UpToNewline(Joined(chunks)))
  {
    var buf: seq<Byte> := [];
    var i := 0;
    while NEWLINE !in buf
      invariant 0 <= i <= |chunks| && (buf == [] ==> i == 0)
      invariant buf + Joined(chunks[i..]) == Joined(chunks)
      decreases |chunks| - i
    {
      if i == |chunks| {
        break;
      }
      assert chunks[i..][1..] == chunks[i + 1..];
      buf := buf + chunks[i];
      i := i + 1;
    }
    if buf == [] {
      return None;
    }
    if NEWLINE in buf {
      UpToNewlineOfPrefix(buf, Joined(chunks[i..]));
    } else {
      assert buf + Joined(chunks[i..]) == buf;
    }
    return Some(UpToNewline(buf));
  }

  lemma {:induction false} UpToNewlineOfLine(line: seq<Byte>, rest: seq<Byte>)
    requires NEWLINE !in line
    ensures UpToNewline(line + [NEWLINE] + rest) == line
  {
    if line == [] {
      assert line + [NEWLINE] + rest == [NEWLINE] + rest;
    } else {
      assert (line + [NEWLINE] + rest)[1..] == line[1..] + [NEWLINE] + rest;
      UpToNewlineOfLine(line[1..], rest);
    }
  }

  lemma {:induction false} UpToNewlineOfPrefix(s: seq<Byte>, rest: seq<Byte>)
    requires NEWLINE in s
    ensures UpToNewline(s + rest) == UpToNewline(s)
  {
    if s[0] != NEWLINE {
      assert (s + rest)[1..] == s[1..] + rest;
      UpToNewlineOfPrefix(s[1..], rest);
    }
  }

  lemma {:induction false} JoinedPrefix(chunks: seq<seq<Byte>>, k: nat)
    requires k < |chunks|
    ensures Joined(chunks[..k + 1]) == chunks[0] + Joined(chunks[1..][..k])
    ensures Joined(chunks) == Joined(chunks[..k + 1]) + Joined(chunks[k + 1..])
  {
    assert chunks[..k + 1][1..] == chunks[1..][..k];
    if k == 0 {
      assert chunks[1..][..0] == [];
    } else {
      JoinedPrefix(chunks[1..], k - 1);
      assert chunks[1..][..k - 1 + 1] == chunks[1..][..k];
      assert chunks[1..][k..] == chunks[k + 1..];
    }
  }

  /** The stream after `buf` fits: nothing forces the server to give up before it ends. */
  predicate Fits(buf: seq<Byte>, chunks: seq<seq<Byte>>) {
    NEWLINE !in buf + Joined(chunks) && |buf + Joined(chunks)| <= MAX_REQUEST_BYTES
  }

  /** Some chunk boundary leaves a newline in at most 8192 bytes. */
  ghost predicate Delivered(buf: seq<Byte>, chunks: seq<seq<Byte>>) {
    exists k :: 0 <= k <= |chunks| && NEWLINE in buf + Joined(chunks[..k]) && |buf + Joined(chunks[..k])| <= MAX_REQUEST_BYTES
  }

  lemma DeliveredStep(buf: seq<Byte>, chunks: seq<seq<Byte>>)
    requires NEWLINE !in buf && chunks != []
    ensures Delivered(buf, chunks) <==> Delivered(buf + chunks[0], chunks[1..])
  {
    if Delivered(buf, chunks) {
      var k :| 0 <= k <= |chunks| && NEWLINE in buf + Joined(chunks[..k]) && |buf + Joined(chunks[..k])| <= MAX_REQUEST_BYTES;
      assert k > 0 by { assert chunks[..0] == []; }
      JoinedPrefix(chunks, k - 1);
      assert buf + Joined(chunks[..k]) == buf + chunks[0] + Joined(chunks[1..][..k - 1]);
    }
    if Delivered(buf + chunks[0], chunks[1..]) {
      var k :| 0 <= k <= |chunks| - 1 && NEWLINE in buf + chunks[0] + Joined(chunks[1..][..k]) && |buf + chunks[0] + Joined(chunks[1..][..k])| <= MAX_REQUEST_BYTES;
      JoinedPrefix(chunks, k);
      assert buf + Joined(chunks[..k + 1]) == buf + chunks[0] + Joined(chunks[1..][..k]);
    }
  }

  lemma {:induction false} ReceiveMeaning(buf: seq<Byte>, chunks: seq<seq<Byte>>)
    requires |buf| <= MAX_REQUEST_BYTES
    ensures Receive(buf, chunks).Closed? <==> Fits(buf, chunks)
    ensures Receive(buf, chunks).Line? <==> Delivered(buf, chunks)
    ensures Receive(buf, chunks).Line? ==> Receive(buf, chunks).bytes == UpToNewline(buf + Joined(chunks))
    decreases |chunks|
  {
    if NEWLINE in buf {
      UpToNewlineOfPrefix(buf, Joined(chunks));
      assert chunks[..0] == [] && buf + [] == buf;
    } else if chunks != [] {
      DeliveredStep(buf, chunks);
      assert buf + Joined(chunks) == buf + chunks[0] + Joined(chunks[1..]);
      if |buf + chunks[0]| <= MAX_REQUEST_BYTES {
        ReceiveMeaning(buf + chunks[0], chunks[1..]);
      }
    }
  }

  /** Which of its three ends the read loop reaches, for every stream and every chunking: it
      returns the stream's first line exactly when some chunk boundary leaves a newline within
      8192 bytes, finds the peer gone exactly when the whole stream is short and has no newline,
      and refuses in every other case. */
  lemma ServerReads(chunks: seq<seq<Byte>>)
    ensures Receive([], chunks).Line? <==> Delivered([], chunks)
    ensures Receive([], chunks).Line? ==> Receive([], chunks).bytes == UpToNewline(Joined(chunks))
    ensures Receive([], chunks).Closed? <==> NEWLINE !in Joined(chunks) && |Joined(chunks)| <= 8192
  {
    ReceiveMeaning([], chunks);
    assert [] + Joined(chunks) == Joined(chunks);
  }

  /** A request sent with nothing after its newline is read the same under every chunking. */
  lemma ChunkingIsIrrelevant(line: seq<Byte>, chunks: seq<seq<Byte>>)
    requires NEWLINE !in line && Joined(chunks) == line + [NEWLINE] && Chunked(chunks, SERVER_CHUNK)
    ensures Receive([], chunks) == if |line| + 1 <= 8192 then Line(line) else TooLarge
  {
    ServerReads(chunks);
    UpToNewlineOfLine(line, []);
    assert line + [NEWLINE] + [] == line + [NEWLINE];
    assert (line + [NEWLINE])[|line|] == NEWLINE;
    if |line| + 1 <= MAX_REQUEST_BYTES {
      assert chunks[..|chunks|] == chunks && [] + Joined(chunks) == Joined(chunks);
      assert Delivered([], chunks);
    } else {
      forall k | 0 <= k <= |chunks| && NEWLINE in [] + Joined(chunks[..k])
        ensures |[] + Joined(chunks[..k])| > MAX_REQUEST_BYTES
      {
        NewlineComesLast(line, chunks, k);
      }
    }
  }

  lemma NewlineComesLast(line: seq<Byte>, chunks: seq<seq<Byte>>, k: nat)
    requires NEWLINE !in line && Joined(chunks) == line + [NEWLINE]
    requires k <= |chunks| && NEWLINE in Joined(chunks[..k])
    ensures |Joined(chunks[..k])| == |line| + 1
  {
    if k > 0 {
      JoinedPrefix(chunks, k - 1);
      var prefix := Joined(chunks[..k]);
      var i :| 0 <= i < |prefix| && prefix[i] == NEWLINE;
      assert (line + [NEWLINE])[i] == NEWLINE;
    }
  }
}
