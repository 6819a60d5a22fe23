/**
 The chunked coding of section 7.1 of RFC 9112: the frames that the proxy's loop writes
 (scripts/ops/https_proxy.py 76-87), and a decoder to read them back.
 */
module ChunkedCoding {
  import opened Numerals
  import opened Options

  type Byte = b: nat | b < 256

  const CRLF: seq<Byte> := [13, 10]
  /** The zero chunk and an empty trailer section. */
  const LAST: seq<Byte> := [48, 13, 10, 13, 10]

  // ---------------------------------------------------------------- printing

  function HexByte(d: nat): (b: Byte)
    requires d < 16
  {
    if d < 10 then 48 + d else 87 + d
  }

  /** "%x" */
  function Hex(n: nat): (s: seq<Byte>)
    ensures |s| == |Digits(n, 16)| && forall k :: 0 <= k < |s| ==> s[k] == HexByte(Digits(n, 16)[k])
  {
    var ds := Digits(n, 16);
    seq(|ds|, k requires 0 <= k < |ds| => HexByte(ds[k]))
  }

  function Frame(chunk: seq<Byte>): seq<Byte> {
    Hex(|chunk|) + CRLF + chunk + CRLF
  }

  function Frames(chunks: seq<seq<Byte>>): seq<Byte> {
    if chunks == [] then [] else Frame(chunks[0]) + Frames(chunks[1..])
  }

  function Concat(chunks: seq<seq<Byte>>): seq<Byte> {
    if chunks == [] then [] else chunks[0] + Concat(chunks[1..])
  }

  // ---------------------------------------------------------------- reading

  /** Hexadecimal digits may be of either case. */
  function HexDigit(b: Byte): (d: Option<nat>)
    ensures d.Some? ==> d.value < 16
  {
    if 48 <= b <= 57 then Some(b - 48)
    else if 97 <= b <= 102 then Some(b - 87)
    else if 65 <= b <= 70 then Some(b - 55)
    else None
  }

  /** The digits that `line` begins with. */
  function LeadingDigits(line: seq<Byte>): (ds: seq<nat>)
    ensures |ds| <= |line|
  {
    if line == [] || HexDigit(line[0]).None? then []
    else [HexDigit(line[0]).value] + LeadingDigits(line[1..])
  }

  /** chunk-size [ chunk-ext ]; extensions are ignored. */
  function ChunkSize(line: seq<Byte>): Option<nat> {
    var ds := LeadingDigits(line);
    if ds == [] then None
    else if |ds| == |line| || line[|ds|] in {59, 32, 9} then Some(Value(ds, 16))
    else None
  }

  /** The position of the first CRLF. */
  function LineEnd(s: seq<Byte>): (r: Option<nat>)
    ensures r.Some? ==> r.value + 2 <= |s| && s[r.value..r.value + 2] == CRLF
  {
    if |s| < 2 then None
    else if s[0] == 13 && s[1] == 10 then Some(0)
    else match LineEnd(s[1..])
      case None => None
      case Some(k) => Some(k + 1)
  }

  /** The body read so far, and whether it ended: with what follows it, too early, or wrongly. */
  datatype Decoded = Complete(body: seq<Byte>, rest: seq<Byte>) | Incomplete(body: seq<Byte>) | Malformed

  function Prepend(b: seq<Byte>, d: Decoded): Decoded {
    match d
    case Complete(body, rest) => Complete(b + body, rest)
    case Incomplete(body) => Incomplete(b + body)
    case Malformed => Malformed
  }

  /** Field lines up to an empty line. */
  function Trailer(s: seq<Byte>): Decoded {
    match LineEnd(s)
    case None => Incomplete([])
    case Some(0) => Complete([], s[2..])
    case Some(k) => Trailer(s[k + 2..])
  }

  function Decode(s: seq<Byte>): Decoded {
    match LineEnd(s)
    case None => Incomplete([])
    case Some(k) =>
      var rest := s[k + 2..];
      match ChunkSize(s[..k])
      case None => Malformed
      case Some(0) => Trailer(rest)
      case Some(n) =>
        if |rest| < n + 2 then Incomplete(if |rest| < n then rest else rest[..n])
        else if rest[n..n + 2] != CRLF then Malformed
        else Prepend(rest[..n], Decode(rest[n + 2..]))
  }

  // ---------------------------------------------------------------- one frame

  lemma {:induction false} HexIsRead(n: nat)
    ensures ChunkSize(Hex(n)) == Some(n)
  {
    DigitsOfBytes(Hex(n), Digits(n, 16));
    ValueOfDigits(n, 16);
  }

  lemma {:induction false} DigitsOfBytes(line: seq<Byte>, ds: seq<nat>)
    requires |line| == |ds|
    requires forall k :: 0 <= k < |ds| ==> ds[k] < 16 && line[k] == HexByte(ds[k])
    ensures LeadingDigits(line) == ds
  {
    if line != [] {
      DigitsOfBytes(line[1..], ds[1..]);
      assert ds == [ds[0]] + ds[1..];
    }
  }

  /** A line without CR ends at the first CRLF after it. */
  lemma {:induction false} LineEndAfter(line: seq<Byte>, s: seq<Byte>)
    requires forall k :: 0 <= k < |line| ==> line[k] != 13
    ensures LineEnd(line + CRLF + s) == Some(|line|)
  {
    var all := line + CRLF + s;
    if line != [] {
      LineEndAfter(line[1..], s);
      assert all[1..] == line[1..] + CRLF + s;
    }
  }

  lemma {:induction false} NoLineEnd(line: seq<Byte>)
    requires forall k :: 0 <= k < |line| - 1 ==> line[k] != 13
    ensures LineEnd(line) == None
  {
    if |line| >= 2 {
      NoLineEnd(line[1..]);
    }
  }

  lemma HexHasNoCr(n: nat)
    ensures forall k :: 0 <= k < |Hex(n)| ==> Hex(n)[k] != 13
  {
  }

  lemma SizeLine(n: nat, s: seq<Byte>)
    ensures var all := Hex(n) + CRLF + s;
            LineEnd(all) == Some(|Hex(n)|) && all[..|Hex(n)|] == Hex(n) && all[|Hex(n)| + 2..] == s
    ensures ChunkSize(Hex(n)) == Some(n)
  {
    HexHasNoCr(n);
    LineEndAfter(Hex(n), s);
    HexIsRead(n);
  }

  /** A frame in front of `s` puts its chunk in front of what `s` decodes to. */
  lemma FrameIsRead(chunk: seq<Byte>, s: seq<Byte>)
    requires chunk != []
    ensures Decode(Frame(chunk) + s) == Prepend(chunk, Decode(s))
  {
    var rest := chunk + CRLF + s;
    assert Frame(chunk) + s == Hex(|chunk|) + CRLF + rest;
    SizeLine(|chunk|, rest);
    assert rest[..|chunk|] == chunk && rest[|chunk|..|chunk| + 2] == CRLF && rest[|chunk| + 2..] == s;
  }

  predicate NonEmpty(chunks: seq<seq<Byte>>) {
    forall k :: 0 <= k < |chunks| ==> chunks[k] != []
  }

  /** Any split into non-empty chunks decodes to the bytes that were split. */
  lemma {:induction false} FramesAreRead(chunks: seq<seq<Byte>>, s: seq<Byte>)
    requires NonEmpty(chunks)
    ensures Decode(Frames(chunks) + s) == Prepend(Concat(chunks), Decode(s))
  {
    if chunks == [] {
      assert [] + s == s;
      PrependNothing(Decode(s));
    } else {
      var c, rest := chunks[0], chunks[1..];
      assert Frames(chunks) + s == Frame(c) + (Frames(rest) + s);
      FrameIsRead(c, Frames(rest) + s);
      FramesAreRead(rest, s);
      PrependTwice(c, Concat(rest), Decode(s));
    }
  }

  lemma PrependNothing(d: Decoded)
    ensures Prepend([], d) == d
  {
    assert !d.Malformed? ==> [] + d.body == d.body;
  }

  lemma PrependTwice(a: seq<Byte>, b: seq<Byte>, d: Decoded)
    ensures Prepend(a, Prepend(b, d)) == Prepend(a + b, d)
  {
    assert !d.Malformed? ==> a + (b + d.body) == a + b + d.body;
  }

  lemma LastIsRead()
    ensures Decode(LAST) == Complete([], [])
  {
    LineEndAfter([48], CRLF);
    assert LAST == [48] + CRLF + CRLF;
    assert LAST[..1] == [48] && LAST[3..] == CRLF;
    assert [48 as Byte][1..] == [];
    assert LeadingDigits([48]) == [0];
    assert Value([0], 16) == 0 by {
      assert [0 as nat][..0] == [];
    }
    assert LineEnd(CRLF) == Some(0);
  }

  // ---------------------------------------------------------------- cut off early

  ghost predicate ProperPrefix(p: seq<Byte>, s: seq<Byte>) {
    |p| < |s| && p == s[..|p|]
  }

  lemma CutLast(p: seq<Byte>)
    requires ProperPrefix(p, LAST)
    ensures Decode(p) == Incomplete([])
  {
    if |p| <= 2 {
      NoLineEnd(p);
    } else {
      var rest := p[3..];
      assert p == [48] + CRLF + rest;
      LineEndAfter([48], rest);
      assert p[..1] == [48];
      assert [48 as Byte][1..] == [];
      assert LeadingDigits([48]) == [0];
      assert Value([0], 16) == 0 by {
        assert [0 as nat][..0] == [];
      }
      NoLineEnd(rest);
    }
  }

  lemma CutFrame(chunk: seq<Byte>, p: seq<Byte>)
    requires chunk != [] && ProperPrefix(p, Frame(chunk))
    ensures Decode(p).Incomplete? && Decode(p).body <= chunk
  {
    var hex, f := Hex(|chunk|), Frame(chunk);
    HexHasNoCr(|chunk|);
    if |p| <= |hex| + 1 {
      forall k | 0 <= k < |p| - 1 ensures p[k] != 13 {
        assert p[k] == f[k] == hex[k];
      }
      NoLineEnd(p);
    } else {
      var rest, tail := p[|hex| + 2..], chunk + CRLF;
      assert f == hex + CRLF + tail;
      assert p == hex + CRLF + rest && rest == tail[..|rest|];
      SizeLine(|chunk|, rest);
      assert |rest| < |chunk| ==> rest == chunk[..|rest|];
      assert |rest| >= |chunk| ==> rest[..|chunk|] == chunk;
    }
  }

  lemma PrefixOfConcat(a: seq<Byte>, b: seq<Byte>, p: seq<Byte>)
    requires ProperPrefix(p, a + b)
    ensures if |p| < |a| then ProperPrefix(p, a) else p == a + p[|a|..] && ProperPrefix(p[|a|..], b)
  {
    if |p| < |a| {
      assert (a + b)[..|p|] == a[..|p|];
    } else {
      assert (a + b)[..|p|] == a + b[..|p| - |a|];
    }
  }

  /** No cut-off message passes for a whole one: each proper prefix is incomplete, with part of the body. */
  lemma {:induction false} CutIsNoticed(chunks: seq<seq<Byte>>, p: seq<Byte>)
    requires NonEmpty(chunks) && ProperPrefix(p, Frames(chunks) + LAST)
    ensures Decode(p).Incomplete? && Decode(p).body <= Concat(chunks)
  {
    if chunks == [] {
      assert Frames([]) + LAST == LAST;
      CutLast(p);
    } else {
      var c, rest := chunks[0], chunks[1..];
      var tail := Frames(rest) + LAST;
      assert Frames(chunks) + LAST == Frame(c) + tail;
      PrefixOfConcat(Frame(c), tail, p);
      if |p| < |Frame(c)| {
        CutFrame(c, p);
        assert c <= Concat(chunks);
      } else {
        var q := p[|Frame(c)|..];
        CutIsNoticed(rest, q);
        FrameIsRead(c, q);
        assert c + Decode(q).body <= c + Concat(rest);
      }
    }
  }

  // ---------------------------------------------------------------- the loop

  /** One `read` from the backend; an empty chunk is the end of the body. */
  datatype Read = Chunk(bytes: seq<Byte>) | Raise

  /** The chunks written from read `i` on; `fails` are the reads after whose frames the flush fails. */
  function Sent(inputs: seq<Read>, fails: set<nat>, i: nat): seq<seq<Byte>>
    requires i <= |inputs|
    decreases |inputs| - i
  {
    if i == |inputs| || inputs[i].Raise? || inputs[i].bytes == [] then []
    else [inputs[i].bytes] + if i in fails then [] else Sent(inputs, fails, i + 1)
  }

  /** A read raised before the loop could end. */
  predicate Aborted(inputs: seq<Read>, fails: set<nat>, i: nat)
    requires i <= |inputs|
    decreases |inputs| - i
  {
    if i == |inputs| then false
    else if inputs[i].Raise? then true
    else inputs[i].bytes != [] && i !in fails && Aborted(inputs, fails, i + 1)
  }

  /** What the loop writes from read `i` on, if no write raises. */
  function Output(inputs: seq<Read>, fails: set<nat>, i: nat): seq<Byte>
    requires i <= |inputs|
    decreases |inputs| - i
  {
    if i == |inputs| then LAST
    else if inputs[i].Raise? then []
    else if inputs[i].bytes == [] then LAST
    else Frame(inputs[i].bytes) + if i in fails then LAST else Output(inputs, fails, i + 1)
  }

  /** The bytes that reach a connection which takes only `room` of them. */
  function Cut(s: seq<Byte>, room: nat): (r: seq<Byte>)
    ensures r <= s
  {
    if |s| <= room then s else s[..room]
  }

  /** A write: if the connection cannot take all the bytes it takes those it can, and raises. */
  method Write(out: seq<Byte>, bytes: seq<Byte>, room: nat) returns (after: seq<Byte>, ok: bool)
    requires |out| <= room
    ensures after == Cut(out + bytes, room) && ok == (|out + bytes| <= room)
  {
    ok := |out| + |bytes| <= room;
    after := out + if ok then bytes else bytes[..room - |out|];
  }

  /** `out` is written, and `rest` is to follow. */
  ghost predicate Writing(whole: seq<Byte>, out: seq<Byte>, rest: seq<Byte>, room: nat) {
    whole == out + rest && |out| <= room
  }

  lemma NothingFollows(whole: seq<Byte>, out: seq<Byte>, room: nat)
    requires Writing(whole, out, [], room)
    ensures out == whole == Cut(whole, room)
  {
    assert out + [] == out;
  }

  lemma WriteKeeps(whole: seq<Byte>, out: seq<Byte>, bytes: seq<Byte>, rest: seq<Byte>, room: nat)
    requires Writing(whole, out, bytes + rest, room)
    ensures if |out + bytes| <= room then Writing(whole, out + bytes, rest, room)
            else Cut(out + bytes, room) == Cut(whole, room) && |whole| > room
  {
    assert out + (bytes + rest) == out + bytes + rest;
  }

  /** The four writes of one frame. */
  method WriteFrame(chunk: seq<Byte>, out0: seq<Byte>, room: nat, ghost whole: seq<Byte>, ghost rest: seq<Byte>)
      returns (out: seq<Byte>, ok: bool)
    requires Writing(whole, out0, Frame(chunk) + rest, room)
    ensures if ok then Writing(whole, out, rest, room) && out == out0 + Frame(chunk)
            else out == Cut(whole, room) && |whole| > room
  {
    var size := Hex(|chunk|) + CRLF;
    assert Frame(chunk) + rest == size + (chunk + (CRLF + rest));
    WriteKeeps(whole, out0, size, chunk + (CRLF + rest), room);
    out, ok := Write(out0, size, room);
    if !ok {
      return;
    }
    WriteKeeps(whole, out, chunk, CRLF + rest, room);
    out, ok := Write(out, chunk, room);
    if !ok {
      return;
    }
    WriteKeeps(whole, out, CRLF, rest, room);
    out, ok := Write(out, CRLF, room);
    assert ok ==> out == out0 + Frame(chunk);
  }

  method WriteLast(out0: seq<Byte>, room: nat, ghost whole: seq<Byte>) returns (out: seq<Byte>, raised: bool)
    requires Writing(whole, out0, LAST, room)
    ensures out == Cut(whole, room) && raised == (|whole| > room)
  {
    var ok;
    assert LAST + [] == LAST && whole + [] == whole;
    WriteKeeps(whole, out0, LAST, [], room);
    out, ok := Write(out0, LAST, room);
    raised := !ok;
  }

  /** `fails` are the reads after whose frames the flush fails; a write raises once `room` bytes are written. */
  method Forward(inputs: seq<Read>, fails: set<nat>, room: nat) returns (out: seq<Byte>, raised: bool)
    ensures out == Cut(Output(inputs, fails, 0), room)
    ensures raised == (Aborted(inputs, fails, 0) || |Output(inputs, fails, 0)| > room)
  {
    out, raised := ForwardChunks(inputs, fails, room);
    if !raised {
      out, raised := WriteLast(out, room, Output(inputs, fails, 0));
    }
  }

  lemma ChunkNext(inputs: seq<Read>, fails: set<nat>, i: nat, rest: seq<Byte>)
    requires i < |inputs| && inputs[i].Chunk? && inputs[i].bytes != []
    requires rest == if i in fails then LAST else Output(inputs, fails, i + 1)
    ensures Output(inputs, fails, i) == Frame(inputs[i].bytes) + rest
    ensures Aborted(inputs, fails, i) == (i !in fails && Aborted(inputs, fails, i + 1))
  {
  }

  /** The loop: it is left for the zero chunk, or by an exception. */
  method ForwardChunks(inputs: seq<Read>, fails: set<nat>, room: nat) returns (out: seq<Byte>, raised: bool)
    ensures var whole := Output(inputs, fails, 0);
            if raised then out == Cut(whole, room) && (Aborted(inputs, fails, 0) || |whole| > room)
            else Writing(whole, out, LAST, room) && !Aborted(inputs, fails, 0)
  {
    ghost var whole := Output(inputs, fails, 0);
    var ok;
    out, raised := [], false;
    var i := 0;
    while true
      invariant i <= |inputs| && !raised && Writing(whole, out, Output(inputs, fails, i), room)
      invariant Aborted(inputs, fails, 0) == Aborted(inputs, fails, i)
      decreases |inputs| - i
    {
      if i < |inputs| && inputs[i].Raise? {
        NothingFollows(whole, out, room);
        return out, true;
      }
      var chunk := if i < |inputs| then inputs[i].bytes else [];
      if chunk == [] {
        return;
      }
      ghost var rest := if i in fails then LAST else Output(inputs, fails, i + 1);
      ChunkNext(inputs, fails, i, rest);
      out, ok := WriteFrame(chunk, out, room, whole, rest);
      if !ok {
        return out, true;
      }
      if i in fails {
        return;
      }
      i := i + 1;
    }
  }

  /** Without a write that raises: the frames of the chunks sent, and the zero chunk unless a read raised. */
  lemma {:induction false} OutputIsFrames(inputs: seq<Read>, fails: set<nat>, i: nat)
    requires i <= |inputs|
    ensures Output(inputs, fails, i) ==
            Frames(Sent(inputs, fails, i)) + if Aborted(inputs, fails, i) then [] else LAST
    decreases |inputs| - i
  {
    if i < |inputs| && inputs[i].Chunk? && inputs[i].bytes != [] {
      var c := inputs[i].bytes;
      OutputIsFrames(inputs, fails, i + 1);
      var rest := if i in fails then [] else Sent(inputs, fails, i + 1);
      assert ([c] + rest)[1..] == rest;
      assert Frames([]) + LAST == LAST;
    }
  }

  lemma {:induction false} SentNonEmpty(inputs: seq<Read>, fails: set<nat>, i: nat)
    requires i <= |inputs|
    ensures NonEmpty(Sent(inputs, fails, i))
    decreases |inputs| - i
  {
    if i < |inputs| {
      SentNonEmpty(inputs, fails, i + 1);
    }
  }

  /** What a client decodes from what the loop writes. */
  lemma WrittenIsRead(inputs: seq<Read>, fails: set<nat>)
    ensures var sent := Sent(inputs, fails, 0);
            && Decode(Frames(sent) + LAST) == Complete(Concat(sent), [])
            && Decode(Frames(sent) + []) == Incomplete(Concat(sent))
  {
    var sent := Sent(inputs, fails, 0);
    SentNonEmpty(inputs, fails, 0);
    FramesAreRead(sent, LAST);
    FramesAreRead(sent, []);
    LastIsRead();
    assert Concat(sent) + [] == Concat(sent);
  }

  lemma PrefixOfPrefix(p: seq<Byte>, a: seq<Byte>, b: seq<Byte>)
    requires p <= a && b != []
    ensures ProperPrefix(p, a + b)
  {
  }

  /**
   What the client makes of what reaches it: complete exactly if nothing raised, neither a read nor a write, and then
   the chunks sent; otherwise incomplete, with an initial part of them.
   */
  lemma ReceivedIsRead(inputs: seq<Read>, fails: set<nat>, room: nat)
    ensures var d, sent := Decode(Cut(Output(inputs, fails, 0), room)), Sent(inputs, fails, 0);
            if Aborted(inputs, fails, 0) || |Output(inputs, fails, 0)| > room
            then d.Incomplete? && d.body <= Concat(sent)
            else d == Complete(Concat(sent), [])
  {
    var whole, sent := Output(inputs, fails, 0), Sent(inputs, fails, 0);
    OutputIsFrames(inputs, fails, 0);
    WrittenIsRead(inputs, fails);
    SentNonEmpty(inputs, fails, 0);
    var received := Cut(whole, room);
    if Aborted(inputs, fails, 0) {
      assert Frames(sent) + [] == Frames(sent);
      PrefixOfPrefix(received, Frames(sent), LAST);
      CutIsNoticed(sent, received);
    } else if |whole| > room {
      CutIsNoticed(sent, received);
    }
  }

  function Reads(chunks: seq<seq<Byte>>): (r: seq<Read>)
    ensures |r| == |chunks| && forall k :: 0 <= k < |r| ==> r[k] == Chunk(chunks[k])
  {
    seq(|chunks|, k requires 0 <= k < |chunks| => Chunk(chunks[k]))
  }

  /** The chunks written, when every read succeeds: up to and including the first whose flush fails. */
  lemma {:induction false} SentUpToFailure(chunks: seq<seq<Byte>>, fails: set<nat>, i: nat) returns (n: nat)
    requires NonEmpty(chunks) && i <= |chunks|
    ensures i <= n <= |chunks| && Sent(Reads(chunks), fails, i) == chunks[i..n]
    ensures !Aborted(Reads(chunks), fails, i)
    ensures NoneFails(fails, i, n - 1) && (n < |chunks| ==> n > i && n - 1 in fails)
    decreases |chunks| - i
  {
    if i == |chunks| {
      n := i;
    } else if i in fails {
      n := i + 1;
    } else {
      n := SentUpToFailure(chunks, fails, i + 1);
      assert chunks[i..n] == [chunks[i]] + chunks[i + 1..n];
    }
  }

  ghost predicate NoneFails(fails: set<nat>, from: nat, to: int) {
    forall k :: k in fails ==> !(from <= k < to)
  }

  /**
   The client gets the whole body exactly if no flush fails before the last chunk; after an earlier
   failure it is given a shorter body, closed by a zero chunk like a whole one.
   */
  lemma WholeBodyIff(chunks: seq<seq<Byte>>, fails: set<nat>)
    requires NonEmpty(chunks)
    ensures var sent := Sent(Reads(chunks), fails, 0);
            && Decode(Frames(sent) + LAST).Complete?
            && (Decode(Frames(sent) + LAST).body == Concat(chunks) <==> NoneFails(fails, 0, |chunks| - 1))
  {
    var n := SentUpToFailure(chunks, fails, 0);
    WrittenIsRead(Reads(chunks), fails);
    ShorterBody(chunks, n);
  }

  lemma ShorterBody(chunks: seq<seq<Byte>>, n: nat)
    requires NonEmpty(chunks) && n <= |chunks|
    ensures Concat(chunks[0..n]) == Concat(chunks) <==> n == |chunks|
  {
    var a, b := chunks[0..n], chunks[n..];
    assert chunks == a + b;
    ConcatAppend(a, b);
    if b != [] {
      assert b[0] == chunks[n];
      assert |Concat(b)| > 0;
    }
  }

  lemma {:induction false} ConcatAppend(a: seq<seq<Byte>>, b: seq<seq<Byte>>)
    ensures Concat(a + b) == Concat(a) + Concat(b)
  {
    if a == [] {
      assert [] + b == b;
    } else {
      assert (a + b)[1..] == a[1..] + b;
      ConcatAppend(a[1..], b);
    }
  }
}
