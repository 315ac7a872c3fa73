/**
 What the framing functions read and what they leave: a line, a header block or a body depends only on the
 bytes it consumes, so it is the same whatever follows, and the same without what follows.
 */
module HttpExtension {
  import opened Bytes
  import opened HttpFraming

  // ----- how the buffer relates to the whole -----

  ghost function Prefixed(headers: HeaderList, block: HeaderBlock): HeaderBlock {
    match block
    case HeadersCut => HeadersCut
    case Headers(hs, rest) => Headers(headers + hs, rest)
  }

  lemma PrefixedStep(headers: HeaderList, header: (bytes, bytes), block: HeaderBlock)
    ensures Prefixed(headers + [header], block) == Prefixed(headers, Prefixed([header], block))
    ensures LastValue(headers + [header], header.0) == header.1
    ensures forall name | name != header.0 :: LastValue(headers + [header], name) == LastValue(headers, name)
  {
    assert (headers + [header])[..|headers|] == headers;
    if block.Headers? {
      assert headers + [header] + block.headers == headers + ([header] + block.headers);
    }
  }

  lemma PrependGrows(a: bytes, b: bytes, c: bytes, d: Decoded)
    requires a <= b <= c
    ensures Prepend(c[|a|..], d) == Prepend(b[|a|..], Prepend(c[|b|..], d))
    ensures Prepend(c[|a|..], Decoded([], d.ending)) == Decoded(c[|a|..], d.ending)
    ensures b == c ==> c[|b|..] == [] && Prepend(c[|b|..], d) == d
  {
    assert c[|a|..] == b[|a|..] + c[|b|..];
    Regroup(b[|a|..], c[|b|..], d.body);
  }

  lemma Regroup(a: bytes, b: bytes, c: bytes)
    ensures (a + b) + c == a + (b + c)
  {
  }

  lemma AppendToWindow(buf: bytes, pos: nat, chunk: bytes)
    requires pos <= |buf|
    ensures (buf + chunk)[pos..] == buf[pos..] + chunk
  {
  }

  lemma DropPrefix(a: bytes, b: bytes, i: nat)
    requires i <= |a|
    ensures (a + b)[..i] == a[..i] && (a + b)[i..] == a[i..] + b
  {
  }

  lemma HeaderNamesDiffer()
    ensures CONTENT_LENGTH != TRANSFER_ENCODING
  {
    assert |CONTENT_LENGTH| == 14 && |TRANSFER_ENCODING| == 17;
  }

  lemma NothingNamed(name: bytes)
    ensures LastValue([], name) == []
  {
  }

  /** One line of a header block. */
  lemma HeadersStep(w: bytes)
    requires SplitLine(w).Line? && SplitLine(w).text != []
    ensures COLON in SplitLine(w).text ==>
              ParseHeaders(w) == Prefixed([HeaderOf(SplitLine(w).text)], ParseHeaders(SplitLine(w).rest))
    ensures COLON !in SplitLine(w).text ==> ParseHeaders(w) == ParseHeaders(SplitLine(w).rest)
  {
    var block := ParseHeaders(SplitLine(w).rest);
    if block.Headers? {
      assert [] + block.headers == block.headers;
    }
  }

  /** A line that ends inside the buffer is the first line of the whole. */
  lemma LineInWindow(window: bytes, future: bytes, i: nat)
    requires i < |window| && window[i] == LF && LF !in window[..i]
    ensures SplitLine(window + future) == Line(StripCr(window[..i]), window[i + 1..] + future)
  {
    DropPrefix(window, future, i);
    DropPrefix(window, future, i + 1);
    SplitLineAt(window + future, i);
  }

  lemma SplitLineAt(w: bytes, i: nat)
    requires i < |w| && w[i] == LF && LF !in w[..i]
    ensures SplitLine(w) == Line(StripCr(w[..i]), w[i + 1..])
  {
    IndexOfUnique(w, LF, i);
  }

  lemma NoLineInWindow(window: bytes)
    requires LF !in window
    ensures SplitLine(window) == NoLine
  {
    assert window[..|window|] == window;
    IndexOfUnique(window, LF, |window|);
  }

  lemma FinishedIsComplete(w: bytes)
    ensures Decode(Finished, w) == Decoded([], Complete(w))
  {
  }

  lemma PrependNothing(d: Decoded)
    ensures Prepend([], d) == d
  {
    assert [] + d.body == d.body;
  }

  lemma NothingLeft(p: Phase)
    requires p != Finished && p != UntilClose && p != ByLength(0)
    ensures Decode(p, []) == Decoded([], Cut) || p == ChunkData(0)
  {
  }

  lemma UntilCloseStep(x: bytes, rest: bytes)
    ensures Decode(UntilClose, x + rest) == Prepend(x, Decode(UntilClose, rest))
    ensures Decode(UntilClose, []) == Decoded([], Complete([]))
  {
  }

  lemma LengthStep(n: nat, w: bytes, x: bytes, rest: bytes)
    requires w == x + rest && |x| <= n
    ensures Decode(ByLength(n), w) == Prepend(x, Decode(if n == |x| then Finished else ByLength(n - |x|), rest))
  {
    if |w| >= n {
      assert w[..n] == x + rest[..n - |x|];
      assert w[n..] == rest[n - |x|..];
      assert x + [] == x;
    }
  }

  lemma ChunkStep(n: nat, w: bytes, x: bytes, rest: bytes)
    requires w == x + rest && 0 < |x| <= n
    ensures Decode(ChunkData(n), w) == Prepend(x, Decode(if n == |x| then ChunkSize else ChunkData(n - |x|), rest))
  {
    if n == |x| {
      assert w[..n] == x && w[n..] == rest;
    } else if |w| >= n {
      assert w[..n] == x + rest[..n - |x|];
      assert w[n..] == rest[n - |x|..];
      var tail := Decode(ChunkSize, w[n..]).body;
      assert x + rest[..n - |x|] + tail == x + (rest[..n - |x|] + tail);
    }
  }

  // ----- reading looks no further than it consumes -----

  lemma LineExtends(w: bytes, t: bytes)
    requires SplitLine(w).Line?
    ensures SplitLine(w + t) == Line(SplitLine(w).text, SplitLine(w).rest + t)
  {
    var i := IndexOf(w, LF);
    LineInWindow(w, t, i);
  }

  // ----- decoding looks no further than it consumes -----

  /** Bytes after the end of a framed body do not change it. */
  lemma {:induction false} DecodeExtends(p: Phase, w: bytes, t: bytes)
    requires p != UntilClose && Decode(p, w).ending.Complete?
    ensures Decode(p, w + t) == Decoded(Decode(p, w).body, Complete(Decode(p, w).ending.rest + t))
    decreases |w|, if p.ChunkData? then 1 else 0
  {
    match p
    case Finished =>
    case ByLength(n) =>
      DropPrefix(w, t, n);
    case ChunkSize =>
      LineExtends(w, t);
      var Line(text, rest) := SplitLine(w);
      if text == [] {
        DecodeExtends(ChunkSize, rest, t);
      } else if ChunkLength(text) > 0 {
        DecodeExtends(ChunkData(ChunkLength(text)), rest, t);
      }
    case ChunkData(n) =>
      DropPrefix(w, t, n);
      DecodeExtends(ChunkSize, w[n..], t);
  }

  /** The same line in front of something else. */
  lemma LineReplaces(w: bytes, other: bytes) returns (line: bytes)
    requires SplitLine(w).Line?
    ensures w == line + SplitLine(w).rest
    ensures SplitLine(line + other) == Line(SplitLine(w).text, other)
  {
    var i := IndexOf(w, LF);
    line := w[..i + 1];
    assert line[..i] == w[..i];
    SplitLineAt(line, i);
    LineExtends(line, other);
    assert [] + other == other;
  }

  /** A framed body that is complete is already complete without the bytes left over. */
  lemma {:induction false} DecodeConsumed(p: Phase, w: bytes) returns (used: bytes)
    requires p != UntilClose && Decode(p, w).ending.Complete?
    ensures w == used + Decode(p, w).ending.rest
    ensures Decode(p, used) == Decoded(Decode(p, w).body, Complete([]))
    decreases |w|, if p.ChunkData? then 1 else 0
  {
    match p
    case Finished =>
      used := [];
    case ByLength(n) =>
      used := w[..n];
      assert used[..n] == used && used[n..] == [];
    case ChunkSize =>
      var Line(text, rest) := SplitLine(w);
      if text == [] {
        used := DecodeConsumed(ChunkSize, rest);
      } else if ChunkLength(text) > 0 {
        used := DecodeConsumed(ChunkData(ChunkLength(text)), rest);
      } else {
        used := [];
      }
      var line := LineReplaces(w, used);
      Regroup(line, used, Decode(p, w).ending.rest);
      used := line + used;
    case ChunkData(n) =>
      var tail := DecodeConsumed(ChunkSize, w[n..]);
      used := w[..n] + tail;
      assert used[..n] == w[..n] && used[n..] == tail;
      Regroup(w[..n], tail, Decode(p, w).ending.rest);
      assert w == w[..n] + w[n..];
  }

  lemma {:induction false} HeadersExtend(w: bytes, t: bytes)
    requires ParseHeaders(w).Headers?
    ensures ParseHeaders(w + t) == Headers(ParseHeaders(w).headers, ParseHeaders(w).rest + t)
    decreases |w|
  {
    LineExtends(w, t);
    if SplitLine(w).text != [] {
      HeadersExtend(SplitLine(w).rest, t);
    }
  }

  lemma HeadExtends(w: bytes, t: bytes)
    requires ParseHead(w).Head?
    ensures ParseHead(w + t) == Head(ParseHead(w).status, ParseHead(w).headers, ParseHead(w).rest + t)
  {
    LineExtends(w, t);
    HeadersExtend(SplitLine(w).rest, t);
  }

  // ----- and needs no more than it consumes -----

  lemma SameTail(a: bytes, b: bytes, t: bytes)
    requires a + t == b + t
    ensures a == b
  {
    assert |a| == |b|;
    assert a == (a + t)[..|a|] && b == (b + t)[..|b|];
  }

  /** A framed body that ends before `t` is complete without `t`. */
  lemma DecodeUncut(p: Phase, w: bytes, rest: bytes, t: bytes)
    requires p != UntilClose && Decode(p, w + t).ending == Complete(rest + t)
    ensures Decode(p, w) == Decoded(Decode(p, w + t).body, Complete(rest))
  {
    hide Decode;
    var used := DecodeConsumed(p, w + t);
    assert |used| + |rest| == |w|;
    Regroup(used, rest, t);
    SameTail(w, used + rest, t);
    DecodeExtends(p, used, rest);
    assert [] + rest == rest;
  }

  lemma NoHeadersWithoutALine(w: bytes)
    ensures SplitLine(w) == NoLine ==> ParseHeaders(w) == HeadersCut
  {
  }

  lemma HeadersEnd(w: bytes)
    requires SplitLine(w).Line? && SplitLine(w).text == []
    ensures ParseHeaders(w) == Headers([], SplitLine(w).rest)
  {
  }

  lemma LineShortens(w: bytes)
    ensures SplitLine(w).Line? ==> |SplitLine(w).rest| < |w|
  {
  }

  lemma NoneBefore(block: HeaderBlock)
    ensures Prefixed([], block) == block
  {
    if block.Headers? {
      assert [] + block.headers == block.headers;
    }
  }

  lemma NoHeaders(window: bytes)
    requires LF !in window
    ensures ParseHeaders(window) == HeadersCut
  {
    NoLineInWindow(window);
  }
}
