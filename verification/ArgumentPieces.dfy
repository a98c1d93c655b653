/**
 Function-call arguments in byte-bounded pieces. The pieces cut the UTF-8 text at fixed offsets and each is encoded
 as JSON on its own, which replaces every byte that does not belong to a whole character by U+FFFD.
 */
module ArgumentPieces {
  import opened Wrappers
  import opened Strings

  type Byte = b: int | 0 <= b < 256

  const ARGUMENT_CHUNK := 20

  // ----- UTF-8

  function Encode(c: char): (r: seq<Byte>)
    ensures 1 <= |r| <= 4
  {
    var n := c as int;
    if n < 0x80 then [n]
    else if n < 0x800 then [0xC0 + n / 64, 0x80 + n % 64]
    else if n < 0x10000 then [0xE0 + n / 4096, 0x80 + n / 64 % 64, 0x80 + n % 64]
    else [0xF0 + n / 262144, 0x80 + n / 4096 % 64, 0x80 + n / 64 % 64, 0x80 + n % 64]
  }

  predicate Continuation(b: Byte) { 0x80 <= b < 0xC0 }

  /** How long the character is that a first byte announces. */
  function Announced(b: Byte): nat {
    if b < 0x80 then 1 else if b < 0xE0 then 2 else if b < 0xF0 then 3 else 4
  }

  lemma EncodeShape(c: char)
    ensures !Continuation(Encode(c)[0]) && |Encode(c)| == Announced(Encode(c)[0])
    ensures forall i :: 0 < i < |Encode(c)| ==> Continuation(Encode(c)[i])
  {
  }

  /** Two digits to base 64 determine the number. */
  lemma Digits(n: nat, m: nat)
    requires n / 64 == m / 64 && n % 64 == m % 64
    ensures n == m
  {
  }

  lemma EncodeInjective(c: char, d: char)
    requires Encode(c) == Encode(d)
    ensures c == d
  {
    var n, m := c as int, d as int;
    var e, f := Encode(c), Encode(d);
    assert forall i :: 0 <= i < |e| ==> e[i] == f[i];
    if |e| == 4 {
      assert n / 4096 / 64 == n / 262144 && m / 4096 / 64 == m / 262144;
      Digits(n / 4096, m / 4096);
    }
    if |e| >= 3 {
      assert n / 64 / 64 == n / 4096 && m / 64 / 64 == m / 4096;
      Digits(n / 64, m / 64);
    }
    if |e| >= 2 {
      Digits(n, m);
    }
  }

  function Utf8(s: string): seq<Byte> {
    if s == "" then [] else Encode(s[0]) + Utf8(s[1..])
  }

  // ----- decoding

  const REPLACEMENT: char := '\U{FFFD}'

  /** Which character, if any, a byte sequence of the announced length encodes. */
  type Table = seq<Byte> -> Option<char>

  /** What reaches the other side of a JSON encoding: whole characters as they are, every other byte replaced. */
  function Decode(table: Table, bs: seq<Byte>): string {
    if bs == [] then ""
    else
      var n := Announced(bs[0]);
      if !Continuation(bs[0]) && n <= |bs| && table(bs[..n]).Some? then [table(bs[..n]).value] + Decode(table, bs[n..])
      else [REPLACEMENT] + Decode(table, bs[1..])
  }

  ghost function CharOf(e: seq<Byte>): Option<char> {
    if exists c: char :: Encode(c) == e then (var c: char :| Encode(c) == e; Some(c)) else None
  }

  /** The bytes of one whole character. */
  ghost predicate Character(table: Table, e: seq<Byte>, c: char) {
    && 0 < |e| <= 4
    && !Continuation(e[0]) && |e| == Announced(e[0])
    && (forall i :: 0 < i < |e| ==> Continuation(e[i]))
    && table(e) == Some(c)
  }

  lemma EncodeIsCharacter(c: char)
    ensures Character(CharOf, Encode(c), c)
  {
    EncodeShape(c);
    var d: char :| Encode(d) == Encode(c) && CharOf(Encode(c)) == Some(d);
    EncodeInjective(c, d);
  }

  lemma DecodeWhole(table: Table, e: seq<Byte>, c: char, rest: seq<Byte>)
    requires Character(table, e, c)
    ensures Decode(table, e + rest) == [c] + Decode(table, rest)
  {
    assert (e + rest)[..|e|] == e && (e + rest)[|e|..] == rest;
  }

  /** A text that is not cut is read back as it was. */
  lemma {:induction false} DecodeUtf8(s: string)
    ensures Decode(CharOf, Utf8(s)) == s
  {
    if s != "" {
      DecodeUtf8(s[1..]);
      EncodeIsCharacter(s[0]);
      DecodeWhole(CharOf, Encode(s[0]), s[0], Utf8(s[1..]));
      assert s == [s[0]] + s[1..];
    }
  }

  // ----- broken characters

  function Replacements(n: nat): string { seq(n, _ => REPLACEMENT) }

  lemma DecodeByte(table: Table, b: Byte, rest: seq<Byte>)
    requires Continuation(b) || 1 + |rest| < Announced(b)
    ensures Decode(table, [b] + rest) == [REPLACEMENT] + Decode(table, rest)
  {
    assert ([b] + rest)[1..] == rest;
  }

  lemma OneMore(n: nat, s: string)
    ensures [REPLACEMENT] + (Replacements(n) + s) == Replacements(n + 1) + s
  {
  }

  /** A run of continuation bytes is replaced byte by byte. */
  lemma {:induction false} DecodeTail(table: Table, bs: seq<Byte>, rest: seq<Byte>)
    requires forall i :: 0 <= i < |bs| ==> Continuation(bs[i])
    ensures Decode(table, bs + rest) == Replacements(|bs|) + Decode(table, rest)
    decreases |bs|
  {
    if bs == [] {
      assert bs + rest == rest;
      assert Replacements(0) + Decode(table, rest) == Decode(table, rest);
    } else {
      DecodeTail(table, bs[1..], rest);
      DecodeByte(table, bs[0], bs[1..] + rest);
      assert bs + rest == [bs[0]] + (bs[1..] + rest);
      OneMore(|bs| - 1, Decode(table, rest));
    }
  }

  /** The first bytes of a character, cut off by the end of a piece, are replaced byte by byte. */
  lemma DecodeHead(table: Table, e: seq<Byte>, c: char, n: nat)
    requires Character(table, e, c) && 0 < n < |e|
    ensures Decode(table, e[..n]) == Replacements(n)
  {
    var bs := e[..n];
    DecodeTail(table, bs[1..], []);
    DecodeByte(table, bs[0], bs[1..]);
    assert bs == [bs[0]] + bs[1..] && bs[1..] + [] == bs[1..];
    OneMore(n - 1, "");
    assert Replacements(n - 1) + "" == Replacements(n - 1) && Replacements(n) + "" == Replacements(n);
  }

  // ----- pieces

  function End(s: seq<Byte>, i: nat, size: nat): nat { if i + size > |s| then |s| else i + size }

  function PiecesFrom(s: seq<Byte>, i: nat, size: nat): seq<seq<Byte>>
    requires size > 0
    decreases |s| - i
  {
    if i >= |s| then [] else [s[i..End(s, i, size)]] + PiecesFrom(s, i + size, size)
  }

  /** Byte-bounded pieces; the empty text, or a non-positive size, gives one piece. */
  function Chunked(s: seq<Byte>, size: int): seq<seq<Byte>> {
    if size <= 0 || |s| == 0 then [s] else PiecesFrom(s, 0, size)
  }

  lemma {:induction false} PiecesFromCover(s: seq<Byte>, i: nat, size: nat)
    requires size > 0
    ensures Concat(PiecesFrom(s, i, size)) == if i < |s| then s[i..] else []
    decreases |s| - i
  {
    if i < |s| {
      var first, rest := s[i..End(s, i, size)], PiecesFrom(s, i + size, size);
      PiecesFromCover(s, i + size, size);
      ConcatCons(first, rest);
      assert s[i..] == first + s[End(s, i, size)..];
    }
  }

  lemma {:induction false} PieceSizes(s: seq<Byte>, i: nat, size: nat)
    requires size > 0
    ensures forall j :: 0 <= j < |PiecesFrom(s, i, size)| ==> 0 < |PiecesFrom(s, i, size)[j]| <= size
    decreases |s| - i
  {
    if i < |s| {
      PieceSizes(s, i + size, size);
    }
  }

  /** No byte is lost, no piece exceeds the size, and only the empty text yields an empty piece. */
  lemma ChunkedPieces(s: seq<Byte>, size: int)
    ensures Concat(Chunked(s, size)) == s
    ensures size > 0 ==> forall i :: 0 <= i < |Chunked(s, size)| ==> |Chunked(s, size)[i]| <= size
    ensures s != [] ==> forall i :: 0 <= i < |Chunked(s, size)| ==> Chunked(s, size)[i] != []
  {
    if size <= 0 || |s| == 0 {
      ConcatCons(s, []);
      assert [s] + [] == [s];
    } else {
      PiecesFromCover(s, 0, size);
      PieceSizes(s, 0, size);
      assert s[0..] == s;
    }
  }

  lemma NextPiece(done: seq<seq<Byte>>, s: seq<Byte>, i: nat, size: nat)
    requires size > 0 && i < |s|
    ensures done + PiecesFrom(s, i, size) == (done + [s[i..End(s, i, size)]]) + PiecesFrom(s, i + size, size)
  {
    MovePiece(done, s[i..End(s, i, size)], PiecesFrom(s, i + size, size));
  }

  method ChunkArguments(s: seq<Byte>, size: int) returns (chunks: seq<seq<Byte>>)
    ensures chunks == Chunked(s, size)
  {
    if size <= 0 || |s| == 0 {
      return [s];
    }
    chunks := [];
    var i := 0;
    while i < |s|
      invariant 0 <= i
      invariant PiecesFrom(s, 0, size) == chunks + PiecesFrom(s, i, size)
      decreases |s| - i
    {
      var end := i + size;
      if end > |s| {
        end := |s|;
      }
      NextPiece(chunks, s, i, size);
      chunks := chunks + [s[i..end]];
      i := i + size;
    }
    assert chunks + [] == chunks;
  }

  // ----- what a client has after appending all pieces

  function DecodeAll(table: Table, pieces: seq<seq<Byte>>): string {
    if pieces == [] then "" else Decode(table, pieces[0]) + DecodeAll(table, pieces[1..])
  }

  lemma DecodeAllCons(table: Table, p: seq<Byte>, rest: seq<seq<Byte>>)
    ensures DecodeAll(table, [p] + rest) == Decode(table, p) + DecodeAll(table, rest)
  {
    assert ([p] + rest)[1..] == rest;
  }

  ghost function Received(arguments: string): string {
    DecodeAll(CharOf, Chunked(Utf8(arguments), ARGUMENT_CHUNK))
  }

  /** Decoding `bs` when the current piece has room for `room` more bytes. */
  function Cut(table: Table, bs: seq<Byte>, room: nat): string
    requires room > 0
    decreases |bs|
  {
    if |bs| <= room then Decode(table, bs) else Decode(table, bs[..room]) + Cut(table, bs[room..], ARGUMENT_CHUNK)
  }

  lemma {:induction false} PiecesAreCuts(table: Table, s: seq<Byte>, i: nat)
    requires i < |s|
    ensures DecodeAll(table, PiecesFrom(s, i, ARGUMENT_CHUNK)) == Cut(table, s[i..], ARGUMENT_CHUNK)
    decreases |s| - i
  {
    var size := ARGUMENT_CHUNK;
    var first, rest := s[i..End(s, i, size)], PiecesFrom(s, i + size, size);
    DecodeAllCons(table, first, rest);
    if i + size < |s| {
      PiecesAreCuts(table, s, i + size);
      CutHead(table, first, s[i + size..]);
      assert s[i..] == first + s[i + size..];
    } else {
      assert first == s[i..] && rest == [];
      assert Decode(table, first) + "" == Decode(table, first);
    }
  }

  lemma ReceivedIsCut(arguments: string)
    ensures Received(arguments) == Cut(CharOf, Utf8(arguments), ARGUMENT_CHUNK)
  {
    var bs := Utf8(arguments);
    if bs == [] {
      DecodeAllCons(CharOf, bs, []);
      assert [bs] + [] == [bs];
    } else {
      PiecesAreCuts(CharOf, bs, 0);
      assert bs[0..] == bs;
    }
  }

  /** Room left in the current piece after a character of `k` bytes, which may have run over into the next piece. */
  function RoomAfter(room: nat, k: nat): nat
    requires 0 < room && k <= 4
  {
    if k < room then room - k else room - k + ARGUMENT_CHUNK
  }

  /** A piece that is full ends before the rest. */
  lemma CutHead(table: Table, head: seq<Byte>, rest: seq<Byte>)
    requires head != [] && rest != []
    ensures Cut(table, head + rest, |head|) == Decode(table, head) + Cut(table, rest, ARGUMENT_CHUNK)
  {
    assert (head + rest)[..|head|] == head && (head + rest)[|head|..] == rest;
  }

  lemma Regroup(a: string, b: string, c: string)
    ensures a + b + c == a + (b + c)
  {
  }

  /** What shares the current piece with a start of length `n`. */
  function Beside(rest: seq<Byte>, room: nat, n: nat): seq<Byte>
    requires n < room
  {
    if |rest| <= room - n then rest else rest[..room - n]
  }

  /** If `start` decodes to `text` beside what follows it, it can be split off a piece that has room for more. */
  lemma CutOff(table: Table, start: seq<Byte>, text: string, rest: seq<Byte>, room: nat)
    requires |start| < room
    requires Decode(table, start + Beside(rest, room, |start|)) == text + Decode(table, Beside(rest, room, |start|))
    ensures Cut(table, start + rest, room) == text + Cut(table, rest, room - |start|)
  {
    var n := room - |start|;
    if |rest| > n {
      var mid, last := rest[..n], rest[n..];
      assert rest == mid + last && start + rest == (start + mid) + last;
      CutHead(table, start + mid, last);
      CutHead(table, mid, last);
      Regroup(text, Decode(table, mid), Cut(table, last, ARGUMENT_CHUNK));
    }
  }

  lemma CutWhole(table: Table, e: seq<Byte>, c: char, rest: seq<Byte>, room: nat)
    requires Character(table, e, c) && |e| <= room
    ensures Cut(table, e + rest, room) == [c] + Cut(table, rest, RoomAfter(room, |e|))
  {
    if |e| < room {
      DecodeWhole(table, e, c, Beside(rest, room, |e|));
      CutOff(table, e, [c], rest, room);
    } else {
      CutFull(table, e, c, rest);
    }
  }

  lemma CutFull(table: Table, e: seq<Byte>, c: char, rest: seq<Byte>)
    requires Character(table, e, c)
    ensures Cut(table, e + rest, |e|) == [c] + Cut(table, rest, ARGUMENT_CHUNK)
  {
    DecodeWhole(table, e, c, []);
    assert e + [] == e && [c] + "" == [c];
    if rest == [] {
      assert e + rest == e;
    } else {
      CutHead(table, e, rest);
    }
  }

  lemma CutTail(table: Table, tail: seq<Byte>, rest: seq<Byte>)
    requires |tail| < ARGUMENT_CHUNK && forall i :: 0 <= i < |tail| ==> Continuation(tail[i])
    ensures Cut(table, tail + rest, ARGUMENT_CHUNK) == Replacements(|tail|) + Cut(table, rest, ARGUMENT_CHUNK - |tail|)
  {
    DecodeTail(table, tail, Beside(rest, ARGUMENT_CHUNK, |tail|));
    CutOff(table, tail, Replacements(|tail|), rest, ARGUMENT_CHUNK);
  }

  lemma ReplacementsAdd(m: nat, n: nat, s: string)
    ensures Replacements(m) + (Replacements(n) + s) == Replacements(m + n) + s
  {
  }

  lemma CutBroken(table: Table, e: seq<Byte>, c: char, rest: seq<Byte>, room: nat)
    requires Character(table, e, c) && 0 < room < |e|
    ensures Cut(table, e + rest, room) == Replacements(|e|) + Cut(table, rest, RoomAfter(room, |e|))
  {
    var head, tail := e[..room], e[room..];
    DecodeHead(table, e, c, room);
    assert e + rest == head + (tail + rest);
    CutHead(table, head, tail + rest);
    CutTail(table, tail, rest);
    ReplacementsAdd(|head|, |tail|, Cut(table, rest, ARGUMENT_CHUNK - |tail|));
  }

  /** No character runs over the end of a piece. */
  predicate Aligned(s: string, room: nat)
    requires 0 < room
  {
    s == "" || (|Encode(s[0])| <= room && Aligned(s[1..], RoomAfter(room, |Encode(s[0])|)))
  }

  /** Characters only get more, and stay as they are exactly when none runs over the end of a piece. */
  lemma {:induction false} CutIff(s: string, room: nat)
    requires 0 < room
    ensures |Cut(CharOf, Utf8(s), room)| >= |s|
    ensures Aligned(s, room) <==> Cut(CharOf, Utf8(s), room) == s
    ensures !Aligned(s, room) ==> |Cut(CharOf, Utf8(s), room)| > |s|
    decreases |s|
  {
    if s != "" {
      var e := Encode(s[0]);
      var after := Cut(CharOf, Utf8(s[1..]), RoomAfter(room, |e|));
      CutIff(s[1..], RoomAfter(room, |e|));
      EncodeIsCharacter(s[0]);
      if |e| <= room {
        CutWhole(CharOf, e, s[0], Utf8(s[1..]), room);
        assert s == [s[0]] + s[1..];
        assert ([s[0]] + after)[1..] == after;
      } else {
        CutBroken(CharOf, e, s[0], Utf8(s[1..]), room);
      }
    }
  }

  /** Where pieces end: after `room` bytes, and then every piece size. */
  predicate AtCut(at: int, room: nat) { at >= room && (at - room) % ARGUMENT_CHUNK == 0 }

  /** No cut falls inside a character. */
  ghost predicate CleanCuts(bs: seq<Byte>, room: nat) {
    forall at :: 0 <= at < |bs| && AtCut(at, room) ==> !Continuation(bs[at])
  }

  lemma CutShift(at: int, room: nat, k: nat)
    requires 0 < room && k <= room && k <= 4 && 0 <= at
    ensures AtCut(at + k, room) <==> AtCut(at, RoomAfter(room, k)) || (k == room && at == 0)
  {
  }

  lemma {:induction false} AlignedIff(s: string, room: nat)
    requires 0 < room
    ensures Aligned(s, room) <==> CleanCuts(Utf8(s), room)
    decreases |s|
  {
    if s != "" {
      var e := Encode(s[0]);
      EncodeShape(s[0]);
      if |e| <= room {
        AlignedIff(s[1..], RoomAfter(room, |e|));
        FirstByte(s[1..]);
        CleanCutsStep(e, Utf8(s[1..]), room);
      } else {
        assert AtCut(room, room) && Utf8(s)[room] == e[room];
      }
    }
  }

  lemma FirstByte(s: string)
    ensures Utf8(s) != [] ==> !Continuation(Utf8(s)[0])
  {
    if s != "" {
      EncodeShape(s[0]);
      assert Utf8(s)[0] == Encode(s[0])[0];
    }
  }

  lemma CleanCutsStep(e: seq<Byte>, rest: seq<Byte>, room: nat)
    requires 0 < |e| <= 4 && |e| <= room && (rest != [] ==> !Continuation(rest[0]))
    ensures CleanCuts(e + rest, room) <==> CleanCuts(rest, RoomAfter(room, |e|))
  {
    var k, bs, next := |e|, e + rest, RoomAfter(room, |e|);
    if CleanCuts(bs, room) {
      forall at | 0 <= at < |rest| && AtCut(at, next) ensures !Continuation(rest[at]) {
        CutShift(at, room, k);
        assert bs[at + k] == rest[at];
      }
    }
    if CleanCuts(rest, next) {
      forall at | 0 <= at < |bs| && AtCut(at, room) ensures !Continuation(bs[at]) {
        CutShift(at - k, room, k);
        assert bs[at] == rest[at - k];
      }
    }
  }

  /** The client has the arguments exactly when no byte at a multiple of the piece size continues a character. */
  lemma ReceivedIff(arguments: string)
    ensures Received(arguments) == arguments <==> CleanCuts(Utf8(arguments), ARGUMENT_CHUNK)
  {
    ReceivedIsCut(arguments);
    CutIff(arguments, ARGUMENT_CHUNK);
    AlignedIff(arguments, ARGUMENT_CHUNK);
  }

  predicate Ascii(s: string) { forall i :: 0 <= i < |s| ==> s[i] as int < 0x80 }

  lemma {:induction false} AsciiBytes(s: string)
    requires Ascii(s)
    ensures |Utf8(s)| == |s| && forall i :: 0 <= i < |s| ==> Utf8(s)[i] == s[i] as int
  {
    if s != "" {
      AsciiBytes(s[1..]);
    }
  }

  /** Arguments without non-ASCII characters always arrive whole. */
  lemma AsciiIsReceived(arguments: string)
    requires Ascii(arguments)
    ensures Received(arguments) == arguments
  {
    AsciiBytes(arguments);
    ReceivedIff(arguments);
  }

  lemma {:induction false} Utf8Concat(s: string, t: string)
    ensures Utf8(s + t) == Utf8(s) + Utf8(t)
    decreases |s|
  {
    if s == "" {
      assert s + t == t;
    } else {
      assert (s + t)[1..] == s[1..] + t;
      Utf8Concat(s[1..], t);
    }
  }

  /** Nineteen ASCII characters followed by an accented one: its two bytes end up in two pieces and are lost. */
  lemma SplitCharacterIsLost(s: string)
    requires |s| == 19 && Ascii(s)
    ensures Received(s + "\U{E9}") != s + "\U{E9}"
  {
    var e := Encode('\U{E9}');
    Utf8Concat(s, "\U{E9}");
    AsciiBytes(s);
    assert "\U{E9}"[1..] == "";
    assert Utf8("\U{E9}") == e && e == [0xC3, 0xA9];
    var bs := Utf8(s + "\U{E9}");
    assert bs[20] == 0xA9 && AtCut(20, ARGUMENT_CHUNK);
    ReceivedIff(s + "\U{E9}");
  }
}
