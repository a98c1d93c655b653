/** The text chunker: words in groups, rejoined with single spaces. Sizes count words. */
module WordChunker {
  import opened Strings

  const DEFAULT_CHUNK_SIZE := 4

  type ChunkSize = n: nat | 0 < n witness 1

  /** Unicode white space, as the standard library's word splitter sees it. */
  predicate IsSpace(c: char) {
    var n := c as int;
    || 9 <= n <= 13 || n == 32 || n == 0x85 || n == 0xA0 || n == 0x1680 || 0x2000 <= n <= 0x200A
    || n == 0x2028 || n == 0x2029 || n == 0x202F || n == 0x205F || n == 0x3000
  }

  /** The end of the word that covers position `i`. */
  function WordEnd(s: string, i: nat): (e: nat)
    requires i <= |s|
    ensures i <= e <= |s| && (e < |s| ==> IsSpace(s[e]))
    ensures forall j :: i <= j < e ==> !IsSpace(s[j])
    decreases |s| - i
  {
    if i == |s| || IsSpace(s[i]) then i else WordEnd(s, i + 1)
  }

  /** The maximal runs of characters other than white space, from position `i` on. */
  function FieldsFrom(s: string, i: nat): seq<string>
    requires i <= |s|
    decreases |s| - i
  {
    if i == |s| then []
    else if IsSpace(s[i]) then FieldsFrom(s, i + 1)
    else [s[i..WordEnd(s, i)]] + FieldsFrom(s, WordEnd(s, i))
  }

  function Fields(s: string): seq<string> { FieldsFrom(s, 0) }

  /** The words from position `i` on, joined with single spaces. */
  function JoinFrom(words: seq<string>, i: nat): string
    requires i <= |words|
    decreases |words| - i
  {
    if i == |words| then ""
    else if i + 1 == |words| then words[i]
    else words[i] + " " + JoinFrom(words, i + 1)
  }

  function Join(words: seq<string>): string { JoinFrom(words, 0) }

  // ----- chunking

  /** The pieces for the words from position `i` on: `size` words each, all but the last with a trailing space. */
  function GroupsFrom(words: seq<string>, i: nat, size: nat): seq<string>
    requires size > 0
    decreases |words| - i
  {
    if i >= |words| then [] else [Group(words, i, size)] + GroupsFrom(words, i + size, size)
  }

  function GroupEnd(words: seq<string>, i: nat, size: nat): nat { if i + size > |words| then |words| else i + size }

  function Group(words: seq<string>, i: nat, size: nat): string
    requires i < |words|
  {
    var end := GroupEnd(words, i, size);
    Join(words[i..end]) + if end < |words| then " " else ""
  }

  function Chunks(content: string, size: ChunkSize): seq<string> {
    if content == "" then []
    else if Fields(content) == [] then [content]
    else GroupsFrom(Fields(content), 0, size)
  }

  function EffectiveSize(chunkSize: int): ChunkSize { if chunkSize <= 0 then DEFAULT_CHUNK_SIZE else chunkSize }

  lemma NextGroup(done: seq<string>, words: seq<string>, i: nat, size: nat)
    requires size > 0 && i < |words|
    ensures done + GroupsFrom(words, i, size) == (done + [Group(words, i, size)]) + GroupsFrom(words, i + size, size)
  {
    MovePiece(done, Group(words, i, size), GroupsFrom(words, i + size, size));
  }

  method Chunk(content: string, chunkSize: int) returns (chunks: seq<string>)
    ensures chunks == Chunks(content, EffectiveSize(chunkSize))
  {
    var size := EffectiveSize(chunkSize);
    if content == "" {
      return [];
    }
    var words := Fields(content);
    if |words| == 0 {
      return [content];
    }
    chunks := [];
    var i := 0;
    while i < |words|
      invariant 0 <= i
      invariant GroupsFrom(words, 0, size) == chunks + GroupsFrom(words, i, size)
      decreases |words| - i
    {
      var end := i + size;
      if end > |words| {
        end := |words|;
      }
      var chunk := Join(words[i..end]);
      if end < |words| {
        chunk := chunk + " ";
      }
      assert chunk == Group(words, i, size) by {
        assert Join(words[i..end]) + "" == Join(words[i..end]);
      }
      NextGroup(chunks, words, i, size);
      chunks := chunks + [chunk];
      i := i + size;
    }
    assert chunks + [] == chunks;
  }

  // ----- what the pieces amount to

  lemma {:induction false} JoinShift(words: seq<string>, a: nat, b: nat, i: nat)
    requires a <= i <= b <= |words|
    ensures JoinFrom(words[a..b], i - a) == JoinFrom(words[..b], i)
    decreases b - i
  {
    if i < b {
      JoinShift(words, a, b, i + 1);
    }
  }

  lemma Respace(a: string, b: string, c: string)
    ensures a + " " + b + " " + c == a + " " + (b + " " + c)
  {
  }

  /** Joining up to `end`, a space, and joining the rest is joining everything. */
  lemma {:induction false} JoinSplit(words: seq<string>, i: nat, end: nat)
    requires i < end < |words|
    ensures JoinFrom(words[..end], i) + " " + JoinFrom(words, end) == JoinFrom(words, i)
    decreases end - i
  {
    if i + 1 < end {
      JoinSplit(words, i + 1, end);
      assert JoinFrom(words[..end], i) == words[i] + " " + JoinFrom(words[..end], i + 1);
      Respace(words[i], JoinFrom(words[..end], i + 1), JoinFrom(words, end));
    }
  }

  /** One group followed by the joined rest. */
  lemma GroupJoins(words: seq<string>, i: nat, size: nat)
    requires size > 0 && i < |words|
    ensures Group(words, i, size) + (if i + size < |words| then JoinFrom(words, i + size) else "") == JoinFrom(words, i)
  {
    var end := GroupEnd(words, i, size);
    JoinShift(words, i, end, i);
    assert Join(words[i..end]) == JoinFrom(words[..end], i);
    if i + size < |words| {
      JoinSplit(words, i, end);
    } else {
      assert words[..end] == words;
      assert JoinFrom(words, i) + "" + "" == JoinFrom(words, i);
    }
  }

  lemma {:induction false} GroupsJoin(words: seq<string>, i: nat, size: nat)
    requires size > 0
    ensures Concat(GroupsFrom(words, i, size)) == if i < |words| then JoinFrom(words, i) else ""
    decreases |words| - i
  {
    if i < |words| {
      GroupsJoin(words, i + size, size);
      ConcatCons(Group(words, i, size), GroupsFrom(words, i + size, size));
      GroupJoins(words, i, size);
    }
  }

  /** What a client has after appending all pieces: the words with single spaces between them. */
  function Respaced(content: string): string {
    if Fields(content) == [] then content else Join(Fields(content))
  }

  lemma ChunksRespace(content: string, size: ChunkSize)
    ensures Concat(Chunks(content, size)) == Respaced(content)
  {
    if content != "" {
      if Fields(content) == [] {
        ConcatCons(content, []);
        assert [content] + [] == [content];
        assert content + "" == content;
      } else {
        GroupsJoin(Fields(content), 0, size);
      }
    }
  }

  // ----- when nothing is lost

  /** From `i` on, white space occurs only as one plain space between two words. */
  predicate SingleSpacedFrom(s: string, i: nat) {
    forall j :: i <= j < |s| && IsSpace(s[j]) ==> s[j] == ' ' && i < j < |s| - 1 && !IsSpace(s[j + 1])
  }

  predicate SingleSpaced(s: string) { SingleSpacedFrom(s, 0) }

  predicate Blank(s: string) { forall j :: 0 <= j < |s| ==> IsSpace(s[j]) }

  /** There are no words exactly when everything is white space. */
  lemma {:induction false} NoFieldsIff(s: string, i: nat)
    requires i <= |s|
    ensures FieldsFrom(s, i) == [] <==> forall j :: i <= j < |s| ==> IsSpace(s[j])
    decreases |s| - i
  {
    if i < |s| && IsSpace(s[i]) {
      NoFieldsIff(s, i + 1);
    }
  }

  /** Joined words begin with a character that is not white space. */
  lemma {:induction false} JoinedStart(s: string, i: nat)
    requires i <= |s| && FieldsFrom(s, i) != []
    ensures Join(FieldsFrom(s, i)) != "" && !IsSpace(Join(FieldsFrom(s, i))[0])
    decreases |s| - i
  {
    if IsSpace(s[i]) {
      JoinedStart(s, i + 1);
    } else {
      var words := FieldsFrom(s, i);
      assert words[0] == s[i..WordEnd(s, i)] && words[0][0] == s[i];
    }
  }

  lemma JoinCons(w: string, rest: seq<string>)
    ensures Join([w] + rest) == if rest == [] then w else w + " " + Join(rest)
  {
    if rest != [] {
      var words := [w] + rest;
      assert words[1..|words|] == rest && words[..|words|] == words;
      JoinShift(words, 1, |words|, 1);
    }
  }

  /** From the start of a word, joining gives the text back exactly when it is single-spaced. */
  lemma {:induction false} JoinedIff(s: string, i: nat)
    requires i < |s| && !IsSpace(s[i])
    ensures Join(FieldsFrom(s, i)) == s[i..] <==> SingleSpacedFrom(s, i)
    decreases |s| - i
  {
    var e := WordEnd(s, i);
    if e == |s| {
      JoinCons(s[i..e], FieldsFrom(s, e));
    } else if s[e] == ' ' && e + 1 < |s| && !IsSpace(s[e + 1]) {
      JoinedIff(s, e + 1);
      NextWord(s, i, e);
      OneSpace(s, i, e);
    } else {
      BadSpace(s, i, e);
    }
  }

  lemma OneSpace(s: string, i: nat, e: nat)
    requires i < |s| && !IsSpace(s[i]) && e == WordEnd(s, i) && e + 1 < |s| && s[e] == ' ' && !IsSpace(s[e + 1])
    ensures Join(FieldsFrom(s, i)) == s[i..] <==> Join(FieldsFrom(s, e + 1)) == s[e + 1..]
  {
    var word, rest := s[i..e], FieldsFrom(s, e + 1);
    FieldsAfter(s, i, e);
    JoinCons(word, rest);
    SplitAtSpace(s, i, e);
    SameAfter(word + " ", Join(rest), s[e + 1..]);
  }

  lemma FieldsAfter(s: string, i: nat, e: nat)
    requires i < |s| && !IsSpace(s[i]) && e == WordEnd(s, i) && e + 1 < |s| && !IsSpace(s[e + 1])
    ensures FieldsFrom(s, e + 1) != [] && FieldsFrom(s, i) == [s[i..e]] + FieldsFrom(s, e + 1)
  {
    assert FieldsFrom(s, e) == FieldsFrom(s, e + 1);
  }

  lemma SplitAtSpace(s: string, i: nat, e: nat)
    requires i <= e < |s| && s[e] == ' '
    ensures s[i..] == s[i..e] + " " + s[e + 1..]
  {
  }

  lemma SameAfter(p: string, x: string, y: string)
    ensures p + x == p + y <==> x == y
  {
    if p + x == p + y {
      assert x == (p + x)[|p|..] && y == (p + y)[|p|..];
    }
  }

  lemma NextWord(s: string, i: nat, e: nat)
    requires i < e && e + 1 < |s| && s[e] == ' ' && !IsSpace(s[e + 1]) && forall j :: i <= j < e ==> !IsSpace(s[j])
    ensures SingleSpacedFrom(s, i) <==> SingleSpacedFrom(s, e + 1)
  {
  }

  lemma BadSpace(s: string, i: nat, e: nat)
    requires i < |s| && !IsSpace(s[i]) && e == WordEnd(s, i) && e < |s|
    requires s[e] != ' ' || e + 1 == |s| || IsSpace(s[e + 1])
    ensures !SingleSpacedFrom(s, i) && Join(FieldsFrom(s, i)) != s[i..]
  {
    var word, rest := s[i..e], FieldsFrom(s, e);
    JoinCons(word, rest);
    assert s[i..][e - i] == s[e];
    if rest != [] {
      JoinedStart(s, e);
      var joined := word + " " + Join(rest);
      assert joined[e - i] == ' ' && joined[e - i + 1] == Join(rest)[0];
      if e + 1 < |s| {
        assert s[i..][e + 1 - i] == s[e + 1];
      }
    }
  }

  /** The pieces concatenate to the text exactly when it is blank or single-spaced. */
  lemma ChunksConcatIff(content: string, size: ChunkSize)
    ensures Concat(Chunks(content, size)) == content <==> Blank(content) || SingleSpaced(content)
  {
    ChunksRespace(content, size);
    NoFieldsIff(content, 0);
    if Fields(content) != [] {
      if IsSpace(content[0]) {
        JoinedStart(content, 0);
      } else {
        JoinedIff(content, 0);
        assert content[0..] == content;
      }
    }
  }

  /** A line break becomes a space. */
  lemma LineBreakIsLost(size: ChunkSize)
    ensures Concat(Chunks("a\nb", size)) == "a b"
  {
    var s := "a\nb";
    assert WordEnd(s, 0) == 1 && WordEnd(s, 2) == 3;
    assert FieldsFrom(s, 3) == [] && FieldsFrom(s, 2) == [s[2..3]];
    assert FieldsFrom(s, 1) == FieldsFrom(s, 2);
    assert s[0..1] == "a" && s[2..3] == "b";
    assert Fields(s) == [s[0..1]] + FieldsFrom(s, 1) == ["a", "b"];
    assert JoinFrom(["a", "b"], 1) == "b";
    assert Join(["a", "b"]) == "a" + " " + "b";
    ChunksRespace(s, size);
  }
}
