/**
 Request keys for record and replay: the text that is hashed for a request, and the relaxed variant that ignores
 chosen top-level body fields. JSON decoding is a parameter. Nothing is asked of texts that no decoded value prints
 to, so a decoder that reads `1.0` and `1` as one number, or refuses malformed numbers, is covered.
 */
module RequestKey {
  import opened Wrappers
  import opened Strings
  import opened CanonicalJson

  type Parser = string -> Option<Json>

  /** The canonical text of a decoded value is JSON again. */
  ghost predicate Rereads(parse: Parser) {
    forall b, v :: parse(b) == Some(v) ==> parse(Canon(v)).Some?
  }

  /** An empty body is never decoded. */
  function Parsed(parse: Parser, body: string): Option<Json> {
    if body == "" then None else parse(body)
  }

  ghost function CanonicalBody(parse: Parser, body: string): string {
    match Parsed(parse, body)
    case Some(v) => Canon(v)
    case None => body
  }

  /** The text fed to the hash: method, path and canonical body on separate lines. */
  ghost function Preimage(parse: Parser, verb: string, path: string, body: string): string {
    verb + "\n" + path + "\n" + CanonicalBody(parse, body)
  }

  /** Equal JSON values, or identical bytes neither of which is JSON. */
  ghost predicate SameBody(parse: Parser, a: string, b: string) {
    match (Parsed(parse, a), Parsed(parse, b))
    case (Some(u), Some(v)) => u == v
    case (None, None) => a == b
    case _ => false
  }

  predicate OneLine(s: string) { '\n' !in s }

  lemma NotCanonical(parse: Parser, a: string, v: Json, b: string)
    requires Rereads(parse) && Parsed(parse, a) == Some(v) && Parsed(parse, b).None?
    ensures Canon(v) != b
  {
    CanonStarts(v);
    assert parse(a) == Some(v);
    assert parse(Canon(v)).Some?;
  }

  lemma CanonicalBodyIff(parse: Parser, a: string, b: string)
    requires Rereads(parse)
    ensures CanonicalBody(parse, a) == CanonicalBody(parse, b) <==> SameBody(parse, a, b)
  {
    match (Parsed(parse, a), Parsed(parse, b))
    case (Some(u), Some(v)) => CanonInjective(u, v);
    case (Some(u), None) => NotCanonical(parse, a, u, b);
    case (None, Some(v)) => NotCanonical(parse, b, v, a);
    case (None, None) =>
  }

  lemma FirstLineStart(a: string, x: string)
    requires OneLine(a)
    ensures (a + "\n" + x)[0] == '\n' <==> a == ""
  {
    if a != "" {
      assert (a + "\n" + x)[0] == a[0] && a[0] in a;
    }
  }

  /** A one-line text before the first newline is determined by the whole. */
  lemma {:induction false} FirstLineUnique(a: string, b: string, x: string, y: string)
    requires OneLine(a) && OneLine(b) && a + "\n" + x == b + "\n" + y
    ensures a == b && x == y
  {
    var l, r := a + "\n" + x, b + "\n" + y;
    FirstLineStart(a, x);
    FirstLineStart(b, y);
    if a == "" {
      assert x == l[1..] && y == r[1..];
    } else {
      assert l[0] == a[0] && r[0] == b[0];
      assert l[1..] == a[1..] + "\n" + x && r[1..] == b[1..] + "\n" + y;
      FirstLineUnique(a[1..], b[1..], x, y);
      assert a == [a[0]] + a[1..] && b == [b[0]] + b[1..];
    }
  }

  lemma PreimageLines(parse: Parser, verb: string, path: string, body: string)
    ensures Preimage(parse, verb, path, body) == verb + "\n" + (path + "\n" + CanonicalBody(parse, body))
  {
  }

  /** Two requests share a preimage exactly when method and path agree and the bodies are the same. */
  lemma PreimageIff(parse: Parser, m: string, p: string, a: string, m': string, p': string, b: string)
    requires Rereads(parse) && OneLine(m) && OneLine(p) && OneLine(m') && OneLine(p')
    ensures Preimage(parse, m, p, a) == Preimage(parse, m', p', b) <==> m == m' && p == p' && SameBody(parse, a, b)
  {
    CanonicalBodyIff(parse, a, b);
    if Preimage(parse, m, p, a) == Preimage(parse, m', p', b) {
      PreimageLines(parse, m, p, a);
      PreimageLines(parse, m', p', b);
      FirstLineUnique(m, m', p + "\n" + CanonicalBody(parse, a), p' + "\n" + CanonicalBody(parse, b));
      FirstLineUnique(p, p', CanonicalBody(parse, a), CanonicalBody(parse, b));
    }
  }

  /** With a newline in a path, two different requests with non-JSON bodies can share a preimage. */
  lemma NewlineInPathCollides(parse: Parser)
    requires Parsed(parse, "x\ny").None? && Parsed(parse, "y").None?
    ensures Preimage(parse, "POST", "/a", "x\ny") == Preimage(parse, "POST", "/a\nx", "y")
  {
  }

  /** The second request carries the leading lines of the first one's body as the end of its path. */
  ghost predicate Shifted(p: string, x: string, p': string, y: string) {
    exists line :: p' == p + "\n" + line && x == line + "\n" + y
  }

  lemma ShiftedAlike(p: string, x: string, p': string, y: string)
    requires Shifted(p, x, p', y)
    ensures p != p' && p + "\n" + x == p' + "\n" + y
  {
    var line :| p' == p + "\n" + line && x == line + "\n" + y;
    assert p + "\n" + (line + "\n" + y) == p + "\n" + line + "\n" + y;
  }

  lemma LongerIsShifted(p: string, x: string, p': string, y: string)
    requires p + "\n" + x == p' + "\n" + y && |p| < |p'|
    ensures Shifted(p, x, p', y)
  {
    var whole := p + "\n" + x;
    var line := p'[|p| + 1..];
    assert p == whole[..|p|] && p' == whole[..|p'|] && whole[|p|] == '\n' && whole[|p'|] == '\n';
    assert p' == p + "\n" + line;
    assert x == whole[|p| + 1..] && y == whole[|p'| + 1..];
    assert x == line + "\n" + y;
  }

  /** A newline-joined pair is determined up to shifting lines across the join. */
  lemma JoinedAlikeIff(p: string, x: string, p': string, y: string)
    ensures p + "\n" + x == p' + "\n" + y <==> (p == p' && x == y) || Shifted(p, x, p', y) || Shifted(p', y, p, x)
  {
    if p + "\n" + x == p' + "\n" + y {
      var whole := p + "\n" + x;
      if |p| < |p'| {
        LongerIsShifted(p, x, p', y);
      } else if |p'| < |p| {
        LongerIsShifted(p', y, p, x);
      } else {
        assert p == whole[..|p|] && p' == whole[..|p|] && x == whole[|p| + 1..] && y == whole[|p| + 1..];
      }
    }
    if Shifted(p, x, p', y) {
      ShiftedAlike(p, x, p', y);
    }
    if Shifted(p', y, p, x) {
      ShiftedAlike(p', y, p, x);
    }
  }

  /**
   For arbitrary paths and bodies, the preimage identifies the request exactly when neither request is the other
   with leading body lines moved into the path.
   */
  lemma AnyPathPreimageIff(parse: Parser, m: string, p: string, a: string, m': string, p': string, b: string)
    requires Rereads(parse) && OneLine(m) && OneLine(m')
    ensures (Preimage(parse, m, p, a) == Preimage(parse, m', p', b) ==> m == m' && p == p' && SameBody(parse, a, b))
       <==> m != m'
            || !(|| Shifted(p, CanonicalBody(parse, a), p', CanonicalBody(parse, b))
                 || Shifted(p', CanonicalBody(parse, b), p, CanonicalBody(parse, a)))
  {
    var x, y := CanonicalBody(parse, a), CanonicalBody(parse, b);
    CanonicalBodyIff(parse, a, b);
    PreimageLines(parse, m, p, a);
    PreimageLines(parse, m', p', b);
    JoinedAlikeIff(p, x, p', y);
    if Preimage(parse, m, p, a) == Preimage(parse, m', p', b) {
      FirstLineUnique(m, m', p + "\n" + x, p' + "\n" + y);
    }
    if Shifted(p, x, p', y) {
      ShiftedAlike(p, x, p', y);
    }
    if Shifted(p', y, p, x) {
      ShiftedAlike(p', y, p, x);
    }
  }

  // ----- printed JSON is a single line, so JSON bodies cannot collide even then

  lemma EscapeOneLine(c: char)
    ensures OneLine(Escape(c))
  {
  }

  lemma {:induction false} EscapeAllOneLine(s: string)
    ensures OneLine(EscapeAll(s))
  {
    if s != "" {
      EscapeOneLine(s[0]);
      EscapeAllOneLine(s[1..]);
    }
  }

  lemma {:induction false} CanonOneLine(v: Json)
    ensures OneLine(Canon(v))
    decreases v, 1, 0
  {
    match v
    case JNull =>
    case JBool(_) =>
    case JNum(lex) => assert forall i :: 0 <= i < |lex| ==> IsNumChar(lex[i]);
    case JStr(s) => EscapeAllOneLine(s);
    case JArr(_) => ItemsOneLine(v, 0);
    case JObj(_) => MembersOneLine(v, Sorted(v.fields.Keys));
  }

  lemma {:induction false} ItemsOneLine(v: Json, i: nat)
    requires v.JArr? && i <= |v.items|
    ensures OneLine(Items(v, i))
    decreases v, 0, |v.items| - i
  {
    if i < |v.items| {
      CanonOneLine(v.items[i]);
      ItemsOneLine(v, i + 1);
    }
  }

  lemma {:induction false} MembersOneLine(v: Json, keys: seq<string>)
    requires v.JObj? && forall k :: k in keys ==> k in v.fields
    ensures OneLine(Members(v, keys))
    decreases v, 0, |keys|
  {
    if keys != [] {
      EscapeAllOneLine(keys[0]);
      CanonOneLine(v.fields[keys[0]]);
      MembersOneLine(v, keys[1..]);
    }
  }

  lemma LastLineEnd(p: string, x: string)
    requires OneLine(x)
    ensures (p + "\n" + x)[|p| + |x|] == '\n' <==> x == ""
  {
    if x != "" {
      assert (p + "\n" + x)[|p| + |x|] == x[|x| - 1] && x[|x| - 1] in x;
    }
  }

  lemma {:induction false} LastLineUnique(p: string, q: string, x: string, y: string)
    requires OneLine(x) && OneLine(y) && p + "\n" + x == q + "\n" + y
    ensures p == q && x == y
  {
    var l, r := p + "\n" + x, q + "\n" + y;
    LastLineEnd(p, x);
    LastLineEnd(q, y);
    if x == "" {
      assert p == l[..|l| - 1] && q == r[..|r| - 1];
    } else {
      assert l[|l| - 1] == x[|x| - 1] && r[|r| - 1] == y[|y| - 1];
      assert l[..|l| - 1] == p + "\n" + x[..|x| - 1] && r[..|r| - 1] == q + "\n" + y[..|y| - 1];
      LastLineUnique(p, q, x[..|x| - 1], y[..|y| - 1]);
      assert x == x[..|x| - 1] + [x[|x| - 1]] && y == y[..|y| - 1] + [y[|y| - 1]];
    }
  }

  /** For JSON bodies the paths may be arbitrary: only the method must be a single line. */
  lemma JsonPreimageIff(parse: Parser, m: string, p: string, a: string, m': string, p': string, b: string)
    requires Rereads(parse) && OneLine(m) && OneLine(m') && Parsed(parse, a).Some? && Parsed(parse, b).Some?
    ensures Preimage(parse, m, p, a) == Preimage(parse, m', p', b) <==> m == m' && p == p' && SameBody(parse, a, b)
  {
    CanonicalBodyIff(parse, a, b);
    if Preimage(parse, m, p, a) == Preimage(parse, m', p', b) {
      PreimageLines(parse, m, p, a);
      PreimageLines(parse, m', p', b);
      FirstLineUnique(m, m', p + "\n" + CanonicalBody(parse, a), p' + "\n" + CanonicalBody(parse, b));
      CanonOneLine(Parsed(parse, a).value);
      CanonOneLine(Parsed(parse, b).value);
      LastLineUnique(p, p', CanonicalBody(parse, a), CanonicalBody(parse, b));
    }
  }

  // ----- relaxed matching

  ghost function StripValue(ignore: set<string>, v: Json): Json {
    if v.JObj? then JObj(v.fields - ignore) else v
  }

  /** Remove ignored top-level fields and re-encode; anything but a JSON object is left alone. */
  ghost function Strip(parse: Parser, ignore: set<string>, body: string): string {
    if ignore == {} then body
    else match Parsed(parse, body)
      case Some(v) => if v.JObj? then Canon(StripValue(ignore, v)) else body
      case None => body
  }

  /** The relaxed match key, before hashing. */
  ghost function MatchKey(parse: Parser, ignore: set<string>, verb: string, path: string, body: string): string {
    Preimage(parse, verb, path, Strip(parse, ignore, body))
  }

  /** Bodies that agree once the ignored top-level fields are deleted. */
  ghost predicate SameStripped(parse: Parser, ignore: set<string>, a: string, b: string) {
    match (Parsed(parse, a), Parsed(parse, b))
    case (Some(u), Some(v)) => StripValue(ignore, u) == StripValue(ignore, v)
    case (None, None) => a == b
    case _ => false
  }

  /** The canonical text of a decoded value without the ignored fields decodes to that value. */
  ghost predicate RereadsStripped(parse: Parser, ignore: set<string>) {
    forall b, v :: parse(b) == Some(v) ==> parse(Canon(StripValue(ignore, v))) == Some(StripValue(ignore, v))
  }

  lemma StripParses(parse: Parser, ignore: set<string>, body: string)
    requires RereadsStripped(parse, ignore)
    ensures Parsed(parse, Strip(parse, ignore, body))
         == match Parsed(parse, body) case Some(v) => Some(StripValue(ignore, v)) case None => None
  {
    var p := Parsed(parse, body);
    if p.Some? && p.value.JObj? {
      var w := StripValue(ignore, p.value);
      if ignore == {} {
        assert w.fields == p.value.fields;
      } else {
        CanonStarts(w);
        assert parse(body) == Some(p.value);
        assert parse(Canon(w)) == Some(w);
      }
    }
  }

  /** Relaxed keys coincide exactly when method and path agree and the bodies agree up to ignored fields. */
  lemma MatchKeyIff(parse: Parser, ignore: set<string>,
                    m: string, p: string, a: string, m': string, p': string, b: string)
    requires Rereads(parse) && RereadsStripped(parse, ignore)
    requires OneLine(m) && OneLine(p) && OneLine(m') && OneLine(p')
    ensures MatchKey(parse, ignore, m, p, a) == MatchKey(parse, ignore, m', p', b)
       <==> m == m' && p == p' && SameStripped(parse, ignore, a, b)
  {
    var sa, sb := Strip(parse, ignore, a), Strip(parse, ignore, b);
    PreimageIff(parse, m, p, sa, m', p', sb);
    StripParses(parse, ignore, a);
    StripParses(parse, ignore, b);
    if Parsed(parse, a).None? {
      assert sa == a;
    }
    if Parsed(parse, b).None? {
      assert sb == b;
    }
  }

  /** Stripping twice is stripping once. */
  lemma StripIdempotent(parse: Parser, ignore: set<string>, body: string)
    requires RereadsStripped(parse, ignore)
    ensures Strip(parse, ignore, Strip(parse, ignore, body)) == Strip(parse, ignore, body)
  {
    StripParses(parse, ignore, body);
    var p := Parsed(parse, body);
    if p.Some? && p.value.JObj? {
      assert p.value.fields - ignore - ignore == p.value.fields - ignore;
    }
  }

  /** Requests with equal full keys have equal relaxed keys, whatever is ignored. */
  lemma FullKeyImpliesMatchKey(parse: Parser, ignore: set<string>,
                               m: string, p: string, a: string, m': string, p': string, b: string)
    requires Rereads(parse) && RereadsStripped(parse, ignore)
    requires OneLine(m) && OneLine(p) && OneLine(m') && OneLine(p')
    requires Preimage(parse, m, p, a) == Preimage(parse, m', p', b)
    ensures MatchKey(parse, ignore, m, p, a) == MatchKey(parse, ignore, m', p', b)
  {
    PreimageIff(parse, m, p, a, m', p', b);
    MatchKeyIff(parse, ignore, m, p, a, m', p', b);
  }

  // ----- a decoder that meets the assumptions

  /** No number that a floating-point decoder would refuse. */
  predicate Readable(v: Json) {
    match v
    case JNum(lex) => lex != "+"
    case JArr(_) => forall i :: 0 <= i < |v.items| ==> Readable(v.items[i])
    case JObj(_) => forall k :: k in v.fields ==> Readable(v.fields[k])
    case _ => true
  }

  /** The value as such a decoder keeps it: `1.0` is the same number as `1`. */
  function Rounded(v: Json): Json {
    match v
    case JNum(lex) => if lex == "1.0" then JNum("1") else v
    case JArr(_) => JArr(seq(|v.items|, i requires 0 <= i < |v.items| => Rounded(v.items[i])))
    case JObj(_) => JObj(map k | k in v.fields :: Rounded(v.fields[k]))
    case _ => v
  }

  /** Readable, and already as the decoder keeps it. */
  predicate Settled(v: Json) {
    match v
    case JNum(lex) => lex != "+" && lex != "1.0"
    case JArr(_) => forall i :: 0 <= i < |v.items| ==> Settled(v.items[i])
    case JObj(_) => forall k :: k in v.fields ==> Settled(v.fields[k])
    case _ => true
  }

  lemma {:induction false} RoundedSettles(v: Json)
    requires Readable(v)
    ensures Settled(Rounded(v))
  {
    match v
    case JArr(_) =>
      forall i | 0 <= i < |v.items| ensures Settled(Rounded(v.items[i])) {
        RoundedSettles(v.items[i]);
      }
    case JObj(_) =>
      forall k | k in v.fields ensures Settled(Rounded(v.fields[k])) {
        RoundedSettles(v.fields[k]);
      }
    case _ =>
  }

  lemma {:induction false} SettledStays(v: Json)
    requires Settled(v)
    ensures Readable(v) && Rounded(v) == v
  {
    match v
    case JArr(_) =>
      forall i | 0 <= i < |v.items| ensures Readable(v.items[i]) && Rounded(v.items[i]) == v.items[i] {
        SettledStays(v.items[i]);
      }
      assert Rounded(v).items == v.items;
    case JObj(_) =>
      forall k | k in v.fields ensures Readable(v.fields[k]) && Rounded(v.fields[k]) == v.fields[k] {
        SettledStays(v.fields[k]);
      }
      assert Rounded(v).fields == v.fields;
    case _ =>
  }

  /** A decoder of canonical texts that, like a floating-point one, rounds numbers and refuses malformed ones. */
  ghost function RoundingDecoder(text: string): Option<Json> {
    if exists v: Json :: Canon(v) == text && Readable(v)
    then (var v: Json :| Canon(v) == text && Readable(v); Some(Rounded(v)))
    else None
  }

  lemma DecodesRounded(v: Json)
    requires Readable(v)
    ensures RoundingDecoder(Canon(v)) == Some(Rounded(v))
  {
    var w: Json :| Canon(w) == Canon(v) && Readable(w) && RoundingDecoder(Canon(v)) == Some(Rounded(w));
    CanonInjective(v, w);
  }

  lemma DecodedIsSettled(text: string, v: Json)
    requires RoundingDecoder(text) == Some(v)
    ensures Settled(v)
  {
    var w: Json :| Canon(w) == text && Readable(w) && v == Rounded(w);
    RoundedSettles(w);
  }

  lemma SettledIsRead(v: Json)
    requires Settled(v)
    ensures RoundingDecoder(Canon(v)) == Some(v)
  {
    SettledStays(v);
    DecodesRounded(v);
  }

  lemma StrippedIsSettled(ignore: set<string>, v: Json)
    requires Settled(v)
    ensures Settled(StripValue(ignore, v))
  {
  }

  /**
   That decoder, which reads arrays and objects, meets both assumptions for every set of ignored fields, so they do not
   ask that every text be read back as it was written.
   */
  lemma LossyDecoderRereads(ignore: set<string>)
    ensures Rereads(RoundingDecoder) && RereadsStripped(RoundingDecoder, ignore)
  {
    forall b, v | RoundingDecoder(b) == Some(v)
      ensures RoundingDecoder(Canon(v)).Some?
      ensures RoundingDecoder(Canon(StripValue(ignore, v))) == Some(StripValue(ignore, v))
    {
      DecodedIsSettled(b, v);
      SettledIsRead(v);
      StrippedIsSettled(ignore, v);
      SettledIsRead(StripValue(ignore, v));
    }
  }

  /** It reads `1.0` as `1` and refuses `+`. */
  lemma LossyDecoderRounds()
    ensures RoundingDecoder("1.0") == RoundingDecoder("1") == Some(JNum("1")) && RoundingDecoder("+") == None
  {
    DecodesRounded(JNum("1.0"));
    DecodesRounded(JNum("1"));
    forall v: Json | Canon(v) == "+" ensures v == JNum("+") {
      CanonInjective(v, JNum("+"));
    }
  }

  /** Printed values that it rounds alike, up to ignored fields, are matched. */
  lemma LossyDecoderMatches(ignore: set<string>, a: Json, b: Json)
    requires Readable(a) && Readable(b) && StripValue(ignore, Rounded(a)) == StripValue(ignore, Rounded(b))
    ensures SameStripped(RoundingDecoder, ignore, Canon(a), Canon(b))
  {
    DecodesRounded(a);
    DecodesRounded(b);
    CanonStarts(a);
    CanonStarts(b);
  }
}
