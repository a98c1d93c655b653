/**
 The canonical JSON printer that request hashing uses: object keys sorted at every level, no white space,
 scalars as the standard encoder prints them. Numbers are represented by their printed form.
 */
module CanonicalJson {
  import opened Strings

  predicate IsNumChar(c: char) {
    '0' <= c <= '9' || c == '-' || c == '+' || c == '.' || c == 'e' || c == 'E'
  }

  predicate IsNumber(s: string) {
    s != "" && forall i :: 0 <= i < |s| ==> IsNumChar(s[i])
  }

  type Number = s: string | IsNumber(s) witness "0"

  datatype Json =
    | JNull
    | JBool(b: bool)
    | JNum(lex: Number)
    | JStr(s: string)
    | JArr(items: seq<Json>)
    | JObj(fields: map<string, Json>)

  // ----- strings

  function HexDigit(d: nat): char
    requires d < 16
  {
    if d < 10 then '0' + d as char else 'a' + (d - 10) as char
  }

  function Hex4(n: nat): string
    requires n < 0x10000
  {
    [HexDigit(n / 16 / 16 / 16), HexDigit(n / 16 / 16 % 16), HexDigit(n / 16 % 16), HexDigit(n % 16)]
  }

  /** Characters printed as a four-digit escape: other control characters, the HTML-sensitive ones, line separators. */
  predicate NeedsHex(c: char) {
    || (c < ' ' && c != '\n' && c != '\r' && c != '\t' && c != '\U{0008}' && c != '\U{000C}')
    || c == '<' || c == '>' || c == '&' || c == '\U{2028}' || c == '\U{2029}'
  }

  /** The letter of a two-character escape, or the character itself when it needs none. */
  function ShortEscape(c: char): char {
    if c == '\n' then 'n' else if c == '\r' then 'r' else if c == '\t' then 't'
    else if c == '\U{0008}' then 'b' else if c == '\U{000C}' then 'f' else c
  }

  predicate HasShortEscape(c: char) {
    c == '\"' || c == '\\' || ShortEscape(c) != c
  }

  function Escape(c: char): (r: string)
    ensures r != ""
  {
    if HasShortEscape(c) then ['\\', ShortEscape(c)]
    else if NeedsHex(c) then ['\\', 'u'] + Hex4(c as int)
    else [c]
  }

  function EscapeAll(s: string): string {
    if s == "" then "" else Escape(s[0]) + EscapeAll(s[1..])
  }

  function Quote(s: string): string {
    "\"" + EscapeAll(s) + "\""
  }

  lemma HexDigitInjective(a: nat, b: nat)
    requires a < 16 && b < 16 && HexDigit(a) == HexDigit(b)
    ensures a == b
  {
  }

  lemma Hex4Injective(m: nat, n: nat)
    requires m < 0x10000 && n < 0x10000 && Hex4(m) == Hex4(n)
    ensures m == n
  {
    assert Hex4(m)[0] == Hex4(n)[0] && Hex4(m)[1] == Hex4(n)[1] && Hex4(m)[2] == Hex4(n)[2] && Hex4(m)[3] == Hex4(n)[3];
    HexDigitInjective(m / 16 / 16 / 16, n / 16 / 16 / 16);
    HexDigitInjective(m / 16 / 16 % 16, n / 16 / 16 % 16);
    HexDigitInjective(m / 16 % 16, n / 16 % 16);
    HexDigitInjective(m % 16, n % 16);
  }

  /** No escape is a proper prefix of another, so the first character of an escaped text is determined. */
  lemma EscapeUnique(c: char, d: char, x: string, y: string)
    requires Escape(c) + x == Escape(d) + y
    ensures c == d && x == y
  {
    var l, r := Escape(c) + x, Escape(d) + y;
    assert l[0] == r[0];
    assert Escape(c)[0] == Escape(d)[0];
    if |Escape(c)| > 1 {
      assert l[1] == Escape(c)[1] && r[1] == Escape(d)[1];
      if NeedsHex(c) && !HasShortEscape(c) {
        assert l[2..6] == Hex4(c as int);
        assert r[2..6] == Hex4(d as int);
        Hex4Injective(c as int, d as int);
      }
    }
    assert Escape(c) == Escape(d);
    assert x == l[|Escape(c)|..] && y == r[|Escape(d)|..];
  }

  lemma EscapeAllUnfold(s: string, x: string)
    requires s != ""
    ensures EscapeAll(s) + "\"" + x == Escape(s[0]) + (EscapeAll(s[1..]) + "\"" + x)
  {
  }

  lemma EscapeAllStarts(s: string, x: string)
    ensures (EscapeAll(s) + "\"" + x)[0] == '\"' <==> s == ""
  {
    if s != "" {
      EscapeAllUnfold(s, x);
    }
  }

  lemma {:induction false} EscapeAllUnique(s: string, t: string, x: string, y: string)
    requires EscapeAll(s) + "\"" + x == EscapeAll(t) + "\"" + y
    ensures s == t && x == y
    decreases |s|
  {
    EscapeAllStarts(s, x);
    EscapeAllStarts(t, y);
    if s == "" {
      assert "" + "\"" + x == ['\"'] + x && "" + "\"" + y == ['\"'] + y;
      SameHead('\"', '\"', x, y);
    } else {
      EscapeAllUnfold(s, x);
      EscapeAllUnfold(t, y);
      EscapeUnique(s[0], t[0], EscapeAll(s[1..]) + "\"" + x, EscapeAll(t[1..]) + "\"" + y);
      EscapeAllUnique(s[1..], t[1..], x, y);
      assert s == [s[0]] + s[1..] && t == [t[0]] + t[1..];
    }
  }

  lemma SameHead(c: char, d: char, x: string, y: string)
    requires [c] + x == [d] + y
    ensures c == d && x == y
  {
    assert ([c] + x)[0] == c && ([d] + y)[0] == d;
    assert ([c] + x)[1..] == x && ([d] + y)[1..] == y;
  }

  lemma QuoteUnfold(s: string, x: string)
    ensures Quote(s) + x == ['\"'] + (EscapeAll(s) + "\"" + x)
  {
  }

  lemma QuoteUnique(s: string, t: string, x: string, y: string)
    requires Quote(s) + x == Quote(t) + y
    ensures s == t && x == y
  {
    QuoteUnfold(s, x);
    QuoteUnfold(t, y);
    SameHead('\"', '\"', EscapeAll(s) + "\"" + x, EscapeAll(t) + "\"" + y);
    EscapeAllUnique(s, t, x, y);
  }

  // ----- values

  ghost function Canon(v: Json): string
    decreases v, 1, 0
  {
    match v
    case JNull => "null"
    case JBool(b) => if b then "true" else "false"
    case JNum(lex) => lex
    case JStr(s) => Quote(s)
    case JArr(items) => "[" + Items(v, 0) + "]"
    case JObj(fields) => "{" + Members(v, Sorted(fields.Keys)) + "}"
  }

  /** The elements from position `i` on, separated by commas. */
  ghost function Items(v: Json, i: nat): string
    requires v.JArr? && i <= |v.items|
    decreases v, 0, |v.items| - i
  {
    if i == |v.items| then ""
    else Canon(v.items[i]) + if i + 1 == |v.items| then "" else "," + Items(v, i + 1)
  }

  ghost function Member(v: Json, k: string): string
    requires v.JObj? && k in v.fields
    decreases v, 0, 0
  {
    Quote(k) + ":" + Canon(v.fields[k])
  }

  /** The members under `keys`, separated by commas. */
  ghost function Members(v: Json, keys: seq<string>): string
    requires v.JObj? && forall k :: k in keys ==> k in v.fields
    decreases v, 0, |keys| + 1
  {
    if keys == [] then ""
    else Member(v, keys[0]) + if |keys| == 1 then "" else "," + Members(v, keys[1..])
  }

  // ----- unambiguity

  /** What may follow a printed value: nothing, or a character no number continues with. */
  predicate Ends(x: string) {
    x == "" || !IsNumChar(x[0])
  }

  predicate StartsValue(c: char) {
    c == 'n' || c == 't' || c == 'f' || c == '\"' || c == '[' || c == '{' || IsNumChar(c)
  }

  lemma CanonStarts(v: Json)
    ensures Canon(v) != "" && StartsValue(Canon(v)[0])
    ensures Canon(v)[0] == match v
              case JNull => 'n'
              case JBool(b) => if b then 't' else 'f'
              case JNum(lex) => lex[0]
              case JStr(_) => '\"'
              case JArr(_) => '['
              case JObj(_) => '{'
  {
  }

  /** Length of the longest prefix made of number characters. */
  function NumSpan(s: string): nat {
    if s == "" || !IsNumChar(s[0]) then 0 else 1 + NumSpan(s[1..])
  }

  lemma {:induction false} NumSpanOfNumber(a: string, x: string)
    requires (forall i :: 0 <= i < |a| ==> IsNumChar(a[i])) && Ends(x)
    ensures NumSpan(a + x) == |a|
  {
    if a == "" {
      assert a + x == x;
    } else {
      NumSpanOfNumber(a[1..], x);
      assert (a + x)[1..] == a[1..] + x;
    }
  }

  lemma NumberUnique(a: string, b: string, x: string, y: string)
    requires IsNumber(a) && IsNumber(b) && Ends(x) && Ends(y) && a + x == b + y
    ensures a == b && x == y
  {
    NumSpanOfNumber(a, x);
    NumSpanOfNumber(b, y);
    assert a == (a + x)[..|a|] && b == (b + y)[..|b|];
    assert x == (a + x)[|a|..] && y == (b + y)[|b|..];
  }

  /** What follows element `j - 1` of an array: a comma and the rest, or the closing bracket. */
  ghost function AfterItem(v: Json, j: nat, x: string): (r: string)
    requires v.JArr? && j <= |v.items|
    ensures Ends(r)
  {
    if j == |v.items| then [']'] + x else [','] + (Items(v, j) + "]" + x)
  }

  lemma ItemsUnfold(v: Json, i: nat, x: string)
    requires v.JArr? && i < |v.items|
    ensures Items(v, i) + "]" + x == Canon(v.items[i]) + AfterItem(v, i + 1, x)
  {
  }

  lemma ItemsStart(v: Json, i: nat, x: string)
    requires v.JArr? && i <= |v.items|
    ensures (Items(v, i) + "]" + x)[0] == ']' <==> i == |v.items|
  {
    if i < |v.items| {
      ItemsUnfold(v, i, x);
      CanonStarts(v.items[i]);
    }
  }

  /** What follows a member when `keys` are still to come. */
  ghost function AfterMember(v: Json, keys: seq<string>, x: string): (r: string)
    requires v.JObj? && forall k :: k in keys ==> k in v.fields
    ensures Ends(r)
  {
    if keys == [] then ['}'] + x else [','] + (Members(v, keys) + "}" + x)
  }

  lemma MembersUnfold(v: Json, keys: seq<string>, x: string)
    requires v.JObj? && keys != [] && forall k :: k in keys ==> k in v.fields
    ensures Members(v, keys) + "}" + x == Member(v, keys[0]) + AfterMember(v, keys[1..], x)
  {
  }

  lemma MembersStart(v: Json, keys: seq<string>, x: string)
    requires v.JObj? && forall k :: k in keys ==> k in v.fields
    ensures (Members(v, keys) + "}" + x)[0] == '}' <==> keys == []
  {
    if keys != [] {
      MembersUnfold(v, keys, x);
      assert (Members(v, keys) + "}" + x)[0] == Quote(keys[0])[0];
    }
  }

  lemma MemberUnfold(v: Json, k: string, x: string)
    requires v.JObj? && k in v.fields
    ensures Member(v, k) + x == Quote(k) + ([':'] + (Canon(v.fields[k]) + x))
  {
  }

  lemma ArrUnfold(v: Json, x: string)
    requires v.JArr?
    ensures Canon(v) + x == ['['] + (Items(v, 0) + "]" + x)
  {
  }

  lemma ObjUnfold(v: Json, x: string)
    requires v.JObj?
    ensures Canon(v) + x == ['{'] + (Members(v, Sorted(v.fields.Keys)) + "}" + x)
  {
  }

  lemma ScalarUnique(a: Json, b: Json, x: string, y: string)
    requires a.JNull? || a.JBool?
    requires Canon(a) + x == Canon(b) + y
    ensures a == b && x == y
  {
    CanonStarts(a);
    CanonStarts(b);
    assert (Canon(a) + x)[0] == Canon(a)[0] && (Canon(b) + y)[0] == Canon(b)[0];
    assert a == b;
    assert x == (Canon(a) + x)[|Canon(a)|..] && y == (Canon(b) + y)[|Canon(b)|..];
  }

  lemma SameKind(a: Json, b: Json, x: string, y: string)
    requires Canon(a) + x == Canon(b) + y
    ensures (a.JNum? <==> b.JNum?) && (a.JStr? <==> b.JStr?) && (a.JArr? <==> b.JArr?) && (a.JObj? <==> b.JObj?)
  {
    CanonStarts(a);
    CanonStarts(b);
    assert (Canon(a) + x)[0] == Canon(a)[0] && (Canon(b) + y)[0] == Canon(b)[0];
  }

  /** A printed value followed by a delimiter determines the value and the rest. */
  lemma {:induction false} CanonUnique(a: Json, b: Json, x: string, y: string)
    requires Canon(a) + x == Canon(b) + y && Ends(x) && Ends(y)
    ensures a == b && x == y
    decreases a, 1, 0
  {
    SameKind(a, b, x, y);
    match a
    case JNull => ScalarUnique(a, b, x, y);
    case JBool(_) => ScalarUnique(a, b, x, y);
    case JNum(lex) => NumberUnique(lex, b.lex, x, y);
    case JStr(s) => QuoteUnique(s, b.s, x, y);
    case JArr(_) =>
      ArrUnfold(a, x);
      ArrUnfold(b, y);
      SameHead('[', '[', Items(a, 0) + "]" + x, Items(b, 0) + "]" + y);
      ItemsUnique(a, b, 0, x, y);
    case JObj(_) =>
      var ka, kb := Sorted(a.fields.Keys), Sorted(b.fields.Keys);
      ObjUnfold(a, x);
      ObjUnfold(b, y);
      SameHead('{', '{', Members(a, ka) + "}" + x, Members(b, kb) + "}" + y);
      MembersUnique(a, b, ka, kb, x, y);
      SameMembersSameFields(a, b, ka);
  }

  lemma SameMembersSameFields(a: Json, b: Json, keys: seq<string>)
    requires a.JObj? && b.JObj?
    requires (forall k :: k in keys <==> k in a.fields) && (forall k :: k in keys <==> k in b.fields)
    requires forall k :: k in keys ==> a.fields[k] == b.fields[k]
    ensures a == b
  {
    assert a.fields == b.fields;
  }

  lemma {:induction false} ItemsUnique(a: Json, b: Json, i: nat, x: string, y: string)
    requires a.JArr? && b.JArr? && i <= |a.items| && i <= |b.items|
    requires a.items[..i] == b.items[..i]
    requires Items(a, i) + "]" + x == Items(b, i) + "]" + y
    ensures a == b && x == y
    decreases a, 0, |a.items| - i, 0
  {
    ItemsStart(a, i, x);
    ItemsStart(b, i, y);
    if i == |a.items| {
      assert "" + "]" + x == [']'] + x && "" + "]" + y == [']'] + y;
      SameHead(']', ']', x, y);
      assert a.items == a.items[..i] && b.items == b.items[..i];
    } else {
      ItemsUnfold(a, i, x);
      ItemsUnfold(b, i, y);
      CanonUnique(a.items[i], b.items[i], AfterItem(a, i + 1, x), AfterItem(b, i + 1, y));
      assert a.items[..i + 1] == a.items[..i] + [a.items[i]] && b.items[..i + 1] == b.items[..i] + [b.items[i]];
      AfterItemsUnique(a, b, i + 1, x, y);
    }
  }

  lemma {:induction false} AfterItemsUnique(a: Json, b: Json, j: nat, x: string, y: string)
    requires a.JArr? && b.JArr? && j <= |a.items| && j <= |b.items|
    requires a.items[..j] == b.items[..j]
    requires AfterItem(a, j, x) == AfterItem(b, j, y)
    ensures a == b && x == y
    decreases a, 0, |a.items| - j, 1
  {
    assert AfterItem(a, j, x)[0] == AfterItem(b, j, y)[0];
    if j == |a.items| {
      SameHead(']', ']', x, y);
      assert a.items == a.items[..j] && b.items == b.items[..j];
    } else {
      SameHead(',', ',', Items(a, j) + "]" + x, Items(b, j) + "]" + y);
      ItemsUnique(a, b, j, x, y);
    }
  }

  lemma {:induction false} MembersUnique(a: Json, b: Json, ka: seq<string>, kb: seq<string>, x: string, y: string)
    requires a.JObj? && b.JObj? && (forall k :: k in ka ==> k in a.fields) && (forall k :: k in kb ==> k in b.fields)
    requires Members(a, ka) + "}" + x == Members(b, kb) + "}" + y
    ensures ka == kb && x == y && forall k :: k in ka ==> a.fields[k] == b.fields[k]
    decreases a, 0, |ka| + 1, 0
  {
    MembersStart(a, ka, x);
    MembersStart(b, kb, y);
    if ka == [] {
      assert "" + "}" + x == ['}'] + x && "" + "}" + y == ['}'] + y;
      SameHead('}', '}', x, y);
    } else {
      MembersUnfold(a, ka, x);
      MembersUnfold(b, kb, y);
      MemberUnique(a, b, ka[0], kb[0], AfterMember(a, ka[1..], x), AfterMember(b, kb[1..], y));
      AfterMembersUnique(a, b, ka[1..], kb[1..], x, y);
      assert ka == [ka[0]] + ka[1..] && kb == [kb[0]] + kb[1..];
    }
  }

  lemma {:induction false} AfterMembersUnique(a: Json, b: Json, ka: seq<string>, kb: seq<string>, x: string, y: string)
    requires a.JObj? && b.JObj? && (forall k :: k in ka ==> k in a.fields) && (forall k :: k in kb ==> k in b.fields)
    requires AfterMember(a, ka, x) == AfterMember(b, kb, y)
    ensures ka == kb && x == y && forall k :: k in ka ==> a.fields[k] == b.fields[k]
    decreases a, 0, |ka| + 1, 1
  {
    assert AfterMember(a, ka, x)[0] == AfterMember(b, kb, y)[0];
    if ka == [] {
      SameHead('}', '}', x, y);
    } else {
      SameHead(',', ',', Members(a, ka) + "}" + x, Members(b, kb) + "}" + y);
      MembersUnique(a, b, ka, kb, x, y);
    }
  }

  lemma {:induction false} MemberUnique(a: Json, b: Json, j: string, k: string, x: string, y: string)
    requires a.JObj? && b.JObj? && j in a.fields && k in b.fields && Ends(x) && Ends(y)
    requires Member(a, j) + x == Member(b, k) + y
    ensures j == k && a.fields[j] == b.fields[k] && x == y
    decreases a, 0, 0
  {
    MemberUnfold(a, j, x);
    MemberUnfold(b, k, y);
    QuoteUnique(j, k, [':'] + (Canon(a.fields[j]) + x), [':'] + (Canon(b.fields[k]) + y));
    SameHead(':', ':', Canon(a.fields[j]) + x, Canon(b.fields[k]) + y);
    CanonUnique(a.fields[j], b.fields[k], x, y);
  }

  /** Two JSON values print to the same text exactly when they are equal. */
  lemma CanonInjective(a: Json, b: Json)
    ensures Canon(a) == Canon(b) <==> a == b
  {
    if Canon(a) == Canon(b) {
      assert Canon(a) + "" == Canon(b) + "";
      CanonUnique(a, b, "", "");
    }
  }

  // ----- printing into a buffer

  class Buffer {
    var data: string

    constructor ()
      ensures data == ""
    {
      data := "";
    }

    method Write(s: string)
      modifies this
      ensures data == old(data) + s
    {
      data := data + s;
    }
  }

  /** The keys of an object, collected in map order and then sorted by insertion. */
  method SortedKeys(fields: map<string, Json>) returns (keys: seq<string>)
    ensures keys == Sorted(fields.Keys)
  {
    keys := [];
    var todo := fields.Keys;
    ghost var done: set<string> := {};
    while todo != {}
      invariant todo !! done && todo + done == fields.Keys
      invariant Ascending(keys) && forall k :: k in keys <==> k in done
    {
      var k :| k in todo;
      keys := InsertKey(keys, k);
      todo, done := todo - {k}, done + {k};
    }
    assert done == fields.Keys;
    AscendingIsSorted(keys, fields.Keys);
  }

  method InsertKey(keys: seq<string>, k: string) returns (r: seq<string>)
    requires Ascending(keys) && k !in keys
    ensures Ascending(r) && forall x :: x in r <==> x in keys || x == k
  {
    var i := 0;
    while i < |keys| && Less(keys[i], k)
      invariant 0 <= i <= |keys|
      invariant forall j :: 0 <= j < i ==> Less(keys[j], k)
    {
      i := i + 1;
    }
    r := keys[..i] + [k] + keys[i..];
    assert keys == keys[..i] + keys[i..];
    forall j | i <= j < |keys| ensures Less(k, keys[j]) {
      LessTotal(keys[i], k);
      assert keys[i] in keys;
      if j > i {
        LessTransitive(k, keys[i], keys[j]);
      }
    }
  }

  method WriteCanonical(w: Buffer, v: Json)
    modifies w
    ensures w.data == old(w.data) + Canon(v)
    decreases v, 2
  {
    match v
    case JNull => w.Write("null");
    case JBool(b) => w.Write(if b then "true" else "false");
    case JNum(lex) => w.Write(lex);
    case JStr(s) => w.Write(Quote(s));
    case JArr(items) => WriteArray(w, v);
    case JObj(fields) => WriteObject(w, v);
  }

  /** The separator before element number `i`. */
  function Comma(i: nat): string { if i > 0 then "," else "" }

  /** The first `i` elements with their separators, as the loop prints them. */
  ghost function PrintedItems(v: Json, i: nat): string
    requires v.JArr? && i <= |v.items|
  {
    if i == 0 then "" else PrintedItems(v, i - 1) + (Comma(i - 1) + Canon(v.items[i - 1]))
  }

  ghost function PendingItems(v: Json, i: nat): string
    requires v.JArr? && i <= |v.items|
  {
    if i == |v.items| then "" else Comma(i) + Items(v, i)
  }

  lemma PendingItemsUnfold(v: Json, i: nat)
    requires v.JArr? && i < |v.items|
    ensures PendingItems(v, i) == (Comma(i) + Canon(v.items[i])) + PendingItems(v, i + 1)
  {
  }

  lemma {:induction false} PrintedThenPending(v: Json, i: nat)
    requires v.JArr? && i <= |v.items|
    ensures PrintedItems(v, i) + PendingItems(v, i) == Items(v, 0)
  {
    if i > 0 {
      PrintedThenPending(v, i - 1);
      PendingItemsUnfold(v, i - 1);
      Reassociate(PrintedItems(v, i - 1), Comma(i - 1) + Canon(v.items[i - 1]), PendingItems(v, i));
    }
  }

  lemma Reassociate(a: string, b: string, c: string)
    ensures (a + b) + c == a + (b + c)
  {
  }

  method WriteArray(w: Buffer, v: Json)
    requires v.JArr?
    modifies w
    ensures w.data == old(w.data) + Canon(v)
    decreases v, 0
  {
    w.Write("[");
    ghost var start := w.data;
    for i := 0 to |v.items|
      invariant w.data == start + PrintedItems(v, i)
    {
      ghost var before := w.data;
      if i > 0 {
        w.Write(",");
      }
      WriteCanonical(w, v.items[i]);
      Reassociate(before, Comma(i), Canon(v.items[i]));
      Reassociate(start, PrintedItems(v, i), Comma(i) + Canon(v.items[i]));
    }
    PrintedThenPending(v, |v.items|);
    w.Write("]");
    Reassociate(old(w.data) + "[", Items(v, 0), "]");
    Reassociate(old(w.data), "[", Items(v, 0) + "]");
  }

  ghost function PrintedMembers(v: Json, keys: seq<string>, i: nat): string
    requires v.JObj? && i <= |keys| && forall k :: k in keys ==> k in v.fields
  {
    if i == 0 then "" else PrintedMembers(v, keys, i - 1) + (Comma(i - 1) + Member(v, keys[i - 1]))
  }

  ghost function PendingMembers(v: Json, keys: seq<string>, i: nat): string
    requires v.JObj? && i <= |keys| && forall k :: k in keys ==> k in v.fields
  {
    if i == |keys| then "" else Comma(i) + Members(v, keys[i..])
  }

  lemma PendingMembersUnfold(v: Json, keys: seq<string>, i: nat)
    requires v.JObj? && i < |keys| && forall k :: k in keys ==> k in v.fields
    ensures PendingMembers(v, keys, i) == (Comma(i) + Member(v, keys[i])) + PendingMembers(v, keys, i + 1)
  {
    assert keys[i..][1..] == keys[i + 1..];
  }

  lemma {:induction false} PrintedThenPendingMembers(v: Json, keys: seq<string>, i: nat)
    requires v.JObj? && i <= |keys| && forall k :: k in keys ==> k in v.fields
    ensures PrintedMembers(v, keys, i) + PendingMembers(v, keys, i) == Members(v, keys)
  {
    if i == 0 {
      assert keys[0..] == keys;
    } else {
      PrintedThenPendingMembers(v, keys, i - 1);
      PendingMembersUnfold(v, keys, i - 1);
      Reassociate(PrintedMembers(v, keys, i - 1), Comma(i - 1) + Member(v, keys[i - 1]), PendingMembers(v, keys, i));
    }
  }

  method WriteMember(w: Buffer, v: Json, k: string)
    requires v.JObj? && k in v.fields
    modifies w
    ensures w.data == old(w.data) + Member(v, k)
    decreases v, 0
  {
    w.Write(Quote(k));
    w.Write(":");
    WriteCanonical(w, v.fields[k]);
    Reassociate(old(w.data) + Quote(k), ":", Canon(v.fields[k]));
    Reassociate(old(w.data), Quote(k), ":" + Canon(v.fields[k]));
    Reassociate(Quote(k), ":", Canon(v.fields[k]));
  }

  method WriteMembers(w: Buffer, v: Json, keys: seq<string>)
    requires v.JObj? && forall k :: k in keys ==> k in v.fields
    modifies w
    ensures w.data == old(w.data) + Members(v, keys)
    decreases v, 1, 0
  {
    for i := 0 to |keys|
      invariant w.data == old(w.data) + PrintedMembers(v, keys, i)
    {
      ghost var before := w.data;
      if i > 0 {
        w.Write(",");
      }
      WriteMember(w, v, keys[i]);
      Reassociate(before, Comma(i), Member(v, keys[i]));
      Reassociate(old(w.data), PrintedMembers(v, keys, i), Comma(i) + Member(v, keys[i]));
    }
    PrintedThenPendingMembers(v, keys, |keys|);
  }

  method WriteObject(w: Buffer, v: Json)
    requires v.JObj?
    modifies w
    ensures w.data == old(w.data) + Canon(v)
    decreases v, 1, 1
  {
    var keys := SortedKeys(v.fields);
    w.Write("{");
    WriteMembers(w, v, keys);
    w.Write("}");
    Reassociate(old(w.data) + "{", Members(v, keys), "}");
    Reassociate(old(w.data), "{", Members(v, keys) + "}");
    Reassociate("{", Members(v, keys), "}");
  }
}
