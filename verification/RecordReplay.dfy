/** Cassettes indexed by request hash, and sequenced replay over a cassette that may grow. */
module RecordReplay {
  import opened Wrappers
  import opened RequestKey

  datatype Interaction = Interaction(hash: string, verb: string, path: string, body: string, response: nat)

  type KeyOf = Interaction -> string

  function StoredHash(it: Interaction): string { it.hash }

  /** The interactions with key `k`, in insertion order. */
  function Group(its: seq<Interaction>, key: KeyOf, k: string): seq<Interaction> {
    if its == [] then []
    else Group(its[..|its| - 1], key, k) + if key(its[|its| - 1]) == k then [its[|its| - 1]] else []
  }

  function At(index: map<string, seq<Interaction>>, k: string): seq<Interaction> {
    if k in index then index[k] else []
  }

  /** The index is the insertion-order grouping of `its`. */
  ghost predicate Indexes(index: map<string, seq<Interaction>>, its: seq<Interaction>, key: KeyOf) {
    forall k :: At(index, k) == Group(its, key, k)
  }

  function AddTo(index: map<string, seq<Interaction>>, k: string, it: Interaction): map<string, seq<Interaction>> {
    index[k := At(index, k) + [it]]
  }

  lemma GroupSnoc(its: seq<Interaction>, it: Interaction, key: KeyOf, k: string)
    ensures Group(its + [it], key, k) == Group(its, key, k) + if key(it) == k then [it] else []
  {
    assert (its + [it])[..|its|] == its;
  }

  lemma IndexSnoc(index: map<string, seq<Interaction>>, its: seq<Interaction>, it: Interaction, key: KeyOf)
    requires Indexes(index, its, key)
    ensures Indexes(AddTo(index, key(it), it), its + [it], key)
  {
    forall k ensures At(AddTo(index, key(it), it), k) == Group(its + [it], key, k) {
      GroupSnoc(its, it, key, k);
    }
  }

  lemma {:induction false} GroupHolds(its: seq<Interaction>, key: KeyOf, k: string, it: Interaction)
    ensures it in Group(its, key, k) <==> it in its && key(it) == k
  {
    if its != [] {
      GroupHolds(its[..|its| - 1], key, k, it);
      assert its == its[..|its| - 1] + [its[|its| - 1]];
    }
  }

  class Cassette {
    var interactions: seq<Interaction>
    var byHash: map<string, seq<Interaction>>

    ghost predicate Valid()
      reads this
    {
      Indexes(byHash, interactions, StoredHash)
    }

    constructor ()
      ensures Valid() && interactions == []
    {
      interactions, byHash := [], map[];
    }

    /** A blank hash is filled in from the request. */
    static function Stamp(it: Interaction, hashRequest: KeyOf): Interaction {
      if it.hash == "" then it.(hash := hashRequest(it)) else it
    }

    method Append(it: Interaction, hashRequest: KeyOf)
      requires Valid()
      modifies this
      ensures Valid() && interactions == old(interactions) + [Stamp(it, hashRequest)]
    {
      var stamped := if it.hash == "" then it.(hash := hashRequest(it)) else it;
      IndexSnoc(byHash, interactions, stamped, StoredHash);
      interactions := interactions + [stamped];
      byHash := AddTo(byHash, stamped.hash, stamped);
    }

    static function StampAll(its: seq<Interaction>, hashRequest: KeyOf): (r: seq<Interaction>)
      ensures |r| == |its| && forall i :: 0 <= i < |its| ==> r[i] == Stamp(its[i], hashRequest)
    {
      seq(|its|, i requires 0 <= i < |its| => Stamp(its[i], hashRequest))
    }

    method AppendAll(its: seq<Interaction>, hashRequest: KeyOf)
      requires Valid()
      modifies this
      ensures Valid() && interactions == old(interactions) + StampAll(its, hashRequest)
    {
      for i := 0 to |its|
        invariant Valid() && interactions == old(interactions) + StampAll(its, hashRequest)[..i]
      {
        Append(its[i], hashRequest);
        assert StampAll(its, hashRequest)[..i + 1] == StampAll(its, hashRequest)[..i] + [Stamp(its[i], hashRequest)];
      }
      assert StampAll(its, hashRequest)[..|its|] == StampAll(its, hashRequest);
    }

    method LookupSequence(hash: string) returns (r: seq<Interaction>)
      requires Valid()
      ensures r == Group(interactions, StoredHash, hash)
    {
      r := At(byHash, hash);
    }
  }

  method IndexSuffix(index0: map<string, seq<Interaction>>, all: seq<Interaction>, from: nat, key: KeyOf)
    returns (index: map<string, seq<Interaction>>)
    requires from <= |all| && Indexes(index0, all[..from], key)
    ensures Indexes(index, all[..|all|], key)
  {
    index := index0;
    for i := from to |all|
      invariant Indexes(index, all[..i], key)
    {
      IndexNext(index, all, i, key);
      index := AddTo(index, key(all[i]), all[i]);
    }
  }

  lemma IndexNext(index: map<string, seq<Interaction>>, all: seq<Interaction>, i: nat, key: KeyOf)
    requires i < |all| && Indexes(index, all[..i], key)
    ensures Indexes(AddTo(index, key(all[i]), all[i]), all[..i + 1], key)
  {
    IndexSnoc(index, all[..i], all[i], key);
    assert all[..i + 1] == all[..i] + [all[i]];
  }

  // ----- the cursor

  function CursorAt(cursor: map<string, nat>, k: string): nat {
    if k in cursor then cursor[k] else 0
  }

  /** Position served from a sequence of length `n > 0` at cursor `c`: the next one, or the last again. */
  function Served(c: nat, n: nat): nat
    requires n > 0
  {
    if c >= n then n - 1 else c
  }

  function Advanced(c: nat, n: nat): nat {
    if c >= n then c else c + 1
  }

  class Replay {
    const cassette: Cassette
    const matchKey: KeyOf
    var cursor: map<string, nat>
    var builtLen: nat
    var byMatchKey: Option<map<string, seq<Interaction>>>

    constructor (cassette: Cassette, matchKey: KeyOf)
      ensures this.cassette == cassette && this.matchKey == matchKey
      ensures cursor == map[] && builtLen == 0 && byMatchKey.None?
    {
      this.cassette, this.matchKey := cassette, matchKey;
      cursor, builtLen, byMatchKey := map[], 0, None;
    }

    /** The secondary index is the grouping of exactly the first `builtLen` interactions. */
    ghost predicate Valid()
      reads this, cassette
    {
      && cassette.Valid()
      && builtLen <= |cassette.interactions|
      && (byMatchKey.None? ==> builtLen == 0)
      && (byMatchKey.Some? ==> Indexes(byMatchKey.value, cassette.interactions[..builtLen], matchKey))
    }

    method Advance(k: string, sq: seq<Interaction>) returns (it: Option<Interaction>)
      requires Valid()
      modifies this`cursor
      ensures Valid()
      ensures sq == [] ==> it == None && cursor == old(cursor)
      ensures sq != [] ==>
                && it == Some(sq[Served(CursorAt(old(cursor), k), |sq|)])
                && cursor == old(cursor)[k := Advanced(CursorAt(old(cursor), k), |sq|)]
    {
      if |sq| == 0 {
        return None;
      }
      var idx := if k in cursor then cursor[k] else 0;
      if idx >= |sq| {
        idx := |sq| - 1;
      } else {
        cursor := cursor[k := idx + 1];
      }
      return Some(sq[idx]);
    }

    /** Key only the interactions appended since the last build. */
    method ExtendMatchIndex()
      requires Valid()
      modifies this`byMatchKey, this`builtLen
      ensures Valid() && byMatchKey.Some? && builtLen == |cassette.interactions|
    {
      var all := cassette.interactions;
      var index := if byMatchKey.None? then map[] else byMatchKey.value;
      assert all[..0] == [];
      index := IndexSuffix(index, all, builtLen, matchKey);
      byMatchKey, builtLen := Some(index), |all|;
    }

    /** Looks up the full regrouping of the cassette, however little of it was re-keyed. */
    method NextFromMatchIndex(k: string) returns (it: Option<Interaction>)
      requires Valid()
      modifies this
      ensures Valid()
      ensures (cursor, it) == LookUp(cassette.interactions, old(cursor), k, matchKey)
    {
      if byMatchKey.None? || |cassette.interactions| > builtLen {
        ExtendMatchIndex();
      }
      assert cassette.interactions[..builtLen] == cassette.interactions;
      LookUpServes(cassette.interactions, cursor, k, matchKey);
      it := Advance(k, At(byMatchKey.value, k));
    }

    method Next(hash: string) returns (it: Option<Interaction>)
      requires Valid()
      modifies this`cursor
      ensures Valid()
      ensures (cursor, it) == LookUp(cassette.interactions, old(cursor), hash, StoredHash)
    {
      LookUpServes(cassette.interactions, cursor, hash, StoredHash);
      var sq := cassette.LookupSequence(hash);
      it := Advance(hash, sq);
    }
  }

  // ----- every interleaving of recording and replaying

  /** A request that has resolved its sequence but not yet advanced the cursor. */
  datatype Reader = Outside | Resolved(key: string, sq: seq<Interaction>)

  datatype Serve = Serve(key: string, it: Interaction, isNew: bool)

  datatype State = State(its: seq<Interaction>, cursor: map<string, nat>, readers: seq<Reader>, served: seq<Serve>)

  datatype Step = AppendStep(it: Interaction) | LookupStep(r: nat, key: string) | AdvanceStep(r: nat)

  predicate Enabled(s: State, step: Step) {
    match step
    case AppendStep(_) => true
    case LookupStep(r, _) => r < |s.readers| && s.readers[r].Outside?
    case AdvanceStep(r) => r < |s.readers| && s.readers[r].Resolved?
  }

  function Apply(s: State, step: Step, key: KeyOf): State
    requires Enabled(s, step)
  {
    match step
    case AppendStep(it) => s.(its := s.its + [it])
    case LookupStep(r, k) => s.(readers := s.readers[r := Resolved(k, Group(s.its, key, k))])
    case AdvanceStep(r) =>
      var Resolved(k, sq) := s.readers[r];
      if sq == [] then s.(readers := s.readers[r := Outside])
      else
        var c := CursorAt(s.cursor, k);
        State(s.its, s.cursor[k := Advanced(c, |sq|)], s.readers[r := Outside],
              s.served + [Serve(k, sq[Served(c, |sq|)], c < |sq|)])
  }

  /** One undisturbed lookup as the two steps of a single reader: the new cursors, and what it was served. */
  function LookUp(its: seq<Interaction>, cursor: map<string, nat>, k: string, key: KeyOf)
    : (map<string, nat>, Option<Interaction>)
  {
    var resolved := Apply(State(its, cursor, [Outside], []), LookupStep(0, k), key);
    var done := Apply(resolved, AdvanceStep(0), key);
    (done.cursor, if done.served == [] then None else Some(done.served[0].it))
  }

  lemma LookUpServes(its: seq<Interaction>, cursor: map<string, nat>, k: string, key: KeyOf)
    ensures var g, c := Group(its, key, k), CursorAt(cursor, k);
            LookUp(its, cursor, k, key) ==
            if g == [] then (cursor, None) else (cursor[k := Advanced(c, |g|)], Some(g[Served(c, |g|)]))
  {
  }

  /** The same two steps in any state, whatever its other readers hold, do the same. */
  lemma LookUpInContext(s: State, r: nat, k: string, key: KeyOf)
    requires Enabled(s, LookupStep(r, k))
    ensures var u := Apply(Apply(s, LookupStep(r, k), key), AdvanceStep(r), key);
            && (u.cursor, if |u.served| == |s.served| then None else Some(u.served[|s.served|].it))
               == LookUp(s.its, s.cursor, k, key)
            && u.its == s.its && u.readers == s.readers && s.served <= u.served
  {
    LookUpServes(s.its, s.cursor, k, key);
    assert s.readers[r := Resolved(k, Group(s.its, key, k))][r := Outside] == s.readers;
  }

  /** What was served under `k` other than by repeating. */
  function FreshServes(served: seq<Serve>, k: string): seq<Interaction> {
    if served == [] then []
    else
      var last := served[|served| - 1];
      FreshServes(served[..|served| - 1], k) + if last.key == k && last.isNew then [last.it] else []
  }

  /** Resolved sequences may be stale but only by missing a tail; fresh serves are the recordings in order. */
  ghost predicate Inv(s: State, key: KeyOf) {
    && (forall r :: 0 <= r < |s.readers| && s.readers[r].Resolved? ==>
          s.readers[r].sq <= Group(s.its, key, s.readers[r].key))
    && (forall k :: OnCursor(s, key, k))
  }

  ghost predicate OnCursor(s: State, key: KeyOf, k: string) {
    && CursorAt(s.cursor, k) <= |Group(s.its, key, k)|
    && FreshServes(s.served, k) == Group(s.its, key, k)[..CursorAt(s.cursor, k)]
  }

  lemma FreshSnoc(served: seq<Serve>, x: Serve, k: string)
    ensures FreshServes(served + [x], k) == FreshServes(served, k) + if x.key == k && x.isNew then [x.it] else []
  {
    assert (served + [x])[..|served|] == served;
  }

  lemma ServeOnCursor(s: State, r: nat, key: KeyOf)
    requires Inv(s, key) && Enabled(s, AdvanceStep(r)) && s.readers[r].sq != []
    ensures OnCursor(Apply(s, AdvanceStep(r), key), key, s.readers[r].key)
  {
    var Resolved(k, sq) := s.readers[r];
    var c, g := CursorAt(s.cursor, k), Group(s.its, key, k);
    assert OnCursor(s, key, k);
    FreshSnoc(s.served, Serve(k, sq[Served(c, |sq|)], c < |sq|), k);
    if c < |sq| {
      assert g[..c + 1] == g[..c] + [g[c]];
    }
  }

  lemma OthersOnCursor(s: State, r: nat, key: KeyOf, j: string)
    requires OnCursor(s, key, j) && Enabled(s, AdvanceStep(r)) && (s.readers[r].key != j || s.readers[r].sq == [])
    ensures OnCursor(Apply(s, AdvanceStep(r), key), key, j)
  {
    var Resolved(k, sq) := s.readers[r];
    if sq != [] {
      var c := CursorAt(s.cursor, k);
      FreshSnoc(s.served, Serve(k, sq[Served(c, |sq|)], c < |sq|), j);
    }
  }

  lemma AdvancePreserves(s: State, r: nat, key: KeyOf)
    requires Inv(s, key) && Enabled(s, AdvanceStep(r))
    ensures Inv(Apply(s, AdvanceStep(r), key), key)
  {
    forall j ensures OnCursor(Apply(s, AdvanceStep(r), key), key, j) {
      if j == s.readers[r].key && s.readers[r].sq != [] {
        ServeOnCursor(s, r, key);
      } else {
        assert OnCursor(s, key, j);
        OthersOnCursor(s, r, key, j);
      }
    }
  }

  lemma AppendPreserves(s: State, it: Interaction, key: KeyOf)
    requires Inv(s, key)
    ensures Inv(Apply(s, AppendStep(it), key), key)
  {
    var t := Apply(s, AppendStep(it), key);
    forall k ensures OnCursor(t, key, k) {
      assert OnCursor(s, key, k);
      GroupSnoc(s.its, it, key, k);
    }
    forall r | 0 <= r < |t.readers| && t.readers[r].Resolved?
      ensures t.readers[r].sq <= Group(t.its, key, t.readers[r].key)
    {
      GroupSnoc(s.its, it, key, t.readers[r].key);
    }
  }

  ghost predicate Reaches(s: State, steps: seq<Step>, key: KeyOf, t: State)
    decreases |steps|
  {
    if steps == [] then s == t
    else Enabled(s, steps[0]) && Reaches(Apply(s, steps[0], key), steps[1..], key, t)
  }

  lemma {:induction false} RunPreserves(s: State, steps: seq<Step>, key: KeyOf, t: State)
    requires Inv(s, key) && Reaches(s, steps, key, t)
    ensures Inv(t, key)
    decreases |steps|
  {
    if steps != [] {
      match steps[0] {
        case AppendStep(it) => AppendPreserves(s, it, key);
        case LookupStep(_, _) =>
          forall k ensures OnCursor(Apply(s, steps[0], key), key, k) {
            assert OnCursor(s, key, k);
          }
        case AdvanceStep(r) => AdvancePreserves(s, r, key);
      }
      RunPreserves(Apply(s, steps[0], key), steps[1..], key, t);
    }
  }

  function Start(readers: nat): State { State([], map[], seq(readers, i => Outside), []) }

  /**
   In every interleaving of recording and replaying, the recordings of a key are served in order, each at most
   once before anything is repeated: the fresh serves are exactly the first `cursor` recordings.
   */
  lemma ServedInOrderOnce(readers: nat, steps: seq<Step>, key: KeyOf, t: State, k: string)
    requires Reaches(Start(readers), steps, key, t)
    ensures CursorAt(t.cursor, k) <= |Group(t.its, key, k)|
    ensures FreshServes(t.served, k) == Group(t.its, key, k)[..CursorAt(t.cursor, k)]
  {
    var s := Start(readers);
    forall j ensures OnCursor(s, key, j) {
    }
    RunPreserves(s, steps, key, t);
    assert OnCursor(t, key, k);
  }

  /** A lookup on an up-to-date sequence repeats only when everything was served, and then the last recording. */
  lemma RepeatsLastOnly(readers: nat, steps: seq<Step>, key: KeyOf, t: State, r: nat)
    requires Reaches(Start(readers), steps, key, t) && Enabled(t, AdvanceStep(r))
    requires t.readers[r].sq == Group(t.its, key, t.readers[r].key) && t.readers[r].sq != []
    ensures var after := Apply(t, AdvanceStep(r), key);
            var x := after.served[|t.served|];
            var g := Group(t.its, key, x.key);
            x.isNew <==> |FreshServes(t.served, x.key)| < |g|
    ensures var x := Apply(t, AdvanceStep(r), key).served[|t.served|];
            !x.isNew ==> x.it == t.readers[r].sq[|t.readers[r].sq| - 1]
  {
    ServedInOrderOnce(readers, steps, key, t, t.readers[r].key);
  }

  /** Everything served under `k`, repeats included. */
  function Serves(served: seq<Serve>, k: string): seq<Interaction> {
    if served == [] then []
    else
      var last := served[|served| - 1];
      Serves(served[..|served| - 1], k) + if last.key == k then [last.it] else []
  }

  lemma ServesSnoc(served: seq<Serve>, x: Serve, k: string)
    ensures Serves(served + [x], k) == Serves(served, k) + if x.key == k then [x.it] else []
  {
    assert (served + [x])[..|served|] == served;
  }

  /** Serves that run through the recordings `g` and then stay on the last, with the cursor to match. */
  ghost predicate RunsThrough(g: seq<Interaction>, xs: seq<Interaction>, c: nat) {
    && c == (if |xs| < |g| then |xs| else |g|)
    && (g == [] ==> xs == [])
    && forall i :: NthServed(g, xs, i)
  }

  ghost predicate NthServed(g: seq<Interaction>, xs: seq<Interaction>, i: int) {
    0 <= i < |xs| && g != [] ==> xs[i] == g[Served(i, |g|)]
  }

  lemma RunsOn(g: seq<Interaction>, xs: seq<Interaction>, c: nat)
    requires RunsThrough(g, xs, c) && g != []
    ensures RunsThrough(g, xs + [g[Served(c, |g|)]], Advanced(c, |g|))
  {
    var ys := xs + [g[Served(c, |g|)]];
    forall i ensures NthServed(g, ys, i) {
      assert NthServed(g, xs, i);
    }
  }

  ghost predicate InSequence(s: State, key: KeyOf, k: string) {
    RunsThrough(Group(s.its, key, k), Serves(s.served, k), CursorAt(s.cursor, k))
  }

  ghost predicate Replaying(s: State, key: KeyOf) {
    && (forall r :: 0 <= r < |s.readers| && s.readers[r].Resolved? ==>
          s.readers[r].sq == Group(s.its, key, s.readers[r].key))
    && (forall k :: InSequence(s, key, k))
  }

  lemma AdvanceInSequence(s: State, r: nat, key: KeyOf, k: string)
    requires InSequence(s, key, k) && Enabled(s, AdvanceStep(r))
    requires s.readers[r].sq == Group(s.its, key, s.readers[r].key)
    ensures InSequence(Apply(s, AdvanceStep(r), key), key, k)
  {
    var Resolved(j, sq) := s.readers[r];
    if sq != [] {
      var c, xs := CursorAt(s.cursor, j), Serves(s.served, k);
      ServesSnoc(s.served, Serve(j, sq[Served(c, |sq|)], c < |sq|), k);
      if j == k {
        RunsOn(sq, xs, c);
      } else {
        assert xs + [] == xs;
      }
    }
  }

  lemma {:induction false} ReplayKeepsSequence(s: State, steps: seq<Step>, key: KeyOf, t: State)
    requires Replaying(s, key) && Reaches(s, steps, key, t)
    requires forall i :: 0 <= i < |steps| ==> !steps[i].AppendStep?
    ensures Replaying(t, key) && t.its == s.its
    decreases |steps|
  {
    if steps != [] {
      var m := Apply(s, steps[0], key);
      forall k ensures InSequence(m, key, k) {
        assert InSequence(s, key, k);
        if steps[0].AdvanceStep? {
          AdvanceInSequence(s, steps[0].r, key, k);
        }
      }
      assert m.its == s.its;
      ReplayKeepsSequence(m, steps[1..], key, t);
    }
  }

  /**
   Replaying a finished cassette: however lookups of several readers and keys are interleaved, the n-th request
   served under a key gets its n-th recording, and every request past the end the last one.
   */
  lemma NthLookup(its: seq<Interaction>, readers: nat, steps: seq<Step>, key: KeyOf, t: State, k: string, n: nat)
    requires Reaches(Start(readers).(its := its), steps, key, t)
    requires forall i :: 0 <= i < |steps| ==> !steps[i].AppendStep?
    requires n < |Serves(t.served, k)|
    ensures var g := Group(its, key, k);
            g != [] && Serves(t.served, k)[n] == if n < |g| then g[n] else g[|g| - 1]
  {
    var s := Start(readers).(its := its);
    forall j ensures InSequence(s, key, j) {
    }
    ReplayKeepsSequence(s, steps, key, t);
    assert InSequence(t, key, k);
    assert NthServed(Group(its, key, k), Serves(t.served, k), n);
  }

  // ----- relaxing the match never loses a recording

  /** The stored hash is that of the stored request: nothing was redacted before storing. */
  ghost predicate Unredacted(parse: Parser, sha: string -> string, it: Interaction) {
    it.hash == sha(Preimage(parse, it.verb, it.path, it.body))
  }

  /**
   If the exact index has a recording for a request, so has the relaxed one, provided the cassette is unredacted
   and the digest does not collide on the two preimages.
   */
  lemma RelaxedMatchKeepsHits(parse: Parser, sha: string -> string, ignore: set<string>, its: seq<Interaction>,
                              verb: string, path: string, body: string, it: Interaction, relaxed: KeyOf)
    requires Rereads(parse) && RereadsStripped(parse, ignore)
    requires forall x :: relaxed(x) == sha(MatchKey(parse, ignore, x.verb, x.path, x.body))
    requires it in Group(its, StoredHash, sha(Preimage(parse, verb, path, body))) && Unredacted(parse, sha, it)
    requires OneLine(verb) && OneLine(path) && OneLine(it.verb) && OneLine(it.path)
    requires sha(Preimage(parse, it.verb, it.path, it.body)) == sha(Preimage(parse, verb, path, body))
             ==> Preimage(parse, it.verb, it.path, it.body) == Preimage(parse, verb, path, body)
    ensures it in Group(its, relaxed, sha(MatchKey(parse, ignore, verb, path, body)))
  {
    GroupHolds(its, StoredHash, sha(Preimage(parse, verb, path, body)), it);
    FullKeyImpliesMatchKey(parse, ignore, it.verb, it.path, it.body, verb, path, body);
    GroupHolds(its, relaxed, sha(MatchKey(parse, ignore, verb, path, body)), it);
  }
}
