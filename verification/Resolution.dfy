/**
 What resolving the reference log leaves in a file: one reference for each distinct target
 and token, in the order of their first log entries.
 */
module Resolution {
  import opened Entities
  import opened Store
  import opened StoreInvariant

  datatype Token = Token(toSymbolLocalId: int, start: int, end: int)

  function TokenOf(ref: RefInfo): Token {
    Token(ref.toSymbolLocalId, ref.start, ref.end)
  }

  /** Log entry `i` has a known target and file, and offsets that fit. */
  predicate IsUsable(p: Project, i: int) {
    0 <= i < |p.references| && IsResolvable(p, p.references[i])
  }

  function RefAt(p: Project, i: int): RefInfo
    requires IsUsable(p, i)
  {
    ResolvedRef(p, p.references[i])
  }

  /** Log entry `i` asks for a reference in file `f`. */
  predicate Counts(p: Project, f: int, i: int) {
    IsUsable(p, i) && p.references[i].fromFile == f
  }

  ghost predicate IsFirst(p: Project, f: int, i: int) {
    && Counts(p, f, i)
    && forall j | Counts(p, f, j) && TokenOf(RefAt(p, j)) == TokenOf(RefAt(p, i)) :: i <= j
  }

  /** `firsts` are the first entries among the first `m` for their tokens, oldest first. */
  ghost predicate AreFirsts(p: Project, f: int, m: nat, firsts: seq<nat>) {
    && (forall a, b | 0 <= a < b < |firsts| :: firsts[a] < firsts[b])
    && (forall i: nat :: i in firsts <==> i < m && IsFirst(p, f, i))
  }

  function RefsAt(p: Project, firsts: seq<nat>): (refs: seq<RefInfo>)
    requires forall k {:trigger firsts[k]} | 0 <= k < |firsts| :: IsUsable(p, firsts[k])
    ensures |refs| == |firsts|
  {
    seq(|firsts|, k requires 0 <= k < |firsts| => RefAt(p, firsts[k]))
  }

  /** The keys that have been seen after `m` entries. */
  lemma {:induction false} SeenSoFar(p: Project, m: nat, key: RefKey)
    requires m <= |p.references|
    ensures key in ResolveLog(p, m).seen
            <==> exists i :: 0 <= i < m && IsResolvable(p, p.references[i]) && KeyOfRef(p, p.references[i]) == key
  {
    if m > 0 {
      SeenSoFar(p, m - 1, key);
    }
  }

  /** An entry is skipped exactly when it does not count or is not the first of its token. */
  lemma EntryIsFirstIfNew(p: Project, f: int, m: nat)
    requires m < |p.references| && Counts(p, f, m)
    ensures IsFirst(p, f, m) <==> KeyOfRef(p, p.references[m]) !in ResolveLog(p, m).seen
  {
    SeenSoFar(p, m, KeyOfRef(p, p.references[m]));
  }

  lemma FirstsAreUsable(p: Project, f: int, m: nat, firsts: seq<nat>, k: nat)
    requires AreFirsts(p, f, m, firsts) && k < |firsts|
    ensures IsFirst(p, f, firsts[k])
  {
    assert firsts[k] in firsts;
  }

  lemma OneMoreEntry(p: Project, f: int, m: nat, rest: seq<nat>)
    requires AreFirsts(p, f, m, rest)
    ensures AreFirsts(p, f, m + 1, if IsFirst(p, f, m) then rest + [m] else rest)
  {
    hide IsFirst;
    var firsts := if IsFirst(p, f, m) then rest + [m] else rest;
    forall i: nat ensures i in firsts <==> i < m + 1 && IsFirst(p, f, i) {
      assert i in rest + [m] <==> i in rest || i == m;
    }
    forall a, b | 0 <= a < b < |firsts| ensures firsts[a] < firsts[b] {
      assert firsts[a] in rest;
    }
  }

  /** `firsts` are what the first `m` entries add to file `f`. */
  ghost predicate Adds(p: Project, f: int, m: nat, firsts: seq<nat>)
    requires m <= |p.references| && IsObject(p.objects, f)
  {
    && (forall k {:trigger firsts[k]} | 0 <= k < |firsts| :: IsUsable(p, firsts[k]))
    && |ResolveLog(p, m).objects| == |p.objects|
    && ResolveLog(p, m).objects[f - 1] == p.objects[f - 1].(refs := p.objects[f - 1].refs + RefsAt(p, firsts))
  }

  lemma {:induction false} LogAddsFirsts(p: Project, f: int, m: nat) returns (firsts: seq<nat>)
    requires m <= |p.references| && IsObject(p.objects, f)
    ensures AreFirsts(p, f, m, firsts) && Adds(p, f, m, firsts)
  {
    hide AreFirsts, Adds, IsFirst;
    if m == 0 {
      firsts := [];
      NothingAdded(p, f);
    } else {
      var rest := LogAddsFirsts(p, f, m - 1);
      OneMoreEntry(p, f, m - 1, rest);
      firsts := if IsFirst(p, f, m - 1) then rest + [m - 1] else rest;
      LastEntryAdds(p, f, m - 1, rest);
    }
  }

  lemma NothingAdded(p: Project, f: int)
    requires IsObject(p.objects, f)
    ensures AreFirsts(p, f, 0, []) && Adds(p, f, 0, [])
  {
    hide IsFirst;
    assert p.objects[f - 1].refs + [] == p.objects[f - 1].refs;
  }

  lemma LastEntryAdds(p: Project, f: int, m: nat, rest: seq<nat>)
    requires m < |p.references| && IsObject(p.objects, f) && Adds(p, f, m, rest)
    ensures Adds(p, f, m + 1, if IsFirst(p, f, m) then rest + [m] else rest)
  {
    hide AreFirsts, RefFullSpan;
    assert ResolveLog(p, m + 1) == ResolveOne(p, p.references[m], ResolveLog(p, m));
    if Counts(p, f, m) {
      EntryIsFirstIfNew(p, f, m);
    }
    if IsFirst(p, f, m) {
      assert RefsAt(p, rest + [m]) == RefsAt(p, rest) + [RefAt(p, m)];
      var refs := p.objects[f - 1].refs;
      assert refs + (RefsAt(p, rest) + [RefAt(p, m)]) == refs + RefsAt(p, rest) + [RefAt(p, m)];
    }
  }

  /** One reference per token of an entry that counts among the first `m`, each from the token's first entry. */
  ghost predicate IsResolved(p: Project, f: int, m: nat, refs: seq<RefInfo>) {
    && DistinctTokens(refs)
    && (forall token :: IsAmong(refs, token) <==> IsAsked(p, f, m, token))
    && (forall a | 0 <= a < |refs| :: IsOfFirst(p, f, m, refs[a]))
    && (forall a, b, i, j | 0 <= a < b < |refs| && IsFirst(p, f, i) && IsFirst(p, f, j) ::
          refs[a] == RefAt(p, i) && refs[b] == RefAt(p, j) ==> i < j)
  }

  /** One of the first `m` entries that count asks for the token. */
  ghost predicate IsAsked(p: Project, f: int, m: nat, token: Token) {
    exists i :: i < m && Counts(p, f, i) && TokenOf(RefAt(p, i)) == token
  }

  ghost predicate IsOfFirst(p: Project, f: int, m: nat, ref: RefInfo) {
    exists i :: i < m && IsFirst(p, f, i) && ref == RefAt(p, i)
  }

  ghost predicate DistinctTokens(refs: seq<RefInfo>) {
    forall a, b | 0 <= a < b < |refs| :: TokenOf(refs[a]) != TokenOf(refs[b])
  }

  ghost predicate IsAmong(refs: seq<RefInfo>, token: Token) {
    exists a :: 0 <= a < |refs| && TokenOf(refs[a]) == token
  }

  /** The surrounding construct, where one is kept, encloses the token. */
  predicate FullsEnclose(refs: seq<RefInfo>) {
    forall a | 0 <= a < |refs| && refs[a].full.Some? ::
      refs[a].full.value.start <= refs[a].start && refs[a].end <= refs[a].full.value.end
  }

  lemma {:induction false} FirstOfToken(p: Project, f: int, i: nat) returns (first: nat)
    requires Counts(p, f, i)
    ensures first <= i && IsFirst(p, f, first) && TokenOf(RefAt(p, first)) == TokenOf(RefAt(p, i))
    decreases i
  {
    if IsFirst(p, f, i) {
      first := i;
    } else {
      var j :| Counts(p, f, j) && TokenOf(RefAt(p, j)) == TokenOf(RefAt(p, i)) && j < i;
      first := FirstOfToken(p, f, j);
    }
  }

  lemma FirstIsUnique(p: Project, f: int, i: int, j: int)
    requires IsFirst(p, f, i) && IsFirst(p, f, j) && TokenOf(RefAt(p, i)) == TokenOf(RefAt(p, j))
    ensures i == j
  {}

  lemma FirstsDiffer(p: Project, f: int, i: int, j: int)
    requires IsFirst(p, f, i) && IsFirst(p, f, j) && i != j
    ensures TokenOf(RefAt(p, i)) != TokenOf(RefAt(p, j))
  {}

  lemma FirstsAreResolved(p: Project, f: int, m: nat, firsts: seq<nat>)
    requires AreFirsts(p, f, m, firsts)
    requires forall k {:trigger firsts[k]} | 0 <= k < |firsts| :: IsUsable(p, firsts[k])
    ensures IsResolved(p, f, m, RefsAt(p, firsts))
  {
    hide IsResolvable, ResolvedRef;
    var refs := RefsAt(p, firsts);
    forall a | 0 <= a < |refs|
      ensures firsts[a] < m && IsFirst(p, f, firsts[a]) && refs[a] == RefAt(p, firsts[a])
    {
      FirstsAreUsable(p, f, m, firsts, a);
      assert firsts[a] in firsts;
    }
    forall token ensures IsAmong(refs, token) <==> IsAsked(p, f, m, token) {
      if i :| i < m && Counts(p, f, i) && TokenOf(RefAt(p, i)) == token {
        var first := FirstOfToken(p, f, i);
        assert first in firsts;
        var a :| 0 <= a < |firsts| && firsts[a] == first;
        assert TokenOf(refs[a]) == token;
      }
      if a :| 0 <= a < |refs| && TokenOf(refs[a]) == token {
        assert Counts(p, f, firsts[a]);
      }
    }
    forall a, b | 0 <= a < b < |refs| ensures TokenOf(refs[a]) != TokenOf(refs[b]) {
      FirstsDiffer(p, f, firsts[a], firsts[b]);
    }
    forall a, b, i, j | 0 <= a < b < |refs| && IsFirst(p, f, i) && IsFirst(p, f, j) && refs[a] == RefAt(p, i)
      && refs[b] == RefAt(p, j)
      ensures i < j
    {
      FirstIsUnique(p, f, firsts[a], i);
      FirstIsUnique(p, f, firsts[b], j);
    }
  }

  lemma ResolvedFullsEnclose(p: Project, firsts: seq<nat>)
    requires forall k {:trigger firsts[k]} | 0 <= k < |firsts| :: IsUsable(p, firsts[k])
    ensures FullsEnclose(RefsAt(p, firsts))
  {
    hide IsResolvable;
    forall k | 0 <= k < |firsts| ensures RefsAt(p, firsts)[k] == RefAt(p, firsts[k]) {}
  }

  /** From a file without references, a resolution leaves exactly what the log says up to its end or first failure. */
  lemma ResolvedFromScratch(p: Project, f: int)
    requires IsObject(p.objects, f) && p.objects[f - 1].refs == []
    ensures var q, m := ResolveReferences(p), FirstFailure(p, 0);
            && q.references == (if m == |p.references| then [] else p.references) && |q.objects| == |p.objects|
            && IsResolved(p, f, m, q.objects[f - 1].refs) && FullsEnclose(q.objects[f - 1].refs)
  {
    hide IsResolved, FullsEnclose, AreFirsts, ResolveLog, FirstFailure;
    var m := FirstFailure(p, 0);
    var firsts := LogAddsFirsts(p, f, m);
    FirstsAreResolved(p, f, m, firsts);
    ResolvedFullsEnclose(p, firsts);
    assert [] + RefsAt(p, firsts) == RefsAt(p, firsts);
  }

  lemma JoinedTokens(p: Project, f: int, m: nat, before: seq<RefInfo>, added: seq<RefInfo>)
    requires IsResolved(p, f, m, added)
    ensures DistinctTokens(before + added)
            <==> && DistinctTokens(before)
                 && forall i | i < m && Counts(p, f, i) :: !IsAmong(before, TokenOf(RefAt(p, i)))
  {
    hide IsUsable, RefAt;
    var refs := before + added;
    if !DistinctTokens(before) {
      var a, b :| 0 <= a < b < |before| && TokenOf(before[a]) == TokenOf(before[b]);
      assert refs[a] == before[a] && refs[b] == before[b];
    } else if i :| i < m && Counts(p, f, i) && IsAmong(before, TokenOf(RefAt(p, i))) {
      assert IsAsked(p, f, m, TokenOf(RefAt(p, i)));
      assert IsAmong(added, TokenOf(RefAt(p, i)));
      var a :| 0 <= a < |before| && TokenOf(before[a]) == TokenOf(RefAt(p, i));
      var b :| 0 <= b < |added| && TokenOf(added[b]) == TokenOf(RefAt(p, i));
      assert refs[a] == before[a] && refs[|before| + b] == added[b];
    } else {
      forall a, b | 0 <= a < b < |refs| ensures TokenOf(refs[a]) != TokenOf(refs[b]) {
        if a < |before| <= b {
          assert IsAmong(added, TokenOf(added[b - |before|]));
          assert IsAsked(p, f, m, TokenOf(refs[b]));
          assert !IsAmong(before, TokenOf(refs[b]));
        }
      }
    }
  }

  /**
   Each resolution only remembers its own entries. After another one, whether either failed or
   not, tokens are distinct exactly when they were before and no entry that counts, up to the
   first failure, names a token the file already had.
   */
  lemma ResolvedAgain(p: Project, f: int)
    requires IsObject(p.objects, f)
    ensures var q, m, before := ResolveReferences(p), FirstFailure(p, 0), p.objects[f - 1].refs;
            && |q.objects| == |p.objects| && before <= q.objects[f - 1].refs
            && IsResolved(p, f, m, q.objects[f - 1].refs[|before|..])
            && (DistinctTokens(q.objects[f - 1].refs)
                <==> && DistinctTokens(before)
                     && forall i | i < m && Counts(p, f, i) :: !IsAmong(before, TokenOf(RefAt(p, i))))
  {
    hide IsResolved, AreFirsts, ResolveLog, FirstFailure, DistinctTokens, Counts, IsAmong;
    var m := FirstFailure(p, 0);
    var firsts := LogAddsFirsts(p, f, m);
    FirstsAreResolved(p, f, m, firsts);
    var before, added := p.objects[f - 1].refs, RefsAt(p, firsts);
    JoinedTokens(p, f, m, before, added);
    assert (before + added)[|before|..] == added;
  }
}
