/**
 The cache of verified language packs: packs are stored under their checksums, the index is written
 last, and only then is anything removed. A crash may fall between any two writes.
 */
module LanguageCache {
  import opened Prelude

  type Digest = nat

  /** One line of the index, and with its checksum the cache key of the pack it names. */
  datatype Entry = Entry(locale: string, url: string, sha256: Digest)

  datatype PackKey = PackKey(url: string, sha256: Digest)

  datatype Pack = Pack(entry: Entry, source: string)

  type Bundle = seq<Pack>

  datatype Cache = Cache(index: Option<seq<Entry>>, packs: map<PackKey, string>)

  /** Checksums without collisions. */
  ghost predicate Injective(sha256: string -> Digest) {
    forall a, b :: sha256(a) == sha256(b) ==> a == b
  }

  function KeyOf(entry: Entry): PackKey {
    PackKey(entry.url, entry.sha256)
  }

  /** Every pack has the checksum its entry names. */
  ghost predicate Verified(bundle: Bundle, sha256: string -> Digest) {
    forall p | p in bundle :: sha256(p.source) == p.entry.sha256
  }

  function EntriesOf(bundle: Bundle): seq<Entry> {
    seq(|bundle|, i requires 0 <= i < |bundle| => bundle[i].entry)
  }

  // ---------------------------------------------------------------- restoring

  predicate Usable(cache: Cache, entry: Entry, sha256: string -> Digest) {
    KeyOf(entry) in cache.packs && sha256(cache.packs[KeyOf(entry)]) == entry.sha256
  }

  predicate AllUsable(cache: Cache, entries: seq<Entry>, sha256: string -> Digest) {
    forall e | e in entries :: Usable(cache, e, sha256)
  }

  /** The bundle a restore installs: all the packs of the index, or none of them. */
  function Restored(cache: Cache, sha256: string -> Digest): Option<Bundle> {
    if cache.index.None? || !AllUsable(cache, cache.index.value, sha256) then None
    else
      var entries := cache.index.value;
      Some(seq(|entries|, i requires 0 <= i < |entries| =>
        assert Usable(cache, entries[i], sha256);
        Pack(entries[i], cache.packs[KeyOf(entries[i])])))
  }

  method RestoreVerifiedLanguageBundle(cache: Cache, sha256: string -> Digest) returns (bundle: Option<Bundle>)
    ensures bundle == Restored(cache, sha256)
  {
    if cache.index.None? {
      return None;
    }
    var entries := cache.index.value;
    var packs: Bundle := [];
    for i := 0 to |entries|
      invariant |packs| == i
      invariant forall k :: 0 <= k < i ==>
                  Usable(cache, entries[k], sha256) && packs[k] == Pack(entries[k], cache.packs[KeyOf(entries[k])])
    {
      var key := KeyOf(entries[i]);
      if key !in cache.packs || sha256(cache.packs[key]) != entries[i].sha256 {
        assert entries[i] in entries && !Usable(cache, entries[i], sha256);
        return None;
      }
      packs := packs + [Pack(entries[i], cache.packs[key])];
    }
    forall e | e in entries
      ensures Usable(cache, e, sha256)
    {
      var k :| 0 <= k < |entries| && entries[k] == e;
    }
    assert packs == Restored(cache, sha256).value;
    bundle := Some(packs);
  }

  // ---------------------------------------------------------------- persisting

  datatype Write = PutPack(pack: Pack) | PutIndex(entries: seq<Entry>) | Delete(key: PackKey)

  function Written(cache: Cache, w: Write): Cache {
    match w
    case PutPack(pack) => cache.(packs := cache.packs[KeyOf(pack.entry) := pack.source])
    case PutIndex(entries) => cache.(index := Some(entries))
    case Delete(key) => cache.(packs := cache.packs - {key})
  }

  function AllWritten(cache: Cache, writes: seq<Write>): Cache {
    if writes == [] then cache else Written(AllWritten(cache, writes[..|writes| - 1]), writes[|writes| - 1])
  }

  function Retained(bundle: Bundle): set<PackKey> {
    set p | p in bundle :: KeyOf(p.entry)
  }

  function Puts(packs: seq<Pack>): seq<Write> {
    seq(|packs|, i requires 0 <= i < |packs| => PutPack(packs[i]))
  }

  function Deletes(keys: seq<PackKey>): seq<Write> {
    seq(|keys|, i requires 0 <= i < |keys| => Delete(keys[i]))
  }

  /** The writes of one persist: the packs in any order, then the index, then removals in any order. */
  datatype Persist = Persist(bundle: Bundle, puts: seq<Pack>, removals: seq<PackKey>) {
    function Writes(): seq<Write> {
      Puts(puts) + [PutIndex(EntriesOf(bundle))] + Deletes(removals)
    }

    ghost predicate Valid(sha256: string -> Digest) {
      && Verified(bundle, sha256)
      && multiset(puts) == multiset(bundle)
      && forall key | key in removals :: key !in Retained(bundle)
    }
  }

  class LanguagePackCache {
    var contents: Cache
    /** Every state a crash could have left so far. */
    ghost var history: seq<Cache>

    constructor ()
      ensures contents == Cache(None, map[]) && history == [contents]
    {
      contents := Cache(None, map[]);
      history := [Cache(None, map[])];
    }

    method Apply(w: Write)
      modifies this
      ensures contents == Written(old(contents), w) && history == old(history) + [contents]
    {
      contents := Written(contents, w);
      history := history + [contents];
    }

    method PutPacks(bundle: Bundle)
      modifies this
      ensures contents == AllWritten(old(contents), Puts(bundle))
      ensures history == old(history) + Trail(old(contents), Puts(bundle))
    {
      ghost var start, before := contents, history;
      for i := 0 to |bundle|
        invariant contents == AllWritten(start, Puts(bundle[..i]))
        invariant history == before + Trail(start, Puts(bundle[..i]))
      {
        Apply(PutPack(bundle[i]));
        TrailGrows(start, Puts(bundle[..i]), PutPack(bundle[i]));
        assert Puts(bundle[..i + 1]) == Puts(bundle[..i]) + [PutPack(bundle[i])];
      }
      assert bundle[..|bundle|] == bundle;
    }

    /** Removes what is not retained, in no particular order. */
    method Prune(retained: set<PackKey>) returns (ghost removals: seq<PackKey>)
      modifies this
      ensures contents == AllWritten(old(contents), Deletes(removals))
      ensures history == old(history) + Trail(old(contents), Deletes(removals))
      ensures forall key | key in removals :: key !in retained
      ensures contents.packs.Keys <= retained
    {
      removals := [];
      ghost var start, before := contents, history;
      var rest := contents.packs.Keys - retained;
      while rest != {}
        invariant contents.packs.Keys <= retained + rest && rest !! retained
        invariant forall key | key in removals :: key !in retained
        invariant contents == AllWritten(start, Deletes(removals))
                  && history == before + Trail(start, Deletes(removals))
        decreases rest
      {
        var key :| key in rest;
        Apply(Delete(key));
        TrailGrows(start, Deletes(removals), Delete(key));
        assert Deletes(removals + [key]) == Deletes(removals) + [Delete(key)];
        removals := removals + [key];
        rest := rest - {key};
      }
    }

    /** One persist, write by write. What is left holds the bundle's packs and no others. */
    method PersistVerifiedLanguageBundle(bundle: Bundle, sha256: string -> Digest) returns (ghost p: Persist)
      requires Verified(bundle, sha256)
      modifies this
      ensures p.bundle == bundle && p.Valid(sha256)
      ensures history == old(history) + Trail(old(contents), p.Writes())
      ensures contents == AllWritten(old(contents), p.Writes())
      ensures contents.packs.Keys <= Retained(bundle)
    {
      ghost var start, index := contents, PutIndex(EntriesOf(bundle));
      PutPacks(bundle);
      Apply(PutIndex(EntriesOf(bundle)));
      TrailGrows(start, Puts(bundle), index);
      ghost var removals := Prune(Retained(bundle));
      TrailInParts(start, Puts(bundle) + [index], Deletes(removals));
      WrittenInParts(start, Puts(bundle) + [index], Deletes(removals));
      p := Persist(bundle, bundle, removals);
    }
  }

  /** The states after each of the writes. */
  function Trail(start: Cache, writes: seq<Write>): seq<Cache> {
    if writes == [] then [] else Trail(start, writes[..|writes| - 1]) + [AllWritten(start, writes)]
  }

  lemma TrailGrows(start: Cache, writes: seq<Write>, w: Write)
    ensures AllWritten(start, writes + [w]) == Written(AllWritten(start, writes), w)
    ensures Trail(start, writes + [w]) == Trail(start, writes) + [AllWritten(start, writes + [w])]
  {
  }

  lemma {:induction false} TrailInParts(start: Cache, a: seq<Write>, b: seq<Write>)
    ensures Trail(start, a + b) == Trail(start, a) + Trail(AllWritten(start, a), b)
  {
    if b == [] {
      assert a + b == a;
    } else {
      assert (a + b)[..|a + b| - 1] == a + b[..|b| - 1];
      TrailInParts(start, a, b[..|b| - 1]);
      WrittenInParts(start, a, b);
    }
  }

  /** Every state in the trail is the state after some number of the writes. */
  lemma {:induction false} TrailAt(start: Cache, writes: seq<Write>, c: Cache) returns (k: nat)
    requires c in Trail(start, writes)
    ensures k <= |writes| && c == AllWritten(start, writes[..k])
  {
    var before := writes[..|writes| - 1];
    if c in Trail(start, before) {
      k := TrailAt(start, before, c);
      assert before[..k] == writes[..k];
    } else {
      k := |writes|;
      assert writes[..k] == writes;
    }
  }

  // ---------------------------------------------------------------- a crash anywhere

  /** Nothing persisted yet, or an index all of whose packs are there. */
  ghost predicate Whole(cache: Cache, sha256: string -> Digest) {
    cache.index.Some? ==> Restored(cache, sha256).Some?
  }

  /** A pack put under its checksum never disturbs what the index can restore. */
  lemma PutKeepsRestored(cache: Cache, pack: Pack, sha256: string -> Digest)
    requires Injective(sha256) && Whole(cache, sha256) && sha256(pack.source) == pack.entry.sha256
    ensures var cache' := Written(cache, PutPack(pack));
            Restored(cache', sha256) == Restored(cache, sha256) && Whole(cache', sha256)
            && cache'.index == cache.index
  {
    var cache' := Written(cache, PutPack(pack));
    if cache.index.Some? {
      var entries := cache.index.value;
      forall e | e in entries
        ensures Usable(cache', e, sha256) && cache'.packs[KeyOf(e)] == cache.packs[KeyOf(e)]
      {
        assert Usable(cache, e, sha256);
      }
      var a, b := Restored(cache, sha256).value, Restored(cache', sha256).value;
      assert a == b;
    }
  }

  lemma {:induction false} PutsKeepRestored(cache: Cache, writes: seq<Write>, sha256: string -> Digest)
    requires Injective(sha256) && Whole(cache, sha256)
    requires forall w | w in writes :: w.PutPack? && sha256(w.pack.source) == w.pack.entry.sha256
    ensures var cache' := AllWritten(cache, writes);
            && Restored(cache', sha256) == Restored(cache, sha256) && Whole(cache', sha256)
               && cache'.index == cache.index
            && forall w | w in writes :: KeyOf(w.pack.entry) in cache'.packs
    ensures forall w | w in writes :: AllWritten(cache, writes).packs[KeyOf(w.pack.entry)] == w.pack.source
  {
    if writes != [] {
      var before, last := writes[..|writes| - 1], writes[|writes| - 1];
      assert forall w :: w in writes <==> w in before || w == last;
      PutsKeepRestored(cache, before, sha256);
      PutKeepsRestored(AllWritten(cache, before), last.pack, sha256);
    }
  }

  ghost predicate Stored(cache: Cache, bundle: Bundle) {
    && cache.index == Some(EntriesOf(bundle))
    && forall p | p in bundle :: KeyOf(p.entry) in cache.packs && cache.packs[KeyOf(p.entry)] == p.source
  }

  lemma StoredIsRestored(cache: Cache, bundle: Bundle, sha256: string -> Digest)
    requires Stored(cache, bundle) && Verified(bundle, sha256)
    ensures Restored(cache, sha256) == Some(bundle)
  {
    var entries := EntriesOf(bundle);
    forall e | e in entries
      ensures Usable(cache, e, sha256)
    {
      var i :| 0 <= i < |entries| && entries[i] == e;
      assert bundle[i] in bundle;
    }
    var restored := Restored(cache, sha256).value;
    forall i | 0 <= i < |bundle|
      ensures restored[i] == bundle[i]
    {
      assert bundle[i] in bundle;
    }
    assert restored == bundle;
  }

  lemma {:induction false} RemovalsKeepStored(cache: Cache, bundle: Bundle, writes: seq<Write>)
    requires Stored(cache, bundle)
    requires forall w | w in writes :: w.Delete? && w.key !in Retained(bundle)
    ensures Stored(AllWritten(cache, writes), bundle)
  {
    if writes != [] {
      var before, last := writes[..|writes| - 1], writes[|writes| - 1];
      assert forall w | w in before :: w in writes;
      assert last in writes;
      RemovalsKeepStored(cache, bundle, before);
      assert forall p | p in bundle :: KeyOf(p.entry) in Retained(bundle);
    }
  }

  lemma {:induction false} WrittenInParts(cache: Cache, a: seq<Write>, b: seq<Write>)
    ensures AllWritten(cache, a + b) == AllWritten(AllWritten(cache, a), b)
  {
    if b == [] {
      assert a + b == a;
    } else {
      assert (a + b)[..|a + b| - 1] == a + b[..|b| - 1];
      WrittenInParts(cache, a, b[..|b| - 1]);
    }
  }

  lemma PutsAreVerified(p: Persist, sha256: string -> Digest)
    requires p.Valid(sha256)
    ensures forall w | w in Puts(p.puts) :: w.PutPack? && sha256(w.pack.source) == w.pack.entry.sha256
  {
    forall w | w in Puts(p.puts)
      ensures w.PutPack? && sha256(w.pack.source) == w.pack.entry.sha256
    {
      var i :| 0 <= i < |p.puts| && Puts(p.puts)[i] == w;
      assert p.puts[i] in multiset(p.puts);
      assert p.puts[i] in multiset(p.bundle);
    }
  }

  lemma RemovalsAreStray(p: Persist, sha256: string -> Digest, n: nat)
    requires p.Valid(sha256) && n <= |p.removals|
    ensures forall w | w in Deletes(p.removals)[..n] :: w.Delete? && w.key !in Retained(p.bundle)
  {
    forall w | w in Deletes(p.removals)[..n]
      ensures w.Delete? && w.key !in Retained(p.bundle)
    {
      var i :| 0 <= i < n && Deletes(p.removals)[i] == w;
      assert p.removals[i] in p.removals;
    }
  }

  /** From the write of the index on, the new bundle is stored. */
  lemma AfterTheIndex(cache: Cache, p: Persist, n: nat, sha256: string -> Digest)
    requires Injective(sha256) && Whole(cache, sha256) && p.Valid(sha256) && n <= |p.removals|
    ensures var writes := Puts(p.puts) + [PutIndex(EntriesOf(p.bundle))] + Deletes(p.removals)[..n];
            Stored(AllWritten(cache, writes), p.bundle)
  {
    hide Whole, Restored, Stored, Injective;
    var puts, index, removals := Puts(p.puts), PutIndex(EntriesOf(p.bundle)), Deletes(p.removals)[..n];
    PutsAreVerified(p, sha256);
    PutsKeepRestored(cache, puts, sha256);
    IndexedIsStored(cache, p, AllWritten(cache, puts), puts, sha256);
    assert (puts + [index])[..|puts|] == puts;
    RemovalsAreStray(p, sha256, n);
    RemovalsKeepStored(AllWritten(cache, puts + [index]), p.bundle, removals);
    WrittenInParts(cache, puts + [index], removals);
  }

  /**
   Cut off after any number of its writes, a persist leaves the whole old bundle or the whole new one:
   the old until the index is written, the new from then on.
   */
  lemma CrashLeavesOldOrNew(cache: Cache, p: Persist, k: nat, sha256: string -> Digest)
    requires Injective(sha256) && Whole(cache, sha256) && p.Valid(sha256) && k <= |p.Writes()|
    ensures var cache' := AllWritten(cache, p.Writes()[..k]);
            && Restored(cache', sha256) == (if k <= |p.puts| then Restored(cache, sha256) else Some(p.bundle))
            && Whole(cache', sha256)
  {
    var writes, puts := p.Writes(), Puts(p.puts);
    if k <= |p.puts| {
      PutsAreVerified(p, sha256);
      assert writes[..k] == puts[..k];
      assert forall w | w in puts[..k] :: w in puts;
      PutsKeepRestored(cache, writes[..k], sha256);
    } else {
      var n := k - |p.puts| - 1;
      AfterTheIndex(cache, p, n, sha256);
      assert writes[..k] == puts + [PutIndex(EntriesOf(p.bundle))] + Deletes(p.removals)[..n];
      StoredIsRestored(AllWritten(cache, writes[..k]), p.bundle, sha256);
    }
  }

  lemma IndexedIsStored(cache: Cache, p: Persist, packed: Cache, puts: seq<Write>, sha256: string -> Digest)
    requires multiset(p.puts) == multiset(p.bundle)
    requires |puts| == |p.puts| && forall i | 0 <= i < |puts| :: puts[i] == PutPack(p.puts[i])
    requires forall w | w in puts ::
               KeyOf(w.pack.entry) in packed.packs && packed.packs[KeyOf(w.pack.entry)] == w.pack.source
    ensures Stored(Written(packed, PutIndex(EntriesOf(p.bundle))), p.bundle)
  {
    forall b | b in p.bundle
      ensures KeyOf(b.entry) in packed.packs && packed.packs[KeyOf(b.entry)] == b.source
    {
      assert b in multiset(p.bundle);
      assert b in multiset(p.puts);
      var i :| 0 <= i < |p.puts| && p.puts[i] == b;
      assert puts[i] in puts;
    }
  }

  // ---------------------------------------------------------------- any number of persists, each cut off anywhere

  datatype Attempt = Attempt(persist: Persist, cut: nat)

  ghost predicate AttemptsValid(attempts: seq<Attempt>, sha256: string -> Digest) {
    forall a | a in attempts :: a.persist.Valid(sha256) && a.cut <= |a.persist.Writes()|
  }

  function AfterAttempts(cache: Cache, attempts: seq<Attempt>): Cache {
    if attempts == [] then cache
    else
      var last := attempts[|attempts| - 1];
      var before := AfterAttempts(cache, attempts[..|attempts| - 1]);
      AllWritten(before, last.persist.Writes()[..if last.cut <= |last.persist.Writes()| then last.cut else 0])
  }

  /** An atomic register: an attempt takes effect at its index write or not at all. */
  function Register(attempts: seq<Attempt>): Option<Bundle> {
    if attempts == [] then None
    else
      var last := attempts[|attempts| - 1];
      if last.cut > |last.persist.puts| then Some(last.persist.bundle) else Register(attempts[..|attempts| - 1])
  }

  /** Whatever persists ran and wherever they were cut off, a restore reads the atomic register. */
  lemma {:induction false} CacheIsAtomic(attempts: seq<Attempt>, sha256: string -> Digest)
    requires Injective(sha256) && AttemptsValid(attempts, sha256)
    ensures var cache := AfterAttempts(Cache(None, map[]), attempts);
            Restored(cache, sha256) == Register(attempts) && Whole(cache, sha256)
  {
    if attempts != [] {
      var before, last := attempts[..|attempts| - 1], attempts[|attempts| - 1];
      assert forall a | a in before :: a in attempts;
      assert last in attempts;
      CacheIsAtomic(before, sha256);
      CrashLeavesOldOrNew(AfterAttempts(Cache(None, map[]), before), last.persist, last.cut, sha256);
    }
  }
}
