/** The two-version store kept in a Secret, and the JSON it is kept as. */
module Storage {
  import opened Wrappers
  import opened Resources

  // ----- The stored form -----------------------------------------------------------------------------

  /** The JSON text as tokens: the version, the items with the commas between them, the end. */
  datatype Token = Open(version: int) | Comma | Item(kind: Kind, name: string, spec: Spec) | Close

  type Blob = seq<Token>

  function ItemOf(r: Resource): Token
    requires !r.IsDelete()
  {
    Item(r.kind, r.name, r.spec.value)
  }

  /** The body of `MarshalJSON`: a comma goes before every item but the one at index 0. */
  function Body(items: seq<Resource>): Blob {
    if items == [] then []
    else
      var before, r := items[..|items| - 1], items[|items| - 1];
      if r.IsDelete() then Body(before)
      else Body(before) + (if before == [] then [] else [Comma]) + [ItemOf(r)]
  }

  function Encode(r: Resources): Blob {
    [Open(r.version)] + Body(r.items) + [Close]
  }

  method MarshalJSON(r: Resources) returns (b: Blob)
    ensures b == Encode(r)
  {
    b := [Open(r.version)];
    for i := 0 to |r.items|
      invariant b == [Open(r.version)] + Body(r.items[..i])
    {
      assert r.items[..i + 1][..i] == r.items[..i];
      var item := r.items[i];
      if !item.IsDelete() {
        if i > 0 {
          b := b + [Comma];
        }
        b := b + [ItemOf(item)];
      }
    }
    assert r.items[..|r.items|] == r.items;
    b := b + [Close];
  }

  /** What follows an item: more of them behind commas, then the end. */
  function DecodeRest(b: Blob): Option<seq<Resource>> {
    if b == [Close] then Some([])
    else if |b| >= 2 && b[0] == Comma && b[1].Item? then
      match DecodeRest(b[2..])
      case Some(rs) => Some([Resource(b[1].kind, b[1].name, Some(b[1].spec))] + rs)
      case None => None
    else None
  }

  /** `UnmarshalJSON` into a fresh value; it fails on text that is not JSON. */
  function Decode(b: Blob): Option<Resources> {
    if |b| < 2 || !b[0].Open? then None
    else if b[1..] == [Close] then Some(Resources(b[0].version, []))
    else if !b[1].Item? then None
    else match DecodeRest(b[2..])
      case Some(rs) => Some(Resources(b[0].version, [Resource(b[1].kind, b[1].name, Some(b[1].spec))] + rs))
      case None => None
  }

  predicate DeleteFree(items: seq<Resource>) {
    forall i :: 0 <= i < |items| ==> !items[i].IsDelete()
  }

  /** The items the stored form keeps. */
  function Kept(items: seq<Resource>): seq<Resource> {
    if items == [] then []
    else if items[0].IsDelete() then Kept(items[1..])
    else [items[0]] + Kept(items[1..])
  }

  /** The items that are not deletions, each behind a comma. */
  function WithCommas(items: seq<Resource>): Blob {
    if items == [] then []
    else if items[0].IsDelete() then WithCommas(items[1..])
    else [Comma, ItemOf(items[0])] + WithCommas(items[1..])
  }

  lemma {:induction false} BodyIsWithCommas(first: Resource, rest: seq<Resource>)
    ensures Body([first] + rest) == (if first.IsDelete() then [] else [ItemOf(first)]) + WithCommas(rest)
  {
    if rest == [] {
      assert [first] + rest == [first];
      assert [first][..0] == [];
    } else {
      var before, r := rest[..|rest| - 1], rest[|rest| - 1];
      assert ([first] + rest)[..|rest|] == [first] + before;
      BodyIsWithCommas(first, before);
      assert rest == before + [r];
      WithCommasSnoc(before, r);
    }
  }

  lemma {:induction false} WithCommasSnoc(items: seq<Resource>, r: Resource)
    ensures WithCommas(items + [r]) == WithCommas(items) + (if r.IsDelete() then [] else [Comma, ItemOf(r)])
  {
    if items == [] {
      assert items + [r] == [r] && [r][1..] == [];
    } else {
      assert (items + [r])[1..] == items[1..] + [r];
      WithCommasSnoc(items[1..], r);
    }
  }

  lemma {:induction false} DecodeWithCommas(items: seq<Resource>)
    ensures DecodeRest(WithCommas(items) + [Close]) == Some(Kept(items))
  {
    if items != [] {
      DecodeWithCommas(items[1..]);
      if !items[0].IsDelete() {
        var b := WithCommas(items) + [Close];
        assert b[2..] == WithCommas(items[1..]) + [Close];
        assert items[0] == Resource(b[1].kind, b[1].name, Some(b[1].spec));
      }
    }
  }

  /** The first item is not a deletion, or all of them are. */
  predicate Marshals(items: seq<Resource>) {
    items == [] || !items[0].IsDelete() || Kept(items) == []
  }

  /** What comes back is the version and the items that are not deletions. It comes back exactly when
      the first item is not a deletion or all of them are: otherwise the text starts with a comma. */
  lemma RoundTrip(r: Resources)
    ensures Decode(Encode(r)).Some? <==> Marshals(r.items)
    ensures Decode(Encode(r)).Some? ==> Decode(Encode(r)) == Some(Resources(r.version, Kept(r.items)))
  {
    if r.items == [] {
      assert Encode(r)[1..] == [Close];
    } else {
      var first, rest := r.items[0], r.items[1..];
      assert r.items == [first] + rest;
      BodyIsWithCommas(first, rest);
      hide Body, WithCommas, Decode;
      if first.IsDelete() {
        DecodeCommas(r.version, rest);
        assert Encode(r) == [Open(r.version)] + (WithCommas(rest) + [Close]);
      } else {
        DecodeItems(r.version, first, rest);
        assert Encode(r) == [Open(r.version), ItemOf(first)] + (WithCommas(rest) + [Close]);
      }
    }
  }

  lemma DecodeCommas(version: int, rest: seq<Resource>)
    ensures Decode([Open(version)] + (WithCommas(rest) + [Close])) ==
              if Kept(rest) == [] then Some(Resources(version, [])) else None
  {
    CommasOrNothing(rest);
    hide WithCommas, DecodeRest;
    var b := [Open(version)] + (WithCommas(rest) + [Close]);
    assert b[1..] == WithCommas(rest) + [Close];
  }

  lemma DecodeItems(version: int, first: Resource, rest: seq<Resource>)
    requires !first.IsDelete()
    ensures Decode([Open(version), ItemOf(first)] + (WithCommas(rest) + [Close])) ==
              Some(Resources(version, [first] + Kept(rest)))
  {
    DecodeWithCommas(rest);
    hide WithCommas, DecodeRest;
    var b := [Open(version), ItemOf(first)] + (WithCommas(rest) + [Close]);
    assert b[2..] == WithCommas(rest) + [Close];
    assert first == Resource(b[1].kind, b[1].name, Some(b[1].spec));
  }

  /** `json.Marshal` checks what `MarshalJSON` returns, and fails if it is not JSON. */
  method Marshal(r: Resources) returns (ok: bool, b: Blob)
    ensures b == Encode(r)
    ensures ok <==> Marshals(r.items)
  {
    b := MarshalJSON(r);
    RoundTrip(r);
    ok := Decode(b).Some?;
  }

  lemma {:induction false} CommasOrNothing(items: seq<Resource>)
    ensures WithCommas(items) == [] <==> Kept(items) == []
    ensures WithCommas(items) != [] ==> WithCommas(items)[0] == Comma
  {
    if items != [] {
      CommasOrNothing(items[1..]);
    }
  }

  lemma {:induction false} KeptAll(items: seq<Resource>)
    ensures Kept(items) == items <==> DeleteFree(items)
    ensures |Kept(items)| <= |items|
  {
    if items != [] {
      KeptAll(items[1..]);
      assert items == [items[0]] + items[1..];
      if DeleteFree(items) {
        assert DeleteFree(items[1..]);
      }
      if !items[0].IsDelete() && DeleteFree(items[1..]) {
        assert forall i :: 0 < i < |items| ==> items[i] == items[1..][i - 1];
      }
    }
  }

  /** The stored form is faithful exactly for collections without deletions. */
  lemma RoundTripExact(r: Resources)
    ensures Decode(Encode(r)) == Some(r) <==> DeleteFree(r.items)
  {
    RoundTrip(r);
    KeptAll(r.items);
  }

  // ----- The store -----------------------------------------------------------------------------------

  const HASH_LABEL := "coherence-hash"
  const STORE_LABEL := "coherence-storage"

  /** The Secret: its labels and the two entries of its data. */
  datatype SecretData = SecretData(labels: map<string, string>, latest: Option<Blob>, previous: Option<Blob>)

  /** The owning resource: its generation string and the labels it adds everywhere. */
  datatype Owner = Owner(hash: string, globalLabels: map<string, string>)

  /** The store object in memory. */
  datatype Memory = Memory(latest: Resources, previous: Resources, hash: Option<string>)

  const FRESH := Memory(NOTHING, NOTHING, None)

  function Wrap32(n: int): int {
    (n + 0x8000_0000) % 0x1_0000_0000 - 0x8000_0000
  }

  /** An absent or empty data entry leaves the collection as it was. */
  function DecodeData(d: Option<Blob>): Option<Resources> {
    if d.GetOr([]) == [] then Some(NOTHING) else Decode(d.value)
  }

  function HashOf(labels: map<string, string>): Option<string> {
    if HASH_LABEL in labels then Some(labels[HASH_LABEL]) else None
  }

  /** What loading the Secret gives: nothing if an entry does not decode. */
  function Loaded(secret: Option<SecretData>): Option<Memory> {
    match secret
    case None => Some(FRESH)
    case Some(d) =>
      match (DecodeData(d.latest), DecodeData(d.previous))
      case (Some(l), Some(p)) => Some(Memory(l, p, HashOf(d.labels)))
      case _ => None
  }

  function NextResources(m: Memory, items: seq<Resource>): Resources {
    Resources(Wrap32(m.latest.version + 1), items)
  }

  function NextMemory(m: Memory, items: seq<Resource>, owner: Owner): Memory {
    Memory(NextResources(m, items), m.latest, Some(owner.hash))
  }

  /** The previous entry is whatever the Secret had as its latest one. */
  function NextSecret(m: Memory, secret: Option<SecretData>, items: seq<Resource>, owner: Owner): SecretData {
    var was := secret.GetOr(SecretData(map[STORE_LABEL := "true"], None, None));
    SecretData(was.labels[HASH_LABEL := owner.hash] + owner.globalLabels,
               Some(Encode(NextResources(m, items))), was.latest)
  }

  /** Which calls of the API fail during one operation: the first read, the second read, the write. */
  datatype Faults = Faults(get: bool, again: bool, put: bool)

  /** The API server's copy of the Secret. */
  class SecretApi {
    var secret: Option<SecretData>

    constructor ()
      ensures secret == None
    {
      secret := None;
    }

    method Get(fails: bool) returns (ok: bool, r: Option<SecretData>)
      ensures ok == !fails && (ok ==> r == secret)
    {
      if fails {
        return false, None;
      }
      return true, secret;
    }

    /** Create or patch: when it succeeds the Secret takes the desired value. */
    method Put(desired: SecretData, fails: bool) returns (ok: bool)
      modifies this
      ensures ok == !fails && secret == if ok then Some(desired) else old(secret)
    {
      if fails {
        return false;
      }
      secret := Some(desired);
      return true;
    }
  }

  class SecretStore {
    const api: SecretApi
    var latest: Resources
    var previous: Resources
    var hash: Option<string>

    function Value(): Memory
      reads this
    {
      Memory(latest, previous, hash)
    }

    constructor (api: SecretApi)
      ensures this.api == api && Value() == FRESH
    {
      this.api := api;
      latest, previous, hash := NOTHING, NOTHING, None;
    }

    method LoadVersions(f: Faults) returns (ok: bool)
      requires Value() == FRESH
      modifies this
      ensures ok <==> !f.get && Loaded(api.secret).Some?
      ensures ok ==> Loaded(api.secret) == Some(Value())
    {
      var got, secret := api.Get(f.get);
      if !got {
        return false;
      }
      if secret.Some? {
        var d := secret.value;
        if d.latest.Some? && |d.latest.value| > 0 {
          var r := Decode(d.latest.value);
          if r.None? {
            return false;
          }
          latest := r.value;
        }
        if d.previous.Some? && |d.previous.value| > 0 {
          var r := Decode(d.previous.value);
          if r.None? {
            return false;
          }
          previous := r.value;
        }
        hash := if HASH_LABEL in d.labels then Some(d.labels[HASH_LABEL]) else None;
      }
      return true;
    }

    /** `Store`: a failure at any point leaves both the memory and the Secret as they were. */
    method Store(items: seq<Resource>, owner: Owner, f: Faults) returns (ok: bool)
      modifies this, api
      ensures ok <==> Marshals(items) && !f.get && !f.again && !f.put
      ensures ok ==> Value() == NextMemory(old(Value()), items, owner)
      ensures ok ==> api.secret == Some(NextSecret(old(Value()), old(api.secret), items, owner))
      ensures !ok ==> Value() == old(Value()) && api.secret == old(api.secret)
    {
      var got, found := api.Get(f.get);
      if !got {
        return false;
      }
      var secret := if found.Some? then found.value else SecretData(map[STORE_LABEL := "true"], None, None);
      var res := Resources(Wrap32(latest.version + 1), items);
      var oldLatest := secret.latest;
      var valid, newLatest := Marshal(res);
      if !valid {
        return false;
      }
      var labels := secret.labels[HASH_LABEL := owner.hash];
      labels := labels + owner.globalLabels;
      secret := secret.(labels := labels);
      secret := secret.(latest := Some(newLatest));
      secret := secret.(previous := oldLatest);
      ok := Save(secret, f);
      if ok {
        previous := latest;
        latest := res;
        hash := Some(owner.hash);
      }
    }

    method Save(desired: SecretData, f: Faults) returns (ok: bool)
      modifies api
      ensures ok <==> !f.again && !f.put
      ensures api.secret == if ok then Some(desired) else old(api.secret)
    {
      var got, current := api.Get(f.again);
      if !got {
        return false;
      }
      ok := api.Put(desired, f.put);
    }

    method GetDeletions() returns (deletions: seq<Resource>)
      ensures deletions == Deletions(previous.items, latest.items)
    {
      deletions := [];
      for i := 0 to |previous.items|
        invariant deletions == Deletions(previous.items[..i], latest.items)
      {
        var prev := previous.items[i];
        assert previous.items[..i + 1][..i] == previous.items[..i];
        var found := false;
        var j := 0;
        while j < |latest.items| && !found
          invariant 0 <= j <= |latest.items|
          invariant found ==> Find(latest.items, prev.kind, prev.name).Some?
          invariant !found ==> Find(latest.items, prev.kind, prev.name) == Find(latest.items[j..], prev.kind, prev.name)
          decreases |latest.items| - j, !found
        {
          if latest.items[j].name == prev.name && latest.items[j].kind == prev.kind {
            found := true;
          } else {
            j := j + 1;
          }
        }
        if !found {
          deletions := deletions + [prev];
        }
      }
      assert previous.items[..|previous.items|] == previous.items;
    }
  }

  /** The entries of the previous version that the latest one lacks, in order. */
  function Deletions(previous: seq<Resource>, latest: seq<Resource>): seq<Resource> {
    if previous == [] then []
    else
      var before, r := previous[..|previous| - 1], previous[|previous| - 1];
      if Find(latest, r.kind, r.name).None? then Deletions(before, latest) + [r] else Deletions(before, latest)
  }

  lemma {:induction false} DeletionMembers(previous: seq<Resource>, latest: seq<Resource>)
    ensures forall r :: r in Deletions(previous, latest) <==> r in previous && Find(latest, r.kind, r.name).None?
  {
    if previous != [] {
      assert previous == previous[..|previous| - 1] + [previous[|previous| - 1]];
      DeletionMembers(previous[..|previous| - 1], latest);
    }
  }

  // ----- Memory and Secret agree -----------------------------------------------------------------------

  ghost predicate Agree(m: Memory, secret: Option<SecretData>) {
    Loaded(secret) == Some(m)
  }

  /** The labels of the Secret after a `Store`: the global labels of the owner win, then the hash label, and
      every other label is as it was; a new Secret is marked as a store. Its latest entry reads as the
      version now in memory without the deletions, and its previous one is the latest it had. */
  lemma SecretAfterStore(m: Memory, secret: Option<SecretData>, items: seq<Resource>, owner: Owner, k: string)
    ensures var next := NextSecret(m, secret, items, owner);
            && (k in owner.globalLabels ==> k in next.labels && next.labels[k] == owner.globalLabels[k])
            && (k !in owner.globalLabels && k == "coherence-hash" ==> k in next.labels && next.labels[k] == owner.hash)
            && (k !in owner.globalLabels && k != "coherence-hash" ==>
                  && (k in next.labels <==> if secret.Some? then k in secret.value.labels else k == "coherence-storage")
                  && (k in next.labels ==>
                        next.labels[k] == if secret.Some? then secret.value.labels[k] else "true"))
            && next.latest.Some?
            && Decode(next.latest.value) ==
                (if Marshals(items) then Some(Resources(NextMemory(m, items, owner).latest.version, Kept(items)))
                 else None)
            && next.previous == if secret.Some? then secret.value.latest else None
  {
    RoundTrip(NextResources(m, items));
  }

  /** After a `Store` that went through, reloading gives what is in memory exactly when the items stored
      hold no deletion and no global label overrides the hash label. */
  lemma StoreAgrees(m: Memory, secret: Option<SecretData>, items: seq<Resource>, owner: Owner)
    requires Agree(m, secret) && Marshals(items)
    ensures Agree(NextMemory(m, items, owner), Some(NextSecret(m, secret, items, owner))) <==>
              && DeleteFree(items)
              && (HASH_LABEL in owner.globalLabels ==> owner.globalLabels[HASH_LABEL] == owner.hash)
  {
    RoundTripExact(NextResources(m, items));
    assert Encode(NextResources(m, items))[0] == Open(NextResources(m, items).version);
  }

  datatype Round = Round(items: seq<Resource>, owner: Owner)

  predicate Storable(r: Round) {
    && DeleteFree(r.items)
    && (HASH_LABEL in r.owner.globalLabels ==> r.owner.globalLabels[HASH_LABEL] == r.owner.hash)
  }

  /** Memory and Secret after a series of successful `Store` calls. */
  function Stored(m: Memory, secret: Option<SecretData>, rounds: seq<Round>): (Memory, Option<SecretData>) {
    if rounds == [] then (m, secret)
    else
      var (m1, s1) := Stored(m, secret, rounds[..|rounds| - 1]);
      var r := rounds[|rounds| - 1];
      (NextMemory(m1, r.items, r.owner), Some(NextSecret(m1, s1, r.items, r.owner)))
  }

  lemma WrapAgain(v: int, n: int)
    ensures Wrap32(Wrap32(v + n) + 1) == Wrap32(v + n + 1)
  {
  }

  /** `version` is `n` as a 32-bit integer: in its range, and congruent to it. */
  predicate In32Bits(version: int, n: int) {
    -0x8000_0000 <= version < 0x8000_0000 && (n - version) % 0x1_0000_0000 == 0
  }

  lemma WrapMeans(n: int)
    ensures In32Bits(Wrap32(n), n)
  {
  }

  /** After n calls from a freshly loaded store: the latest items are the n-th, the version has moved
      on by n, wrapped to 32 bits, the previous version is the one before, the hash is the owner's, and
      reloading the Secret gives the same. */
  lemma StoredAfter(m: Memory, secret: Option<SecretData>, rounds: seq<Round>)
    requires Agree(m, secret) && rounds != [] && forall r <- rounds :: Storable(r)
    ensures var (m', s') := Stored(m, secret, rounds);
            var n := |rounds|;
            && m'.latest.items == rounds[n - 1].items
            && In32Bits(m'.latest.version, m.latest.version + n)
            && m'.hash == Some(rounds[n - 1].owner.hash)
            && (n == 1 ==> m'.previous == m.latest)
            && (n > 1 ==>
                  && m'.previous.items == rounds[n - 2].items
                  && In32Bits(m'.previous.version, m.latest.version + n - 1))
            && Loaded(s') == Some(m')
  {
    hide *;
    StoredRounds(m, secret, rounds);
    WrapMeans(m.latest.version + |rounds|);
    WrapMeans(m.latest.version + |rounds| - 1);
  }

  lemma {:induction false} StoredRounds(m: Memory, secret: Option<SecretData>, rounds: seq<Round>)
    requires Agree(m, secret) && rounds != [] && forall r <- rounds :: Storable(r)
    ensures var (m', s') := Stored(m, secret, rounds);
            var n := |rounds|;
            && m'.latest == Resources(Wrap32(m.latest.version + n), rounds[n - 1].items)
            && m'.hash == Some(rounds[n - 1].owner.hash)
            && (n == 1 ==> m'.previous == m.latest)
            && (n > 1 ==> m'.previous == Resources(Wrap32(m.latest.version + n - 1), rounds[n - 2].items))
            && Loaded(s') == Some(m')
  {
    hide Wrap32, NextSecret, Loaded;
    var before, r := rounds[..|rounds| - 1], rounds[|rounds| - 1];
    assert rounds == before + [r];
    assert Storable(r);
    var (m1, s1) := Stored(m, secret, before);
    if before == [] {
      assert (m1, s1) == (m, secret);
    } else {
      StoredRounds(m, secret, before);
      WrapAgain(m.latest.version, |before|);
    }
    StoreAgrees(m1, s1, r.items, r.owner);
    assert Stored(m, secret, rounds) == (NextMemory(m1, r.items, r.owner), Some(NextSecret(m1, s1, r.items, r.owner)));
  }
}
