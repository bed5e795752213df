/** Profile snapshots: their validation and their identity hash
    (internal/pipeline/types.go). */
module PipelineProfile {
  import opened Wrappers
  import opened ByteStrings
  import opened HashParts
  import opened PipelineOrder

  datatype Prompt = Prompt(kind: Bytes, id: Bytes, version: int, contentHash: Bytes, text: Bytes, envelope: Bytes)

  datatype Profile = Profile(id: Bytes, name: Bytes, bindings: seq<Binding>, prompts: seq<Prompt>)

  datatype Contract = Contract(version: Bytes, prompt: Bytes)

  /** The registered stages in order, and what encoding/json and the name rule
      decide: validity, compaction (None is an error) and the final encoding. */
  datatype Codec = Codec(registry: seq<StageId>, contracts: StageId -> Contract, validName: Bytes -> bool,
                         json: Bytes -> bool, compact: Bytes -> Option<Bytes>, marshal: Profile -> Bytes)

  predicate Distinct(registry: seq<StageId>) {
    forall i, j :: 0 <= i < j < |registry| ==> registry[i] != registry[j]
  }

  predicate GoodPrompt(p: Prompt) {
    && !Blank(p.kind) && !Blank(p.id) && p.version > 0
    && |Trim(p.contentHash)| == 64 && !Blank(p.text) && !Blank(p.envelope)
  }

  predicate Complete(b: Binding) {
    && !Blank(b.providerId) && !Blank(b.providerType) && !Blank(b.fingerprint) && !Blank(b.modelId)
    && !Blank(b.optionsHash) && !Blank(b.contract) && !Blank(b.prompt)
  }

  predicate GoodBinding(c: Codec, b: Binding) {
    && b.stage in c.registry && Complete(b)
    && Contract(b.contract, b.prompt) == c.contracts(b.stage)
    && !Blank(b.options) && c.json(b.options)
  }

  /** What Validate promises: the registered stages, each once and in order. */
  predicate WellFormed(c: Codec, p: Profile) {
    && c.validName(p.name) && !Blank(p.id)
    && Stages(p.bindings) == c.registry
    && (forall b :: b in p.bindings ==> GoodBinding(c, b))
    && (forall q :: q in p.prompts ==> GoodPrompt(q))
  }

  // ----- validation -----

  datatype ProfileError =
    | BadName
    | MissingId
    | WrongCount
    | Unregistered(index: nat)
    | Duplicate(index: nat)
    | OutOfOrder(index: nat)
    | BadBinding(index: nat)
    | BadPrompt(index: nat)

  /** The first n bindings name registered stages in strict order. */
  predicate Climbing(registry: seq<StageId>, s: seq<Binding>, n: nat)
    requires n <= |s|
  {
    && (forall i :: 0 <= i < n ==> s[i].stage in registry)
    && (forall i :: 0 < i < n ==> Less(registry, s[i - 1].stage, s[i].stage))
  }

  lemma {:induction false} ClimbsByOne(registry: seq<StageId>, s: seq<Binding>, n: nat, i: nat, j: nat)
    requires i <= j < n <= |s| && Climbing(registry, s, n)
    ensures Rank(registry, s[j].stage) >= Rank(registry, s[i].stage) + (j - i)
    decreases j
  {
    if i < j { ClimbsByOne(registry, s, n, i, j - 1); }
  }

  lemma ClimbingPlaces(registry: seq<StageId>, s: seq<Binding>, i: nat)
    requires Climbing(registry, s, |s|) && i < |s| == |registry|
    ensures s[i].stage == registry[i]
  {
    ClimbsByOne(registry, s, |s|, 0, i);
    ClimbsByOne(registry, s, |s|, i, |s| - 1);
  }

  /** As many registered stages as the registry has, in strict order, are the
      registry itself. */
  lemma ClimbingFills(registry: seq<StageId>, s: seq<Binding>)
    requires Climbing(registry, s, |s|) && |s| == |registry|
    ensures Stages(s) == registry
  {
    forall i | 0 <= i < |s| ensures Stages(s)[i] == registry[i] {
      ClimbingPlaces(registry, s, i);
    }
  }

  lemma RegistryClimbs(registry: seq<StageId>, s: seq<Binding>)
    requires Distinct(registry) && Stages(s) == registry
    ensures Climbing(registry, s, |s|)
  {
    forall i | 0 <= i < |s| ensures s[i].stage == registry[i] && Rank(registry, s[i].stage) == i {
      assert Stages(s)[i] == s[i].stage;
      RankOf(registry, i);
    }
  }

  lemma RankOf(registry: seq<StageId>, i: nat)
    requires Distinct(registry) && i < |registry|
    ensures Rank(registry, registry[i]) == i
  {}

  /** What the loop asks of binding i. */
  predicate FineAt(c: Codec, s: seq<Binding>, i: nat)
    requires i < |s|
  {
    && s[i].stage in c.registry
    && (i > 0 ==> Less(c.registry, s[i - 1].stage, s[i].stage))
    && GoodBinding(c, s[i])
  }

  predicate Fine(c: Codec, s: seq<Binding>, n: nat)
    requires n <= |s|
  {
    forall i :: 0 <= i < n ==> FineAt(c, s, i)
  }

  lemma FineClimbs(c: Codec, s: seq<Binding>, n: nat)
    requires n <= |s| && Fine(c, s, n)
    ensures Climbing(c.registry, s, n)
  {
    forall i | 0 <= i < n
      ensures s[i].stage in c.registry
      ensures i > 0 ==> Less(c.registry, s[i - 1].stage, s[i].stage)
    {
      assert FineAt(c, s, i);
    }
  }

  lemma RepeatIsNotFine(c: Codec, s: seq<Binding>, k: nat, i: nat)
    requires k < i < |s| && s[k].stage == s[i].stage
    ensures !Fine(c, s, |s|)
  {
    if Fine(c, s, |s|) {
      FineClimbs(c, s, |s|);
      ClimbsByOne(c.registry, s, |s|, k, i);
    }
  }

  predicate Named(s: seq<Binding>, n: nat, id: StageId)
    requires n <= |s|
  {
    exists k :: 0 <= k < n && s[k].stage == id
  }

  /** The stage is registered, every field but the options says something, the
      versions are the stage's, and the options are JSON. */
  method ValidateBinding(c: Codec, b: Binding) returns (ok: bool)
    ensures ok == GoodBinding(c, b)
    ensures ok <==>
              && b.stage in c.registry && !OnlySpaces(b.providerId) && !OnlySpaces(b.providerType)
              && !OnlySpaces(b.fingerprint) && !OnlySpaces(b.modelId) && !OnlySpaces(b.optionsHash)
              && !OnlySpaces(b.contract) && !OnlySpaces(b.prompt) && b.contract == c.contracts(b.stage).version
              && b.prompt == c.contracts(b.stage).prompt && !OnlySpaces(b.options) && c.json(b.options)
  {
    if b.stage !in c.registry { return false; }
    var fields := [b.providerId, b.providerType, b.fingerprint, b.modelId, b.optionsHash, b.contract, b.prompt];
    for i := 0 to |fields|
      invariant forall k :: 0 <= k < i ==> !Blank(fields[k]) && !OnlySpaces(fields[k])
    {
      BlankIffSpaces(fields[i]);
      if Blank(fields[i]) { return false; }
    }
    assert !Blank(fields[0]) && !Blank(fields[1]) && !Blank(fields[2]) && !Blank(fields[3]) && !Blank(fields[4])
        && !Blank(fields[5]) && !Blank(fields[6]);
    if b.contract != c.contracts(b.stage).version || b.prompt != c.contracts(b.stage).prompt { return false; }
    BlankIffSpaces(b.options);
    ok := !Blank(b.options) && c.json(b.options);
  }

  /** A prompt that a queued job can check later. */
  method ValidatePrompt(q: Prompt) returns (ok: bool)
    ensures ok == GoodPrompt(q)
    ensures ok <==>
              && !OnlySpaces(q.kind) && !OnlySpaces(q.id) && q.version > 0 && |Trim(q.contentHash)| == 64
              && !OnlySpaces(q.text) && !OnlySpaces(q.envelope)
  {
    BlankIffSpaces(q.kind);
    BlankIffSpaces(q.id);
    BlankIffSpaces(q.text);
    BlankIffSpaces(q.envelope);
    if Blank(q.kind) { return false; }
    if Blank(q.id) { return false; }
    if q.version <= 0 { return false; }
    if |Trim(q.contentHash)| != 64 { return false; }
    if Blank(q.text) { return false; }
    ok := !Blank(q.envelope);
  }

  method ValidateBindings(c: Codec, s: seq<Binding>) returns (error: Option<ProfileError>)
    ensures error.None? <==> Fine(c, s, |s|)
  {
    var seen: set<StageId>, previous: StageId := {}, [];
    for i := 0 to |s|
      invariant Fine(c, s, i)
      invariant forall id :: id in seen <==> Named(s, i, id)
      invariant i > 0 ==> previous == s[i - 1].stage
    {
      var b := s[i];
      assert Fine(c, s, |s|) ==> FineAt(c, s, i);
      if b.stage !in c.registry { return Some(Unregistered(i)); }
      if b.stage in seen {
        assert Named(s, i, b.stage);
        var k :| 0 <= k < i && s[k].stage == b.stage;
        RepeatIsNotFine(c, s, k, i);
        return Some(Duplicate(i));
      }
      seen := seen + {b.stage};
      if i > 0 {
        var order := StageOrder(c.registry, previous, b.stage);
        if order >= 0 { return Some(OutOfOrder(i)); }
      }
      previous := b.stage;
      var good := ValidateBinding(c, b);
      if !good { return Some(BadBinding(i)); }
    }
    error := None;
  }

  method ValidatePrompts(prompts: seq<Prompt>) returns (error: Option<ProfileError>)
    ensures error.None? <==> forall q :: q in prompts ==> GoodPrompt(q)
  {
    for i := 0 to |prompts|
      invariant forall q :: q in prompts[..i] ==> GoodPrompt(q)
    {
      var good := ValidatePrompt(prompts[i]);
      if !good { return Some(BadPrompt(i)); }
    }
    error := None;
  }

  lemma FineIffAllGood(c: Codec, s: seq<Binding>)
    requires Climbing(c.registry, s, |s|)
    ensures Fine(c, s, |s|) <==> forall b :: b in s ==> GoodBinding(c, b)
  {
    if Fine(c, s, |s|) {
      forall b | b in s ensures GoodBinding(c, b) {
        var i :| 0 <= i < |s| && s[i] == b;
        assert FineAt(c, s, i);
      }
    }
    forall i | 0 <= i < |s| && GoodBinding(c, s[i])
      ensures FineAt(c, s, i)
    {
    }
  }

  /** Validation succeeds exactly on well-formed profiles; its last check, that
      no registered stage is missing, never fails. */
  method Validate(c: Codec, p: Profile) returns (error: Option<ProfileError>)
    requires Distinct(c.registry)
    ensures error.None? <==> WellFormed(c, p)
  {
    assert |Stages(p.bindings)| == |p.bindings|;
    if !c.validName(p.name) { return Some(BadName); }
    if Blank(p.id) { return Some(MissingId); }
    if |p.bindings| != |c.registry| { return Some(WrongCount); }
    if Stages(p.bindings) == c.registry {
      RegistryClimbs(c.registry, p.bindings);
      FineIffAllGood(c, p.bindings);
    }
    error := ValidateBindings(c, p.bindings);
    if error.Some? { return; }
    FineClimbs(c, p.bindings, |p.bindings|);
    FineIffAllGood(c, p.bindings);
    ClimbingFills(c.registry, p.bindings);
    for i := 0 to |c.registry| {
      if c.registry[i] !in Stages(p.bindings) { assert false; }
    }
    error := ValidatePrompts(p.prompts);
  }

  // ----- the identity hash -----

  const PROFILE_SNAPSHOT_HASH_DOMAIN := "doublangu.profile-snapshot.v1"
  const OPTIONS_HASH_DOMAIN := "doublangu.binding-options.v1"

  datatype HashError = Repeated(stage: StageId) | BadOptions | Invalid

  predicate CanCompact(c: Codec, s: seq<Binding>) {
    forall i :: 0 <= i < |s| ==> c.compact(s[i].options).Some?
  }

  function Compacted(c: Codec, s: seq<Binding>): seq<Binding>
    requires CanCompact(c, s)
  {
    seq(|s|, i requires 0 <= i < |s| => s[i].(options := c.compact(s[i].options).value))
  }

  /** The profile as it is hashed: bindings sorted, options compacted. */
  function Normalized(c: Codec, p: Profile): Result<Profile, HashError> {
    match SortBindingsOf(c.registry, p.bindings)
    case Err(id) => Err(Repeated(id))
    case Ok(sorted) =>
      if !CanCompact(c, sorted) then Err(BadOptions)
      else
        var n := p.(bindings := Compacted(c, sorted));
        if WellFormed(c, n) then Ok(n) else Err(Invalid)
  }

  function SnapshotHashOf(c: Codec, p: Profile): Result<Digest, HashError> {
    match Normalized(c, p)
    case Err(e) => Err(e)
    case Ok(n) => Ok(Sha256(Preimage(Ascii(PROFILE_SNAPSHOT_HASH_DOMAIN), [c.marshal(n)])))
  }

  method CompactAll(c: Codec, s: seq<Binding>) returns (r: Option<seq<Binding>>)
    ensures r == if CanCompact(c, s) then Some(Compacted(c, s)) else None
  {
    var out := s;
    for i := 0 to |s|
      invariant |out| == |s| && forall k :: i <= k < |s| ==> out[k] == s[k]
      invariant forall k :: 0 <= k < i ==> c.compact(s[k].options).Some?
      invariant forall k :: 0 <= k < i ==> out[k] == s[k].(options := c.compact(s[k].options).value)
    {
      var compacted := c.compact(out[i].options);
      if compacted.None? { return None; }
      out := out[i := out[i].(options := compacted.value)];
    }
    assert out == Compacted(c, s);
    r := Some(out);
  }

  method SnapshotHash(c: Codec, p: Profile) returns (r: Result<Digest, HashError>)
    requires Distinct(c.registry)
    ensures r == SnapshotHashOf(c, p)
    ensures r.Err? && r.error.Repeated? <==> exists x :: TwiceIn(p.bindings, x)
  {
    SortRefusesRepeats(c.registry, p.bindings);
    var sorted := SortBindings(c.registry, p.bindings);
    if sorted.Err? { return Err(Repeated(sorted.error)); }
    var compacted := CompactAll(c, sorted.value);
    if compacted.None? { return Err(BadOptions); }
    var n := p.(bindings := compacted.value);
    var error := Validate(c, n);
    if error.Some? { return Err(Invalid); }
    var digest := Hash(Ascii(PROFILE_SNAPSHOT_HASH_DOMAIN), [c.marshal(n)]);
    r := Ok(digest);
  }

  /** Listing the bindings in another order changes neither the hash nor the
      refusal. */
  lemma SnapshotHashForgetsOrder(c: Codec, p: Profile, bindings: seq<Binding>)
    requires multiset(bindings) == multiset(p.bindings)
    ensures SnapshotHashOf(c, p.(bindings := bindings)) == SnapshotHashOf(c, p)
  {
    SortForgetsOrder(c.registry, bindings, p.bindings);
  }

  // ----- white space -----

  /** The same binding but for options that compact alike. */
  predicate Alike(c: Codec, a: Binding, b: Binding) {
    a.(options := b.options) == b && c.compact(a.options) == c.compact(b.options)
  }

  predicate AllAlike(c: Codec, s: seq<Binding>, t: seq<Binding>) {
    |s| == |t| && forall i :: 0 <= i < |s| ==> Alike(c, s[i], t[i])
  }

  lemma {:induction false} InsertedAlike(c: Codec, a: Binding, s: seq<Binding>, b: Binding, t: seq<Binding>)
    requires Alike(c, a, b) && AllAlike(c, s, t)
    ensures AllAlike(c, Inserted(c.registry, a, s), Inserted(c.registry, b, t))
    decreases |s|
  {
    if s != [] && !Less(c.registry, a.stage, s[0].stage) {
      InsertedAlike(c, a, s[1..], b, t[1..]);
    }
  }

  lemma {:induction false} SortedAlike(c: Codec, s: seq<Binding>, t: seq<Binding>)
    requires AllAlike(c, s, t)
    ensures AllAlike(c, Sorted(c.registry, s), Sorted(c.registry, t))
    decreases |s|
  {
    if s != [] {
      var n := |s| - 1;
      SortedAlike(c, s[..n], t[..n]);
      InsertedAlike(c, s[n], Sorted(c.registry, s[..n]), t[n], Sorted(c.registry, t[..n]));
    }
  }

  /** Options that differ only in what compaction drops change neither the hash
      nor the refusal. */
  lemma SnapshotHashForgetsSpacing(c: Codec, p: Profile, q: Profile)
    requires q == p.(bindings := q.bindings) && AllAlike(c, p.bindings, q.bindings)
    ensures SnapshotHashOf(c, p).Ok? <==> SnapshotHashOf(c, q).Ok?
    ensures SnapshotHashOf(c, p) == SnapshotHashOf(c, q)
  {
    var s, t := Sorted(c.registry, p.bindings), Sorted(c.registry, q.bindings);
    SortedAlike(c, p.bindings, q.bindings);
    RepeatOfStages(s, t, 1);
    assert forall i :: 0 <= i < |s| ==> Alike(c, s[i], t[i]);
    if CanCompact(c, s) { assert Compacted(c, s) == Compacted(c, t); }
  }

  // ----- when a profile has a hash -----

  lemma RegistryInOrder(registry: seq<StageId>)
    requires Distinct(registry)
    ensures IdsInOrder(registry, registry)
  {
    forall i | 0 <= i < |registry| ensures Rank(registry, registry[i]) == i { RankOf(registry, i); }
  }

  /** The binding as it is hashed. */
  predicate GoodOnceCompacted(c: Codec, b: Binding) {
    c.compact(b.options).Some? && GoodBinding(c, b.(options := c.compact(b.options).value))
  }

  predicate AllGood(c: Codec, s: seq<Binding>) {
    forall b :: b in s ==> GoodOnceCompacted(c, b)
  }

  /** A profile has a hash exactly when it names every registered stage once, in
      any order, and is complete. */
  lemma HashedIffComplete(c: Codec, p: Profile)
    requires Distinct(c.registry)
    ensures SnapshotHashOf(c, p).Ok? <==>
              && multiset(Stages(p.bindings)) == multiset(c.registry)
              && c.validName(p.name) && !Blank(p.id)
              && AllGood(c, p.bindings)
              && (forall q :: q in p.prompts ==> GoodPrompt(q))
  {
    var s := Sorted(c.registry, p.bindings);
    SortedNamesRegistry(c, p.bindings);
    SameBindings(c.registry, p.bindings);
    SameGood(c, s, p.bindings);
    if CanCompact(c, s) { NormalFormGood(c, p, s); }
  }

  lemma SameGood(c: Codec, s: seq<Binding>, t: seq<Binding>)
    requires forall b :: b in s <==> b in t
    ensures AllGood(c, s) <==> AllGood(c, t)
    ensures AllGood(c, s) ==> CanCompact(c, s)
  {
    if AllGood(c, s) {
      forall i | 0 <= i < |s| ensures c.compact(s[i].options).Some? {
        assert s[i] in s && GoodOnceCompacted(c, s[i]);
      }
    }
  }

  lemma NormalFormGood(c: Codec, p: Profile, s: seq<Binding>)
    requires CanCompact(c, s)
    ensures WellFormed(c, p.(bindings := Compacted(c, s))) <==>
              && Stages(s) == c.registry && c.validName(p.name) && !Blank(p.id)
              && AllGood(c, s)
              && (forall q :: q in p.prompts ==> GoodPrompt(q))
  {
    CompactedGood(c, s);
  }

  /** Sorting puts exactly the permutations of the registry in its order. */
  lemma SortedNamesRegistry(c: Codec, bindings: seq<Binding>)
    requires Distinct(c.registry)
    ensures multiset(Stages(bindings)) == multiset(c.registry) <==> Stages(Sorted(c.registry, bindings)) == c.registry
    ensures multiset(Stages(bindings)) == multiset(c.registry) ==> SortBindingsOf(c.registry, bindings).Ok?
  {
    var s := Sorted(c.registry, bindings);
    SortedKeeps(c.registry, bindings);
    StagesOfPermutation(s, bindings);
    if multiset(Stages(bindings)) == multiset(c.registry) {
      RegistryInOrder(c.registry);
      OrderedIdsUnique(c.registry, Stages(s), c.registry);
      NoRepeats(c, s);
      FirstRepeatIsFirst(c.registry, s);
    }
  }

  lemma NoRepeats(c: Codec, s: seq<Binding>)
    requires Distinct(c.registry) && Stages(s) == c.registry
    ensures forall x :: !TwiceIn(s, x)
  {
    assert forall i :: 0 <= i < |s| ==> s[i].stage == c.registry[i];
  }

  lemma SameBindings(registry: seq<StageId>, bindings: seq<Binding>)
    ensures forall b :: b in Sorted(registry, bindings) <==> b in bindings
  {
    SortedKeeps(registry, bindings);
    forall b ensures b in Sorted(registry, bindings) <==> b in bindings {
      assert b in multiset(Sorted(registry, bindings)) <==> b in multiset(bindings);
    }
  }

  lemma CompactedGood(c: Codec, s: seq<Binding>)
    requires CanCompact(c, s)
    ensures Stages(Compacted(c, s)) == Stages(s)
    ensures (forall b :: b in Compacted(c, s) ==> GoodBinding(c, b)) <==> AllGood(c, s)
  {
    var t := Compacted(c, s);
    forall i | 0 <= i < |s| ensures Stages(t)[i] == Stages(s)[i] {
      assert Stages(t)[i] == t[i].stage == s[i].stage;
    }
    if forall b :: b in t ==> GoodBinding(c, b) {
      forall b | b in s ensures GoodOnceCompacted(c, b) {
        var i :| 0 <= i < |s| && s[i] == b;
        assert t[i] in t;
      }
    } else {
      var b :| b in t && !GoodBinding(c, b);
      var i :| 0 <= i < |t| && t[i] == b;
      assert s[i] in s && !GoodOnceCompacted(c, s[i]);
    }
  }

  lemma DomainsDiffer()
    ensures var a, b := Ascii(PROFILE_SNAPSHOT_HASH_DOMAIN), Ascii(OPTIONS_HASH_DOMAIN);
      var d := Ascii(PROMPT_EXECUTION_DOMAIN);
      NUL !in a && NUL !in b && NUL !in d && a != b && a != d && b != d
  {
    PromptDomainHasNoZero();
    var a, b, d := Ascii(PROFILE_SNAPSHOT_HASH_DOMAIN), Ascii(OPTIONS_HASH_DOMAIN), Ascii(PROMPT_EXECUTION_DOMAIN);
    assert a[10] != b[10] && b[10] != d[10] && a[13] != d[13];
  }

  /** No profile, options or prompt identity can be mistaken for another kind. */
  lemma DomainsSeparate(ps: seq<Bytes>, qs: seq<Bytes>, rs: seq<Bytes>)
    requires Fits(ps) && Fits(qs) && Fits(rs)
    ensures Preimage(Ascii(PROFILE_SNAPSHOT_HASH_DOMAIN), ps) != Preimage(Ascii(OPTIONS_HASH_DOMAIN), qs)
    ensures Preimage(Ascii(PROFILE_SNAPSHOT_HASH_DOMAIN), ps) != Preimage(Ascii(PROMPT_EXECUTION_DOMAIN), rs)
    ensures Preimage(Ascii(OPTIONS_HASH_DOMAIN), qs) != Preimage(Ascii(PROMPT_EXECUTION_DOMAIN), rs)
  {
    DomainsDiffer();
    PreimageInjective(Ascii(PROFILE_SNAPSHOT_HASH_DOMAIN), ps, Ascii(OPTIONS_HASH_DOMAIN), qs);
    PreimageInjective(Ascii(PROFILE_SNAPSHOT_HASH_DOMAIN), ps, Ascii(PROMPT_EXECUTION_DOMAIN), rs);
    PreimageInjective(Ascii(OPTIONS_HASH_DOMAIN), qs, Ascii(PROMPT_EXECUTION_DOMAIN), rs);
  }

  /** Two profiles share a snapshot hash exactly when their normal forms have the
      same encoding. */
  lemma SnapshotHashIsIdentity(c: Codec, p: Profile, q: Profile)
    requires Normalized(c, p).Ok? && Normalized(c, q).Ok?
    requires Fits([c.marshal(Normalized(c, p).value)]) && Fits([c.marshal(Normalized(c, q).value)])
    ensures SnapshotHashOf(c, p) == SnapshotHashOf(c, q)
            <==> c.marshal(Normalized(c, p).value) == c.marshal(Normalized(c, q).value)
  {
    DomainsDiffer();
    var domain := Ascii(PROFILE_SNAPSHOT_HASH_DOMAIN);
    var x, y := [c.marshal(Normalized(c, p).value)], [c.marshal(Normalized(c, q).value)];
    PreimageInjective(domain, x, domain, y);
    assert x == y <==> x[0] == y[0];
  }
}
