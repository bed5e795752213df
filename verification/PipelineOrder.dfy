/** The stage order and the sorting of bindings (internal/pipeline/types.go),
    for any registry of stages. */
module PipelineOrder {
  import opened Wrappers
  import opened ByteStrings

  type StageId = Bytes

  // ----- the order -----

  /** The place of a stage in the registry; its length for a stage outside it. */
  function Rank(registry: seq<StageId>, id: StageId): (r: nat)
    ensures r <= |registry|
    ensures r < |registry| ==> registry[r] == id
    ensures r == |registry| <==> id !in registry
    ensures forall k :: 0 <= k < r ==> registry[k] != id
  {
    if registry == [] then 0 else if registry[0] == id then 0 else 1 + Rank(registry[1..], id)
  }

  /** Registered stages by rank, before all others; those by their bytes. */
  predicate Less(registry: seq<StageId>, left: StageId, right: StageId) {
    var l, r := Rank(registry, left), Rank(registry, right);
    l < r || (l == r == |registry| && Before(left, right))
  }

  method Compare(left: Bytes, right: Bytes) returns (c: int)
    ensures c == if Before(left, right) then -1 else if left == right then 0 else 1
  {
    BeforeTotal(left, right);
    if Before(left, right) { return -1; }
    if left == right { return 0; }
    c := 1;
  }

  /** Walks the registry: the first stage that is either one decides. */
  method StageOrder(registry: seq<StageId>, left: StageId, right: StageId) returns (c: int)
    ensures c == if Less(registry, left, right) then -1 else if left == right then 0 else 1
  {
    if left == right { LessIsStrict(registry, left, right); }
    for i := 0 to |registry|
      invariant Rank(registry, left) >= i && Rank(registry, right) >= i
    {
      var id := registry[i];
      if id == left && id == right { return 0; }
      if id == left { return -1; }
      if id == right { return 1; }
    }
    if left == right { return 0; }
    c := Compare(left, right);
  }

  lemma LessIsTotal(registry: seq<StageId>, a: StageId, b: StageId)
    ensures Less(registry, a, b) || a == b || Less(registry, b, a)
  {
    BeforeTotal(a, b);
  }

  lemma LessIsStrict(registry: seq<StageId>, a: StageId, b: StageId)
    ensures Less(registry, a, b) ==> a != b && !Less(registry, b, a)
  {
    if Before(a, b) { BeforeAsymmetric(a, b); }
  }

  lemma LessIsTransitive(registry: seq<StageId>, a: StageId, b: StageId, c: StageId)
    requires Less(registry, a, b) && Less(registry, b, c)
    ensures Less(registry, a, c)
  {
    if Before(a, b) && Before(b, c) { BeforeTransitive(a, b, c); }
  }

  /** The stage met first in the registry comes first, registered ones before all
      others, and those in the order of their bytes. */
  lemma LessMeans(registry: seq<StageId>, a: StageId, b: StageId)
    ensures Less(registry, a, b) <==>
              || (exists i :: 0 <= i < |registry| && registry[i] == a && b !in registry[..i + 1])
              || (a !in registry && b !in registry && Before(a, b))
  {
    var l, r := Rank(registry, a), Rank(registry, b);
    if l < r { assert registry[l] == a && b !in registry[..l + 1]; }
    if i :| 0 <= i < |registry| && registry[i] == a && b !in registry[..i + 1] { RankWithin(registry, b, i + 1); }
  }

  lemma RankWithin(registry: seq<StageId>, id: StageId, n: nat)
    requires n <= |registry|
    ensures id in registry[..n] <==> Rank(registry, id) < n
  {
    var r := Rank(registry, id);
    if r < n { assert registry[..n][r] == id; }
  }

  // ----- sorting bindings -----

  datatype Binding = Binding(stage: StageId, providerId: Bytes, providerType: Bytes, fingerprint: Bytes, modelId: Bytes,
                             options: Bytes, optionsHash: Bytes, contract: Bytes, prompt: Bytes)

  predicate InOrder(registry: seq<StageId>, s: seq<Binding>) {
    forall i, j :: 0 <= i < j < |s| ==> !Less(registry, s[j].stage, s[i].stage)
  }

  function Stages(s: seq<Binding>): (ids: seq<StageId>)
    ensures |ids| == |s| && forall i :: 0 <= i < |s| ==> ids[i] == s[i].stage
  {
    if s == [] then [] else [s[0].stage] + Stages(s[1..])
  }

  /** Stable insertion: behind every binding that is not greater. */
  function Inserted(registry: seq<StageId>, b: Binding, s: seq<Binding>): seq<Binding> {
    if s == [] || Less(registry, b.stage, s[0].stage) then [b] + s else [s[0]] + Inserted(registry, b, s[1..])
  }

  function Sorted(registry: seq<StageId>, s: seq<Binding>): seq<Binding> {
    if s == [] then [] else Inserted(registry, s[|s| - 1], Sorted(registry, s[..|s| - 1]))
  }

  lemma {:induction false} InsertedAdds(registry: seq<StageId>, b: Binding, s: seq<Binding>)
    ensures multiset(Inserted(registry, b, s)) == multiset(s) + multiset{b}
    ensures forall x :: x in Inserted(registry, b, s) ==> x == b || x in s
  {
    if s != [] && !Less(registry, b.stage, s[0].stage) {
      InsertedAdds(registry, b, s[1..]);
      assert s == [s[0]] + s[1..];
    }
  }

  lemma {:induction false} InsertedKeeps(registry: seq<StageId>, b: Binding, s: seq<Binding>)
    requires InOrder(registry, s)
    ensures InOrder(registry, Inserted(registry, b, s))
  {
    if s == [] {
    } else if Less(registry, b.stage, s[0].stage) {
      forall j | 0 <= j < |s| ensures !Less(registry, s[j].stage, b.stage) {
        if Less(registry, s[j].stage, b.stage) {
          LessIsTransitive(registry, s[j].stage, b.stage, s[0].stage);
          LessIsStrict(registry, s[0].stage, s[0].stage);
        }
      }
    } else {
      InsertedKeeps(registry, b, s[1..]);
      InsertedAdds(registry, b, s[1..]);
      BehindHead(registry, s[0], Inserted(registry, b, s[1..]));
    }
  }

  lemma BehindHead(registry: seq<StageId>, head: Binding, t: seq<Binding>)
    requires InOrder(registry, t) && forall x :: x in t ==> !Less(registry, x.stage, head.stage)
    ensures InOrder(registry, [head] + t)
  {}

  lemma {:induction false} SortedKeeps(registry: seq<StageId>, s: seq<Binding>)
    ensures InOrder(registry, Sorted(registry, s)) && multiset(Sorted(registry, s)) == multiset(s)
  {
    if s != [] {
      SortedKeeps(registry, s[..|s| - 1]);
      InsertedKeeps(registry, s[|s| - 1], Sorted(registry, s[..|s| - 1]));
      InsertedAdds(registry, s[|s| - 1], Sorted(registry, s[..|s| - 1]));
      assert s == s[..|s| - 1] + [s[|s| - 1]];
    }
  }

  // ----- sorting forgets the order it was given -----

  lemma StagesAppend(s: seq<Binding>, t: seq<Binding>)
    ensures Stages(s + t) == Stages(s) + Stages(t)
  {}

  lemma StagesCons(b: Binding, s: seq<Binding>)
    ensures Stages([b] + s) == [b.stage] + Stages(s)
  {}

  lemma Removal<T>(a: seq<T>, x: T, b: seq<T>)
    ensures multiset(a + ([x] + b)) == multiset{x} + multiset(a + b)
  {}

  lemma StagesRemoval(a: seq<Binding>, x: Binding, b: seq<Binding>)
    ensures multiset(Stages(a + ([x] + b))) == multiset{x.stage} + multiset(Stages(a + b))
  {
    StagesAppend(a, [x] + b);
    StagesCons(x, b);
    StagesAppend(a, b);
    Removal(Stages(a), x.stage, Stages(b));
  }

  lemma Tail<T>(s: seq<T>) returns (head: T, tail: seq<T>)
    requires s != []
    ensures head == s[0] && tail == s[1..] && s == [head] + tail
    ensures multiset(tail) == multiset(s) - multiset{head}
  {
    head, tail := s[0], s[1..];
    assert s == [head] + tail;
  }

  lemma TakeOut<T>(t: seq<T>, x: T) returns (a: seq<T>, b: seq<T>)
    requires x in multiset(t)
    ensures t == a + ([x] + b) && multiset(a + b) == multiset(t) - multiset{x}
  {
    var i :| 0 <= i < |t| && t[i] == x;
    a, b := t[..i], t[i + 1..];
    assert t == a + ([x] + b);
    Removal(a, x, b);
  }

  lemma StagesRemoved(s: seq<Binding>, x: Binding, rest: seq<Binding>, a: seq<Binding>, b: seq<Binding>)
    requires s == [x] + rest && multiset(Stages(rest)) == multiset(Stages(a + b))
    ensures multiset(Stages(s)) == multiset(Stages(a + ([x] + b)))
  {
    StagesCons(x, rest);
    StagesRemoval(a, x, b);
  }

  lemma {:induction false} StagesOfPermutation(s: seq<Binding>, t: seq<Binding>)
    requires multiset(s) == multiset(t)
    ensures multiset(Stages(s)) == multiset(Stages(t))
    decreases |s|
  {
    if s == [] {
      assert |t| == |multiset(t)|;
    } else {
      var x, rest := Tail(s);
      assert x in multiset(t);
      var a, b := TakeOut(t, x);
      StagesOfPermutation(rest, a + b);
      StagesRemoved(s, x, rest, a, b);
    }
  }

  predicate IdsInOrder(registry: seq<StageId>, s: seq<StageId>) {
    forall i, j :: 0 <= i < j < |s| ==> !Less(registry, s[j], s[i])
  }

  lemma SameHead(registry: seq<StageId>, s: seq<StageId>, t: seq<StageId>)
    requires IdsInOrder(registry, s) && IdsInOrder(registry, t) && multiset(s) == multiset(t) && s != [] && t != []
    ensures s[0] == t[0]
  {
    assert s[0] in multiset(t) && t[0] in multiset(s);
    var i :| 0 <= i < |t| && t[i] == s[0];
    var j :| 0 <= j < |s| && s[j] == t[0];
    LessIsTotal(registry, s[0], t[0]);
  }

  lemma TailInOrder(registry: seq<StageId>, s: seq<StageId>)
    requires s != [] && IdsInOrder(registry, s)
    ensures IdsInOrder(registry, s[1..])
  {}

  lemma {:induction false} OrderedIdsUnique(registry: seq<StageId>, s: seq<StageId>, t: seq<StageId>)
    requires IdsInOrder(registry, s) && IdsInOrder(registry, t) && multiset(s) == multiset(t)
    ensures s == t
    decreases |s|
  {
    assert |s| == |multiset(s)| && |t| == |multiset(t)|;
    if s != [] {
      SameHead(registry, s, t);
      TailInOrder(registry, s);
      TailInOrder(registry, t);
      var x, rest := Tail(s);
      var y, others := Tail(t);
      OrderedIdsUnique(registry, rest, others);
    }
  }

  // ----- SortBindings -----

  /** Where the sorted bindings first name a stage twice. */
  function FirstRepeat(s: seq<Binding>, from: nat): Option<StageId>
    requires 1 <= from
    decreases |s| - from
  {
    if from >= |s| then None
    else if s[from - 1].stage == s[from].stage then Some(s[from].stage)
    else FirstRepeat(s, from + 1)
  }

  function SortBindingsOf(registry: seq<StageId>, bindings: seq<Binding>): Result<seq<Binding>, StageId> {
    var sorted := Sorted(registry, bindings);
    match FirstRepeat(sorted, 1)
    case Some(id) => Err(id)
    case None => Ok(sorted)
  }

  method SortBindings(registry: seq<StageId>, bindings: seq<Binding>) returns (r: Result<seq<Binding>, StageId>)
    ensures r == SortBindingsOf(registry, bindings)
  {
    var sorted: seq<Binding> := [];
    for n := 0 to |bindings|
      invariant sorted == Sorted(registry, bindings[..n])
    {
      assert bindings[..n + 1][..n] == bindings[..n];
      sorted := Inserted(registry, bindings[n], sorted);
    }
    assert bindings[..|bindings|] == bindings;
    var index := 1;
    while index < |sorted|
      invariant 1 <= index && FirstRepeat(sorted, 1) == FirstRepeat(sorted, index)
    {
      if sorted[index - 1].stage == sorted[index].stage {
        return Err(sorted[index].stage);
      }
      index := index + 1;
    }
    r := Ok(sorted);
  }

  lemma {:induction false} NoRepeatIsStrict(registry: seq<StageId>, s: seq<Binding>, from: nat)
    requires 1 <= from && InOrder(registry, s) && FirstRepeat(s, from).None?
    ensures forall i, j :: from - 1 <= i < j < |s| ==> Less(registry, s[i].stage, s[j].stage)
    decreases |s| - from
  {
    if from < |s| {
      NoRepeatIsStrict(registry, s, from + 1);
      LessIsTotal(registry, s[from - 1].stage, s[from].stage);
      forall j | from < j < |s| ensures Less(registry, s[from - 1].stage, s[j].stage) {
        LessIsTransitive(registry, s[from - 1].stage, s[from].stage, s[j].stage);
      }
    }
  }

  lemma {:induction false} RepeatOfStages(s: seq<Binding>, t: seq<Binding>, from: nat)
    requires 1 <= from && |s| == |t| && forall i :: 0 <= i < |s| ==> s[i].stage == t[i].stage
    ensures FirstRepeat(s, from) == FirstRepeat(t, from)
    decreases |s| - from
  {
    if from < |s| {
      RepeatOfStages(s, t, from + 1);
    }
  }

  /** Success means strictly ordered, and nothing was added or lost. */
  lemma SortBindingsSorts(registry: seq<StageId>, bindings: seq<Binding>)
    requires SortBindingsOf(registry, bindings).Ok?
    ensures var s := SortBindingsOf(registry, bindings).value;
      multiset(s) == multiset(bindings) && forall i, j :: 0 <= i < j < |s| ==> Less(registry, s[i].stage, s[j].stage)
  {
    SortedKeeps(registry, bindings);
    NoRepeatIsStrict(registry, Sorted(registry, bindings), 1);
  }

  /** The bindings before the first repeat are strictly in order. */
  lemma {:induction false} FirstRepeatAt(registry: seq<StageId>, s: seq<Binding>, from: nat) returns (k: nat)
    requires 1 <= from && InOrder(registry, s) && FirstRepeat(s, from).Some?
    ensures from <= k < |s| && s[k - 1].stage == s[k].stage == FirstRepeat(s, from).value
    ensures forall i, j :: from - 1 <= i < j < k ==> Less(registry, s[i].stage, s[j].stage)
    decreases |s| - from
  {
    if s[from - 1].stage == s[from].stage {
      k := from;
    } else {
      k := FirstRepeatAt(registry, s, from + 1);
      LessIsTotal(registry, s[from - 1].stage, s[from].stage);
      forall j | from < j < k ensures Less(registry, s[from - 1].stage, s[j].stage) {
        LessIsTransitive(registry, s[from - 1].stage, s[from].stage, s[j].stage);
      }
    }
  }

  /** A stage counted twice stands in two places. */
  lemma {:induction false} TwoPlaces(ids: seq<StageId>, x: StageId)
    ensures multiset(ids)[x] >= 2 <==> exists i, j :: 0 <= i < j < |ids| && ids[i] == ids[j] == x
  {
    if ids != [] {
      var head, tail := Tail(ids);
      TwoPlaces(tail, x);
      if head == x && x in multiset(tail) {
        var j :| 0 <= j < |tail| && tail[j] == x;
        assert ids[0] == ids[j + 1] == x;
      }
      if i, j :| 0 <= i < j < |tail| && tail[i] == tail[j] == x { assert ids[i + 1] == ids[j + 1] == x; }
      if i, j :| 0 <= i < j < |ids| && ids[i] == ids[j] == x {
        assert tail[j - 1] == x && (i > 0 ==> tail[i - 1] == x);
        assert x in multiset(tail);
      }
    }
  }

  predicate TwiceIn(s: seq<Binding>, x: StageId) {
    exists i, j :: 0 <= i < j < |s| && s[i].stage == s[j].stage == x
  }

  lemma SortedNames(registry: seq<StageId>, bindings: seq<Binding>, x: StageId)
    ensures TwiceIn(Sorted(registry, bindings), x) <==> TwiceIn(bindings, x)
  {
    var s := Sorted(registry, bindings);
    SortedKeeps(registry, bindings);
    StagesOfPermutation(s, bindings);
    PlacesOf(s, x);
    PlacesOf(bindings, x);
  }

  lemma PlacesOf(s: seq<Binding>, x: StageId)
    ensures TwiceIn(s, x) <==> multiset(Stages(s))[x] >= 2
  {
    TwoPlaces(Stages(s), x);
    if TwiceIn(s, x) {
      var i, j :| 0 <= i < j < |s| && s[i].stage == s[j].stage == x;
      assert Stages(s)[i] == Stages(s)[j] == x;
    }
  }

  /** The first adjacent repeat of sorted bindings is their first repeat. */
  lemma FirstRepeatIsFirst(registry: seq<StageId>, s: seq<Binding>)
    requires InOrder(registry, s)
    ensures FirstRepeat(s, 1).Some? <==> exists x :: TwiceIn(s, x)
    ensures FirstRepeat(s, 1).Some? ==>
              var first := FirstRepeat(s, 1).value;
              TwiceIn(s, first) && forall x :: TwiceIn(s, x) ==> !Less(registry, x, first)
  {
    if FirstRepeat(s, 1).None? {
      NoRepeatIsStrict(registry, s, 1);
      forall i, j | 0 <= i < j < |s| ensures s[i].stage != s[j].stage {
        LessIsStrict(registry, s[i].stage, s[j].stage);
      }
    } else {
      var k := FirstRepeatAt(registry, s, 1);
      assert TwiceIn(s, s[k].stage);
      forall x | TwiceIn(s, x) ensures !Less(registry, x, s[k].stage) {
        var i, j :| 0 <= i < j < |s| && s[i].stage == s[j].stage == x;
        if j < k {
          LessIsStrict(registry, s[i].stage, s[j].stage);
        } else if j == k {
          LessIsStrict(registry, x, x);
        }
      }
    }
  }

  /** Sorting refuses exactly when a stage is named twice, and names the first
      such stage in the order. */
  lemma SortRefusesRepeats(registry: seq<StageId>, bindings: seq<Binding>)
    ensures var r := SortBindingsOf(registry, bindings);
      && (r.Err? <==> exists x :: TwiceIn(bindings, x))
      && (r.Err? ==> TwiceIn(bindings, r.error) && forall x :: TwiceIn(bindings, x) ==> !Less(registry, x, r.error))
  {
    SortedKeeps(registry, bindings);
    FirstRepeatIsFirst(registry, Sorted(registry, bindings));
    forall x ensures TwiceIn(Sorted(registry, bindings), x) <==> TwiceIn(bindings, x) {
      SortedNames(registry, bindings, x);
    }
  }

  /** The result, the refusal included, does not depend on the order given. */
  lemma SortForgetsOrder(registry: seq<StageId>, a: seq<Binding>, b: seq<Binding>)
    requires multiset(a) == multiset(b)
    ensures SortBindingsOf(registry, a) == SortBindingsOf(registry, b)
  {
    var s, t := Sorted(registry, a), Sorted(registry, b);
    SortedKeeps(registry, a);
    SortedKeeps(registry, b);
    StagesOfPermutation(s, t);
    OrderedIdsUnique(registry, Stages(s), Stages(t));
    assert |s| == |Stages(s)| == |t|;
    forall i | 0 <= i < |s| ensures s[i].stage == t[i].stage {
      assert Stages(s)[i] == Stages(t)[i];
    }
    RepeatOfStages(s, t, 1);
    if FirstRepeat(s, 1).None? {
      NoRepeatIsStrict(registry, s, 1);
      StrictlyOrderedUnique(registry, s, t);
    }
  }

  lemma StrictlyOrderedUnique(registry: seq<StageId>, s: seq<Binding>, t: seq<Binding>)
    requires forall i, j :: 0 <= i < j < |s| ==> Less(registry, s[i].stage, s[j].stage)
    requires multiset(s) == multiset(t) && Stages(s) == Stages(t)
    ensures s == t
  {
    assert |s| == |Stages(s)| == |t|;
    forall i | 0 <= i < |s| ensures s[i] == t[i] {
      assert t[i] in multiset(s);
      var j :| 0 <= j < |s| && s[j] == t[i];
      assert Stages(s)[i] == Stages(t)[i];
      if i < j { LessIsStrict(registry, s[i].stage, s[j].stage); }
      if j < i { LessIsStrict(registry, s[j].stage, s[i].stage); }
    }
  }
}
