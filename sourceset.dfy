/** The ordered, de-duplicated collection of event sources (`Source\Set`).

    Building a set, by the constructor or by `add`, skips every source equal
    (same identifier) to one already present, so identifiers are distinct in
    every set. `add` works on a deep copy; `filter`, `map`, `remove` and the
    selection views build new sets that share the source objects; the
    selection toggles change those shared objects in place. */
module SourceSets {
  import opened Wrappers
  import opened Sources
  import Seqs

  /** Whether some member has the identifier `id` (`contains`, which asks
      `equals`, i.e. identifier equality). */
  predicate HasId(s: seq<InMemory>, id: string)
  {
    exists i :: 0 <= i < |s| && s[i].id == id
  }

  predicate DistinctIds(s: seq<InMemory>)
  {
    forall i, j :: 0 <= i < j < |s| ==> s[i].id != s[j].id
  }

  /** The identifiers of the members, in order. */
  function Ids(s: seq<InMemory>): seq<string>
  {
    seq(|s|, i requires 0 <= i < |s| => s[i].id)
  }

  /** `mutableAdd` as a function: each source in turn is appended unless one
      with its identifier is already there. */
  function AddAll(acc: seq<InMemory>, more: seq<InMemory>): seq<InMemory>
    decreases |more|
  {
    if more == [] then acc
    else AddAll(if HasId(acc, more[0].id) then acc else acc + [more[0]], more[1..])
  }

  /** Adding keeps what was there, in order, keeps identifiers distinct, and
      leaves every added identifier present. */
  lemma {:induction false} AddAllProperties(acc: seq<InMemory>, more: seq<InMemory>)
    requires DistinctIds(acc)
    ensures var r := AddAll(acc, more);
      && DistinctIds(r)
      && |acc| <= |r| && r[..|acc|] == acc
      && (forall i :: 0 <= i < |more| ==> HasId(r, more[i].id))
    decreases |more|
  {
    if more != [] {
      var next := if HasId(acc, more[0].id) then acc else acc + [more[0]];
      AddAllProperties(next, more[1..]);
      var r := AddAll(next, more[1..]);
      assert r[..|next|] == next;
      assert r[..|acc|] == next[..|acc|];
      assert HasId(next, more[0].id) by {
        if !HasId(acc, more[0].id) {
          assert next[|acc|] == more[0];
        }
      }
      assert HasId(r, more[0].id) by {
        var k :| 0 <= k < |next| && next[k].id == more[0].id;
        assert r[k] == next[k];
      }
      forall i | 0 < i < |more| ensures HasId(r, more[i].id) {
        assert more[i] == more[1..][i - 1];
      }
    }
  }

  lemma DistinctAppend(s: seq<InMemory>, x: InMemory)
    requires DistinctIds(s) && !HasId(s, x.id)
    ensures DistinctIds(s + [x])
  {
    forall i, j | 0 <= i < j < |s| + 1 ensures (s + [x])[i].id != (s + [x])[j].id {
      if j == |s| {
        assert (s + [x])[i] == s[i];
      }
    }
  }

  /** Every source appended by `AddAll` is one of the added sources, and
      its identifier was not present before. */
  lemma {:induction false} AddAllFrom(acc: seq<InMemory>, more: seq<InMemory>, k: int)
    requires |acc| <= k < |AddAll(acc, more)|
    ensures AddAll(acc, more)[k] in more
    ensures !HasId(acc, AddAll(acc, more)[k].id)
    decreases |more|
  {
    if more != [] {
      var x := AddAll(acc, more)[k];
      if HasId(acc, more[0].id) {
        AddAllFrom(acc, more[1..], k);
      } else {
        var next := acc + [more[0]];
        AddAllSuffix(next, more[1..]);
        if k == |acc| {
          assert AddAll(next, more[1..])[..|next|] == next;
          assert x == more[0];
        } else {
          AddAllFrom(next, more[1..], k);
        }
      }
    }
  }

  /** `AddAll` only looks at the identifiers already present: two starting
      lists with the same identifiers get the same sources appended. */
  lemma {:induction false} AddAllSameIds(a: seq<InMemory>, b: seq<InMemory>, more: seq<InMemory>)
    requires Ids(a) == Ids(b)
    ensures |a| <= |AddAll(a, more)| && |b| <= |AddAll(b, more)|
      && AddAll(a, more)[|a|..] == AddAll(b, more)[|b|..]
    decreases |more|
  {
    AddAllSuffix(a, more);
    AddAllSuffix(b, more);
    if more != [] {
      var x, rest := more[0], more[1..];
      SameIdsHasId(a, b, x.id);
      if !HasId(a, x.id) {
        var a', b' := a + [x], b + [x];
        IdsAppend(a, x);
        IdsAppend(b, x);
        AddAllSameIds(a', b', rest);
        AddAllSuffix(a', rest);
        AddAllSuffix(b', rest);
        SuffixStep(AddAll(a', rest), a, x);
        SuffixStep(AddAll(b', rest), b, x);
      } else {
        AddAllSameIds(a, b, rest);
      }
    }
  }

  /** Lists with the same identifiers hold the same identifiers. */
  lemma SameIdsHasId(a: seq<InMemory>, b: seq<InMemory>, id: string)
    requires Ids(a) == Ids(b)
    ensures HasId(a, id) == HasId(b, id)
  {
    if HasId(a, id) {
      var i :| 0 <= i < |a| && a[i].id == id;
      assert Ids(a)[i] == Ids(b)[i];
    }
    if HasId(b, id) {
      var i :| 0 <= i < |b| && b[i].id == id;
      assert Ids(a)[i] == Ids(b)[i];
    }
  }

  lemma IdsAppend(a: seq<InMemory>, x: InMemory)
    ensures Ids(a + [x]) == Ids(a) + [x.id]
  {
  }

  /** A list that begins with `a + [x]` continues, from `|a|` on, with `x`. */
  lemma SuffixStep(r: seq<InMemory>, a: seq<InMemory>, x: InMemory)
    requires |a| + 1 <= |r| && r[..|a| + 1] == a + [x]
    ensures r[|a|..] == [x] + r[|a| + 1..]
  {
    assert r[|a|] == (a + [x])[|a|];
  }

  lemma {:induction false} AddAllSuffix(acc: seq<InMemory>, more: seq<InMemory>)
    ensures |acc| <= |AddAll(acc, more)| && AddAll(acc, more)[..|acc|] == acc
    decreases |more|
  {
    if more != [] {
      var next := if HasId(acc, more[0].id) then acc else acc + [more[0]];
      AddAllSuffix(next, more[1..]);
      assert AddAll(acc, more)[..|acc|] == AddAll(next, more[1..])[..|next|][..|acc|];
    }
  }

  /** Sources with distinct identifiers are all kept, in order. */
  lemma {:induction false} AddAllDistinct(acc: seq<InMemory>, more: seq<InMemory>)
    requires DistinctIds(acc + more)
    ensures AddAll(acc, more) == acc + more
    decreases |more|
  {
    if more != [] {
      forall i | 0 <= i < |acc| ensures acc[i].id != more[0].id {
        assert (acc + more)[i] == acc[i] && (acc + more)[|acc|] == more[0];
      }
      assert acc + more == (acc + [more[0]]) + more[1..];
      AddAllDistinct(acc + [more[0]], more[1..]);
    }
  }

  /** The members that pass `p`, in order: the `array_filter` of `filter`,
      whose callback may read the sources' current state. */
  function Passing(s: seq<InMemory>, p: InMemory ~> bool): seq<InMemory>
    requires forall x :: x in s ==> p.requires(x)
    reads set x, o | x in s && o in p.reads(x) :: o
  {
    if s == [] then []
    else (if p(s[0]) then [s[0]] else []) + Passing(s[1..], p)
  }

  /** What `Passing` keeps: members of `s` that pass, and every one of them. */
  lemma {:induction false} PassingMembers(s: seq<InMemory>, p: InMemory ~> bool)
    requires forall x :: x in s ==> p.requires(x)
    ensures forall i :: 0 <= i < |Passing(s, p)| ==> Passing(s, p)[i] in s && p(Passing(s, p)[i])
    ensures forall i :: 0 <= i < |s| && p(s[i]) ==> s[i] in Passing(s, p)
  {
    if s != [] {
      PassingMembers(s[1..], p);
      forall i | 0 <= i < |s| && p(s[i]) ensures s[i] in Passing(s, p) {
        if i > 0 { assert s[i] == s[1..][i - 1]; }
      }
    }
  }

  /** A callback that agrees with a pure predicate filters as `Seqs.Filter`. */
  lemma {:induction false} PassingPure(s: seq<InMemory>, p: InMemory ~> bool, q: InMemory -> bool)
    requires forall x :: x in s ==> p.requires(x) && p(x) == q(x)
    ensures Passing(s, p) == Seqs.Filter(s, q)
  {
    if s != [] {
      PassingPure(s[1..], p, q);
    }
  }

  /** Filtering distinct identifiers keeps them distinct. */
  lemma {:induction false} PassingDistinct(s: seq<InMemory>, p: InMemory ~> bool)
    requires forall x :: x in s ==> p.requires(x)
    requires DistinctIds(s)
    ensures DistinctIds(Passing(s, p))
  {
    if s != [] {
      PassingDistinct(s[1..], p);
      PassingMembers(s[1..], p);
      var rest := Passing(s[1..], p);
      forall i | 0 <= i < |rest| ensures rest[i].id != s[0].id {
        var j :| 0 <= j < |s[1..]| && s[1..][j] == rest[i];
        assert s[j + 1] == rest[i];
      }
    }
  }

  /** The callbacks of `getSelected` and `getUnselected` filter as
      `WithSelection`. */
  lemma {:induction false} PassingSelection(s: seq<InMemory>, p: InMemory ~> bool, want: bool)
    requires forall x :: x in s ==> p.requires(x) && p(x) == (x.selected == want)
    ensures Passing(s, p) == WithSelection(s, want)
  {
    if s != [] {
      PassingSelection(s[1..], p, want);
    }
  }

  /** The members whose selection flag is `want`, in order (the filters of
      `getSelected` and `getUnselected`). */
  function WithSelection(s: seq<InMemory>, want: bool): (r: seq<InMemory>)
    reads s
    ensures |r| <= |s|
    ensures forall i :: 0 <= i < |r| ==> r[i] in s && r[i].selected == want
    ensures forall i :: 0 <= i < |s| && s[i].selected == want ==> s[i] in r
  {
    if s == [] then []
    else (if s[0].selected == want then [s[0]] else []) + WithSelection(s[1..], want)
  }

  /** The selected and the unselected members partition the set. */
  lemma {:induction false} SelectionPartition(s: seq<InMemory>)
    ensures multiset(WithSelection(s, true)) + multiset(WithSelection(s, false)) == multiset(s)
  {
    if s != [] {
      var head, rest := s[0], s[1..];
      SelectionPartition(rest);
      WithSelectionStep(s, true);
      WithSelectionStep(s, false);
      Seqs.MultisetCons(s);
      var f, g := multiset(WithSelection(rest, true)), multiset(WithSelection(rest, false));
      if head.selected {
        Seqs.UnionRegroup(multiset{head}, f, g, multiset(rest));
      } else {
        Seqs.UnionRegroup(multiset{head}, g, f, multiset(rest));
      }
    }
  }

  /** One step of `WithSelection`, counted as a multiset. */
  lemma WithSelectionStep(s: seq<InMemory>, want: bool)
    requires s != []
    ensures s[0].selected == want ==>
      multiset(WithSelection(s, want)) == multiset{s[0]} + multiset(WithSelection(s[1..], want))
    ensures s[0].selected != want ==>
      multiset(WithSelection(s, want)) == multiset(WithSelection(s[1..], want))
  {
    var r := WithSelection(s[1..], want);
    if s[0].selected == want {
      assert WithSelection(s, want) == [s[0]] + r;
    } else {
      assert WithSelection(s, want) == [] + r;
    }
  }

  lemma {:induction false} SelectionDistinct(s: seq<InMemory>, want: bool)
    requires DistinctIds(s)
    ensures DistinctIds(WithSelection(s, want))
  {
    if s != [] {
      SelectionDistinct(s[1..], want);
      var rest := WithSelection(s[1..], want);
      forall i | 0 <= i < |rest| ensures rest[i].id != s[0].id {
        var j :| 0 <= j < |s[1..]| && s[1..][j] == rest[i];
        assert s[j + 1] == rest[i];
      }
    }
  }

  datatype SetError = SourceNotFound | TypeError

  class SourceSet {
    var sources: seq<InMemory>

    ghost predicate Valid()
      reads this
    {
      DistinctIds(sources)
    }

    /** `new Set(...$sources)`: the sources in order, later duplicates of an
        identifier skipped. */
    constructor (srcs: seq<InMemory>)
      ensures Valid() && sources == AddAll([], srcs)
    {
      sources := [];
      new;
      MutableAdd(srcs);
    }

    /** The object PHP `clone` produces before `__clone` runs: the same list. */
    constructor Copy(srcs: seq<InMemory>)
      requires DistinctIds(srcs)
      ensures Valid() && sources == srcs
    {
      sources := srcs;
    }

    /** `contains`: whether a member `equals` the given source. */
    method Contains(x: InMemory) returns (found: bool)
      ensures found == HasId(sources, x.id)
    {
      var i := 0;
      while i < |sources|
        invariant 0 <= i <= |sources|
        invariant !HasId(sources[..i], x.id)
      {
        if sources[i].Equals(x) {
          return true;
        }
        assert sources[..i + 1] == sources[..i] + [sources[i]];
        i := i + 1;
      }
      assert sources[..i] == sources;
      return false;
    }

    /** `mutableAdd`: append each source unless an equal one is present. */
    method MutableAdd(more: seq<InMemory>)
      requires Valid()
      modifies this`sources
      ensures Valid() && sources == AddAll(old(sources), more)
    {
      var i := 0;
      while i < |more|
        invariant 0 <= i <= |more|
        invariant Valid()
        invariant AddAll(old(sources), more) == AddAll(sources, more[i..])
      {
        var present := Contains(more[i]);
        ghost var before := sources;
        assert more[i..][0] == more[i] && more[i..][1..] == more[i + 1..];
        assert AddAll(before, more[i..]) ==
          AddAll(if HasId(before, more[i].id) then before else before + [more[i]], more[i + 1..]);
        if !present {
          DistinctAppend(sources, more[i]);
          sources := sources + [more[i]];
        }
        i := i + 1;
      }
      AddAllProperties(old(sources), more);
    }

    /** `count`: the number of members, the selected ones plus the
        unselected ones. */
    function Count(): (n: nat)
      reads this, sources
      ensures n == |WithSelection(sources, true)| + |WithSelection(sources, false)|
    {
      SelectionPartition(sources);
      assert |multiset(WithSelection(sources, true)) + multiset(WithSelection(sources, false))| == |multiset(sources)|;
      |sources|
    }

    /** `first`: nothing for an empty set, else the earliest member. */
    function First(): (r: Option<InMemory>)
      reads this
      ensures r.None? <==> |sources| == 0
      ensures r.Some? ==> r.value == sources[0]
    {
      if |sources| == 0 then None else Some(sources[0])
    }

    /** `last`: nothing for an empty set, else the latest member. */
    function Last(): (r: Option<InMemory>)
      reads this
      ensures r.None? <==> |sources| == 0
      ensures r.Some? ==> r.value == sources[|sources| - 1]
    {
      if |sources| == 0 then None else Some(sources[|sources| - 1])
    }

    /** `__clone` on a copy: every member replaced by a clone of itself. */
    method Clone() returns (copy: SourceSet)
      requires Valid()
      ensures fresh(copy) && copy.Valid()
      ensures |copy.sources| == |sources|
      ensures forall i :: 0 <= i < |sources| ==>
        && fresh(copy.sources[i])
        && copy.sources[i].id == sources[i].id
        && copy.sources[i].name == sources[i].name
        && copy.sources[i].colour == sources[i].colour
        && copy.sources[i].events == sources[i].events
        && copy.sources[i].selected == sources[i].selected
      ensures Ids(copy.sources) == Ids(sources)
    {
      var clones: seq<InMemory> := [];
      var i := 0;
      while i < |sources|
        invariant 0 <= i <= |sources| && |clones| == i
        invariant forall j :: 0 <= j < i ==>
          && fresh(clones[j])
          && clones[j].id == sources[j].id
          && clones[j].name == sources[j].name
          && clones[j].colour == sources[j].colour
          && clones[j].events == sources[j].events
          && clones[j].selected == sources[j].selected
      {
        var c := new InMemory.Clone(sources[i]);
        clones := clones + [c];
        i := i + 1;
      }
      assert Ids(clones) == Ids(sources);
      copy := new SourceSet.Copy(clones);
    }

    /** `add`: a new set made of clones of the members, followed by the added
        sources whose identifiers are new, by reference. The original set
        and its sources are left alone, and the new set shares no source
        object with it, so selecting in one does not show in the other. */
    method Add(s: InMemory, more: seq<InMemory>) returns (copy: SourceSet)
      requires Valid()
      ensures fresh(copy) && copy.Valid()
      ensures |copy.sources| >= |sources|
      ensures forall i :: 0 <= i < |sources| ==>
        && fresh(copy.sources[i])
        && copy.sources[i].id == sources[i].id
        && copy.sources[i].name == sources[i].name
        && copy.sources[i].colour == sources[i].colour
        && copy.sources[i].events == sources[i].events
        && copy.sources[i].selected == sources[i].selected
      ensures |sources| <= |AddAll(sources, [s] + more)|
        && copy.sources[|sources|..] == AddAll(sources, [s] + more)[|sources|..]
      ensures forall i, j :: 0 <= i < |copy.sources| && 0 <= j < |sources| ==> copy.sources[i] != sources[j]
    {
      copy := Clone();
      ghost var clones := copy.sources;
      copy.MutableAdd([s] + more);
      AddAllSuffix(clones, [s] + more);
      AddAllSameIds(clones, sources, [s] + more);
      forall i, j | 0 <= i < |copy.sources| && 0 <= j < |sources|
        ensures copy.sources[i] != sources[j]
      {
        if i >= |sources| {
          AddAllFrom(clones, [s] + more, i);
          assert Ids(clones)[j] == sources[j].id;
        }
      }
    }

    /** `select`: a member is selected exactly when its identifier is one of
        the given ones; membership and order stay as they are. */
    method Select(id: string, ids: seq<string>)
      requires Valid()
      modifies sources`selected
      ensures forall i :: 0 <= i < |sources| ==> sources[i].selected == (sources[i].id == id || sources[i].id in ids)
      ensures forall i :: 0 <= i < |sources| ==> sources[i].events == old(sources[i].events)
    {
      var i := 0;
      while i < |sources|
        invariant 0 <= i <= |sources|
        invariant forall j :: 0 <= j < i ==> sources[j].selected == (sources[j].id == id || sources[j].id in ids)
      {
        if sources[i].id == id || sources[i].id in ids {
          sources[i].Select();
        } else {
          sources[i].Deselect();
        }
        i := i + 1;
      }
    }

    /** `selectAll`. */
    method SelectAll()
      requires Valid()
      modifies sources`selected
      ensures forall i :: 0 <= i < |sources| ==> sources[i].selected
    {
      var i := 0;
      while i < |sources|
        invariant 0 <= i <= |sources|
        invariant forall j :: 0 <= j < i ==> sources[j].selected
      {
        sources[i].Select();
        i := i + 1;
      }
    }

    /** `deselectAll`. */
    method DeselectAll()
      requires Valid()
      modifies sources`selected
      ensures forall i :: 0 <= i < |sources| ==> !sources[i].selected
    {
      var i := 0;
      while i < |sources|
        invariant 0 <= i <= |sources|
        invariant forall j :: 0 <= j < i ==> !sources[j].selected
      {
        sources[i].Deselect();
        i := i + 1;
      }
    }

    /** `filter`: a new set of the members that pass, in order, the same
        objects. The callback may read the sources' current state, as the
        one of `getSelected` reads the flag. */
    method Filter(p: InMemory ~> bool) returns (r: SourceSet)
      requires Valid()
      requires forall x :: x in sources ==> p.requires(x)
      ensures fresh(r) && r.Valid()
      ensures r.sources == Passing(sources, p)
      ensures forall i :: 0 <= i < |r.sources| ==> r.sources[i] in sources && p(r.sources[i])
      ensures forall i :: 0 <= i < |sources| && p(sources[i]) ==> sources[i] in r.sources
    {
      var kept := Passing(sources, p);
      PassingMembers(sources, p);
      PassingDistinct(sources, p);
      AddAllDistinct([], kept);
      r := new SourceSet(kept);
    }

    /** `map`: a new set of the transformed members, de-duplicated again. */
    method Map(f: InMemory ~> InMemory) returns (r: SourceSet)
      requires forall x :: x in sources ==> f.requires(x)
      ensures fresh(r) && r.Valid()
      ensures r.sources == AddAll([], Transform(sources, f))
    {
      r := new SourceSet(Transform(sources, f));
    }

    /** `getSelected`. */
    method GetSelected() returns (r: SourceSet)
      requires Valid()
      ensures fresh(r) && r.Valid()
      ensures r.sources == WithSelection(sources, true)
    {
      var p := (x: InMemory) reads x => x.selected;
      r := Filter(p);
      PassingSelection(sources, p, true);
    }

    /** `getUnselected`. */
    method GetUnselected() returns (r: SourceSet)
      requires Valid()
      ensures fresh(r) && r.Valid()
      ensures r.sources == WithSelection(sources, false)
    {
      var p := (x: InMemory) reads x => !x.selected;
      r := Filter(p);
      PassingSelection(sources, p, false);
    }

    /** `remove`: drops the very object given, nothing else; a different
        object with the same identifier stays. */
    method Remove(s: InMemory) returns (r: SourceSet)
      requires Valid()
      ensures fresh(r) && r.Valid()
      ensures s !in r.sources
      ensures forall i :: 0 <= i < |sources| && sources[i] != s ==> sources[i] in r.sources
      ensures forall i :: 0 <= i < |r.sources| ==> r.sources[i] in sources
      ensures r.sources == Seqs.Filter(sources, (x: InMemory) => x != s)
    {
      var p := (x: InMemory) => x != s;
      r := Filter(p);
      PassingPure(sources, p, p);
    }

    /** `find` with a source: the members identical to it. */
    method FindSource(s: InMemory) returns (r: SourceSet)
      requires Valid()
      ensures fresh(r) && r.Valid()
      ensures r.sources == (if s in sources then [s] else [])
    {
      var p := (x: InMemory) => x == s;
      r := Filter(p);
      PassingPure(sources, p, p);
      if s in sources {
        var k :| 0 <= k < |sources| && sources[k] == s;
        FilterOne(sources, s, k);
      } else {
        NoneEqual(sources, s);
      }
    }

    /** `get`: the source itself when it is a member, else "Source not found
        in list.". */
    method Get(s: InMemory) returns (r: Result<InMemory, SetError>)
      requires Valid()
      ensures r == if s in sources then Ok(s) else Err(SourceNotFound)
    {
      var found := FindSource(s);
      var first := found.First();
      if first.Some? {
        r := Ok(first.value);
      } else {
        r := Err(SourceNotFound);
      }
    }

    /** `getById`: the members whose identifier is one of the given ones. */
    method GetById(id: string, ids: seq<string>) returns (r: SourceSet)
      requires Valid()
      ensures fresh(r) && r.Valid()
      ensures r.sources == Seqs.Filter(sources, (x: InMemory) => x.id == id || x.id in ids)
      ensures forall i :: 0 <= i < |r.sources| ==> r.sources[i] in sources && (r.sources[i].id == id || r.sources[i].id in ids)
      ensures forall i :: 0 <= i < |sources| && (sources[i].id == id || sources[i].id in ids) ==> sources[i] in r.sources
    {
      var p := (x: InMemory) => x.id == id || x.id in ids;
      r := Filter(p);
      PassingPure(sources, p, p);
    }

    /** `getByName` as written: `find` returns a set, never null, and that
        set is then returned where a source is declared, which PHP rejects
        with a type error whatever the name. */
    method GetByNameAsWritten(name: string) returns (r: Result<InMemory, SetError>)
      requires Valid()
      ensures r == Err(TypeError)
    {
      var found := Filter((x: InMemory) => x.name == name);
      // `$source !== null` holds for the set, so the set itself is returned.
      r := Err(TypeError);
    }

    /** `getByName` as evidently intended: the first member with that name,
        or "Source not found in list.". */
    method GetByName(name: string) returns (r: Result<InMemory, SetError>)
      requires Valid()
      ensures r.Ok? <==> exists i :: 0 <= i < |sources| && sources[i].name == name
      ensures r.Ok? ==> r.value in sources && r.value.name == name
      ensures r.Ok? ==> exists i :: 0 <= i < |sources| && sources[i] == r.value &&
                          (forall j :: 0 <= j < i ==> sources[j].name != name)
      ensures r.Err? ==> r.error == SourceNotFound
    {
      var p := (x: InMemory) => x.name == name;
      var found := Filter(p);
      PassingPure(sources, p, p);
      var first := found.First();
      if first.Some? {
        FilterFirst(sources, p);
        r := Ok(first.value);
      } else {
        r := Err(SourceNotFound);
        assert forall i :: 0 <= i < |sources| ==> sources[i].name != name;
      }
    }
  }

  /** Filtering by identity with a member gives that member alone. */
  lemma {:induction false} FilterOne(s: seq<InMemory>, x: InMemory, k: int)
    requires DistinctIds(s) && 0 <= k < |s| && s[k] == x
    ensures Seqs.Filter(s, (y: InMemory) => y == x) == [x]
  {
    var p := (y: InMemory) => y == x;
    assert s == s[..k] + [x] + s[k + 1..];
    Seqs.FilterConcat(s[..k] + [x], s[k + 1..], p);
    Seqs.FilterConcat(s[..k], [x], p);
    NoneEqual(s[..k], x);
    NoneEqual(s[k + 1..], x);
  }

  lemma {:induction false} NoneEqual(s: seq<InMemory>, x: InMemory)
    requires forall i :: 0 <= i < |s| ==> s[i] != x
    ensures Seqs.Filter(s, (y: InMemory) => y == x) == []
  {
    if s != [] {
      NoneEqual(s[1..], x);
    }
  }

  /** The first element of a filtered list is the earliest element that
      passes. */
  lemma {:induction false} FilterFirst(s: seq<InMemory>, p: InMemory -> bool)
    requires Seqs.Filter(s, p) != []
    ensures exists i :: 0 <= i < |s| && s[i] == Seqs.Filter(s, p)[0] &&
                        (forall j :: 0 <= j < i ==> !p(s[j]))
  {
    if p(s[0]) {
      assert s[0] == Seqs.Filter(s, p)[0];
    } else {
      FilterFirst(s[1..], p);
      var i :| 0 <= i < |s[1..]| && s[1..][i] == Seqs.Filter(s[1..], p)[0] &&
        forall j :: 0 <= j < i ==> !p(s[1..][j]);
      assert s[i + 1] == Seqs.Filter(s, p)[0];
      forall j | 0 <= j < i + 1 ensures !p(s[j]) {
        if j > 0 { assert s[j] == s[1..][j - 1]; }
      }
    }
  }

  /** Each source passed through `f`, in order (the callback of `map`). */
  function Transform(s: seq<InMemory>, f: InMemory ~> InMemory): (r: seq<InMemory>)
    requires forall x :: x in s ==> f.requires(x)
    reads set x, o | x in s && o in f.reads(x) :: o
    ensures |r| == |s| && forall i :: 0 <= i < |s| ==> r[i] == f(s[i])
  {
    if s == [] then [] else [f(s[0])] + Transform(s[1..], f)
  }
}
