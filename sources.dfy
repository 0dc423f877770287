/** The `sources` example program (`examples/sources.rs`): collect, for
    every source package, the set of its source versions, optionally skipping
    versions that come from a given archive, and list the pairs in sorted
    order.

    The walk over packages and versions is modelled over the records it
    reads: for each binary package, its versions in cursor order, each with
    its source package, source version and the archive of the first package
    file of each origin. The printed lines `src=ver` are returned as pairs. */
module Sources {
  import opened Wrappers
  import opened Text

  datatype VersionRecord = VersionRecord(sourcePackage: string, sourceVersion: string, archives: seq<string>)

  type SourceMap = map<string, set<string>>

  /** The `continue` test: with an archive filter, a version is skipped when
      one of its origins is in that archive. */
  predicate Skipped(v: VersionRecord, filter: Option<string>): (r: bool)
    ensures filter.None? ==> !r
    ensures filter.Some? ==> (r <==> exists i :: 0 <= i < |v.archives| && v.archives[i] == filter.value)
  {
    filter.Some? && filter.value in v.archives
  }

  /** `source_versions.entry(k).or_insert_with(HashSet::new).insert(x)` */
  function Insert(m: SourceMap, k: string, x: string): (r: SourceMap)
    ensures r.Keys == m.Keys + {k}
    ensures k in m ==> r[k] == m[k] + {x}
    ensures k !in m ==> r[k] == {x}
    ensures forall j :: j in m && j != k ==> r[j] == m[j]
  {
    m[k := (if k in m then m[k] else {}) + {x}]
  }

  /** The map after visiting `versions` in order, starting from `m`. */
  function Group(m: SourceMap, versions: seq<VersionRecord>, filter: Option<string>): SourceMap
  {
    if versions == [] then m
    else
      var v := versions[|versions| - 1];
      var before := Group(m, versions[..|versions| - 1], filter);
      if Skipped(v, filter) then before else Insert(before, v.sourcePackage, v.sourceVersion)
  }

  /** All versions of all packages, package after package. */
  function Flatten(packages: seq<seq<VersionRecord>>): seq<VersionRecord>
  {
    if packages == [] then [] else Flatten(packages[..|packages| - 1]) + packages[|packages| - 1]
  }

  /** A key is recorded, with a value, exactly when some version that is not
      skipped has that source package and source version. */
  lemma {:induction false} GroupMembership(versions: seq<VersionRecord>, filter: Option<string>, k: string, x: string)
    ensures var g := Group(map[], versions, filter);
      (k in g && x in g[k]) <==>
      exists i :: 0 <= i < |versions| && !Skipped(versions[i], filter)
                  && versions[i].sourcePackage == k && versions[i].sourceVersion == x
  {
    if versions != [] {
      var n := |versions| - 1;
      GroupMembership(versions[..n], filter, k, x);
      assert forall i :: 0 <= i < n ==> versions[..n][i] == versions[i];
    }
  }

  /** Every recorded source has at least one version. */
  lemma {:induction false} GroupValuesNonEmpty(versions: seq<VersionRecord>, filter: Option<string>, k: string)
    requires k in Group(map[], versions, filter)
    ensures Group(map[], versions, filter)[k] != {}
  {
    if versions != [] {
      var n := |versions| - 1;
      var v := versions[n];
      if k in Group(map[], versions[..n], filter) {
        GroupValuesNonEmpty(versions[..n], filter, k);
      }
    }
  }

  /** Without a filter nothing is skipped: every version's source version is
      in the set of its source package. */
  lemma UnfilteredRecordsEverything(versions: seq<VersionRecord>, i: nat)
    requires i < |versions|
    ensures var g := Group(map[], versions, None);
      versions[i].sourcePackage in g && versions[i].sourceVersion in g[versions[i].sourcePackage]
  {
    GroupMembership(versions, None, versions[i].sourcePackage, versions[i].sourceVersion);
  }

  /** A repeated (source, version) pair is recorded once: visiting the same
      version again leaves the map as it was. */
  lemma RepeatIsRecordedOnce(versions: seq<VersionRecord>, v: VersionRecord, filter: Option<string>)
    ensures Group(map[], versions + [v, v], filter) == Group(map[], versions + [v], filter)
  {
    assert (versions + [v, v])[..|versions| + 1] == versions + [v];
    assert (versions + [v])[..|versions|] == versions;
  }

  /** Visiting one more version: it is skipped or inserted. */
  lemma GroupSnoc(versions: seq<VersionRecord>, v: VersionRecord, filter: Option<string>)
    ensures Group(map[], versions + [v], filter) ==
      if Skipped(v, filter) then Group(map[], versions, filter)
      else Insert(Group(map[], versions, filter), v.sourcePackage, v.sourceVersion)
  {
    assert (versions + [v])[..|versions|] == versions;
  }

  lemma FlattenSnoc(packages: seq<seq<VersionRecord>>, i: nat)
    requires i < |packages|
    ensures Flatten(packages[..i + 1]) == Flatten(packages[..i]) + packages[i]
  {
    assert packages[..i + 1][..i] == packages[..i];
  }

  /** `origin_iter().map(|o| o.file().next().unwrap().archive()).any(|a| a == target)`,
      which stops at the first match. */
  method AnyArchiveIs(archives: seq<string>, target: string) returns (found: bool)
    ensures found <==> target in archives
  {
    var k := 0;
    while k < |archives|
      invariant 0 <= k <= |archives|
      invariant target !in archives[..k]
    {
      if archives[k] == target {
        return true;
      }
      assert archives[..k + 1] == archives[..k] + [archives[k]];
      k := k + 1;
    }
    assert archives[..k] == archives;
    return false;
  }

  /** The nested `while let` loops of `main` that fill `source_versions`. */
  method CollectSourceVersions(packages: seq<seq<VersionRecord>>, filter: Option<string>) returns (m: SourceMap)
    ensures m == Group(map[], Flatten(packages), filter)
  {
    m := map[];
    var i := 0;
    while i < |packages|
      invariant 0 <= i <= |packages|
      invariant m == Group(map[], Flatten(packages[..i]), filter)
    {
      var versions := packages[i];
      ghost var done := Flatten(packages[..i]);
      var j := 0;
      assert done + versions[..j] == done;
      while j < |versions|
        invariant 0 <= j <= |versions|
        invariant m == Group(map[], done + versions[..j], filter)
      {
        var version := versions[j];
        var skip := false;
        if filter.Some? {
          skip := AnyArchiveIs(version.archives, filter.value);
        }
        if !skip {
          var known := if version.sourcePackage in m then m[version.sourcePackage] else {};
          m := m[version.sourcePackage := known + {version.sourceVersion}];
        }
        assert done + versions[..j + 1] == (done + versions[..j]) + [version];
        GroupSnoc(done + versions[..j], version, filter);
        j := j + 1;
      }
      assert versions[..j] == versions;
      FlattenSnoc(packages, i);
      i := i + 1;
    }
    assert packages[..i] == packages;
  }

  /** The elements of a hash set, in whatever order its iterator yields them. */
  method Elements(s: set<string>) returns (xs: seq<string>)
    ensures multiset(xs) == multiset(s)
  {
    xs := [];
    var rest := s;
    while rest != {}
      invariant rest <= s
      invariant multiset(xs) + multiset(rest) == multiset(s)
      decreases |rest|
    {
      var x :| x in rest;
      assert multiset(rest) == multiset(rest - {x}) + multiset{x};
      xs := xs + [x];
      rest := rest - {x};
    }
  }

  /** The first `n` elements of `a` are in ascending order. */
  ghost predicate SortedPrefix(a: array<string>, n: int)
    reads a
    requires n <= a.Length
  {
    forall k, l :: 0 <= k < l < n ==> LessEq(a[k], a[l])
  }

  method Swap(a: array<string>, j: int)
    requires 0 < j < a.Length
    modifies a
    ensures a[j - 1] == old(a[j]) && a[j] == old(a[j - 1])
    ensures forall k :: 0 <= k < a.Length && k != j - 1 && k != j ==> a[k] == old(a[k])
    ensures multiset(a[..]) == old(multiset(a[..]))
  {
    a[j - 1], a[j] := a[j], a[j - 1];
  }

  /** One insertion step: move `a[i]` left past every larger element. */
  method InsertAt(a: array<string>, i: int)
    requires 0 <= i < a.Length && SortedPrefix(a, i)
    modifies a
    ensures SortedPrefix(a, i + 1)
    ensures multiset(a[..]) == old(multiset(a[..]))
  {
    var j := i;
    while j > 0 && !LessEq(a[j - 1], a[j])
      invariant 0 <= j <= i
      invariant multiset(a[..]) == old(multiset(a[..]))
      invariant forall k, l :: 0 <= k < l <= i && k != j && l != j ==> LessEq(a[k], a[l])
      invariant forall l :: j < l <= i ==> LessEq(a[j], a[l])
    {
      LessEqTotal(a[j - 1], a[j]);
      Swap(a, j);
      j := j - 1;
    }
    forall k, l | 0 <= k < l <= i
      ensures LessEq(a[k], a[l])
    {
      if l == j && k < j - 1 {
        LessEqTransitive(a[k], a[j - 1], a[j]);
      }
    }
  }

  /** `val.sort()`: insertion sort by the `Ord` of `String`. */
  method SortInPlace(a: array<string>)
    modifies a
    ensures Sorted(a[..]) && multiset(a[..]) == old(multiset(a[..]))
  {
    var i := 0;
    while i < a.Length
      invariant 0 <= i <= a.Length
      invariant SortedPrefix(a, i)
      invariant multiset(a[..]) == old(multiset(a[..]))
    {
      InsertAt(a, i);
      i := i + 1;
    }
  }

  /** `lexographic_sort`: collect the elements and sort them. */
  method LexographicSort(input: seq<string>) returns (val: seq<string>)
    ensures Sorted(val) && multiset(val) == multiset(input)
  {
    var a := new string[|input|](i requires 0 <= i < |input| => input[i]);
    assert a[..] == input;
    SortInPlace(a);
    val := a[..];
  }

  /** `lexographic_sort(set.iter())` on a hash set: its elements, each once,
      in strictly ascending order. */
  method SortedElements(s: set<string>) returns (xs: seq<string>)
    ensures StrictlySorted(xs)
    ensures forall x :: x in xs <==> x in s
  {
    var unordered := Elements(s);
    xs := LexographicSort(unordered);
    SortedNoRepeatsIsStrict(xs);
    forall x ensures x in xs <==> x in s {
      assert x in xs <==> x in multiset(xs);
    }
  }

  /** Output order: by source package, then by version. */
  predicate PairLess(p: (string, string), q: (string, string))
  {
    Less(p.0, q.0) || (p.0 == q.0 && Less(p.1, q.1))
  }

  /** The inner output loop of `main`: the lines of one source, one per
      version, after the lines already printed. */
  method PrintSource(printed: seq<(string, string)>, src: string, versions: seq<string>)
    returns (lines: seq<(string, string)>)
    requires StrictlySorted(versions)
    requires forall q :: 0 < q < |printed| ==> PairLess(printed[q - 1], printed[q])
    requires printed != [] ==> Less(printed[|printed| - 1].0, src)
    ensures forall q :: 0 < q < |lines| ==> PairLess(lines[q - 1], lines[q])
    ensures forall p :: p in lines <==> p in printed || (p.0 == src && p.1 in versions)
    ensures versions == [] ==> lines == printed
    ensures versions != [] ==> lines != [] && lines[|lines| - 1].0 == src
  {
    lines := printed;
    var l := 0;
    while l < |versions|
      invariant 0 <= l <= |versions|
      invariant forall q :: 0 < q < |lines| ==> PairLess(lines[q - 1], lines[q])
      invariant forall p :: p in lines <==> p in printed || (p.0 == src && p.1 in versions[..l])
      invariant l == 0 ==> lines == printed
      invariant l > 0 ==> lines != [] && lines[|lines| - 1] == (src, versions[l - 1])
    {
      assert versions[..l + 1] == versions[..l] + [versions[l]];
      lines := lines + [(src, versions[l])];
      l := l + 1;
    }
    assert versions[..l] == versions;
  }

  /** The output loop of `main`: one pair per (source, version) in the map,
      in strictly ascending order. */
  method PrintSorted(m: SourceMap) returns (lines: seq<(string, string)>)
    ensures forall q :: 0 < q < |lines| ==> PairLess(lines[q - 1], lines[q])
    ensures forall p :: p in lines <==> p.0 in m && p.1 in m[p.0]
  {
    var keys := SortedElements(m.Keys);
    lines := [];
    ghost var last := 0;
    var i := 0;
    while i < |keys|
      invariant 0 <= i <= |keys|
      invariant forall q :: 0 < q < |lines| ==> PairLess(lines[q - 1], lines[q])
      invariant forall p :: p in lines ==> p.0 in m && p.1 in m[p.0]
      invariant lines != [] ==> 0 <= last < i && lines[|lines| - 1].0 == keys[last]
      invariant forall j, x :: 0 <= j < i && x in m[keys[j]] ==> (keys[j], x) in lines
    {
      var src := keys[i];
      var versions := SortedElements(m[src]);
      lines := PrintSource(lines, src, versions);
      if versions != [] {
        last := i;
      }
      i := i + 1;
    }
    forall p: (string, string) | p.0 in m && p.1 in m[p.0]
      ensures p in lines
    {
      var j :| 0 <= j < |keys| && keys[j] == p.0;
    }
  }

  /** `main`: group, then list; the pairs listed are exactly those of the
      versions not skipped, ordered by source, then version. */
  method ListSourceVersions(packages: seq<seq<VersionRecord>>, filter: Option<string>)
    returns (lines: seq<(string, string)>)
    ensures forall q :: 0 < q < |lines| ==> PairLess(lines[q - 1], lines[q])
    ensures forall p :: p in lines <==>
      exists v :: v in Flatten(packages) && !Skipped(v, filter) && v.sourcePackage == p.0 && v.sourceVersion == p.1
  {
    var m := CollectSourceVersions(packages, filter);
    lines := PrintSorted(m);
    forall p: (string, string)
      ensures p in lines <==>
        exists v :: v in Flatten(packages) && !Skipped(v, filter) && v.sourcePackage == p.0 && v.sourceVersion == p.1
    {
      GroupMembership(Flatten(packages), filter, p.0, p.1);
    }
  }
}
