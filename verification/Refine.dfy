// Narrowing a stored result by name and dates (server/results.go, refineGroups)
// against scanning with those criteria in the candidate key
// (server/duplicates.go, dupWindow's candKey).
module Refine {
  import opened Picking

  // created "" is a creation time File Station could not give.
  datatype File = File(path: string, size: nat, name: string, mod: string, created: string, content: nat)

  datatype Criteria = Criteria(name: bool, modified: bool, created: bool)

  // The match key, field by field; an unknown creation time is a field of its own.
  datatype Created = Ignored | Known(at: string) | Unknown(path: string)
  datatype Key = Key(name: string, mod: string, created: Created)

  function KeyOf(m: Criteria, f: File): Key {
    Key(if m.name then f.name else "", if m.modified then f.mod else "",
        if !m.created then Ignored else if f.created == "" then Unknown(f.path) else Known(f.created))
  }

  function WithKey(m: Criteria, k: Key): File -> bool { (f: File) => KeyOf(m, f) == k }

  // What a scan without criteria groups by, and what one with them does.
  function SameData(f: File): File -> bool { (e: File) => e.size == f.size && e.content == f.content }

  function SameMatch(m: Criteria, f: File): File -> bool {
    (e: File) => e.size == f.size && e.content == f.content && KeyOf(m, e) == KeyOf(m, f)
  }

  // ------------------------------------------------------------ refineGroups

  function KeysOf(m: Criteria, files: seq<File>): seq<Key> {
    if files == [] then []
    else
      var n := |files| - 1;
      var ks := KeysOf(m, files[..n]);
      if KeyOf(m, files[n]) in ks then ks else ks + [KeyOf(m, files[n])]
  }

  // The buckets of two or more, in the order their keys first appear.
  function Subgroups(m: Criteria, files: seq<File>, keys: seq<Key>): seq<seq<File>> {
    if keys == [] then []
    else
      var n := |keys| - 1;
      var b := Pick(files, WithKey(m, keys[n]));
      Subgroups(m, files, keys[..n]) + if |b| >= 2 then [b] else []
  }

  function Refined(m: Criteria, groups: seq<seq<File>>): seq<seq<File>> {
    if groups == [] then []
    else
      var n := |groups| - 1;
      Refined(m, groups[..n]) + Subgroups(m, groups[n], KeysOf(m, groups[n]))
  }

  function Bucket(buckets: map<Key, seq<File>>, k: Key): seq<File> {
    if k in buckets then buckets[k] else []
  }

  method Split(m: Criteria, files: seq<File>) returns (keys: seq<Key>, buckets: map<Key, seq<File>>)
    ensures keys == KeysOf(m, files)
    ensures forall k :: Bucket(buckets, k) == Pick(files, WithKey(m, k))
    ensures forall k :: k in keys <==> k in buckets
  {
    keys, buckets := [], map[];
    for i := 0 to |files|
      invariant keys == KeysOf(m, files[..i])
      invariant forall k :: Bucket(buckets, k) == Pick(files[..i], WithKey(m, k))
      invariant forall k :: k in keys <==> k in buckets
    {
      assert files[..i + 1][..i] == files[..i];
      var k := KeyOf(m, files[i]);
      if k !in buckets { keys := keys + [k]; }
      buckets := buckets[k := Bucket(buckets, k) + [files[i]]];
    }
    assert files[..|files|] == files;
  }

  lemma SubgroupsNext(m: Criteria, files: seq<File>, keys: seq<Key>, j: nat)
    requires j < |keys|
    ensures var b := Pick(files, WithKey(m, keys[j]));
      Subgroups(m, files, keys[..j + 1]) == Subgroups(m, files, keys[..j]) + if |b| >= 2 then [b] else []
  {
    assert keys[..j + 1][..j] == keys[..j];
  }

  method RefineOne(m: Criteria, files: seq<File>) returns (out: seq<seq<File>>)
    ensures out == Subgroups(m, files, KeysOf(m, files))
  {
    var keys, buckets := Split(m, files);
    out := [];
    for j := 0 to |keys|
      invariant out == Subgroups(m, files, keys[..j])
    {
      SubgroupsNext(m, files, keys, j);
      assert keys[j] in buckets && Bucket(buckets, keys[j]) == buckets[keys[j]];
      var b := buckets[keys[j]];
      if |b| >= 2 { out := out + [b]; }
    }
    assert keys[..|keys|] == keys;
  }

  // With no criterion set the groups are copied as they are.
  method RefineGroups(m: Criteria, groups: seq<seq<File>>) returns (out: seq<seq<File>>)
    requires forall g :: g in groups ==> |g| >= 2
    ensures out == Refined(m, groups)
  {
    if !m.name && !m.modified && !m.created {
      NothingToRefine(m, groups);
      return groups;
    }
    out := RefineEach(m, groups);
  }

  method RefineEach(m: Criteria, groups: seq<seq<File>>) returns (out: seq<seq<File>>)
    ensures out == Refined(m, groups)
  {
    out := [];
    for i := 0 to |groups|
      invariant out == Refined(m, groups[..i])
    {
      assert groups[..i + 1][..i] == groups[..i];
      var subs := RefineOne(m, groups[i]);
      out := out + subs;
    }
    assert groups[..|groups|] == groups;
  }

  lemma {:induction false} OneKey(m: Criteria, files: seq<File>)
    requires !m.name && !m.modified && !m.created && files != []
    ensures KeysOf(m, files) == [Key("", "", Ignored)]
  {
    if |files| > 1 { OneKey(m, files[..|files| - 1]); }
  }

  lemma {:induction false} NothingToRefine(m: Criteria, groups: seq<seq<File>>)
    requires !m.name && !m.modified && !m.created
    requires forall g :: g in groups ==> |g| >= 2
    ensures Refined(m, groups) == groups
  {
    if groups != [] {
      var n := |groups| - 1;
      assert groups == groups[..n] + [groups[n]];
      NothingToRefine(m, groups[..n]);
      OneSubgroup(m, groups[n]);
    }
  }

  lemma OneSubgroup(m: Criteria, files: seq<File>)
    requires !m.name && !m.modified && !m.created && |files| >= 2
    ensures Subgroups(m, files, KeysOf(m, files)) == [files]
  {
    var k := Key("", "", Ignored);
    OneKey(m, files);
    PickAll(files, WithKey(m, k));
    assert [k][..0] == [];
    assert Subgroups(m, files, []) == [];
  }

  // ---------------------------------------------------- refined against scanned

  lemma {:induction false} KeysMeaning(m: Criteria, files: seq<File>)
    ensures forall f :: f in files ==> KeyOf(m, f) in KeysOf(m, files)
  {
    if files != [] { KeysMeaning(m, files[..|files| - 1]); }
  }

  lemma {:induction false} SubgroupsMeaning(m: Criteria, files: seq<File>, keys: seq<Key>, s: seq<File>)
    ensures s in Subgroups(m, files, keys) <==> |s| >= 2 && exists k :: k in keys && s == Pick(files, WithKey(m, k))
  {
    if keys != [] {
      var n := |keys| - 1;
      SubgroupsMeaning(m, files, keys[..n], s);
      assert keys == keys[..n] + [keys[n]];
    }
  }

  ghost predicate SubgroupOf(m: Criteria, g: seq<File>, s: seq<File>) {
    |s| >= 2 && exists k :: k in KeysOf(m, g) && s == Pick(g, WithKey(m, k))
  }

  lemma RefinedLast(m: Criteria, groups: seq<seq<File>>, s: seq<File>)
    requires groups != []
    ensures var n := |groups| - 1;
      s in Refined(m, groups) <==> s in Refined(m, groups[..n]) || SubgroupOf(m, groups[n], s)
  {
    var n := |groups| - 1;
    SubgroupsMeaning(m, groups[n], KeysOf(m, groups[n]), s);
  }

  lemma {:induction false} RefinedMeaning(m: Criteria, groups: seq<seq<File>>, s: seq<File>)
    ensures s in Refined(m, groups) <==> exists i :: 0 <= i < |groups| && SubgroupOf(m, groups[i], s)
  {
    if groups != [] {
      var n := |groups| - 1;
      var init := groups[..n];
      assert forall i :: 0 <= i < n ==> init[i] == groups[i];
      RefinedMeaning(m, init, s);
      RefinedLast(m, groups, s);
      if i :| 0 <= i < n && SubgroupOf(m, groups[i], s) {
        assert SubgroupOf(m, init[i], s);
      }
    }
  }

  // A scan's groups, whatever their order: the classes of two or more, each once
  // or more and whole.
  ghost predicate GroupsOf(all: seq<File>, groups: seq<seq<File>>, class_: File -> (File -> bool)) {
    && (forall g :: g in groups ==> exists f :: f in all && |g| >= 2 && multiset(g) == multiset(Pick(all, class_(f))))
    && (forall f :: f in all && |Pick(all, class_(f))| >= 2 ==>
          exists g :: g in groups && multiset(g) == multiset(Pick(all, class_(f))))
  }

  // Within one content group the key alone tells the scan's classes apart.
  lemma SameClass(all: seq<File>, m: Criteria, g: seq<File>, h: File, f: File)
    requires f in g && multiset(g) == multiset(Pick(all, SameData(h)))
    ensures f in all && multiset(Pick(g, WithKey(m, KeyOf(m, f)))) == multiset(Pick(all, SameMatch(m, f)))
  {
    assert f in multiset(g);
    PickBag(all, SameData(h), f);
    forall e ensures multiset(Pick(g, WithKey(m, KeyOf(m, f))))[e] == multiset(Pick(all, SameMatch(m, f)))[e] {
      PickBag(g, WithKey(m, KeyOf(m, f)), e);
      PickBag(all, SameData(h), e);
      PickBag(all, SameMatch(m, f), e);
    }
  }

  // Refining the stored content groups finds exactly the groups a scan with the
  // criteria in its key would, when no cap dropped anything.
  lemma RefineIsScan(all: seq<File>, groups: seq<seq<File>>, m: Criteria)
    requires GroupsOf(all, groups, f => SameData(f))
    ensures GroupsOf(all, Refined(m, groups), f => SameMatch(m, f))
  {
    forall s | s in Refined(m, groups)
      ensures exists f :: f in all && |s| >= 2 && multiset(s) == multiset(Pick(all, SameMatch(m, f)))
    {
      RefinedWasScanned(all, groups, m, s);
    }
    forall f | f in all && |Pick(all, SameMatch(m, f))| >= 2
      ensures exists s :: s in Refined(m, groups) && multiset(s) == multiset(Pick(all, SameMatch(m, f)))
    {
      ScannedIsRefined(all, groups, m, f);
    }
  }

  lemma RefinedWasScanned(all: seq<File>, groups: seq<seq<File>>, m: Criteria, s: seq<File>)
    requires GroupsOf(all, groups, f => SameData(f)) && s in Refined(m, groups)
    ensures exists f :: f in all && |s| >= 2 && multiset(s) == multiset(Pick(all, SameMatch(m, f)))
  {
    RefinedMeaning(m, groups, s);
    var i :| 0 <= i < |groups| && SubgroupOf(m, groups[i], s);
    var g := groups[i];
    assert g in groups;
    var k :| k in KeysOf(m, g) && s == Pick(g, WithKey(m, k));
    var f := s[0];
    PickFrom(g, WithKey(m, k), f);
    var h :| h in all && |g| >= 2 && multiset(g) == multiset(Pick(all, SameData(h)));
    SameClass(all, m, g, h, f);
  }

  lemma ScannedIsRefined(all: seq<File>, groups: seq<seq<File>>, m: Criteria, f: File)
    requires GroupsOf(all, groups, h => SameData(h)) && f in all && |Pick(all, SameMatch(m, f))| >= 2
    ensures exists s :: s in Refined(m, groups) && multiset(s) == multiset(Pick(all, SameMatch(m, f)))
  {
    PickMore(all, SameMatch(m, f), SameData(f));
    var g :| g in groups && multiset(g) == multiset(Pick(all, SameData(f)));
    ScannedIn(all, groups, g, m, f);
  }

  lemma ScannedIn(all: seq<File>, groups: seq<seq<File>>, g: seq<File>, m: Criteria, f: File)
    requires g in groups && f in all && multiset(g) == multiset(Pick(all, SameData(f)))
    requires |Pick(all, SameMatch(m, f))| >= 2
    ensures var s := Pick(g, WithKey(m, KeyOf(m, f)));
      s in Refined(m, groups) && multiset(s) == multiset(Pick(all, SameMatch(m, f)))
  {
    PickFrom(all, SameData(f), f);
    assert f in multiset(g);
    SameClass(all, m, g, f, f);
    SameSize(Pick(g, WithKey(m, KeyOf(m, f))), Pick(all, SameMatch(m, f)));
    ListedByKey(m, groups, g, f);
  }

  lemma ListedByKey(m: Criteria, groups: seq<seq<File>>, g: seq<File>, f: File)
    requires g in groups && f in g && |Pick(g, WithKey(m, KeyOf(m, f)))| >= 2
    ensures Pick(g, WithKey(m, KeyOf(m, f))) in Refined(m, groups)
  {
    var s := Pick(g, WithKey(m, KeyOf(m, f)));
    KeysMeaning(m, g);
    var i :| 0 <= i < |groups| && groups[i] == g;
    assert SubgroupOf(m, groups[i], s);
    RefinedMeaning(m, groups, s);
  }

  // A file with no known creation time never groups by it.
  lemma UnknownNeverGroups(all: seq<File>, m: Criteria, f: File)
    requires m.created && f.created == ""
    requires forall i, j :: 0 <= i < j < |all| ==> all[i].path != all[j].path
    ensures |Pick(all, SameMatch(m, f))| <= 1
  {
    OnePath(all, SameMatch(m, f), f.path);
  }

  lemma {:induction false} OnePath(s: seq<File>, keep: File -> bool, p: string)
    requires forall i, j :: 0 <= i < j < |s| ==> s[i].path != s[j].path
    requires forall e :: keep(e) ==> e.path == p
    ensures |Pick(s, keep)| <= 1
    ensures (forall i :: 0 <= i < |s| ==> s[i].path != p) ==> Pick(s, keep) == []
  {
    if s != [] { OnePath(s[..|s| - 1], keep, p); }
  }
}
