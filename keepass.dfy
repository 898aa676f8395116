/** Importing a KeePass database: its group tree is flattened into entries
    whose names are the group path and the title joined with "/". */
module KeePass {
  import opened Errors
  import opened Entries

  /** An entry of the KeePass tree, as far as the import reads it. */
  datatype KdbxEntry = KdbxEntry(
    uuid: string, title: Option<string>, password: Option<string>,
    username: Option<string>, url: Option<string>)

  datatype Group = Group(name: string, children: seq<Node>)

  datatype Node = GroupNode(group: Group) | EntryNode(entry: KdbxEntry)

  /** An entry is named by its title, or by its uuid when it has none. */
  function Title(e: KdbxEntry): string
  {
    match e.title
    case Some(t) => t
    case None => e.uuid
  }

  /** The path of something named `name` below the group at `path`. */
  function ChildPath(path: Option<string>, name: string): string
  {
    match path
    case Some(p) => p + "/" + name
    case None => name
  }

  function Imported(e: KdbxEntry): Entry
    requires e.password.Some?
  {
    Entry(e.password.value, e.username, e.url)
  }

  /** The insertions `keepass_entries` makes, in order, while it visits the
      first `n` children of `g`, which sits at `path`. */
  function ImportsUpTo(g: Group, n: nat, path: Option<string>): seq<(string, Entry)>
    requires n <= |g.children|
    decreases g, n
  {
    if n == 0 then []
    else
      ImportsUpTo(g, n - 1, path) +
      match g.children[n - 1]
      case GroupNode(sub) => ImportsUpTo(sub, |sub.children|, Some(ChildPath(path, sub.name)))
      case EntryNode(e) =>
        if e.password.Some? then [(ChildPath(path, Title(e)), Imported(e))] else []
  }

  function Imports(g: Group, path: Option<string>): seq<(string, Entry)>
  {
    ImportsUpTo(g, |g.children|, path)
  }

  /** Inserting the pairs into the map one after the other. */
  function InsertAll(m: map<string, Entry>, kvs: seq<(string, Entry)>): map<string, Entry>
    decreases |kvs|
  {
    if kvs == [] then m else InsertAll(m[kvs[0].0 := kvs[0].1], kvs[1..])
  }

  lemma {:induction false} InsertAllAppend(m: map<string, Entry>, a: seq<(string, Entry)>, b: seq<(string, Entry)>)
    ensures InsertAll(m, a + b) == InsertAll(InsertAll(m, a), b)
    decreases |a|
  {
    if a != [] {
      assert (a + b)[0] == a[0];
      assert (a + b)[1..] == a[1..] + b;
      InsertAllAppend(m[a[0].0 := a[0].1], a[1..], b);
    } else {
      assert a + b == b;
    }
  }

  /** `keepass_entries`: visit the children of `group` in order, descending into
      subgroups with the extended path and inserting every entry that has a
      password under its path name. The map is threaded through the recursion
      as the source threads its `&mut HashMap`. */
  method KeepassEntries(entries: map<string, Entry>, group: Group, groupPath: Option<string>)
    returns (r: map<string, Entry>)
    ensures r == InsertAll(entries, Imports(group, groupPath))
    decreases group
  {
    r := entries;
    for i := 0 to |group.children|
      invariant r == InsertAll(entries, ImportsUpTo(group, i, groupPath))
    {
      ghost var before := ImportsUpTo(group, i, groupPath);
      match group.children[i]
      case GroupNode(sub) =>
        var subPath := ChildPath(groupPath, sub.name);
        r := KeepassEntries(r, sub, Some(subPath));
        InsertAllAppend(entries, before, Imports(sub, Some(subPath)));
      case EntryNode(e) =>
        var entryName := ChildPath(groupPath, Title(e));
        if e.password.Some? {
          r := r[entryName := Imported(e)];
          InsertAllAppend(entries, before, [(entryName, Imported(e))]);
          assert [(entryName, Imported(e))][1..] == [];
        } else {
          assert ImportsUpTo(group, i + 1, groupPath) == before;
        }
    }
  }

  /** `from_keepass` once the database is open: a fresh map filled from the
      root group, under the optional prefix. */
  method FromKeepass(root: Group, prefix: Option<string>) returns (s: Storage)
    ensures s == Storage(InsertAll(map[], Imports(root, prefix)))
  {
    var entries := KeepassEntries(map[], root, prefix);
    s := Storage(entries);
  }

  // ---------------------------------------------------------------------
  // A reference description of the import: list every entry of the tree with
  // the names of the groups above it, keep those with a password, and name
  // each by its group path and title.

  /** An entry and the names of the groups from the visited group down to it. */
  type Located = (seq<string>, KdbxEntry)

  function AllEntriesUpTo(g: Group, n: nat): seq<Located>
    requires n <= |g.children|
    decreases g, n
  {
    if n == 0 then []
    else
      AllEntriesUpTo(g, n - 1) +
      match g.children[n - 1]
      case GroupNode(sub) => Under(sub.name, AllEntriesUpTo(sub, |sub.children|))
      case EntryNode(e) => [([], e)]
  }

  function AllEntries(g: Group): seq<Located>
  {
    AllEntriesUpTo(g, |g.children|)
  }

  /** The same entries, one group further down. */
  function Under(name: string, ls: seq<Located>): (r: seq<Located>)
    ensures |r| == |ls|
    ensures forall i :: 0 <= i < |ls| ==> r[i] == ([name] + ls[i].0, ls[i].1)
  {
    seq(|ls|, i requires 0 <= i < |ls| => ([name] + ls[i].0, ls[i].1))
  }

  function WithPassword(ls: seq<Located>): (r: seq<Located>)
    ensures |r| <= |ls|
    ensures forall i :: 0 <= i < |r| ==> r[i].1.password.Some?
  {
    if ls == [] then []
    else (if ls[0].1.password.Some? then [ls[0]] else []) + WithPassword(ls[1..])
  }

  /** Path components joined with "/". */
  function Slashed(parts: seq<string>): string
    requires parts != []
  {
    if |parts| == 1 then parts[0] else parts[0] + "/" + Slashed(parts[1..])
  }

  /** The name an entry is imported under: the prefix if any, the group names,
      and the title, joined with "/". */
  function EntryKey(prefix: Option<string>, groups: seq<string>, e: KdbxEntry): string
  {
    Slashed((if prefix.Some? then [prefix.value] else []) + groups + [Title(e)])
  }

  function Lift(prefix: Option<string>, ls: seq<Located>): (r: seq<(string, Entry)>)
    requires forall i :: 0 <= i < |ls| ==> ls[i].1.password.Some?
    ensures |r| == |ls|
    ensures forall i :: 0 <= i < |ls| ==> r[i] == (EntryKey(prefix, ls[i].0, ls[i].1), Imported(ls[i].1))
  {
    seq(|ls|, i requires 0 <= i < |ls| => (EntryKey(prefix, ls[i].0, ls[i].1), Imported(ls[i].1)))
  }

  lemma {:induction false} WithPasswordAppend(a: seq<Located>, b: seq<Located>)
    ensures WithPassword(a + b) == WithPassword(a) + WithPassword(b)
  {
    if a != [] {
      assert (a + b)[1..] == a[1..] + b;
      WithPasswordAppend(a[1..], b);
    } else {
      assert a + b == b;
    }
  }

  lemma {:induction false} WithPasswordUnder(name: string, ls: seq<Located>)
    ensures WithPassword(Under(name, ls)) == Under(name, WithPassword(ls))
  {
    if ls != [] {
      assert Under(name, ls)[1..] == Under(name, ls[1..]);
      WithPasswordUnder(name, ls[1..]);
      var head := if ls[0].1.password.Some? then [ls[0]] else [];
      assert Under(name, head + WithPassword(ls[1..])) == Under(name, head) + Under(name, WithPassword(ls[1..]));
    }
  }

  lemma SlashedCons(first: string, rest: seq<string>)
    requires rest != []
    ensures Slashed([first] + rest) == first + "/" + Slashed(rest)
  {
    assert ([first] + rest)[1..] == rest;
  }

  /** Descending into a group named `name` below `path` names an entry as if
      `name` were one more group above it. */
  lemma EntryKeyUnder(path: Option<string>, name: string, groups: seq<string>, e: KdbxEntry)
    ensures EntryKey(Some(ChildPath(path, name)), groups, e) == EntryKey(path, [name] + groups, e)
  {
    var rest := groups + [Title(e)];
    assert [ChildPath(path, name)] + groups + [Title(e)] == [ChildPath(path, name)] + rest;
    SlashedCons(ChildPath(path, name), rest);
    SlashedCons(name, rest);
    match path
    case None =>
      assert [] + ([name] + groups) + [Title(e)] == [name] + rest;
    case Some(q) =>
      assert [q] + ([name] + groups) + [Title(e)] == [q] + ([name] + rest);
      SlashedCons(q, [name] + rest);
  }

  lemma LiftUnder(path: Option<string>, name: string, ls: seq<Located>)
    requires forall i :: 0 <= i < |ls| ==> ls[i].1.password.Some?
    ensures Lift(Some(ChildPath(path, name)), ls) == Lift(path, Under(name, ls))
  {
    forall i | 0 <= i < |ls|
      ensures EntryKey(Some(ChildPath(path, name)), ls[i].0, ls[i].1) == EntryKey(path, [name] + ls[i].0, ls[i].1)
    {
      EntryKeyUnder(path, name, ls[i].0, ls[i].1);
    }
  }

  lemma LiftAppend(prefix: Option<string>, a: seq<Located>, b: seq<Located>)
    requires forall i :: 0 <= i < |a| ==> a[i].1.password.Some?
    requires forall i :: 0 <= i < |b| ==> b[i].1.password.Some?
    ensures Lift(prefix, a + b) == Lift(prefix, a) + Lift(prefix, b)
  {
  }

  /** One subgroup step of the walk, on the reference side. */
  lemma GroupStep(path: Option<string>, front: seq<Located>, name: string, inner: seq<Located>)
    ensures Lift(path, WithPassword(front)) + Lift(Some(ChildPath(path, name)), WithPassword(inner))
         == Lift(path, WithPassword(front + Under(name, inner)))
  {
    WithPasswordAppend(front, Under(name, inner));
    WithPasswordUnder(name, inner);
    LiftUnder(path, name, WithPassword(inner));
    LiftAppend(path, WithPassword(front), Under(name, WithPassword(inner)));
  }

  /** One entry step of the walk, on the reference side. */
  lemma EntryStep(path: Option<string>, front: seq<Located>, e: KdbxEntry)
    ensures Lift(path, WithPassword(front)) +
              (if e.password.Some? then [(ChildPath(path, Title(e)), Imported(e))] else [])
         == Lift(path, WithPassword(front + [([], e)]))
  {
    var last: seq<Located> := [([], e)];
    WithPasswordAppend(front, last);
    assert last[1..] == [];
    if e.password.Some? {
      LiftAppend(path, WithPassword(front), last);
      assert EntryKey(path, [], e) == ChildPath(path, Title(e)) by {
        match path
        case Some(q) =>
          assert [q] + [] + [Title(e)] == [q] + [Title(e)];
          SlashedCons(q, [Title(e)]);
        case None =>
          assert [] + [] + [Title(e)] == [Title(e)];
      }
    } else {
      assert WithPassword(front + last) == WithPassword(front);
    }
  }

  /** The insertions of the walk are exactly the password-bearing entries of
      the tree, in depth-first order, each under its path name and with its
      fields copied. */
  lemma {:induction false} ImportsAreLiftedEntries(g: Group, n: nat, path: Option<string>)
    requires n <= |g.children|
    ensures ImportsUpTo(g, n, path) == Lift(path, WithPassword(AllEntriesUpTo(g, n)))
    decreases g, n
  {
    if n > 0 {
      ImportsAreLiftedEntries(g, n - 1, path);
      var front := AllEntriesUpTo(g, n - 1);
      match g.children[n - 1]
      case GroupNode(sub) =>
        ImportsAreLiftedEntries(sub, |sub.children|, Some(ChildPath(path, sub.name)));
        GroupStep(path, front, sub.name, AllEntriesUpTo(sub, |sub.children|));
      case EntryNode(e) =>
        EntryStep(path, front, e);
    }
  }

  // ---------------------------------------------------------------------
  // Properties of the import.

  function KeysOf(kvs: seq<(string, Entry)>): set<string>
  {
    set i | 0 <= i < |kvs| :: kvs[i].0
  }

  lemma KeysOfCons(kvs: seq<(string, Entry)>)
    requires kvs != []
    ensures KeysOf(kvs) == {kvs[0].0} + KeysOf(kvs[1..])
  {
    forall k | k in KeysOf(kvs) ensures k in {kvs[0].0} + KeysOf(kvs[1..]) {
      var i :| 0 <= i < |kvs| && kvs[i].0 == k;
      if i > 0 { assert kvs[1..][i - 1].0 == k; }
    }
    forall k | k in KeysOf(kvs[1..]) ensures k in KeysOf(kvs) {
      var i :| 0 <= i < |kvs| - 1 && kvs[1..][i].0 == k;
      assert kvs[i + 1].0 == k;
    }
  }

  lemma {:induction false} InsertAllKeys(m: map<string, Entry>, kvs: seq<(string, Entry)>)
    ensures InsertAll(m, kvs).Keys == m.Keys + KeysOf(kvs)
    decreases |kvs|
  {
    if kvs != [] {
      InsertAllKeys(m[kvs[0].0 := kvs[0].1], kvs[1..]);
      KeysOfCons(kvs);
    }
  }

  /** A name no insertion produces keeps its old entry. */
  lemma {:induction false} InsertAllPreserves(m: map<string, Entry>, kvs: seq<(string, Entry)>, k: string)
    requires k in m && k !in KeysOf(kvs)
    ensures k in InsertAll(m, kvs) && InsertAll(m, kvs)[k] == m[k]
    decreases |kvs|
  {
    if kvs != [] {
      KeysOfCons(kvs);
      InsertAllPreserves(m[kvs[0].0 := kvs[0].1], kvs[1..], k);
    }
  }

  /** A name produced several times ends with the entry of its last insertion. */
  lemma {:induction false} InsertAllLastWins(m: map<string, Entry>, kvs: seq<(string, Entry)>, i: nat)
    requires i < |kvs|
    requires forall j :: i < j < |kvs| ==> kvs[j].0 != kvs[i].0
    ensures kvs[i].0 in InsertAll(m, kvs) && InsertAll(m, kvs)[kvs[i].0] == kvs[i].1
    decreases |kvs|
  {
    if i == 0 {
      var m' := m[kvs[0].0 := kvs[0].1];
      forall j | 0 <= j < |kvs| - 1 ensures kvs[1..][j].0 != kvs[0].0 {
        assert kvs[1..][j] == kvs[j + 1];
      }
      InsertAllPreserves(m', kvs[1..], kvs[0].0);
    } else {
      assert forall j :: i - 1 < j < |kvs| - 1 ==> kvs[1..][j] == kvs[j + 1];
      InsertAllLastWins(m[kvs[0].0 := kvs[0].1], kvs[1..], i - 1);
    }
  }

  lemma {:induction false} KeysOfBound(kvs: seq<(string, Entry)>)
    ensures |KeysOf(kvs)| <= |kvs|
    decreases |kvs|
  {
    if kvs != [] {
      KeysOfCons(kvs);
      KeysOfBound(kvs[1..]);
    }
  }

  lemma SubsetCardinality<T>(a: set<T>, b: set<T>)
    requires a <= b
    ensures |a| <= |b|
  {
    assert b == a + (b - a);
  }

  /** The import into an existing map: every name already there and not
      produced by the tree keeps its entry; every produced name maps to the
      fields of the last password-bearing entry that produced it, copied
      verbatim; and no more names are added than there are password-bearing
      entries in the tree. */
  lemma ImportIntoMap(m: map<string, Entry>, g: Group, path: Option<string>)
    ensures var r := InsertAll(m, Imports(g, path));
      var sources := WithPassword(AllEntries(g));
      && r.Keys == m.Keys + KeysOf(Imports(g, path))
      && (forall k :: k in m && k !in KeysOf(Imports(g, path)) ==> k in r && r[k] == m[k])
      && (forall i :: 0 <= i < |sources| && (forall j :: i < j < |sources| ==>
              EntryKey(path, sources[j].0, sources[j].1) != EntryKey(path, sources[i].0, sources[i].1)) ==>
            var k := EntryKey(path, sources[i].0, sources[i].1);
            k in r && r[k].password == sources[i].1.password.value
            && r[k].username == sources[i].1.username && r[k].url == sources[i].1.url)
      && |r.Keys - m.Keys| <= |sources|
  {
    var kvs := Imports(g, path);
    var sources := WithPassword(AllEntries(g));
    var r := InsertAll(m, kvs);
    ImportsAreLiftedEntries(g, |g.children|, path);
    InsertAllKeys(m, kvs);
    forall k | k in m && k !in KeysOf(kvs) ensures k in r && r[k] == m[k] {
      InsertAllPreserves(m, kvs, k);
    }
    forall i | 0 <= i < |sources| && (forall j :: i < j < |sources| ==>
              EntryKey(path, sources[j].0, sources[j].1) != EntryKey(path, sources[i].0, sources[i].1))
      ensures var k := EntryKey(path, sources[i].0, sources[i].1);
            k in r && r[k].password == sources[i].1.password.value
            && r[k].username == sources[i].1.username && r[k].url == sources[i].1.url
    {
      InsertAllLastWins(m, kvs, i);
    }
    KeysOfBound(kvs);
    SubsetCardinality(r.Keys - m.Keys, KeysOf(kvs));
  }

  /** With a prefix, every imported name starts with the prefix and a "/". */
  lemma PrefixLeads(prefix: string, g: Group)
    ensures forall k :: k in KeysOf(Imports(g, Some(prefix))) ==>
      |k| > |prefix| && k[..|prefix| + 1] == prefix + "/"
  {
    ImportsAreLiftedEntries(g, |g.children|, Some(prefix));
    var kvs := Imports(g, Some(prefix));
    var sources := WithPassword(AllEntries(g));
    forall k | k in KeysOf(kvs) ensures |k| > |prefix| && k[..|prefix| + 1] == prefix + "/" {
      var i :| 0 <= i < |kvs| && kvs[i].0 == k;
      var parts := [prefix] + sources[i].0 + [Title(sources[i].1)];
      assert k == Slashed(parts);
      assert parts[1..] == sources[i].0 + [Title(sources[i].1)];
      assert k == prefix + "/" + Slashed(parts[1..]);
    }
  }

  /** Every password-bearing entry directly in the visited group is imported
      under its path name, with its fields copied. */
  lemma EntryImported(g: Group, i: nat, e: KdbxEntry, path: Option<string>)
    requires i < |g.children| && g.children[i] == EntryNode(e) && e.password.Some?
    ensures (ChildPath(path, Title(e)), Imported(e)) in Imports(g, path)
  {
    var front := ImportsUpTo(g, i, path);
    assert ImportsUpTo(g, i + 1, path) == front + [(ChildPath(path, Title(e)), Imported(e))];
    ImportsUpToGrows(g, i + 1, |g.children|, path);
    assert Imports(g, path)[|front|] == ImportsUpTo(g, i + 1, path)[|front|];
  }

  /** Visiting more children only appends insertions. */
  lemma {:induction false} ImportsUpToGrows(g: Group, m: nat, n: nat, path: Option<string>)
    requires m <= n <= |g.children|
    ensures ImportsUpTo(g, m, path) <= ImportsUpTo(g, n, path)
    decreases n
  {
    if m < n {
      ImportsUpToGrows(g, m, n - 1, path);
      var shorter := ImportsUpTo(g, n - 1, path);
      assert shorter <= ImportsUpTo(g, n, path);
    }
  }

  /** Without a prefix, an entry directly under the root is named by its
      title alone, and one without a title by its uuid. */
  lemma RootEntryName(root: Group, i: nat, e: KdbxEntry)
    requires i < |root.children| && root.children[i] == EntryNode(e) && e.password.Some?
    ensures (Title(e), Imported(e)) in Imports(root, None)
    ensures e.title.None? ==> (e.uuid, Imported(e)) in Imports(root, None)
  {
    EntryImported(root, i, e, None);
  }

  /** A group's insertions depend only on the children visited so far. */
  lemma {:induction false} ImportsUpToSameChildren(g: Group, h: Group, k: nat, path: Option<string>)
    requires k <= |g.children| && k <= |h.children| && g.children[..k] == h.children[..k]
    ensures ImportsUpTo(g, k, path) == ImportsUpTo(h, k, path)
    decreases k
  {
    if k > 0 {
      assert g.children[k - 1] == g.children[..k][k - 1] == h.children[k - 1];
      assert g.children[..k - 1] == g.children[..k][..k - 1];
      assert h.children[..k - 1] == h.children[..k][..k - 1];
      ImportsUpToSameChildren(g, h, k - 1, path);
    }
  }

  /** An entry without a password adds nothing: a group ending in one imports
      as the group without it, into any map. */
  lemma PasswordlessSkipped(name: string, children: seq<Node>, e: KdbxEntry, path: Option<string>, m: map<string, Entry>)
    requires e.password.None?
    ensures Imports(Group(name, children + [EntryNode(e)]), path) == Imports(Group(name, children), path)
    ensures InsertAll(m, Imports(Group(name, children + [EntryNode(e)]), path)) == InsertAll(m, Imports(Group(name, children), path))
  {
    var g, h := Group(name, children + [EntryNode(e)]), Group(name, children);
    assert g.children[..|children|] == h.children[..|children|];
    ImportsUpToSameChildren(g, h, |children|, path);
  }

  /** The tree of one group "Group" holding two entries A and B, each with a
      title, user name, password and URL, imports as "Group/title_A" and
      "Group/title_B" with those fields. */
  lemma TwoEntriesInOneGroup()
    ensures var a := KdbxEntry("a", Some("title_A"), Some("password_A"), Some("username_A"), Some("url_A"));
      var b := KdbxEntry("b", Some("title_B"), Some("password_B"), Some("username_B"), Some("url_B"));
      var root := Group("Root", [GroupNode(Group("Group", [EntryNode(a), EntryNode(b)]))]);
      var r := InsertAll(map[], Imports(root, None));
      && "Group/title_A" in r && r["Group/title_A"] == Entry("password_A", Some("username_A"), Some("url_A"))
      && "Group/title_B" in r && r["Group/title_B"] == Entry("password_B", Some("username_B"), Some("url_B"))
  {
    var a := KdbxEntry("a", Some("title_A"), Some("password_A"), Some("username_A"), Some("url_A"));
    var b := KdbxEntry("b", Some("title_B"), Some("password_B"), Some("username_B"), Some("url_B"));
    var group := Group("Group", [EntryNode(a), EntryNode(b)]);
    var root := Group("Root", [GroupNode(group)]);
    assert ChildPath(Some("Group"), Title(a)) == "Group/title_A";
    assert ChildPath(Some("Group"), Title(b)) == "Group/title_B";
    assert ImportsUpTo(group, 0, Some("Group")) == [];
    assert ImportsUpTo(group, 1, Some("Group")) == [("Group/title_A", Imported(a))];
    assert ImportsUpTo(group, 2, Some("Group")) == [("Group/title_A", Imported(a)), ("Group/title_B", Imported(b))];
    assert ImportsUpTo(root, 0, None) == [];
    var kvs := Imports(root, None);
    assert kvs == [("Group/title_A", Imported(a)), ("Group/title_B", Imported(b))];
    var m1 := map[]["Group/title_A" := Imported(a)];
    assert InsertAll(map[], kvs) == InsertAll(m1, kvs[1..]);
    assert kvs[1..][1..] == [];
    assert InsertAll(m1, kvs[1..]) == InsertAll(m1["Group/title_B" := Imported(b)], []);
  }
}
