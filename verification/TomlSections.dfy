/** The TOML renderer of lib/provider_profiles/codex_home_config.py: a nested payload becomes a list of
    sections, each a header with the assignments below it.  Scalar values are texts. */
module TomlSections {
  import opened Wrappers
  import opened JsonText
  import TextLines
  import TomlLine

  /** A payload value: a missing one, a scalar or array, or a table with its entries in order. */
  datatype Value = Missing | Scalar(text: string) | Table(entries: Entries)

  type Entries = seq<Entry>

  datatype Entry = Entry(key: string, value: Value)

  /** Dictionaries have each key once. */
  ghost predicate Distinct(es: Entries) {
    forall i, j :: 0 <= i < j < |es| ==> es[i].key != es[j].key
  }

  ghost predicate WellFormed(es: Entries) {
    Distinct(es) && forall i :: 0 <= i < |es| && es[i].value.Table? ==> WellFormed(es[i].value.entries)
  }

  datatype Assignment = Assignment(key: string, text: string)

  /** A section; the empty path is the part of the document before the first header. */
  datatype Section = Section(path: seq<string>, assignments: seq<Assignment>)

  // ----- rendering --------------------------------------------------------------------------

  function Scalars(es: Entries): seq<Assignment> {
    if es == [] then []
    else Scalars(es[..|es| - 1])
         + (if es[|es| - 1].value.Scalar? then [Assignment(es[|es| - 1].key, es[|es| - 1].value.text)] else [])
  }

  predicate HasTable(es: Entries) { exists i :: 0 <= i < |es| && es[i].value.Table? }

  /** The section of a table itself: its header is left out when a sub-table's header implies it. */
  function OwnSection(es: Entries, path: seq<string>): seq<Section> {
    if Scalars(es) != [] then [Section(path, Scalars(es))]
    else if path != [] && !HasTable(es) then [Section(path, [])]
    else []
  }

  function Render(es: Entries, path: seq<string>): seq<Section>
    decreases es, 1
  {
    OwnSection(es, path) + RenderTables(es, path)
  }

  function RenderTables(es: Entries, path: seq<string>): seq<Section>
    decreases es, 0
  {
    if es == [] then []
    else
      RenderTables(es[..|es| - 1], path)
      + (if es[|es| - 1].value.Table? then Render(es[|es| - 1].value.entries, path + [es[|es| - 1].key]) else [])
  }

  /** Where the tables among the first `n` entries are. */
  function TablePlaces(es: Entries, n: nat): seq<nat>
    requires n <= |es|
  {
    if n == 0 then []
    else TablePlaces(es, n - 1) + (if es[n - 1].value.Table? then [n - 1] else [])
  }

  ghost predicate Places(es: Entries, tables: seq<nat>) {
    forall n :: 0 <= n < |tables| ==> tables[n] < |es| && es[tables[n]].value.Table?
  }

  lemma {:induction false} TablePlacesAreTables(es: Entries, n: nat)
    requires n <= |es|
    ensures Places(es, TablePlaces(es, n))
    ensures TablePlaces(es, n) != [] <==> exists i :: 0 <= i < n && es[i].value.Table?
  {
    if n > 0 {
      TablePlacesAreTables(es, n - 1);
    }
  }

  /** The scan over the entries: the scalars, and where the tables are. */
  method SplitEntries(es: Entries) returns (scalars: seq<Assignment>, tables: seq<nat>)
    ensures scalars == Scalars(es)
    ensures tables == TablePlaces(es, |es|)
  {
    scalars, tables := [], [];
    for i := 0 to |es|
      invariant scalars == Scalars(es[..i])
      invariant tables == TablePlaces(es, i)
    {
      assert es[..i + 1][..i] == es[..i];
      match es[i].value {
        case Missing =>
        case Scalar(text) => scalars := scalars + [Assignment(es[i].key, text)];
        case Table(_) => tables := tables + [i];
      }
    }
    assert es[..|es|] == es;
  }

  /** The sections of the tables at the given places. */
  ghost function TablesAt(es: Entries, tables: seq<nat>, path: seq<string>): seq<Section>
    requires Places(es, tables)
  {
    if tables == [] then []
    else
      var t := tables[|tables| - 1];
      TablesAt(es, tables[..|tables| - 1], path) + Render(es[t].value.entries, path + [es[t].key])
  }

  lemma TablesAtNext(es: Entries, before: seq<nat>, t: nat, path: seq<string>)
    requires t < |es| && es[t].value.Table? && Places(es, before)
    ensures TablesAt(es, before + [t], path) == TablesAt(es, before, path) + Render(es[t].value.entries, path + [es[t].key])
  {
    assert (before + [t])[..|before|] == before;
  }

  lemma RenderTablesNext(es: Entries, n: nat, path: seq<string>)
    requires n < |es|
    ensures RenderTables(es[..n + 1], path)
         == RenderTables(es[..n], path) + if es[n].value.Table? then Render(es[n].value.entries, path + [es[n].key]) else []
  {
    assert es[..n + 1][..n] == es[..n];
  }

  lemma {:induction false} TablesAtPlaces(es: Entries, n: nat, path: seq<string>)
    requires n <= |es| && Places(es, TablePlaces(es, n))
    ensures TablesAt(es, TablePlaces(es, n), path) == RenderTables(es[..n], path)
  {
    if n > 0 {
      TablePlacesAreTables(es, n - 1);
      TablesAtPlaces(es, n - 1, path);
      RenderTablesNext(es, n - 1, path);
      if es[n - 1].value.Table? {
        TablesAtNext(es, TablePlaces(es, n - 1), n - 1, path);
      } else {
        assert TablePlaces(es, n) == TablePlaces(es, n - 1);
      }
    }
  }

  lemma AllTablePlaces(es: Entries, tables: seq<nat>, path: seq<string>)
    requires tables == TablePlaces(es, |es|)
    ensures Places(es, tables) && (tables != [] <==> HasTable(es))
    ensures TablesAt(es, tables, path) == RenderTables(es, path)
  {
    TablePlacesAreTables(es, |es|);
    TablesAtPlaces(es, |es|, path);
    assert es[..|es|] == es;
  }

  method RenderSections(es: Entries, path: seq<string>) returns (sections: seq<Section>)
    ensures sections == Render(es, path)
    decreases es, 1
  {
    var scalars, tables := SplitEntries(es);
    AllTablePlaces(es, tables, path);
    sections := [];
    if path != [] {
      if scalars != [] {
        sections := [Section(path, scalars)];
      } else if tables == [] {
        sections := [Section(path, [])];
      }
    } else if scalars != [] {
      sections := [Section([], scalars)];
    }
    var children := RenderChildren(es, tables, path);
    sections := sections + children;
  }

  method RenderChildren(es: Entries, tables: seq<nat>, path: seq<string>) returns (sections: seq<Section>)
    requires Places(es, tables)
    ensures sections == TablesAt(es, tables, path)
    decreases es, 0
  {
    sections := [];
    for n := 0 to |tables|
      invariant sections == TablesAt(es, tables[..n], path)
    {
      assert tables[..n + 1][..n] == tables[..n];
      var e := es[tables[n]];
      var child := RenderSections(e.value.entries, path + [e.key]);
      sections := sections + child;
    }
    assert tables[..|tables|] == tables;
  }

  // ----- reading sections back -----------------------------------------------------------------

  /** A document tree. */
  datatype Tree = Leaf(text: string) | Node(entries: map<string, Tree>)

  type Doc = map<string, Tree>

  /** Adding assignments; defining a key twice is an error. */
  function AddAll(d: Doc, assignments: seq<Assignment>): Option<Doc> {
    if assignments == [] then Some(d)
    else
      match AddAll(d, assignments[..|assignments| - 1])
      case None => None
      case Some(m) =>
        var a := assignments[|assignments| - 1];
        if a.key in m then None else Some(m[a.key := Leaf(a.text)])
  }

  /** A header opens the table at its path, creating tables on the way; a scalar in the way is an error. */
  function AddSection(d: Doc, s: Section): Option<Doc>
    decreases |s.path|
  {
    if s.path == [] then AddAll(d, s.assignments)
    else
      var k := s.path[0];
      if k in d && d[k].Leaf? then None
      else
        match AddSection(if k in d then d[k].entries else map[], Section(s.path[1..], s.assignments))
        case None => None
        case Some(child) => Some(d[k := Node(child)])
  }

  function Build(d: Doc, sections: seq<Section>): Option<Doc> {
    if sections == [] then Some(d)
    else
      match Build(d, sections[..|sections| - 1])
      case None => None
      case Some(m) => AddSection(m, sections[|sections| - 1])
  }

  /** The payload without its missing entries. */
  function Clean(es: Entries): Doc {
    if es == [] then map[]
    else
      var d, k, v := Clean(es[..|es| - 1]), es[|es| - 1].key, es[|es| - 1].value;
      match v
      case Missing => d
      case Scalar(text) => d[k := Leaf(text)]
      case Table(child) => d[k := Node(Clean(child))]
  }

  // ----- sections below a key --------------------------------------------------------------------

  function Under(k: string, ss: seq<Section>): seq<Section> {
    seq(|ss|, i requires 0 <= i < |ss| => Section([k] + ss[i].path, ss[i].assignments))
  }

  function UnderPath(p: seq<string>, ss: seq<Section>): seq<Section> {
    seq(|ss|, i requires 0 <= i < |ss| => Section(p + ss[i].path, ss[i].assignments))
  }

  /** A table that is not the document itself, seen from itself. */
  function Relative(es: Entries): seq<Section>
    decreases es, 1
  {
    RelativeOwn(es) + RelativeTables(es)
  }

  function RelativeOwn(es: Entries): seq<Section> {
    if Scalars(es) != [] || !HasTable(es) then [Section([], Scalars(es))] else []
  }

  function RelativeTables(es: Entries): seq<Section>
    decreases es, 0
  {
    if es == [] then []
    else
      RelativeTables(es[..|es| - 1])
      + (if es[|es| - 1].value.Table? then Under(es[|es| - 1].key, Relative(es[|es| - 1].value.entries)) else [])
  }

  lemma UnderPathConcat(p: seq<string>, a: seq<Section>, b: seq<Section>)
    ensures UnderPath(p, a + b) == UnderPath(p, a) + UnderPath(p, b)
  {
  }

  lemma UnderPathNested(p: seq<string>, k: string, ss: seq<Section>)
    ensures UnderPath(p + [k], ss) == UnderPath(p, Under(k, ss))
  {
    assert forall i :: 0 <= i < |ss| ==> (p + [k]) + ss[i].path == p + ([k] + ss[i].path);
  }

  lemma {:induction false} RenderIsRelative(es: Entries, path: seq<string>)
    requires path != []
    ensures Render(es, path) == UnderPath(path, Relative(es))
    decreases es, 1
  {
    TablesAreRelative(es, path);
    var own := RelativeOwn(es);
    UnderPathConcat(path, own, RelativeTables(es));
    assert path + [] == path;
    assert UnderPath(path, own) == OwnSection(es, path);
  }

  lemma {:induction false} TablesAreRelative(es: Entries, path: seq<string>)
    ensures RenderTables(es, path) == UnderPath(path, RelativeTables(es))
    decreases es, 0
  {
    if es != [] {
      var init, k, v := es[..|es| - 1], es[|es| - 1].key, es[|es| - 1].value;
      TablesAreRelative(init, path);
      if v.Table? {
        RenderIsRelative(v.entries, path + [k]);
        UnderPathNested(path, k, Relative(v.entries));
        UnderPathConcat(path, RelativeTables(init), Under(k, Relative(v.entries)));
      } else {
        assert RelativeTables(es) == RelativeTables(init);
        assert RenderTables(es, path) == RenderTables(init, path);
      }
    }
  }

  lemma {:induction false} RelativeNonEmpty(es: Entries)
    ensures Relative(es) != []
    decreases es, 1
  {
    if HasTable(es) {
      TablesNonEmpty(es);
    }
  }

  lemma {:induction false} TablesNonEmpty(es: Entries)
    requires HasTable(es)
    ensures RelativeTables(es) != []
    decreases es, 0
  {
    var init := es[..|es| - 1];
    var k, v := es[|es| - 1].key, es[|es| - 1].value;
    if v.Table? {
      RelativeNonEmpty(v.entries);
      assert |Under(k, Relative(v.entries))| == |Relative(v.entries)|;
    } else {
      var i :| 0 <= i < |es| && es[i].value.Table?;
      assert init[i].value.Table?;
      TablesNonEmpty(init);
    }
  }

  // ----- building ------------------------------------------------------------------------------------

  lemma {:induction false} BuildConcat(d: Doc, a: seq<Section>, b: seq<Section>)
    ensures Build(d, a + b) == match Build(d, a) case None => None case Some(m) => Build(m, b)
    decreases |b|
  {
    if b == [] {
      assert a + b == a;
    } else {
      assert (a + b)[..|a + b| - 1] == a + b[..|b| - 1];
      BuildConcat(d, a, b[..|b| - 1]);
    }
  }

  /** Sections below a fresh key build a table of their own there. */
  lemma {:induction false} BuildUnder(d: Doc, k: string, ss: seq<Section>)
    requires k !in d && ss != [] && Build(map[], ss).Some?
    ensures Build(d, Under(k, ss)) == Some(d[k := Node(Build(map[], ss).value)])
    decreases |ss|
  {
    var init, last := ss[..|ss| - 1], ss[|ss| - 1];
    var under := Under(k, ss);
    assert under[..|ss| - 1] == Under(k, init);
    assert under[|ss| - 1] == Section([k] + last.path, last.assignments);
    assert ([k] + last.path)[1..] == last.path;
    if init == [] {
      assert Build(d, Under(k, init)) == Some(d);
    } else {
      BuildUnder(d, k, init);
      var m := d[k := Node(Build(map[], init).value)];
      var n := Build(map[], ss).value;
      assert AddSection(m, under[|ss| - 1]) == Some(m[k := Node(n)]);
      assert m[k := Node(n)] == d[k := Node(n)];
    }
  }

  /** Only the scalars of the payload. */
  function CleanScalars(es: Entries): Doc {
    if es == [] then map[]
    else if es[|es| - 1].value.Scalar? then CleanScalars(es[..|es| - 1])[es[|es| - 1].key := Leaf(es[|es| - 1].value.text)]
    else CleanScalars(es[..|es| - 1])
  }

  /** Only the tables of the payload, on top of `d`. */
  function CleanTables(d: Doc, es: Entries): Doc {
    if es == [] then d
    else if es[|es| - 1].value.Table? then CleanTables(d, es[..|es| - 1])[es[|es| - 1].key := Node(Clean(es[|es| - 1].value.entries))]
    else CleanTables(d, es[..|es| - 1])
  }

  /** `k` is the key of an entry of the given kind. */
  ghost predicate HasKey(es: Entries, k: string, table: bool) {
    exists i :: 0 <= i < |es| && es[i].key == k && (if table then es[i].value.Table? else es[i].value.Scalar?)
  }

  lemma HasKeyInit(es: Entries, k: string, table: bool)
    requires es != []
    ensures HasKey(es[..|es| - 1], k, table) ==> HasKey(es, k, table)
    ensures Distinct(es) ==> !HasKey(es[..|es| - 1], es[|es| - 1].key, table)
  {
    var init := es[..|es| - 1];
    assert forall i :: 0 <= i < |init| ==> init[i] == es[i];
    if HasKey(init, k, table) {
      var i :| 0 <= i < |init| && init[i].key == k && (if table then init[i].value.Table? else init[i].value.Scalar?);
      assert es[i].key == k;
    }
  }

  lemma {:induction false} ScalarKeys(es: Entries, k: string)
    requires k in CleanScalars(es)
    ensures HasKey(es, k, false)
  {
    var last := es[|es| - 1];
    if last.value.Scalar? && last.key == k {
      assert es[|es| - 1].key == k;
    } else {
      ScalarKeys(es[..|es| - 1], k);
      HasKeyInit(es, k, false);
    }
  }

  lemma {:induction false} TableKeys(d: Doc, es: Entries, k: string)
    requires k in CleanTables(d, es)
    ensures k in d || HasKey(es, k, true)
  {
    if es != [] {
      var last := es[|es| - 1];
      if last.value.Table? && last.key == k {
        assert es[|es| - 1].key == k;
      } else {
        TableKeys(d, es[..|es| - 1], k);
        HasKeyInit(es, k, true);
      }
    }
  }

  lemma {:induction false} ScalarsBuild(es: Entries)
    requires Distinct(es)
    ensures AddAll(map[], Scalars(es)) == Some(CleanScalars(es))
  {
    if es != [] {
      var init, last := es[..|es| - 1], es[|es| - 1];
      ScalarsBuild(init);
      if last.value.Scalar? {
        var a := Assignment(last.key, last.value.text);
        assert (Scalars(init) + [a])[..|Scalars(init)|] == Scalars(init);
        HasKeyInit(es, last.key, false);
        if last.key in CleanScalars(init) {
          ScalarKeys(init, last.key);
        }
        assert Scalars(es) == Scalars(init) + [a];
      } else {
        assert Scalars(es) == Scalars(init);
      }
    }
  }

  lemma {:induction false} TablesBuild(d: Doc, es: Entries)
    requires WellFormed(es) && forall k :: k in d ==> !HasKey(es, k, true)
    ensures Build(d, RelativeTables(es)) == Some(CleanTables(d, es))
    decreases es, 0
  {
    if es != [] {
      var init := es[..|es| - 1];
      var k, v := es[|es| - 1].key, es[|es| - 1].value;
      forall x | x in d ensures !HasKey(init, x, true) {
        HasKeyInit(es, x, true);
      }
      TablesBuild(d, init);
      if v.Table? {
        var before := CleanTables(d, init);
        assert HasKey(es, k, true);
        HasKeyInit(es, k, true);
        if k in before {
          TableKeys(d, init, k);
        }
        RelativeBuilds(v.entries);
        RelativeNonEmpty(v.entries);
        BuildUnder(before, k, Relative(v.entries));
        BuildConcat(d, RelativeTables(init), Under(k, Relative(v.entries)));
      } else {
        assert RelativeTables(es) == RelativeTables(init);
      }
    }
  }

  lemma NoScalars(es: Entries)
    requires Scalars(es) == []
    ensures CleanScalars(es) == map[]
  {
  }

  lemma OwnSectionBuilds(es: Entries, own: seq<Section>)
    requires Distinct(es) && (own == [Section([], Scalars(es))] || (own == [] && Scalars(es) == []))
    ensures Build(map[], own) == Some(CleanScalars(es))
  {
    ScalarsBuild(es);
    if own == [] {
      NoScalars(es);
    } else {
      assert own[..0] == [];
    }
  }

  lemma ScalarsAreNoTables(es: Entries, k: string)
    requires Distinct(es) && k in CleanScalars(es)
    ensures !HasKey(es, k, true)
  {
    ScalarKeys(es, k);
  }

  lemma {:induction false} RelativeBuilds(es: Entries)
    requires WellFormed(es)
    ensures Build(map[], Relative(es)) == Some(Clean(es))
    decreases es, 1
  {
    var own := RelativeOwn(es);
    OwnSectionBuilds(es, own);
    forall k | k in CleanScalars(es) ensures !HasKey(es, k, true) {
      ScalarsAreNoTables(es, k);
    }
    TablesBuild(CleanScalars(es), es);
    BuildConcat(map[], own, RelativeTables(es));
    CleanInTwoParts(es);
  }

  lemma {:induction false} TablesCommute(d: Doc, es: Entries, k: string, t: Tree)
    requires !HasKey(es, k, true)
    ensures CleanTables(d[k := t], es) == CleanTables(d, es)[k := t]
  {
    if es != [] {
      HasKeyInit(es, k, true);
      TablesCommute(d, es[..|es| - 1], k, t);
      var last := es[|es| - 1];
      assert last.value.Table? ==> last.key != k;
    }
  }

  /** Scalars first and tables after them is the same table, since keys are distinct. */
  lemma {:induction false} CleanInTwoParts(es: Entries)
    requires Distinct(es)
    ensures CleanTables(CleanScalars(es), es) == Clean(es)
  {
    if es != [] {
      var init, last := es[..|es| - 1], es[|es| - 1];
      CleanInTwoParts(init);
      if last.value.Scalar? {
        HasKeyInit(es, last.key, true);
        TablesCommute(CleanScalars(init), init, last.key, Leaf(last.value.text));
      }
    }
  }

  /** Reading back the rendered document gives the payload without its missing entries. */
  lemma RenderRoundTrip(es: Entries)
    requires WellFormed(es)
    ensures Build(map[], Render(es, [])) == Some(Clean(es))
  {
    var own := OwnSection(es, []);
    OwnSectionBuilds(es, own);
    TablesAreRelative(es, []);
    UnderNothing(RelativeTables(es));
    forall k | k in CleanScalars(es) ensures !HasKey(es, k, true) {
      ScalarsAreNoTables(es, k);
    }
    TablesBuild(CleanScalars(es), es);
    BuildConcat(map[], own, RelativeTables(es));
    CleanInTwoParts(es);
  }

  lemma UnderNothing(ss: seq<Section>)
    ensures UnderPath([], ss) == ss
  {
    assert forall i :: 0 <= i < |ss| ==> [] + ss[i].path == ss[i].path;
  }

  // ----- the shape of the document ------------------------------------------------------------------

  /** Every header once, and nothing before the first header except a first part without one. */
  ghost predicate Shaped(ss: seq<Section>) {
    && PathsDiffer(ss)
    && (forall i :: 0 < i < |ss| ==> ss[i].path != [])
  }

  /** The paths of the sub-table sections start with the keys of tables. */
  lemma {:induction false} TablePaths(es: Entries, i: nat)
    requires i < |RelativeTables(es)|
    ensures RelativeTables(es)[i].path != [] && HasKey(es, RelativeTables(es)[i].path[0], true)
  {
    var init := es[..|es| - 1];
    var k, v := es[|es| - 1].key, es[|es| - 1].value;
    if i < |RelativeTables(init)| {
      TablePaths(init, i);
      HasKeyInit(es, RelativeTables(init)[i].path[0], true);
    } else {
      assert es[|es| - 1].key == k;
    }
  }

  lemma {:induction false} RelativeShaped(es: Entries)
    requires WellFormed(es)
    ensures Shaped(Relative(es))
    decreases es, 1
  {
    TablesShaped(es);
    forall i: nat | i < |RelativeTables(es)| ensures RelativeTables(es)[i].path != [] {
      TablePaths(es, i);
    }
  }

  ghost predicate PathsDiffer(ss: seq<Section>) {
    forall i, j :: 0 <= i < j < |ss| ==> ss[i].path != ss[j].path
  }

  /** Sections below a key no earlier path starts with. */
  lemma UnderDiffers(before: seq<Section>, k: string, ss: seq<Section>)
    requires PathsDiffer(before) && PathsDiffer(ss)
    requires forall i :: 0 <= i < |before| ==> before[i].path != [] && before[i].path[0] != k
    ensures PathsDiffer(before + Under(k, ss))
  {
    var under := Under(k, ss);
    assert forall i :: 0 <= i < |ss| ==> under[i].path[0] == k && under[i].path[1..] == ss[i].path;
  }

  lemma {:induction false} TablesShaped(es: Entries)
    requires WellFormed(es)
    ensures PathsDiffer(RelativeTables(es))
    decreases es, 0
  {
    if es != [] {
      var init, k, v := es[..|es| - 1], es[|es| - 1].key, es[|es| - 1].value;
      TablesShaped(init);
      if v.Table? {
        RelativeShaped(v.entries);
        HasKeyInit(es, k, true);
        var before := RelativeTables(init);
        forall i: nat | i < |before| ensures before[i].path != [] && before[i].path[0] != k {
          TablePaths(init, i);
        }
        UnderDiffers(before, k, Relative(v.entries));
      } else {
        assert RelativeTables(es) == RelativeTables(init);
      }
    }
  }

  /** No header is repeated and no assignment of the document itself follows a header. */
  lemma RenderIsShaped(es: Entries)
    requires WellFormed(es)
    ensures Shaped(Render(es, []))
  {
    TablesAreRelative(es, []);
    UnderNothing(RelativeTables(es));
    TablesShaped(es);
    forall i: nat | i < |RelativeTables(es)| ensures RelativeTables(es)[i].path != [] {
      TablePaths(es, i);
    }
  }

  // ----- which sections there are, and in which order ----------------------------------------------------

  /** `t` is the table at `path` below `es`. */
  ghost predicate IsTable(es: Entries, path: seq<string>, t: Entries)
    decreases |path|
  {
    if path == [] then t == es
    else exists i :: 0 <= i < |es| && es[i].key == path[0] && es[i].value.Table? && IsTable(es[i].value.entries, path[1..], t)
  }

  /** A table has a section of its own if it holds an assignment or no table. */
  predicate Shown(t: Entries) { Scalars(t) != [] || !HasTable(t) }

  ghost predicate Occurs(ss: seq<Section>, path: seq<string>, assignments: seq<Assignment>) {
    exists i :: 0 <= i < |ss| && ss[i] == Section(path, assignments)
  }

  lemma OccursConcat(a: seq<Section>, b: seq<Section>, path: seq<string>, assignments: seq<Assignment>)
    ensures Occurs(a + b, path, assignments) <==> Occurs(a, path, assignments) || Occurs(b, path, assignments)
  {
    if i :| 0 <= i < |a| && a[i] == Section(path, assignments) {
      assert (a + b)[i] == a[i];
    }
    if i :| 0 <= i < |b| && b[i] == Section(path, assignments) {
      assert (a + b)[|a| + i] == b[i];
    }
  }

  lemma OccursUnder(k: string, ss: seq<Section>, path: seq<string>, assignments: seq<Assignment>)
    ensures Occurs(Under(k, ss), path, assignments) <==> path != [] && path[0] == k && Occurs(ss, path[1..], assignments)
  {
    var under := Under(k, ss);
    if i :| 0 <= i < |under| && under[i] == Section(path, assignments) {
      assert path == [k] + ss[i].path && path[1..] == ss[i].path;
    }
    if path != [] && path[0] == k {
      if i :| 0 <= i < |ss| && ss[i] == Section(path[1..], assignments) {
        assert [k] + path[1..] == path;
        assert under[i] == Section(path, assignments);
      }
    }
  }

  ghost predicate OccursBelow(es: Entries, path: seq<string>, assignments: seq<Assignment>) {
    path != [] && exists i :: 0 <= i < |es| && es[i].key == path[0] && es[i].value.Table?
                              && Occurs(Relative(es[i].value.entries), path[1..], assignments)
  }

  lemma BelowLast(init: Entries, last: Entry, path: seq<string>, assignments: seq<Assignment>)
    ensures OccursBelow(init + [last], path, assignments)
       <==> OccursBelow(init, path, assignments)
            || (path != [] && last.key == path[0] && last.value.Table? && Occurs(Relative(last.value.entries), path[1..], assignments))
  {
    var es := init + [last];
    assert es[|init|] == last && forall i :: 0 <= i < |init| ==> es[i] == init[i];
  }

  lemma {:induction false} TablesOccur(es: Entries, path: seq<string>, assignments: seq<Assignment>)
    ensures Occurs(RelativeTables(es), path, assignments) <==> OccursBelow(es, path, assignments)
  {
    if es != [] {
      var init, last := es[..|es| - 1], es[|es| - 1];
      assert es == init + [last];
      TablesOccur(init, path, assignments);
      BelowLast(init, last, path, assignments);
      if last.value.Table? {
        OccursConcat(RelativeTables(init), Under(last.key, Relative(last.value.entries)), path, assignments);
        OccursUnder(last.key, Relative(last.value.entries), path, assignments);
      } else {
        assert RelativeTables(es) == RelativeTables(init);
      }
    }
  }

  /** What a section at `path` must be. */
  ghost predicate Wanted(es: Entries, path: seq<string>, assignments: seq<Assignment>) {
    exists t :: IsTable(es, path, t) && Shown(t) && assignments == Scalars(t)
  }

  lemma {:induction false} RelativeOccurs(es: Entries, path: seq<string>, assignments: seq<Assignment>)
    ensures Occurs(Relative(es), path, assignments) <==> Wanted(es, path, assignments)
    decreases |path|
  {
    OccursConcat(RelativeOwn(es), RelativeTables(es), path, assignments);
    TablesOccur(es, path, assignments);
    if path == [] {
      assert IsTable(es, path, es);
      assert Occurs(RelativeOwn(es), path, assignments) <==> Shown(es) && assignments == Scalars(es) by {
        if Shown(es) {
          assert RelativeOwn(es)[0] == Section([], Scalars(es));
        }
      }
    } else {
      assert !Occurs(RelativeOwn(es), path, assignments);
      WantedBelow(es, path, assignments);
    }
  }

  lemma WantedBelow(es: Entries, path: seq<string>, assignments: seq<Assignment>)
    requires path != []
    ensures OccursBelow(es, path, assignments) <==> Wanted(es, path, assignments)
    decreases |path|, 0
  {
    if i :| 0 <= i < |es| && es[i].key == path[0] && es[i].value.Table?
            && Occurs(Relative(es[i].value.entries), path[1..], assignments)
    {
      RelativeOccurs(es[i].value.entries, path[1..], assignments);
      var t :| IsTable(es[i].value.entries, path[1..], t) && Shown(t) && assignments == Scalars(t);
      assert IsTable(es, path, t);
    }
    if t :| IsTable(es, path, t) && Shown(t) && assignments == Scalars(t) {
      var i :| 0 <= i < |es| && es[i].key == path[0] && es[i].value.Table? && IsTable(es[i].value.entries, path[1..], t);
      RelativeOccurs(es[i].value.entries, path[1..], assignments);
    }
  }

  /** The document has a section with a header for exactly those tables that hold an assignment or no table, with
      exactly their assignments, and a part without a header for the assignments of the document itself. */
  lemma SectionsExactly(es: Entries, path: seq<string>, assignments: seq<Assignment>)
    ensures Occurs(Render(es, []), path, assignments)
       <==> if path == [] then Scalars(es) != [] && assignments == Scalars(es) else Wanted(es, path, assignments)
  {
    TablesAreRelative(es, []);
    UnderNothing(RelativeTables(es));
    var own := OwnSection(es, []);
    OccursConcat(own, RelativeTables(es), path, assignments);
    TablesOccur(es, path, assignments);
    if path == [] {
      if Scalars(es) != [] {
        assert own[0] == Section([], Scalars(es));
      }
    } else {
      WantedBelow(es, path, assignments);
    }
  }

  /** Assignments and tables come in the order of the payload. */
  lemma {:induction false} InOrder(a: Entries, b: Entries, path: seq<string>)
    ensures Scalars(a + b) == Scalars(a) + Scalars(b)
    ensures RenderTables(a + b, path) == RenderTables(a, path) + RenderTables(b, path)
    decreases |b|
  {
    if b == [] {
      assert a + b == a;
    } else {
      assert (a + b)[..|a + b| - 1] == a + b[..|b| - 1];
      InOrder(a, b[..|b| - 1], path);
    }
  }

  lemma OneEntry(e: Entry, path: seq<string>)
    ensures Scalars([e]) == if e.value.Scalar? then [Assignment(e.key, e.value.text)] else []
    ensures RenderTables([e], path) == if e.value.Table? then Render(e.value.entries, path + [e.key]) else []
  {
    assert [e][..0] == [];
  }

  // ----- keys and headers as text ---------------------------------------------------------------------

  /** A key as it is written: bare if it can be, else quoted. */
  function KeyText(key: string): string { if TomlLine.IsBareKey(key) then key else Quoted(key) }

  function PathText(path: seq<string>): string
    requires path != []
  {
    if |path| == 1 then KeyText(path[0]) else KeyText(path[0]) + ("." + PathText(path[1..]))
  }

  lemma BareKeysEnd(a: string, b: string, x: string, y: string)
    requires TomlLine.IsBareKey(a) && TomlLine.IsBareKey(b) && a + x == b + y
    requires (x == "" || x[0] == '.') && (y == "" || y[0] == '.')
    ensures a == b && x == y
  {
    assert '.' !in a && '.' !in b;
    TextLines.CutIs(a, '.', x);
    TextLines.CutIs(b, '.', y);
    assert a == (a + x)[..|a|] && b == (b + y)[..|b|];
    assert x == (a + x)[|a|..] && y == (b + y)[|b|..];
  }

  lemma QuotedKeysEnd(a: string, b: string, x: string, y: string)
    requires Quoted(a) + x == Quoted(b) + y
    ensures a == b && x == y
  {
    var u, v := EscapeAll(a) + ("\"" + x), EscapeAll(b) + ("\"" + y);
    assert Quoted(a) + x == "\"" + u && Quoted(b) + y == "\"" + v;
    assert u == ("\"" + u)[1..] && v == ("\"" + v)[1..];
    QuotedEnds(a, b, x, y);
  }

  /** A written key is recognised by its text, followed by nothing or a dot. */
  lemma KeysEnd(a: string, b: string, x: string, y: string)
    requires KeyText(a) + x == KeyText(b) + y
    requires (x == "" || x[0] == '.') && (y == "" || y[0] == '.')
    ensures a == b && x == y
  {
    KeyStarts(a, x);
    KeyStarts(b, y);
    if TomlLine.IsBareKey(a) {
      BareKeysEnd(a, b, x, y);
    } else {
      QuotedKeysEnd(a, b, x, y);
    }
  }

  lemma KeyStarts(a: string, x: string)
    ensures KeyText(a) != "" && ((KeyText(a) + x)[0] == '"' <==> !TomlLine.IsBareKey(a))
  {
    assert (KeyText(a) + x)[0] == KeyText(a)[0];
    assert TomlLine.IsBareKey(a) ==> TomlLine.IsKeyChar(a[0]);
  }

  /** Different tables have different headers, also as text. */
  lemma {:induction false} PathTextInjective(p: seq<string>, q: seq<string>)
    requires p != [] && q != [] && PathText(p) == PathText(q)
    ensures p == q
    decreases |p|
  {
    var x, y := PathRest(p), PathRest(q);
    PathParts(p);
    PathParts(q);
    KeysEnd(p[0], q[0], x, y);
    if |p| > 1 {
      assert PathText(p[1..]) == x[1..] && PathText(q[1..]) == y[1..];
      PathTextInjective(p[1..], q[1..]);
    }
    assert p == [p[0]] + p[1..] && q == [q[0]] + q[1..];
  }

  /** What follows the first key of a path. */
  function PathRest(path: seq<string>): string
    requires path != []
  {
    if |path| == 1 then "" else "." + PathText(path[1..])
  }

  lemma PathParts(path: seq<string>)
    requires path != []
    ensures PathText(path) == KeyText(path[0]) + PathRest(path)
    ensures PathRest(path) == "" <==> |path| == 1
    ensures PathRest(path) == "" || PathRest(path)[0] == '.'
  {
  }

  /** In the rendered document no header text occurs twice. */
  lemma HeaderTextsDiffer(es: Entries, i: nat, j: nat)
    requires WellFormed(es) && i < j < |Render(es, [])|
    ensures Render(es, [])[j].path != []
    ensures Render(es, [])[i].path != [] ==> PathText(Render(es, [])[i].path) != PathText(Render(es, [])[j].path)
  {
    RenderIsShaped(es);
    var ss := Render(es, []);
    assert ss[i].path != ss[j].path && ss[j].path != [];
    if ss[i].path != [] && PathText(ss[i].path) == PathText(ss[j].path) {
      PathTextInjective(ss[i].path, ss[j].path);
    }
  }
}
