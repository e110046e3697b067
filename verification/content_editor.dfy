/**
 * The admin content editor (components/ContentEditor.tsx): flattening the
 * nested locale objects into dotted keys, grouping database rows by key,
 * the "smart sync" of missing keys in batches of 100, saving one value,
 * and the section list and key filter of the sidebar.
 */
module ContentEditor {
  import opened Wrappers
  import opened Text
  import opened Assoc
  import opened Language

  /** A string leaf of a locale object under its dotted key. */
  datatype Entry = Entry(key: string, value: string)

  /** A `site_content` row as the grouping reads it. */
  datatype Row = Row(key: string, lang: string, value: string)

  /** A `site_content` row as sync and save write it. */
  datatype ContentItem = ContentItem(key: string, lang: string, value: string, section: string)

  /** The `{ en, ar }` record kept per key. */
  datatype Translations = Translations(en: string, ar: string)

  const Blank: Translations := Translations("", "")

  /** The language code stored in the `lang` column. */
  function LangCode(l: Lang): string {
    if l == En then "en" else "ar"
  }

  // ------------------------------------------------------------ flattening

  /** The string leaves of `v` in field order, each under `prefix` followed by
      its `.`-joined path; only non-null objects are descended into. */
  function Flatten(v: Value, prefix: string): seq<Entry>
    decreases v, if v.Obj? then |v.fields| + 2 else 0
  {
    if v.Obj? then EntriesUpTo(v, |v.fields|, prefix) else []
  }

  /** The leaves contributed by the first `n` fields of the object `v`. */
  function EntriesUpTo(v: Value, n: nat, prefix: string): seq<Entry>
    requires v.Obj? && n <= |v.fields|
    decreases v, n + 1
  {
    if n == 0 then [] else EntriesUpTo(v, n - 1, prefix) + FieldEntries(v, n - 1, prefix)
  }

  /** The leaves of field `i` of the object `v`: itself if it is a string,
      its own leaves under `prefix + name + "."` if it is an object, else none. */
  function FieldEntries(v: Value, i: nat, prefix: string): seq<Entry>
    requires v.Obj? && i < |v.fields|
    decreases v, 0
  {
    var k := v.fields[i].0;
    var c := v.fields[i].1;
    assert v.fields[i] in v.fields;
    match c
    case Str(s) => [Entry(prefix + k, s)]
    case Obj(_) => Flatten(c, prefix + k + ".")
    case Null => []
  }

  /** The keys of the leaves, in order. */
  function KeysOf(leaves: seq<Entry>): seq<string> {
    seq(|leaves|, i requires 0 <= i < |leaves| => leaves[i].key)
  }

  /** The (key, value) pairs of the leaves, in order. */
  function PairsOf(leaves: seq<Entry>): seq<(string, string)> {
    seq(|leaves|, i requires 0 <= i < |leaves| => (leaves[i].key, leaves[i].value))
  }

  /** The leaves as rows of one language. */
  function Tagged(leaves: seq<Entry>, lang: Lang): seq<Row> {
    seq(|leaves|, i requires 0 <= i < |leaves| => Row(leaves[i].key, LangCode(lang), leaves[i].value))
  }

  // -------------------------------------------------------------- grouping

  /** One step of grouping: the key gets a blank record if it has none, then
      the `en` or `ar` part takes the row's value; other languages are ignored. */
  function Assign(m: map<string, Translations>, r: Row): map<string, Translations> {
    var cur := if r.key in m then m[r.key] else Blank;
    m[r.key := if r.lang == "en" then cur.(en := r.value)
               else if r.lang == "ar" then cur.(ar := r.value)
               else cur]
  }

  /** Assigning every row in order. */
  function Group(m: map<string, Translations>, rows: seq<Row>): map<string, Translations> {
    if rows == [] then m else Assign(Group(m, rows[..|rows| - 1]), rows[|rows| - 1])
  }

  /** The (key, value) assignments of the rows in language `code`, in order. */
  function LangPairs(rows: seq<Row>, code: string): seq<(string, string)> {
    if rows == [] then []
    else
      var last := rows[|rows| - 1];
      var init := LangPairs(rows[..|rows| - 1], code);
      if last.lang == code then init + [(last.key, last.value)] else init
  }

  function RowKeys(rows: seq<Row>): (r: set<string>)
    ensures forall k :: k in r <==> exists i :: 0 <= i < |rows| && rows[i].key == k
  {
    set i | 0 <= i < |rows| :: rows[i].key
  }

  /** One more row adds its key. */
  lemma {:induction false} RowKeysSnoc(rows: seq<Row>, r: Row)
    ensures RowKeys(rows + [r]) == RowKeys(rows) + {r.key}
  {
    var s := rows + [r];
    forall k ensures k in RowKeys(s) <==> k in RowKeys(rows) || k == r.key {
      if k in RowKeys(s) {
        var i :| 0 <= i < |s| && s[i].key == k;
        if i < |rows| {
          assert rows[i].key == k;
        }
      }
      if k in RowKeys(rows) {
        var i :| 0 <= i < |rows| && rows[i].key == k;
        assert s[i].key == k;
      }
      if k == r.key {
        assert s[|rows|].key == k;
      }
    }
  }

  lemma {:induction false} GroupAppend(m: map<string, Translations>, a: seq<Row>, b: seq<Row>)
    ensures Group(m, a + b) == Group(Group(m, a), b)
    decreases |b|
  {
    if b == [] {
      assert a + b == a;
    } else {
      assert (a + b)[..|a + b| - 1] == a + b[..|b| - 1];
      GroupAppend(m, a, b[..|b| - 1]);
    }
  }

  /** The last value a row list assigns to `k` in language `code`. */
  function LastIn(rows: seq<Row>, code: string, k: string, default: string): string {
    LastAssigned(LangPairs(rows, code), k).GetOr(default)
  }

  lemma {:induction false} LastInSnoc(init: seq<Row>, last: Row, code: string, k: string, default: string)
    ensures LastIn(init + [last], code, k, default) ==
      if last.lang == code && last.key == k then last.value else LastIn(init, code, k, default)
  {
    assert (init + [last])[..|init|] == init;
    if last.lang == code {
      LastAssignedSnoc(LangPairs(init, code), (last.key, last.value), k);
    }
  }

  lemma {:induction false} LastInAbsent(rows: seq<Row>, code: string, k: string, default: string)
    requires k !in RowKeys(rows)
    ensures LastIn(rows, code, k, default) == default
  {
    if rows != [] {
      var init := rows[..|rows| - 1];
      assert rows == init + [rows[|rows| - 1]];
      assert k !in RowKeys(init) by {
        assert forall i :: 0 <= i < |init| ==> init[i] == rows[i];
      }
      LastInAbsent(init, code, k, default);
      LastInSnoc(init, rows[|rows| - 1], code, k, default);
    }
  }

  /** What grouping keeps: a key is present iff it was present or some row
      names it; its `en` (`ar`) part is the value of the last `en` (`ar`) row
      for it, or what it had before (blank for a new key). */
  lemma {:induction false} GroupSpec(m: map<string, Translations>, rows: seq<Row>, k: string)
    ensures k in Group(m, rows) <==> k in m || k in RowKeys(rows)
    ensures k in Group(m, rows) ==>
      var before := if k in m then m[k] else Blank;
      Group(m, rows)[k] == Translations(LastIn(rows, "en", k, before.en), LastIn(rows, "ar", k, before.ar))
  {
    if rows != [] {
      var init := rows[..|rows| - 1];
      var last := rows[|rows| - 1];
      GroupSpec(m, init, k);
      assert rows == init + [last];
      RowKeysSnoc(init, last);
      var before := if k in m then m[k] else Blank;
      LastInSnoc(init, last, "en", k, before.en);
      LastInSnoc(init, last, "ar", k, before.ar);
      var g := Group(m, init);
      assert Group(m, rows) == Assign(g, last);
      if last.key == k {
        var cur := if k in g then g[k] else Blank;
        if k !in g {
          LastInAbsent(init, "en", k, before.en);
          LastInAbsent(init, "ar", k, before.ar);
        }
        assert cur == Translations(LastIn(init, "en", k, before.en), LastIn(init, "ar", k, before.ar));
      }
    }
  }

  /** `fetchContent`'s `forEach`: the rows grouped into a fresh map. */
  method GroupRows(rows: seq<Row>) returns (contentMap: map<string, Translations>)
    ensures contentMap == Group(map[], rows)
  {
    contentMap := map[];
    for i := 0 to |rows|
      invariant contentMap == Group(map[], rows[..i])
    {
      assert rows[..i + 1][..i] == rows[..i];
      var item := rows[i];
      if item.key !in contentMap {
        contentMap := contentMap[item.key := Blank];
      }
      if item.lang == "en" {
        contentMap := contentMap[item.key := contentMap[item.key].(en := item.value)];
      }
      if item.lang == "ar" {
        contentMap := contentMap[item.key := contentMap[item.key].(ar := item.value)];
      }
    }
    assert rows[..|rows|] == rows;
  }

  /** What the `site_content` select returned. */
  datatype Fetched<T> = Data(rows: seq<T>) | NoData | StoreError

  /** `fetchContent`: the grouped rows replace the editor's database view; a
      missing result gives an empty view and a store error keeps the old one. */
  method FetchContent(dbContent: map<string, Translations>, fetched: Fetched<Row>)
    returns (dbContent': map<string, Translations>)
    ensures fetched.StoreError? ==> dbContent' == dbContent
    ensures fetched.NoData? ==> dbContent' == map[]
    ensures fetched.Data? ==> forall k :: k in dbContent' <==> k in RowKeys(fetched.rows)
    ensures fetched.Data? ==> forall k :: k in dbContent' ==>
      dbContent'[k] == Translations(LastIn(fetched.rows, "en", k, ""), LastIn(fetched.rows, "ar", k, ""))
  {
    match fetched
    case StoreError => dbContent' := dbContent;
    case NoData => dbContent' := map[];
    case Data(rows) =>
      dbContent' := GroupRows(rows);
      forall k ensures k in dbContent' <==> k in RowKeys(rows) {
        GroupSpec(map[], rows, k);
      }
      forall k | k in dbContent'
        ensures dbContent'[k] == Translations(LastIn(rows, "en", k, ""), LastIn(rows, "ar", k, ""))
      {
        GroupSpec(map[], rows, k);
      }
  }

  // ------------------------------------------------------ parseStaticKeys

  lemma {:induction false} TaggedAppend(a: seq<Entry>, b: seq<Entry>, lang: Lang)
    ensures Tagged(a + b, lang) == Tagged(a, lang) + Tagged(b, lang)
  {
    var t, ta, tb := Tagged(a + b, lang), Tagged(a, lang), Tagged(b, lang);
    forall i | 0 <= i < |t| ensures t[i] == (ta + tb)[i] {
      if i < |a| {
        assert (a + b)[i] == a[i];
      } else {
        assert (a + b)[i] == b[i - |a|];
      }
    }
  }

  lemma {:induction false} KeysAppend(a: seq<Entry>, b: seq<Entry>)
    ensures KeysOf(a + b) == KeysOf(a) + KeysOf(b)
  {
    var k, ka, kb := KeysOf(a + b), KeysOf(a), KeysOf(b);
    forall i | 0 <= i < |k| ensures k[i] == (ka + kb)[i] {
      if i < |a| {
        assert (a + b)[i] == a[i];
      } else {
        assert (a + b)[i] == b[i - |a|];
      }
    }
  }

  /** Listing the keys of the first `i` fields and then of field `i` lists
      those of the first `i + 1`. */
  lemma {:induction false} KeysStep(keys: seq<string>, mid: seq<string>, next: seq<string>, v: Value, i: nat, prefix: string)
    requires v.Obj? && i < |v.fields|
    requires mid == keys + KeysOf(EntriesUpTo(v, i, prefix))
    requires next == mid + KeysOf(FieldEntries(v, i, prefix))
    ensures next == keys + KeysOf(EntriesUpTo(v, i + 1, prefix))
  {
    KeysAppend(EntriesUpTo(v, i, prefix), FieldEntries(v, i, prefix));
  }

  /** Grouping the rows of the first `i` fields and then of field `i` groups
      those of the first `i + 1`. */
  lemma {:induction false} GroupStep(m: map<string, Translations>, mid: map<string, Translations>, next: map<string, Translations>,
                                     v: Value, i: nat, prefix: string, lang: Lang)
    requires v.Obj? && i < |v.fields|
    requires mid == Group(m, Tagged(EntriesUpTo(v, i, prefix), lang))
    requires next == Group(mid, Tagged(FieldEntries(v, i, prefix), lang))
    ensures next == Group(m, Tagged(EntriesUpTo(v, i + 1, prefix), lang))
  {
    var done, here := EntriesUpTo(v, i, prefix), FieldEntries(v, i, prefix);
    TaggedAppend(done, here, lang);
    GroupAppend(m, Tagged(done, lang), Tagged(here, lang));
  }

  /** A single string leaf: one key listed, one row assigned. */
  lemma {:induction false} LeafStep(m: map<string, Translations>, key: string, value: string, lang: Lang)
    ensures KeysOf([Entry(key, value)]) == [key]
    ensures Group(m, Tagged([Entry(key, value)], lang)) == Assign(m, Row(key, LangCode(lang), value))
  {
    assert [Entry(key, value)][..0] == [];
    assert Tagged([Entry(key, value)], lang) == [Row(key, LangCode(lang), value)];
  }

  /** `staticMap[key]` defaults to a blank record, then its `lang` part takes `value`. */
  method SetLeaf(staticMap: map<string, Translations>, key: string, lang: Lang, value: string)
    returns (staticMap': map<string, Translations>)
    ensures staticMap' == Assign(staticMap, Row(key, LangCode(lang), value))
  {
    staticMap' := staticMap;
    if key !in staticMap' {
      staticMap' := staticMap'[key := Blank];
    }
    staticMap' := staticMap'[key := if lang == En then staticMap'[key].(en := value) else staticMap'[key].(ar := value)];
  }

  /** `traverse` of `parseStaticKeys`: every string leaf updates `staticMap`,
      and in English its key is also pushed onto `keys`. */
  method TraverseStatic(v: Value, prefix: string, lang: Lang, keys: seq<string>, staticMap: map<string, Translations>)
    returns (keys': seq<string>, staticMap': map<string, Translations>)
    ensures keys' == keys + (if lang == En then KeysOf(Flatten(v, prefix)) else [])
    ensures staticMap' == Group(staticMap, Tagged(Flatten(v, prefix), lang))
    decreases v, 2
  {
    if v.Obj? {
      keys', staticMap' := StaticFields(v, prefix, lang, keys, staticMap);
    } else {
      keys', staticMap' := keys, staticMap;
      assert Tagged([], lang) == [];
    }
  }

  /** The `for (const k in obj)` loop of `traverse`. */
  method StaticFields(v: Value, prefix: string, lang: Lang, keys: seq<string>, staticMap: map<string, Translations>)
    returns (keys': seq<string>, staticMap': map<string, Translations>)
    requires v.Obj?
    ensures keys' == keys + (if lang == En then KeysOf(Flatten(v, prefix)) else [])
    ensures staticMap' == Group(staticMap, Tagged(Flatten(v, prefix), lang))
    decreases v, 1
  {
    keys', staticMap' := keys, staticMap;
    for i := 0 to |v.fields|
      invariant lang == En ==> keys' == keys + KeysOf(EntriesUpTo(v, i, prefix))
      invariant lang == Ar ==> keys' == keys
      invariant staticMap' == Group(staticMap, Tagged(EntriesUpTo(v, i, prefix), lang))
    {
      var keysMid, mapMid := keys', staticMap';
      keys', staticMap' := VisitStatic(v, i, prefix, lang, keys', staticMap');
      if lang == En {
        KeysStep(keys, keysMid, keys', v, i, prefix);
      }
      GroupStep(staticMap, mapMid, staticMap', v, i, prefix, lang);
    }
  }

  /** One iteration of `for (const k in obj)` in `traverse`: a string field is
      a leaf, a non-null object field is descended into, anything else skipped. */
  method VisitStatic(v: Value, i: nat, prefix: string, lang: Lang, keys: seq<string>, staticMap: map<string, Translations>)
    returns (keys': seq<string>, staticMap': map<string, Translations>)
    requires v.Obj? && i < |v.fields|
    ensures lang == En ==> keys' == keys + KeysOf(FieldEntries(v, i, prefix))
    ensures lang == Ar ==> keys' == keys
    ensures staticMap' == Group(staticMap, Tagged(FieldEntries(v, i, prefix), lang))
    decreases v, 0
  {
    var k := v.fields[i].0;
    var c := v.fields[i].1;
    keys', staticMap' := keys, staticMap;
    match c
    case Str(s) =>
      var key := prefix + k;
      staticMap' := SetLeaf(staticMap', key, lang, s);
      if lang == En {
        keys' := keys' + [key];
      }
      LeafStep(staticMap, key, s, lang);
    case Obj(_) =>
      assert v.fields[i] in v.fields;
      keys', staticMap' := TraverseStatic(c, prefix + k + ".", lang, keys', staticMap');
    case Null =>
  }

  /** `parseStaticKeys`: the key list comes from the English traversal only,
      the map from both, English first. */
  method ParseStaticKeys(en: Value, ar: Value) returns (keys: seq<string>, staticMap: map<string, Translations>)
    ensures keys == KeysOf(Flatten(en, ""))
    ensures staticMap == Group(Group(map[], Tagged(Flatten(en, ""), En)), Tagged(Flatten(ar, ""), Ar))
  {
    keys, staticMap := TraverseStatic(en, "", En, [], map[]);
    keys, staticMap := TraverseStatic(ar, "", Ar, keys, staticMap);
  }

  /** The rows of one language name exactly the leaf keys, and assign the
      leaf pairs in that language and nothing in the other. */
  lemma {:induction false} TaggedSpec(leaves: seq<Entry>, lang: Lang, other: Lang)
    requires other != lang
    ensures forall k :: k in RowKeys(Tagged(leaves, lang)) <==> k in KeysOf(leaves)
    ensures LangPairs(Tagged(leaves, lang), LangCode(lang)) == PairsOf(leaves)
    ensures LangPairs(Tagged(leaves, lang), LangCode(other)) == []
  {
    if leaves != [] {
      var init, e := leaves[..|leaves| - 1], leaves[|leaves| - 1];
      TaggedSpec(init, lang, other);
      var t, ti := Tagged(leaves, lang), Tagged(init, lang);
      assert t == ti + [Row(e.key, LangCode(lang), e.value)];
      assert t[..|t| - 1] == ti;
      assert KeysOf(leaves) == KeysOf(init) + [e.key];
      assert PairsOf(leaves) == PairsOf(init) + [(e.key, e.value)];
      RowKeysSnoc(ti, Row(e.key, LangCode(lang), e.value));
    }
  }

  /** The static map: a key is present iff some English or Arabic leaf has it;
      each part holds the last leaf value of that language, or "" when that
      language has no such leaf. So an Arabic-only key is in the map but,
      having no English leaf, not in the key list. */
  lemma {:induction false} StaticMapSpec(le: seq<Entry>, la: seq<Entry>, k: string)
    ensures var m := Group(Group(map[], Tagged(le, En)), Tagged(la, Ar));
      && (k in m <==> k in KeysOf(le) || k in KeysOf(la))
      && (k in m ==> m[k] == Translations(LastAssigned(PairsOf(le), k).GetOr(""),
                                          LastAssigned(PairsOf(la), k).GetOr("")))
  {
    var te, ta := Tagged(le, En), Tagged(la, Ar);
    var m1 := Group(map[], te);
    var m := Group(m1, ta);
    TaggedSpec(le, En, Ar);
    TaggedSpec(la, Ar, En);
    GroupSpec(map[], te, k);
    GroupSpec(m1, ta, k);
    if k in m {
      var before := if k in m1 then m1[k] else Blank;
      if k !in m1 {
        LastInAbsent(te, "en", k, "");
      }
      assert before.en == LastIn(te, "en", k, "");
      assert before.ar == "";
    }
  }

  // ------------------------------------------ the keys are the paths of `t`

  /** A locale object as the lookup needs it: field names are distinct and
      contain no `.`, at every level. */
  predicate WellFormed(v: Value) {
    match v
    case Obj(fs) =>
      && (forall i, j :: 0 <= i < j < |fs| ==> fs[i].0 != fs[j].0)
      && (forall i :: 0 <= i < |fs| ==> '.' !in fs[i].0)
      && (forall i :: 0 <= i < |fs| ==> WellFormed(fs[i].1))
    case _ => true
  }

  /** Every flattened leaf is reached by walking its key's segments. */
  lemma {:induction false} FlattenWalks(v: Value, prefix: string, e: Entry) returns (segs: seq<string>)
    requires WellFormed(v) && e in Flatten(v, prefix)
    ensures |segs| >= 1 && forall j :: 0 <= j < |segs| ==> '.' !in segs[j]
    ensures e.key == prefix + Join(segs, '.')
    ensures Walk(v, segs) == Some(Str(e.value))
    decreases v, if v.Obj? then |v.fields| + 1 else 0
  {
    segs := EntriesWalk(v, |v.fields|, prefix, e);
  }

  lemma {:induction false} EntriesWalk(v: Value, n: nat, prefix: string, e: Entry) returns (segs: seq<string>)
    requires v.Obj? && n <= |v.fields| && WellFormed(v) && e in EntriesUpTo(v, n, prefix)
    ensures |segs| >= 1 && forall j :: 0 <= j < |segs| ==> '.' !in segs[j]
    ensures e.key == prefix + Join(segs, '.')
    ensures Walk(v, segs) == Some(Str(e.value))
    decreases v, n
  {
    var k := v.fields[n - 1].0;
    var c := v.fields[n - 1].1;
    if e in EntriesUpTo(v, n - 1, prefix) {
      segs := EntriesWalk(v, n - 1, prefix, e);
    } else {
      assert v.fields[n - 1] in v.fields;
      var fs := v.fields;
      assert Child(v, k) == Some(c) by {
        var r := Child(v, k);
        var i :| 0 <= i < |fs| && fs[i] == (k, r.value) && forall j :: 0 <= j < i ==> fs[j].0 != k;
        assert i == n - 1;
      }
      match c
      case Str(s) =>
        segs := [k];
      case Obj(_) =>
        var rest := FlattenWalks(c, prefix + k + ".", e);
        segs := [k] + rest;
        assert segs[1..] == rest;
        assert Join(segs, '.') == k + "." + Join(rest, '.');
    }
  }

  /** Every key the editor lists resolves through `t` (in English) to its
      static English text. */
  lemma {:induction false} ListedKeysTranslate(en: Value, ar: Value, e: Entry)
    requires WellFormed(en) && e in Flatten(en, "")
    ensures Translate(en, ar, En, e.key) == Str(e.value)
  {
    var segs := FlattenWalks(en, "", e);
    assert e.key == Join(segs, '.');
    TranslateFound(en, ar, En, segs, Str(e.value));
  }

  // --------------------------------------------------------------- sections

  /** `key.split('.')[0]`: the text before the first `.`, or all of it. */
  function FirstSegment(key: string): (r: string)
    ensures '.' !in r && StartsWith(key, r)
    ensures |r| < |key| ==> key[|r|] == '.'
  {
    Split(key, '.')[0]
  }

  /** `key.split('.')[0] || 'general'`: the section a key is saved and synced under. */
  function Section(key: string): (r: string)
    ensures r != "" && '.' !in r
    ensures key != [] && key[0] != '.' ==> StartsWith(key, r) && (|r| == |key| || key[|r|] == '.')
    ensures key == [] || key[0] == '.' ==> r == "general"
  {
    var first := FirstSegment(key);
    if first == "" then "general" else first
  }

  /** The first segment of every key, in key order. */
  function FirstSegments(keys: seq<string>): (r: seq<string>)
    ensures |r| == |keys| && forall j :: 0 <= j < |keys| ==> r[j] == FirstSegment(keys[j])
  {
    if keys == [] then [] else [FirstSegment(keys[0])] + FirstSegments(keys[1..])
  }

  /** `sections`: the distinct first segments of the listed keys, ascending
      (no `'general'` fallback here, unlike `Section`). */
  function Sections(keys: seq<string>): (r: seq<string>)
    ensures StrictlySorted(r)
    ensures forall s :: s in r <==> exists k :: k in keys && FirstSegment(k) == s
  {
    var firsts := FirstSegments(keys);
    assert forall s :: s in firsts <==> exists k :: k in keys && FirstSegment(k) == s by {
      forall s ensures s in firsts <==> exists k :: k in keys && FirstSegment(k) == s {
        if s in firsts {
          var j :| 0 <= j < |firsts| && firsts[j] == s;
          assert keys[j] in keys;
        }
      }
    }
    SortDistinct(firsts)
  }

  /** The filter of one key: the section is `'all'` or the key starts with
      the section and a dot, and the lower-cased key contains the lower-cased query. */
  predicate Passes(key: string, activeSection: string, searchQuery: string) {
    && (activeSection == "all" || StartsWith(key, activeSection + "."))
    && Contains(ToLower(key), ToLower(searchQuery))
  }

  /** `filteredKeys`: the keys that pass, in their listed order. */
  function FilteredKeys(keys: seq<string>, activeSection: string, searchQuery: string): (r: seq<string>)
    ensures |r| <= |keys|
    ensures forall k :: k in r <==> k in keys && Passes(k, activeSection, searchQuery)
  {
    if keys == [] then []
    else
      var rest := FilteredKeys(keys[1..], activeSection, searchQuery);
      assert forall k :: k in keys <==> k == keys[0] || k in keys[1..];
      if Passes(keys[0], activeSection, searchQuery) then [keys[0]] + rest else rest
  }

  /** The filter keeps the order and the repeats of the listed keys: the keys
      of a concatenation that pass are those of each part in turn, and a single
      key is kept exactly when it passes. */
  lemma {:induction false} FilteredKeysAppend(a: seq<string>, b: seq<string>, activeSection: string, searchQuery: string)
    ensures FilteredKeys(a + b, activeSection, searchQuery)
         == FilteredKeys(a, activeSection, searchQuery) + FilteredKeys(b, activeSection, searchQuery)
    ensures |a| == 1 ==> FilteredKeys(a, activeSection, searchQuery) == if Passes(a[0], activeSection, searchQuery) then a else []
  {
    if a == [] {
      assert a + b == b;
    } else {
      assert (a + b)[1..] == a[1..] + b;
      FilteredKeysAppend(a[1..], b, activeSection, searchQuery);
    }
  }

  /** For a section name without a dot, the section filter keeps exactly the
      dotted keys whose first segment is that section. */
  lemma {:induction false} SectionFilterIsFirstSegment(key: string, section: string)
    requires '.' !in section
    ensures StartsWith(key, section + ".") <==> '.' in key && FirstSegment(key) == section
  {
    var first := FirstSegment(key);
    if StartsWith(key, section + ".") {
      assert key[|section|] == '.';
      assert key[..|section|] == section;
      assert first == key[..|first|];
    }
    if '.' in key && first == section {
      var i :| 0 <= i < |key| && key[i] == '.';
      assert |first| < |key|;
      assert key[..|section| + 1] == section + ".";
    }
  }

  // ------------------------------------------------------------- smart sync

  /** The `${key}-${lang}` tag the sync and the unsaved-change flags use. */
  function Tag(key: string, code: string): string {
    key + "-" + code
  }

  /** For the two language codes the tag determines the key and the language. */
  lemma {:induction false} TagInjective(k1: string, c1: string, k2: string, c2: string)
    requires c1 == "en" || c1 == "ar"
    requires c2 == "en" || c2 == "ar"
    ensures Tag(k1, c1) == Tag(k2, c2) <==> k1 == k2 && c1 == c2
  {
    if Tag(k1, c1) == Tag(k2, c2) {
      var t := Tag(k1, c1);
      assert |k1| == |k2|;
      assert k1 == t[..|k1|] && k2 == t[..|k2|];
      assert c1 == t[|k1| + 1..] && c2 == t[|k2| + 1..];
    }
  }

  /** A `(key, lang)` pair of the `select('key, lang')`. */
  datatype KeyLang = KeyLang(key: string, lang: string)

  /** `new Set(existingData?.map(d => `${d.key}-${d.lang}`))`: no data gives the empty set. */
  function ExistingTags(existing: Option<seq<KeyLang>>): (r: set<string>)
    ensures existing.None? ==> r == {}
    ensures existing.Some? ==> forall t :: t in r <==> exists d :: d in existing.value && Tag(d.key, d.lang) == t
  {
    if existing.None? then {} else set d | d in existing.value :: Tag(d.key, d.lang)
  }

  /** The row a missing leaf is inserted as. */
  function Insertable(e: Entry, lang: Lang): ContentItem {
    ContentItem(e.key, LangCode(lang), e.value, Section(e.key))
  }

  /** The leaves whose tag is not in `existing`, as rows to insert, in order. */
  function Missing(leaves: seq<Entry>, lang: Lang, existing: set<string>): seq<ContentItem> {
    if leaves == [] then []
    else
      var e := leaves[|leaves| - 1];
      var init := Missing(leaves[..|leaves| - 1], lang, existing);
      if Tag(e.key, LangCode(lang)) in existing then init else init + [Insertable(e, lang)]
  }

  lemma {:induction false} MissingAppend(a: seq<Entry>, b: seq<Entry>, lang: Lang, existing: set<string>)
    ensures Missing(a + b, lang, existing) == Missing(a, lang, existing) + Missing(b, lang, existing)
    decreases |b|
  {
    if b == [] {
      assert a + b == a;
    } else {
      assert (a + b)[..|a + b| - 1] == a + b[..|b| - 1];
      MissingAppend(a, b[..|b| - 1], lang, existing);
    }
  }

  /** Collecting the first `i` fields and then field `i` collects the first `i + 1`. */
  lemma {:induction false} MissingStep(toInsert: seq<ContentItem>, mid: seq<ContentItem>, next: seq<ContentItem>,
                                       v: Value, i: nat, prefix: string, lang: Lang, existing: set<string>)
    requires v.Obj? && i < |v.fields|
    requires mid == toInsert + Missing(EntriesUpTo(v, i, prefix), lang, existing)
    requires next == mid + Missing(FieldEntries(v, i, prefix), lang, existing)
    ensures next == toInsert + Missing(EntriesUpTo(v, i + 1, prefix), lang, existing)
  {
    var done, here := EntriesUpTo(v, i, prefix), FieldEntries(v, i, prefix);
    assert EntriesUpTo(v, i + 1, prefix) == done + here;
    MissingJoin(toInsert, mid, next, done, here, lang, existing);
  }

  lemma {:induction false} MissingJoin(toInsert: seq<ContentItem>, mid: seq<ContentItem>, next: seq<ContentItem>,
                                       done: seq<Entry>, here: seq<Entry>, lang: Lang, existing: set<string>)
    requires mid == toInsert + Missing(done, lang, existing)
    requires next == mid + Missing(here, lang, existing)
    ensures next == toInsert + Missing(done + here, lang, existing)
  {
    MissingAppend(done, here, lang, existing);
  }

  /** `traverse` of `handleSync`: every string leaf whose tag is not among
      the existing ones is pushed onto `toInsert`. */
  method TraverseMissing(v: Value, prefix: string, lang: Lang, existing: set<string>, toInsert: seq<ContentItem>)
    returns (toInsert': seq<ContentItem>)
    ensures toInsert' == toInsert + Missing(Flatten(v, prefix), lang, existing)
    decreases v, 2
  {
    if v.Obj? {
      toInsert' := MissingFields(v, prefix, lang, existing, toInsert);
    } else {
      toInsert' := toInsert;
      assert Missing([], lang, existing) == [];
    }
  }

  /** The `for (const k in obj)` loop of the sync `traverse`. */
  method MissingFields(v: Value, prefix: string, lang: Lang, existing: set<string>, toInsert: seq<ContentItem>)
    returns (toInsert': seq<ContentItem>)
    requires v.Obj?
    ensures toInsert' == toInsert + Missing(Flatten(v, prefix), lang, existing)
    decreases v, 1
  {
    toInsert' := toInsert;
    assert toInsert' == toInsert + Missing(EntriesUpTo(v, 0, prefix), lang, existing) by {
      assert Missing([], lang, existing) == [];
    }
    for i := 0 to |v.fields|
      invariant toInsert' == toInsert + Missing(EntriesUpTo(v, i, prefix), lang, existing)
    {
      var mid := toInsert';
      toInsert' := VisitMissing(v, i, prefix, lang, existing, toInsert');
      MissingStep(toInsert, mid, toInsert', v, i, prefix, lang, existing);
    }
    assert Flatten(v, prefix) == EntriesUpTo(v, |v.fields|, prefix);
  }

  /** One iteration of `for (const k in obj)` in the sync `traverse`. */
  method VisitMissing(v: Value, i: nat, prefix: string, lang: Lang, existing: set<string>, toInsert: seq<ContentItem>)
    returns (toInsert': seq<ContentItem>)
    requires v.Obj? && i < |v.fields|
    ensures toInsert' == toInsert + Missing(FieldEntries(v, i, prefix), lang, existing)
    decreases v, 0
  {
    var k := v.fields[i].0;
    var c := v.fields[i].1;
    toInsert' := toInsert;
    match c
    case Str(s) =>
      var key := prefix + k;
      if Tag(key, LangCode(lang)) !in existing {
        toInsert' := toInsert' + [ContentItem(key, LangCode(lang), s, Section(key))];
      }
      assert [Entry(key, s)][..0] == [];
    case Obj(_) =>
      assert v.fields[i] in v.fields;
      toInsert' := TraverseMissing(c, prefix + k + ".", lang, existing, toInsert');
    case Null =>
      assert toInsert' == toInsert + [];
  }

  /** A row is collected iff it is a leaf whose tag is not among the existing ones. */
  lemma {:induction false} MissingSpec(leaves: seq<Entry>, lang: Lang, existing: set<string>, item: ContentItem)
    ensures item in Missing(leaves, lang, existing) <==>
      exists e :: e in leaves && Tag(e.key, LangCode(lang)) !in existing && item == Insertable(e, lang)
  {
    if leaves != [] {
      var init, last := leaves[..|leaves| - 1], leaves[|leaves| - 1];
      MissingSpec(init, lang, existing, item);
      assert leaves == init + [last];
      assert forall e :: e in leaves <==> e in init || e == last;
    }
  }

  /** When the existing rows are all English or Arabic, sync collects exactly
      the leaves whose (key, language) pair is not already stored. */
  lemma {:induction false} MissingAbsentPairs(leaves: seq<Entry>, lang: Lang, rows: seq<KeyLang>, item: ContentItem)
    requires forall d :: d in rows ==> d.lang == "en" || d.lang == "ar"
    ensures item in Missing(leaves, lang, ExistingTags(Some(rows))) <==>
      exists e :: e in leaves && KeyLang(e.key, LangCode(lang)) !in rows && item == Insertable(e, lang)
  {
    var tags := ExistingTags(Some(rows));
    MissingSpec(leaves, lang, tags, item);
    forall e: Entry ensures Tag(e.key, LangCode(lang)) in tags <==> KeyLang(e.key, LangCode(lang)) in rows {
      if Tag(e.key, LangCode(lang)) in tags {
        var d :| d in rows && Tag(d.key, d.lang) == Tag(e.key, LangCode(lang));
        TagInjective(d.key, d.lang, e.key, LangCode(lang));
      }
    }
  }

  const BatchSize: nat := 100

  /** The batches one after the other. */
  function Concat<T>(batches: seq<seq<T>>): seq<T> {
    if batches == [] then [] else Concat(batches[..|batches| - 1]) + batches[|batches| - 1]
  }

  /** `batches` splits `items` in order into non-empty chunks of at most
      `BatchSize`, all but the last exactly `BatchSize` long. */
  predicate IsBatching<T(==)>(batches: seq<seq<T>>, items: seq<T>) {
    && Concat(batches) == items
    && (forall j :: 0 <= j < |batches| ==> 1 <= |batches[j]| <= BatchSize)
    && (forall j :: 0 <= j < |batches| - 1 ==> |batches[j]| == BatchSize)
  }

  /** The batching loop of `handleSync`: `i` steps by 100 and each batch is
      `toInsert.slice(i, i + 100)`. */
  method Batches<T(==)>(items: seq<T>) returns (batches: seq<seq<T>>)
    ensures IsBatching(batches, items)
  {
    batches := [];
    var i := 0;
    while i < |items|
      invariant i == BatchSize * |batches|
      invariant i <= |items| ==> Concat(batches) == items[..i]
      invariant i > |items| ==> Concat(batches) == items
      invariant forall j :: 0 <= j < |batches| ==> 1 <= |batches[j]| <= BatchSize
      invariant forall j :: 0 <= j < |batches| - 1 ==> |batches[j]| == BatchSize
      invariant i <= |items| ==> forall j :: 0 <= j < |batches| ==> |batches[j]| == BatchSize
    {
      var end := if i + BatchSize <= |items| then i + BatchSize else |items|;
      var batch := items[i..end];
      assert Concat(batches + [batch]) == Concat(batches) + batch by {
        assert (batches + [batch])[..|batches|] == batches;
      }
      assert items[..end] == items[..i] + batch;
      batches := batches + [batch];
      i := i + BatchSize;
    }
    if i == |items| {
      assert items[..i] == items;
    }
  }

  /** What a sync attempt came to. */
  datatype SyncOutcome = Cancelled | UpToDate | Synced(batches: seq<seq<ContentItem>>)

  /** The rows a confirmed sync inserts: the missing English leaves, then the
      missing Arabic ones. */
  function ToInsert(tags: set<string>, en: Value, ar: Value): seq<ContentItem> {
    Missing(Flatten(en, ""), En, tags) + Missing(Flatten(ar, ""), Ar, tags)
  }

  /** The two traversals of `handleSync`, English first, against the tags
      of the existing rows. */
  method CollectMissing(existingKeys: set<string>, en: Value, ar: Value) returns (toInsert: seq<ContentItem>)
    ensures toInsert == ToInsert(existingKeys, en, ar)
  {
    toInsert := TraverseMissing(en, "", En, existingKeys, []);
    assert toInsert == Missing(Flatten(en, ""), En, existingKeys);
    toInsert := TraverseMissing(ar, "", Ar, existingKeys, toInsert);
  }

  /** `handleSync`: nothing happens unless confirmed; with nothing missing it
      stops early; otherwise the missing rows go out in batches of 100. */
  method HandleSync(confirmed: bool, existing: Option<seq<KeyLang>>, en: Value, ar: Value)
    returns (outcome: SyncOutcome)
    ensures !confirmed ==> outcome == Cancelled
    ensures confirmed && ToInsert(ExistingTags(existing), en, ar) == [] ==> outcome == UpToDate
    ensures confirmed && ToInsert(ExistingTags(existing), en, ar) != [] ==>
      outcome.Synced? && IsBatching(outcome.batches, ToInsert(ExistingTags(existing), en, ar))
  {
    if !confirmed {
      return Cancelled;
    }
    var toInsert := CollectMissing(ExistingTags(existing), en, ar);
    if |toInsert| == 0 {
      return UpToDate;
    }
    var batches := Batches(toInsert);
    outcome := Synced(batches);
  }

  // ------------------------------------------------------------------- save

  /** `handleSave`: the row upserted for one edited value, and the unsaved
      flags afterwards; a store error (its message given) keeps every flag
      and yields the alert text. */
  method HandleSave(unsaved: map<string, bool>, key: string, lang: Lang, value: string, error: Option<string>)
    returns (item: ContentItem, unsaved': map<string, bool>, alertText: Option<string>)
    ensures item == ContentItem(key, LangCode(lang), value, Section(key))
    ensures error.None? ==> alertText.None? && unsaved' == unsaved - {Tag(key, LangCode(lang))}
    ensures error.Some? ==> alertText == Some("Error saving content: " + error.value) && unsaved' == unsaved
  {
    var section := Section(key);
    item := ContentItem(key, LangCode(lang), value, section);
    if error.Some? {
      return item, unsaved, Some("Error saving content: " + error.value);
    }
    unsaved' := unsaved - {Tag(key, LangCode(lang))};
    alertText := None;
  }
}
