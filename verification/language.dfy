/**
 * The language context (context/LanguageContext.tsx): the active language,
 * its toggle, the right-to-left flag and the dotted-path translation lookup `t`.
 */
module Language {
  import opened Wrappers
  import opened Text

  datatype Lang = En | Ar

  /** The provider starts in English. */
  const InitialLang: Lang := En

  /** `toggleLang`: English becomes Arabic and everything else English. */
  function Toggle(l: Lang): (r: Lang)
    ensures r != l
  {
    if l == En then Ar else En
  }

  /** Toggling twice restores the language. */
  lemma {:induction false} ToggleTwice(l: Lang)
    ensures Toggle(Toggle(l)) == l
  {
  }

  /** `isRTL`: only Arabic is written right to left. */
  predicate IsRTL(l: Lang)
    ensures IsRTL(l) ==> l == Ar
    ensures !IsRTL(l) ==> l == En
  {
    l == Ar
  }

  /** The provider starts left to right, and one toggle makes it right to left. */
  lemma {:induction false} InitialDirection()
    ensures !IsRTL(InitialLang) && IsRTL(Toggle(InitialLang))
    ensures forall l :: IsRTL(l) != IsRTL(Toggle(l))
  {
  }

  /** A JSON-like locale value: a string leaf, `null`, or an object whose
      fields keep their declaration order. String leaves have no children. */
  datatype Value = Str(text: string) | Null | Obj(fields: seq<(string, Value)>)

  /** `current[key]`: the first field of an object with that name; `undefined`
      (None) for a missing field and for anything that is not an object. */
  function Child(v: Value, key: string): (r: Option<Value>)
    ensures r.Some? <==> v.Obj? && exists i :: 0 <= i < |v.fields| && v.fields[i].0 == key
    ensures r.Some? ==> exists i :: 0 <= i < |v.fields| && v.fields[i] == (key, r.value) &&
                                  forall j :: 0 <= j < i ==> v.fields[j].0 != key
  {
    match v
    case Obj(fs) => FirstField(fs, key)
    case _ => None
  }

  function FirstField(fs: seq<(string, Value)>, key: string): (r: Option<Value>)
    ensures r.Some? <==> exists i :: 0 <= i < |fs| && fs[i].0 == key
    ensures r.Some? ==> exists i :: 0 <= i < |fs| && fs[i] == (key, r.value) &&
                                  forall j :: 0 <= j < i ==> fs[j].0 != key
  {
    if fs == [] then None
    else if fs[0].0 == key then Some(fs[0].1)
    else
      var r := FirstField(fs[1..], key);
      assert r.Some? ==> exists i :: 0 <= i < |fs[1..]| && fs[1..][i] == (key, r.value) &&
                                    forall j :: 0 <= j < i ==> fs[1..][j].0 != key;
      assert forall i :: 0 < i < |fs| ==> fs[i] == fs[1..][i - 1];
      r
  }

  /** Following `keys` from `current` the way the loop of `t` does: a `null`
      before a segment, or a missing segment, ends the walk (None). */
  function Walk(current: Value, keys: seq<string>): Option<Value> {
    if keys == [] then Some(current)
    else if current.Null? then None
    else
      match Child(current, keys[0])
      case None => None
      case Some(next) => Walk(next, keys[1..])
  }

  /** The dictionary the lookup starts from: `en` for English, `ar` otherwise. */
  function Active(en: Value, ar: Value, lang: Lang): Value {
    if lang == En then en else ar
  }

  /** `t(path)`: the value reached by the `.`-separated segments of `path`,
      or the text `path` itself when the walk fails. */
  function Translate(en: Value, ar: Value, lang: Lang, path: string): (r: Value)
    ensures r == Str(path) || Walk(Active(en, ar, lang), Split(path, '.')) == Some(r)
    ensures Walk(Active(en, ar, lang), Split(path, '.')).None? ==> r == Str(path)
  {
    match Walk(Active(en, ar, lang), Split(path, '.'))
    case Some(v) => v
    case None => Str(path)
  }

  /** `t` as the source writes it: a loop reassigning `current`. */
  method T(en: Value, ar: Value, lang: Lang, path: string) returns (r: Value)
    ensures r == Translate(en, ar, lang, path)
  {
    var keys := Split(path, '.');
    var current := if lang == En then en else ar;
    for i := 0 to |keys|
      invariant Walk(Active(en, ar, lang), keys) == Walk(current, keys[i..])
    {
      if current.Null? {
        return Str(path);
      }
      var next := Child(current, keys[i]);
      if next.None? {
        return Str(path);
      }
      assert keys[i..][1..] == keys[i + 1..];
      current := next.value;
    }
    assert keys[|keys|..] == [];
    return current;
  }

  /** A path whose segments lead to a value translates to that value. */
  lemma {:induction false} TranslateFound(en: Value, ar: Value, lang: Lang, segs: seq<string>, v: Value)
    requires |segs| >= 1 && forall j :: 0 <= j < |segs| ==> '.' !in segs[j]
    requires Walk(Active(en, ar, lang), segs) == Some(v)
    ensures Translate(en, ar, lang, Join(segs, '.')) == v
  {
    SplitJoin(segs, '.');
  }

  /** A path with a missing segment translates to the path itself. */
  lemma {:induction false} TranslateMissing(en: Value, ar: Value, lang: Lang, path: string)
    requires Walk(Active(en, ar, lang), Split(path, '.')).None?
    ensures Translate(en, ar, lang, path) == Str(path)
  {
  }

  /** Every segment of the path has to be found: if the first segment is
      missing from the dictionary, `t` gives back the path whatever follows. */
  lemma {:induction false} MissingPrefixFallsBack(d: Value, segs: seq<string>, rest: seq<string>)
    requires Walk(d, segs).None?
    ensures Walk(d, segs + rest).None?
  {
    if segs != [] && !d.Null? && Child(d, segs[0]).Some? {
      assert (segs + rest)[1..] == segs[1..] + rest;
      MissingPrefixFallsBack(Child(d, segs[0]).value, segs[1..], rest);
    }
  }
}
