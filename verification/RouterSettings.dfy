/**
 LiteLLM's router_settings object as the client sees it: reading splits it into the alias map and
 everything else, writing merges the two back into one object that replaces the stored one.
 */
module RouterSettings {
  import opened CanonicalJson

  const ALIAS := "model_group_alias"

  type Settings = map<string, Json>

  datatype Parts = Parts(extra: Settings, alias: map<string, string>)

  datatype Decoded = Decoded(parts: Parts) | NotAnObject | NotAString(key: string)

  /** The alias map can be read: it is absent, null, or an object of strings. */
  predicate Readable(s: Settings) {
    ALIAS !in s || s[ALIAS].Null? ||
    (s[ALIAS].Obj? && forall k :: k in s[ALIAS].fields ==> s[ALIAS].fields[k].Str?)
  }

  function Strings(fields: Settings): map<string, string> {
    map k | k in fields && fields[k].Str? :: fields[k].text
  }

  function Split(s: Settings): Parts {
    Parts(s - {ALIAS}, if ALIAS in s && s[ALIAS].Obj? then Strings(s[ALIAS].fields) else map[])
  }

  function Merge(p: Parts): Settings {
    p.extra[ALIAS := Obj(map k | k in p.alias :: Str(p.alias[k]))]
  }

  method GetRouterSettings(s: Settings) returns (r: Decoded)
    ensures r.Decoded? <==> Readable(s)
    ensures r.Decoded? ==> r.parts == Split(s)
    ensures r.NotAnObject? ==> ALIAS in s && !s[ALIAS].Null? && !s[ALIAS].Obj?
    ensures r.NotAString? ==> ALIAS in s && s[ALIAS].Obj? && r.key in s[ALIAS].fields && !s[ALIAS].fields[r.key].Str?
  {
    var left, extra, alias := s.Keys, map[], map[];
    while left != {}
      invariant left <= s.Keys
      invariant extra == map k | k in s && k !in left && k != ALIAS :: s[k]
      invariant alias == if ALIAS in left then map[] else Split(s).alias
      invariant ALIAS in left || Readable(s)
    {
      var k :| k in left;
      if k == ALIAS {
        if s[k].Obj? {
          var m := ReadStrings(s[k].fields);
          if m.NotAString? { return m; }
          alias := m.parts.alias;
        } else if !s[k].Null? {
          return NotAnObject;
        }
      } else {
        extra := extra[k := s[k]];
      }
      left := left - {k};
    }
    assert extra == s - {ALIAS};
    return Decoded(Parts(extra, alias));
  }

  /** The inner loop over the alias object; its `extra` stays empty. */
  method ReadStrings(fields: Settings) returns (r: Decoded)
    ensures r.Decoded? || r.NotAString?
    ensures r.Decoded? <==> forall k :: k in fields ==> fields[k].Str?
    ensures r.Decoded? ==> r.parts == Parts(map[], Strings(fields))
    ensures r.NotAString? ==> r.key in fields && !fields[r.key].Str?
  {
    var left, alias := fields.Keys, map[];
    while left != {}
      invariant left <= fields.Keys
      invariant forall k :: k in fields && k !in left ==> fields[k].Str?
      invariant alias == map k | k in fields && k !in left && fields[k].Str? :: fields[k].text
    {
      var k :| k in left;
      if !fields[k].Str? { return NotAString(k); }
      alias := alias[k := fields[k].text];
      left := left - {k};
    }
    return Decoded(Parts(map[], alias));
  }

  method UpdateRouterSettings(p: Parts) returns (merged: Settings)
    ensures merged == Merge(p)
  {
    var left, alias: Settings := p.alias.Keys, map[];
    merged := CopyInto(p.extra);
    while left != {}
      invariant left <= p.alias.Keys
      invariant alias == map k | k in p.alias && k !in left :: Str(p.alias[k])
    {
      var k :| k in left;
      alias := alias[k := Str(p.alias[k])];
      left := left - {k};
    }
    assert alias == map k | k in p.alias :: Str(p.alias[k]);
    merged := merged[ALIAS := Obj(alias)];
  }

  method CopyInto(extra: Settings) returns (merged: Settings)
    ensures merged == extra
  {
    var left := extra.Keys;
    merged := map[];
    while left != {}
      invariant left <= extra.Keys
      invariant merged == map k | k in extra && k !in left :: extra[k]
    {
      var k :| k in left;
      merged := merged[k := extra[k]];
      left := left - {k};
    }
  }

  /** Reading back what was written gives the alias map written and the rest unchanged. */
  lemma SplitMerge(p: Parts)
    ensures Readable(Merge(p))
    ensures Split(Merge(p)) == Parts(p.extra - {ALIAS}, p.alias)
  {
    assert Strings(Merge(p)[ALIAS].fields) == p.alias;
  }

  /** Writing back what was read changes nothing, when there was an alias object to read. */
  lemma MergeSplit(s: Settings)
    requires Readable(s) && ALIAS in s && s[ALIAS].Obj?
    ensures Merge(Split(s)) == s
  {
    var fields := s[ALIAS].fields;
    var again := map k | k in Strings(fields) :: Str(Strings(fields)[k]);
    assert again == fields;
  }
}
