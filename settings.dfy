/**
 * `WP_Stream_Settings`: the settings fields grouped in sections, the flat table of
 * defaults keyed `<section>_<field>`, the options (stored values over defaults), the
 * two reactions to an update of the option (deleting rewrite rules and purging old
 * records), the role list for the role picker and the labels of the settings.
 */
module Settings {
  import opened Php

  /** The option name, `WP_Stream_Settings::KEY`. */
  const Key: string := "wp_stream"

  /** One settings field: its `name`, its `title` and its `default`, when it has one. */
  datatype Field = Field(name: string, title: string, fieldDefault: Option<Value>)

  /** One section of `get_fields`: its title and its fields, in order. */
  datatype Section = Section(title: string, fields: seq<Field>)

  /** `isset( $field['default'] ) ? $field['default'] : null`. */
  function DefaultOf(f: Field): (v: Value)
    ensures f.fieldDefault.None? ==> v == Null
    ensures f.fieldDefault.Some? ==> v == f.fieldDefault.value
  {
    if f.fieldDefault.Some? && !f.fieldDefault.value.Null? then f.fieldDefault.value else Null
  }

  /** The flat key of a field: `$section_name . '_' . $field['name']`. */
  function FieldKey(section: string, f: Field): (k: string)
    ensures |k| == |section| + 1 + |f.name|
    ensures k[..|section|] == section && k[|section|] == '_' && k[|section| + 1..] == f.name
  {
    section + "_" + f.name
  }

  /** Within one section, two fields share a flat key iff they have the same name. */
  lemma FieldKeyInjective(section: string, f: Field, g: Field)
    ensures FieldKey(section, f) == FieldKey(section, g) <==> f.name == g.name
  {
    if FieldKey(section, f) == FieldKey(section, g) {
      assert f.name == FieldKey(section, f)[|section| + 1..];
    }
  }

  /** A PHP list of strings (`array_keys`, a literal `array( ... )`). */
  function ListValue(items: seq<string>): (v: Value)
    ensures v.Arr? && |v.entries| == |items|
    ensures forall i :: 0 <= i < |items| ==> v.entries[i] == (NatStr(i), Str(items[i]))
  {
    Arr(seq(|items|, i requires 0 <= i < |items| => (NatStr(i), Str(items[i]))))
  }

  /**
   * The sections `get_fields` builds before its filter runs. `roles` is `get_roles()`,
   * role slug to label. The connector default is the callable
   * `array( 'WP_Stream_Settings', 'get_default_connectors' )`.
   */
  function BuiltinSections(roles: OMap<string>): (s: OMap<Section>)
    ensures Keys(s) == ["general", "connectors"]
  {
    [("general", Section("General", GeneralFields(roles))),
     ("connectors", Section("Connectors", ConnectorFields()))]
  }

  /** The fields of the `general` section. */
  function GeneralFields(roles: OMap<string>): (fs: seq<Field>)
    ensures |fs| == 5
  {
    [Field("log_activity_for", "Log Activity for", Some(ListValue(Keys(roles)))),
     Field("role_access", "Role Access", Some(ListValue(["administrator"]))),
     Field("private_feeds", "Private Feeds", Some(Int(0))),
     Field("records_ttl", "Keep Records for", Some(Int(90))),
     Field("delete_all_records", "Reset Stream Database", Some(Int(0)))]
  }

  /** The fields of the `connectors` section. */
  function ConnectorFields(): (fs: seq<Field>)
    ensures |fs| == 1
  {
    [Field("active_connectors", "Active Connectors", Some(ListValue(["WP_Stream_Settings", "get_default_connectors"])))]
  }

  // ---------------------------------------------------------------------------------
  // Flattening the sections

  /** The assignments `$out[ section_field ] = value( $field )` of one section, in order. */
  function SectionEntries<V>(section: string, fields: seq<Field>, value: Field -> V): (es: OMap<V>)
    ensures |es| == |fields|
    ensures forall j :: 0 <= j < |fields| ==> es[j] == (FieldKey(section, fields[j]), value(fields[j]))
  {
    if fields == [] then []
    else SectionEntries(section, fields[..|fields| - 1], value)
         + [(FieldKey(section, fields[|fields| - 1]), value(fields[|fields| - 1]))]
  }

  /** The assignments of the nested loops over all sections, in order. */
  function Entries<V>(sections: OMap<Section>, value: Field -> V): OMap<V>
  {
    if sections == [] then []
    else Entries(sections[..|sections| - 1], value)
         + SectionEntries(sections[|sections| - 1].0, sections[|sections| - 1].1.fields, value)
  }

  /** Every assignment of the nested loops comes from one field of one section. */
  lemma {:induction false} EntriesFrom<V>(sections: OMap<Section>, value: Field -> V)
    ensures forall e :: e in Entries(sections, value) ==>
              exists i, j :: 0 <= i < |sections| && 0 <= j < |sections[i].1.fields|
                             && e == (FieldKey(sections[i].0, sections[i].1.fields[j]), value(sections[i].1.fields[j]))
  {
    if sections != [] {
      var init, n := sections[..|sections| - 1], |sections| - 1;
      EntriesFrom(init, value);
      forall e | e in Entries(sections, value)
        ensures exists i, j :: 0 <= i < |sections| && 0 <= j < |sections[i].1.fields|
                               && e == (FieldKey(sections[i].0, sections[i].1.fields[j]), value(sections[i].1.fields[j]))
      {
        if e in Entries(init, value) {
          var i, j :| 0 <= i < |init| && 0 <= j < |init[i].1.fields|
                      && e == (FieldKey(init[i].0, init[i].1.fields[j]), value(init[i].1.fields[j]));
          assert init[i] == sections[i];
        } else {
          var tail := SectionEntries(sections[n].0, sections[n].1.fields, value);
          assert e in tail;
          var j :| 0 <= j < |tail| && tail[j] == e;
          assert e == (FieldKey(sections[n].0, sections[n].1.fields[j]), value(sections[n].1.fields[j]));
        }
      }
    }
  }

  /** Every field of every section has its assignment. */
  lemma {:induction false} EntriesCover<V>(sections: OMap<Section>, value: Field -> V, i: nat, j: nat)
    requires i < |sections| && j < |sections[i].1.fields|
    ensures (FieldKey(sections[i].0, sections[i].1.fields[j]), value(sections[i].1.fields[j])) in Entries(sections, value)
  {
    var n := |sections| - 1;
    if i < n {
      EntriesCover(sections[..n], value, i, j);
      assert sections[..n][i] == sections[i];
    } else {
      var tail := SectionEntries(sections[n].0, sections[n].1.fields, value);
      assert tail[j] in tail;
    }
  }

  /**
   * The nested loops of `get_defaults` and `get_settings_translations`: for every field
   * of every section, in order, `$out[ $section_name . '_' . $field['name'] ] = value`.
   */
  method Flatten<V>(start: OMap<V>, sections: OMap<Section>, value: Field -> V) returns (out: OMap<V>)
    ensures out == PutAll(start, Entries(sections, value))
  {
    out := start;
    var i := 0;
    while i < |sections|
      invariant 0 <= i <= |sections|
      invariant out == PutAll(start, Entries(sections[..i], value))
    {
      var name, fields := sections[i].0, sections[i].1.fields;
      var j := 0;
      assert Entries(sections[..i], value) + SectionEntries(name, fields[..0], value) == Entries(sections[..i], value);
      while j < |fields|
        invariant 0 <= j <= |fields|
        invariant out == PutAll(start, Entries(sections[..i], value) + SectionEntries(name, fields[..j], value))
      {
        FieldStep(start, Entries(sections[..i], value), name, fields, j, value);
        out := Put(out, FieldKey(name, fields[j]), value(fields[j]));
        j := j + 1;
      }
      SectionStep(sections, i, value);
      i := i + 1;
    }
    assert sections[..i] == sections;
  }

  /** The inner loop's step: one more field of the section is assigned. */
  lemma FieldStep<V>(start: OMap<V>, pre: OMap<V>, name: string, fields: seq<Field>, j: nat, value: Field -> V)
    requires j < |fields|
    ensures PutAll(start, pre + SectionEntries(name, fields[..j + 1], value))
         == Put(PutAll(start, pre + SectionEntries(name, fields[..j], value)), FieldKey(name, fields[j]), value(fields[j]))
  {
    var e := (FieldKey(name, fields[j]), value(fields[j]));
    assert fields[..j + 1][..j] == fields[..j];
    assert SectionEntries(name, fields[..j + 1], value) == SectionEntries(name, fields[..j], value) + [e];
    assert pre + SectionEntries(name, fields[..j + 1], value) == (pre + SectionEntries(name, fields[..j], value)) + [e];
    PutAllSnoc(start, pre + SectionEntries(name, fields[..j], value), [e]);
  }

  /** The outer loop's step: the whole of section `i` has been assigned. */
  lemma SectionStep<V>(sections: OMap<Section>, i: nat, value: Field -> V)
    requires i < |sections|
    ensures Entries(sections[..i + 1], value)
         == Entries(sections[..i], value) + SectionEntries(sections[i].0, sections[i].1.fields[..|sections[i].1.fields|], value)
  {
    assert sections[..i + 1][..i] == sections[..i];
    assert sections[i].1.fields[..|sections[i].1.fields|] == sections[i].1.fields;
  }

  // ---------------------------------------------------------------------------------
  // get_defaults and load

  /** The table `get_defaults` returns for the given sections. */
  function Defaults(sections: OMap<Section>): OMap<Value>
  {
    PutAll([], Entries(sections, DefaultOf))
  }

  /** `get_defaults`, once `get_fields` has returned `sections`. */
  method GetDefaults(sections: OMap<Section>) returns (defaults: OMap<Value>)
    ensures defaults == Defaults(sections)
  {
    defaults := Flatten([], sections, DefaultOf);
  }

  /**
   * The defaults hold one key per field, `section_field`, and no other key; each key's
   * value is the default (or null) of a field with that key, the last such field when
   * two fields share a key.
   */
  lemma DefaultsSpec(sections: OMap<Section>)
    ensures Wf(Defaults(sections))
    ensures forall i, j :: 0 <= i < |sections| && 0 <= j < |sections[i].1.fields| ==>
              HasKey(Defaults(sections), FieldKey(sections[i].0, sections[i].1.fields[j]))
    ensures forall k :: Lookup(Defaults(sections), k).Some? ==>
              exists i, j :: 0 <= i < |sections| && 0 <= j < |sections[i].1.fields|
                             && k == FieldKey(sections[i].0, sections[i].1.fields[j])
                             && Lookup(Defaults(sections), k).value == DefaultOf(sections[i].1.fields[j])
  {
    var es := Entries(sections, DefaultOf);
    PutAllWf([], es);
    EntriesFrom(sections, DefaultOf);
    forall i, j | 0 <= i < |sections| && 0 <= j < |sections[i].1.fields|
      ensures HasKey(Defaults(sections), FieldKey(sections[i].0, sections[i].1.fields[j]))
    {
      var f := sections[i].1.fields[j];
      EntriesCover(sections, DefaultOf, i, j);
      var p :| 0 <= p < |es| && es[p] == (FieldKey(sections[i].0, f), DefaultOf(f));
      assert Keys(es)[p] == FieldKey(sections[i].0, f);
      PutAllKeys([], es, FieldKey(sections[i].0, f));
    }
    forall k | Lookup(Defaults(sections), k).Some?
      ensures exists i, j :: 0 <= i < |sections| && 0 <= j < |sections[i].1.fields|
                             && k == FieldKey(sections[i].0, sections[i].1.fields[j])
                             && Lookup(Defaults(sections), k).value == DefaultOf(sections[i].1.fields[j])
    {
      PutAllLookup([], es, k);
      LastValueIn(es, k);
    }
  }

  /** The defaults of the built-in fields, key by key. */
  lemma BuiltinDefaults(roles: OMap<string>)
    ensures Defaults(BuiltinSections(roles)) == GeneralDefaults(roles) + ConnectorDefaults()
  {
    var s := BuiltinSections(roles);
    assert s[..1][..0] == [] && s[..|s| - 1] == s[..1];
    var g := SectionEntries("general", GeneralFields(roles), DefaultOf);
    var c := SectionEntries("connectors", ConnectorFields(), DefaultOf);
    assert Entries(s[..1], DefaultOf) == g;
    assert Entries(s, DefaultOf) == g + c;
    GeneralEntries(roles);
    ConnectorEntries();
    assert Entries(s, DefaultOf) == GeneralDefaults(roles) + ConnectorDefaults();
    BuiltinKeysDistinct(roles);
    PutAllFresh(GeneralDefaults(roles) + ConnectorDefaults());
  }

  lemma BuiltinKeysDistinct(roles: OMap<string>)
    ensures Wf(GeneralDefaults(roles) + ConnectorDefaults())
  {
    var m := GeneralDefaults(roles) + ConnectorDefaults();
    var ks := ["general_log_activity_for", "general_role_access", "general_private_feeds",
               "general_records_ttl", "general_delete_all_records", "connectors_active_connectors"];
    assert forall i :: 0 <= i < 6 ==> m[i].0 == ks[i];
    assert |ks[0]| == 24 && |ks[1]| == 19 && |ks[2]| == 21 && |ks[3]| == 19 && |ks[4]| == 26 && |ks[5]| == 28;
    assert ks[1][9] != ks[3][9];
  }

  function GeneralDefaults(roles: OMap<string>): OMap<Value>
  {
    [("general_log_activity_for", ListValue(Keys(roles))),
     ("general_role_access", ListValue(["administrator"])),
     ("general_private_feeds", Int(0)),
     ("general_records_ttl", Int(90)),
     ("general_delete_all_records", Int(0))]
  }

  function ConnectorDefaults(): OMap<Value>
  {
    [("connectors_active_connectors", ListValue(["WP_Stream_Settings", "get_default_connectors"]))]
  }

  lemma GeneralEntries(roles: OMap<string>)
    ensures SectionEntries("general", GeneralFields(roles), DefaultOf) == GeneralDefaults(roles)
  {
    var fs := GeneralFields(roles);
    var se, gd := SectionEntries("general", fs, DefaultOf), GeneralDefaults(roles);
    GeneralKeys();
    GeneralTailKeys();
    assert se[0] == gd[0];
    assert se[1] == gd[1];
    assert se[2] == gd[2];
    assert se[3] == gd[3];
    assert se[4] == gd[4];
  }

  /** The flat keys of the general section's fields. */
  lemma GeneralKeys()
    ensures "general" + "_" + "log_activity_for" == "general_log_activity_for"
    ensures "general" + "_" + "role_access" == "general_role_access"
    ensures "general" + "_" + "private_feeds" == "general_private_feeds"
  {
  }

  lemma GeneralTailKeys()
    ensures "general" + "_" + "records_ttl" == "general_records_ttl"
    ensures "general" + "_" + "delete_all_records" == "general_delete_all_records"
  {
  }

  lemma ConnectorEntries()
    ensures SectionEntries("connectors", ConnectorFields(), DefaultOf) == ConnectorDefaults()
  {
    assert FieldKey("connectors", ConnectorFields()[0]) == "connectors_active_connectors";
  }

  /** `wp_parse_args( (array) $stored, $defaults )`: stored values over the defaults. */
  function Options(defaults: OMap<Value>, stored: Value): (o: OMap<Value>)
    ensures Wf(defaults) ==> Wf(o)
    ensures forall k :: Lookup(o, k) ==
              if HasKey(ArrayCast(stored), k) then Some(LastValue(ArrayCast(stored), k)) else Lookup(defaults, k)
  {
    var cast := ArrayCast(stored);
    assert Wf(defaults) ==> Wf(PutAll(defaults, cast)) by {
      if Wf(defaults) { PutAllWf(defaults, cast); }
    }
    assert forall k :: Lookup(PutAll(defaults, cast), k) ==
                       if HasKey(cast, k) then Some(LastValue(cast, k)) else Lookup(defaults, k) by {
      forall k ensures Lookup(PutAll(defaults, cast), k) ==
                       if HasKey(cast, k) then Some(LastValue(cast, k)) else Lookup(defaults, k) {
        PutAllLookup(defaults, cast, k);
      }
    }
    PutAll(defaults, cast)
  }

  /** When nothing is stored (`get_option` gives its default `array()`), the options are the defaults. */
  lemma NothingStored(defaults: OMap<Value>)
    ensures Options(defaults, Arr([])) == defaults
  {
  }

  /**
   * The static state of `WP_Stream_Settings`: the cached `$fields` and the loaded
   * `$options`. The filters `wp_stream_options_fields` and `wp_stream_options` are
   * parameters.
   */
  class SettingsState {
    var fields: OMap<Section>
    var options: OMap<Value>

    constructor ()
      ensures fields == [] && options == []
    {
      fields := [];
      options := [];
    }

    /**
     * `get_fields`: while the cache is empty, the built sections are passed through the
     * fields filter and cached; once it is filled, it is returned as it is.
     */
    method GetFields(roles: OMap<string>, fieldsFilter: OMap<Section> -> OMap<Section>)
      returns (r: OMap<Section>)
      modifies this`fields
      ensures old(fields) == [] ==> fields == fieldsFilter(BuiltinSections(roles))
      ensures old(fields) != [] ==> fields == old(fields)
      ensures r == fields
    {
      if fields == [] {
        fields := fieldsFilter(BuiltinSections(roles));
      }
      r := fields;
    }

    /** `load`: the options are the stored values over the defaults, then the options filter. */
    method Load(roles: OMap<string>, fieldsFilter: OMap<Section> -> OMap<Section>,
                optionsFilter: OMap<Value> -> OMap<Value>, stored: Value)
      modifies this
      ensures old(fields) == [] ==> fields == fieldsFilter(BuiltinSections(roles))
      ensures old(fields) != [] ==> fields == old(fields)
      ensures options == optionsFilter(Options(Defaults(fields), stored))
    {
      var sections := GetFields(roles, fieldsFilter);
      var defaults := GetDefaults(sections);
      options := optionsFilter(Options(defaults, stored));
    }
  }

  // ---------------------------------------------------------------------------------
  // Reactions to an update of the option

  /** The `general_private_feeds` value each side is compared by: 0 when the key is absent. */
  function PrivateFeeds(m: OMap<Value>): (v: Value)
    ensures !HasKey(m, "general_private_feeds") ==> v == Int(0)
    ensures HasKey(m, "general_private_feeds") ==> Lookup(m, "general_private_feeds") == Some(v)
  {
    match Lookup(m, "general_private_feeds")
    case Some(v) => v
    case None => Int(0)
  }

  /**
   * `updated_option_trigger_flush_rules`: whether `delete_option( 'rewrite_rules' )`
   * runs. It runs only between two arrays, never when the setting keeps its value, and
   * an absent key reads as an explicit 0.
   */
  predicate FlushesRewriteRules(oldValue: Value, newValue: Value)
    ensures FlushesRewriteRules(oldValue, newValue) ==> oldValue.Arr? && newValue.Arr?
    ensures oldValue == newValue ==> !FlushesRewriteRules(oldValue, newValue)
    ensures (oldValue.Arr? && newValue.Arr? && Lookup(newValue.entries, "general_private_feeds") == Some(Int(0))
             && !HasKey(oldValue.entries, "general_private_feeds")) ==> !FlushesRewriteRules(oldValue, newValue)
  {
    oldValue.Arr? && newValue.Arr? && PrivateFeeds(newValue.entries) != PrivateFeeds(oldValue.entries)
  }

  /**
   * The flush does not depend on which value is the old one, and the comparison is
   * strict: the integer 0 and the string "0" differ.
   */
  lemma FlushSpec(oldValue: Value, newValue: Value)
    ensures FlushesRewriteRules(oldValue, newValue) == FlushesRewriteRules(newValue, oldValue)
    ensures FlushesRewriteRules(Arr([("general_private_feeds", Int(0))]), Arr([("general_private_feeds", Str("0"))]))
  {
    var a, b := [("general_private_feeds", Int(0))], [("general_private_feeds", Str("0"))];
    assert Keys(a) == ["general_private_feeds"] && Keys(b) == ["general_private_feeds"];
  }

  /** `(int) $v['general_records_ttl']` when it is set, -1 otherwise. */
  function TtlOf(v: Value): int
  {
    if v.Arr? then
      match Lookup(v.entries, "general_records_ttl")
      case Some(t) => if t.Null? then -1 else IntCast(t)
      case None => -1
    else -1
  }

  /**
   * `updated_option_ttl_remove_records`: whether `wp_stream_auto_purge` fires. It never
   * fires for an unchanged option, nor when a TTL is set where there was no option.
   */
  predicate PurgesRecords(oldValue: Value, newValue: Value)
    ensures oldValue == newValue ==> !PurgesRecords(oldValue, newValue)
    ensures !oldValue.Arr? && TtlOf(newValue) >= -1 ==> !PurgesRecords(oldValue, newValue)
  {
    TtlOf(newValue) < TtlOf(oldValue)
  }

  /** The purge never fires in both directions, and shortening in two steps shortens overall. */
  lemma PurgeSpec(a: Value, b: Value, c: Value)
    ensures PurgesRecords(a, b) ==> !PurgesRecords(b, a)
    ensures PurgesRecords(a, b) && PurgesRecords(b, c) ==> PurgesRecords(a, c)
  {
  }

  /** Blanking the field (keep records forever) reads as TTL 0, so it fires the purge. */
  lemma BlankTtlPurges()
    ensures PurgesRecords(Arr([("general_records_ttl", Int(90))]), Arr([("general_records_ttl", Str(""))]))
  {
    var a, b := [("general_records_ttl", Int(90))], [("general_records_ttl", Str(""))];
    assert Keys(a) == ["general_records_ttl"] && Keys(b) == ["general_records_ttl"];
    assert LeadingDigits("") == "";
  }

  // ---------------------------------------------------------------------------------
  // get_roles_for_select2 and get_settings_translations

  /** One entry of the role picker: `id`, `text` and `locked`. */
  datatype RoleChoice = RoleChoice(id: string, text: string, locked: bool)

  /** The default of the `$locked` parameter. */
  const DefaultLocked: seq<string> := ["administrator"]

  /** `get_roles_for_select2`: one entry per role, in role order. */
  method GetRolesForSelect2(roles: OMap<string>, locked: seq<string>) returns (data: seq<RoleChoice>)
    ensures |data| == |roles|
    ensures forall i :: 0 <= i < |roles| ==> data[i] == RoleChoice(roles[i].0, roles[i].1, roles[i].0 in locked)
  {
    data := [];
    for i := 0 to |roles|
      invariant |data| == i
      invariant forall j :: 0 <= j < i ==> data[j] == RoleChoice(roles[j].0, roles[j].1, roles[j].0 in locked)
    {
      data := data + [RoleChoice(roles[i].0, roles[i].1, roles[i].0 in locked)];
    }
  }

  /** The title of a field as a label value. */
  function TitleOf(f: Field): Value
  {
    Str(f.title)
  }

  /** What `$labels['wp_stream']` starts from: itself when it is an array, `array()` when it is not set. */
  function LabelsStart(labels: OMap<Value>): Option<OMap<Value>>
  {
    match Lookup(labels, Key)
    case None => Some([])
    case Some(v) =>
      if v.Null? || v == Bool(false) then Some([])
      else if v.Arr? then Some(v.entries)
      else None
  }

  /**
   * `get_settings_translations`: `$labels['wp_stream']` gains every `section_field`
   * mapped to its title; a scalar already stored there cannot be written as an array.
   */
  method GetSettingsTranslations(labels: OMap<Value>, sections: OMap<Section>) returns (r: Result<OMap<Value>>)
    ensures LabelsStart(labels).None? <==> r.Fatal?
    ensures r.Ok? ==> r.value == Put(labels, Key, Arr(PutAll(LabelsStart(labels).value, Entries(sections, TitleOf))))
  {
    var start := LabelsStart(labels);
    if start.None? {
      return Fatal("Cannot use a scalar value as an array");
    }
    var inner := Flatten(start.value, sections, TitleOf);
    r := Ok(Put(labels, Key, Arr(inner)));
  }

  /**
   * The translated labels keep every other key as it was, keep every other setting
   * label already present, and label each field key with the title of a field that
   * has that key.
   */
  lemma TranslationsSpec(labels: OMap<Value>, sections: OMap<Section>, k: string, sk: string)
    requires LabelsStart(labels).Some?
    ensures var out := Put(labels, Key, Arr(PutAll(LabelsStart(labels).value, Entries(sections, TitleOf))));
            k != Key ==> Lookup(out, k) == Lookup(labels, k)
    ensures var inner := PutAll(LabelsStart(labels).value, Entries(sections, TitleOf));
            !HasKey(Entries(sections, TitleOf), sk) ==> Lookup(inner, sk) == Lookup(LabelsStart(labels).value, sk)
    ensures var inner := PutAll(LabelsStart(labels).value, Entries(sections, TitleOf));
            HasKey(Entries(sections, TitleOf), sk) ==>
              exists i, j :: 0 <= i < |sections| && 0 <= j < |sections[i].1.fields|
                             && sk == FieldKey(sections[i].0, sections[i].1.fields[j])
                             && Lookup(inner, sk) == Some(Str(sections[i].1.fields[j].title))
  {
    var es := Entries(sections, TitleOf);
    var inner := PutAll(LabelsStart(labels).value, es);
    PutLookup(labels, Key, Arr(inner), k);
    PutAllLookup(LabelsStart(labels).value, es, sk);
    if HasKey(es, sk) {
      LastValueIn(es, sk);
      EntriesFrom(sections, TitleOf);
    }
  }
}
